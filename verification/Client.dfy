/** The browser client: request ids, the table of pending requests and the channel handles it holds. */
module ClientModel {
  import opened Wrappers
  import opened Protocol

  const MAX_REQ_ID := 65535

  /** What a request was for; the pending table's callbacks close over it. */
  datatype Request =
    | Join(name: string, metadata: string)
    | Create(name: string, metadata: string)
    | Leave(channelId: nat)

  /** A channel handle; `metadata` is what the caller asked for. */
  datatype Handle = Handle(channelId: nat, name: string, metadata: string, limits: Option<Limits>)

  /**
   * `aborted` holds the joins whose promise was rejected and whose fallback to create has not run yet;
   * `issued` is the history of all requests ever started, in order.
   */
  datatype Client = Client(
    open: bool,
    session: Option<Tag>,
    nextReqId: nat,
    pending: map<nat, Request>,
    channels: map<nat, Handle>,
    aborted: map<nat, Request>,
    issued: seq<Request>)

  const FRESH_CLIENT := Client(false, None, 1, map[], map[], map[], [])

  function Following(r: nat): nat {
    if r + 1 > MAX_REQ_ID then 1 else r + 1
  }

  function MessageFor(req: Request, rid: nat): Message {
    match req
    case Join(name, metadata) => JoinRequest(rid, name, metadata)
    case Create(name, metadata) => CreateRequest(rid, name, metadata, Limits(0, 0))
    case Leave(channelId) => LeaveRequest(rid, channelId)
  }

  /** `sendPdu`: nothing leaves a closed socket. */
  function Sent(c: Client, now: nat, m: Message): seq<Pdu> {
    if c.open then [Pdu(PROTOCOL_VERSION, now, c.session, m)] else []
  }

  /** Takes the next request id, remembers the request under it and sends it. */
  function Start(c: Client, req: Request, now: nat): (Client, seq<Pdu>) {
    (c.(nextReqId := Following(c.nextReqId), pending := c.pending[c.nextReqId := req], issued := c.issued + [req]),
     Sent(c, now, MessageFor(req, c.nextReqId)))
  }

  /** The promise of pending request `rid` is rejected: a join will fall back to create. */
  function Rejected(c: Client, rid: nat): Client
    requires rid in c.pending
  {
    var req := c.pending[rid];
    c.(pending := c.pending - {rid}, aborted := if req.Join? then c.aborted[rid := req] else c.aborted)
  }

  /** The fallback of an aborted join. */
  function Resume(c: Client, rid: nat, now: nat): (Client, seq<Pdu>)
    requires rid in c.aborted && c.aborted[rid].Join?
  {
    Start(c.(aborted := c.aborted - {rid}), Create(c.aborted[rid].name, c.aborted[rid].metadata), now)
  }

  /** The promise of `rid` is resolved with a channel. */
  function Granted(c: Client, rid: nat, channelId: nat, limits: Option<Limits>): Client
    requires rid in c.pending
  {
    var req := c.pending[rid];
    var c' := c.(pending := c.pending - {rid});
    match req
    case Leave(left) => c'.(channels := c'.channels - {left})
    case _ => c'.(channels := c'.channels[channelId := Handle(channelId, req.name, req.metadata, limits)])
  }

  /** A create or join response; `kind` of the pending request is not looked at. */
  function OnResponse(c: Client, rid: nat, code: Status, channelId: nat, limits: Option<Limits>): Client {
    if rid !in c.pending then c
    else if code != OK then Rejected(c, rid)
    else Granted(c, rid, channelId, limits)
  }

  /** A leave response carries no channel: a join or create it hits fails when it builds its handle. */
  function OnLeaveResponse(c: Client, rid: nat): Client {
    if rid !in c.pending then c
    else if c.pending[rid].Leave? then Granted(c, rid, 0, None)
    else Rejected(c, rid)
  }

  function PendingJoins(pending: map<nat, Request>, among: set<nat>): map<nat, Request> {
    map r | r in pending && r in among && pending[r].Join? :: pending[r]
  }

  /** The socket closes: every pending promise is rejected, handles and session are dropped. */
  function Teardown(c: Client): Client {
    c.(open := false, session := None, pending := map[], channels := map[],
       aborted := c.aborted + PendingJoins(c.pending, c.pending.Keys))
  }

  /** The user's name and the function that signs a challenge with the user's password. */
  datatype Credentials = Credentials(username: string, sign: seq<byte> -> seq<byte>)

  function OnIdentityRequest(who: Credentials, c: Client, m: Message, now: nat): (Client, seq<Pdu>)
    requires m.IdentityRequest?
  {
    if m.reason == CHALLENGE_FAILURE then (Teardown(c), [])
    else if who.username == "" then (c, [])
    else
      var reply := IdentityResponse(m.reqId, who.username, who.sign(m.challenge), m.newSession);
      var c' := c.(session := Some(m.newSession));
      (c', Sent(c, now, reply) + Sent(c', now, Heartbeat))
  }

  function OnPdu(who: Credentials, c: Client, m: Message, now: nat): (Client, seq<Pdu>) {
    match m
    case IdentityRequest(_, _, _, _) => OnIdentityRequest(who, c, m, now)
    case CreateResponse(rid, channelId, code) => (OnResponse(c, rid, code, channelId, None), [])
    case JoinResponse(rid, channelId, code, limits) => (OnResponse(c, rid, code, channelId, limits), [])
    case LeaveResponse(rid) => (OnLeaveResponse(c, rid), [])
    case _ => (c, [])
  }

  /** Everything that can happen to a client. */
  datatype ClientEvent =
    | Connect
    | Disconnect
    | AskFor(name: string, metadata: string)
    | FallBack(rid: nat)
    | GiveUp(rid: nat)
    | LeaveChannel(channelId: nat)
    | Say(m: Message)
    | Hear(m: Message)

  predicate Possible(c: Client, e: ClientEvent) {
    match e
    case FallBack(rid) => rid in c.aborted && c.aborted[rid].Join?
    case GiveUp(rid) => rid in c.pending
    case Say(m) => m.Heartbeat? || m.StreamData?
    case _ => true
  }

  function Act(who: Credentials, c: Client, e: ClientEvent, now: nat): (Client, seq<Pdu>)
    requires Possible(c, e)
  {
    match e
    case Connect =>
      var c' := Teardown(c).(open := true);
      (c', Sent(c', now, Heartbeat))
    case Disconnect => (Teardown(c), [])
    case AskFor(name, metadata) => Start(c, Join(name, metadata), now)
    case FallBack(rid) => Resume(c, rid, now)
    case GiveUp(rid) => (Rejected(c, rid), [])
    case LeaveChannel(channelId) => Start(c, Leave(channelId), now)
    case Say(m) => (c, Sent(c, now, m))
    case Hear(m) => OnPdu(who, c, m, now)
  }
}

/** The client object, with the fields and the update order of the source. */
module RtmsClients {
  import opened Wrappers
  import opened Protocol
  import opened ClientModel

  lemma OneMoreJoin(aborted: map<nat, Request>, pending: map<nat, Request>, done: set<nat>, r: nat)
    requires r in pending && r !in done
    ensures aborted + PendingJoins(pending, done + {r})
         == if pending[r].Join? then (aborted + PendingJoins(pending, done))[r := pending[r]]
            else aborted + PendingJoins(pending, done)
  {
  }

  lemma NoJoinsYet(aborted: map<nat, Request>, pending: map<nat, Request>)
    ensures aborted + PendingJoins(pending, {}) == aborted
  {
  }

  class RtmsClient {
    const who: Credentials
    var open: bool
    var session: Option<Tag>
    var nextReqId: nat
    var pending: map<nat, Request>
    var channels: map<nat, Handle>
    var aborted: map<nat, Request>
    ghost var issued: seq<Request>
    /** What was handed to the socket so far. */
    var wire: seq<Pdu>

    constructor (who: Credentials)
      ensures this.who == who && View() == FRESH_CLIENT && wire == []
    {
      this.who := who;
      open, session, nextReqId := false, None, 1;
      pending, channels, aborted, issued, wire := map[], map[], map[], [], [];
    }

    ghost function View(): Client
      reads this
    {
      Client(open, session, nextReqId, pending, channels, aborted, issued)
    }

    method NextReq() returns (r: nat)
      modifies this`nextReqId
      ensures r == old(nextReqId) && nextReqId == Following(r)
    {
      r := nextReqId;
      nextReqId := nextReqId + 1;
      if nextReqId > MAX_REQ_ID {
        nextReqId := 1;
      }
    }

    method SendPdu(m: Message, now: nat)
      modifies this`wire
      ensures wire == old(wire) + Sent(View(), now, m)
    {
      if open {
        wire := wire + [Pdu(PROTOCOL_VERSION, now, session, m)];
      }
    }

    method StartRequest(req: Request, now: nat)
      modifies this
      ensures (View(), wire) == (Start(old(View()), req, now).0, old(wire) + Start(old(View()), req, now).1)
    {
      var rid := NextReq();
      pending := pending[rid := req];
      issued := issued + [req];
      SendPdu(MessageFor(req, rid), now);
    }

    /** `pr.reject`: the entry is already out of the table. */
    method Reject(rid: nat)
      requires rid in pending
      modifies this
      ensures View() == Rejected(old(View()), rid) && wire == old(wire)
    {
      var req := pending[rid];
      pending := pending - {rid};
      if req.Join? {
        aborted := aborted[rid := req];
      }
    }

    method FallBackToCreate(rid: nat, now: nat)
      requires rid in aborted && aborted[rid].Join?
      modifies this
      ensures (View(), wire) == (Resume(old(View()), rid, now).0, old(wire) + Resume(old(View()), rid, now).1)
    {
      var req := aborted[rid];
      aborted := aborted - {rid};
      StartRequest(Create(req.name, req.metadata), now);
    }

    method TeardownSession()
      modifies this
      ensures View() == Teardown(old(View())) && wire == old(wire)
    {
      RejectAll();
      pending, channels := map[], map[];
      session, open := None, false;
    }

    /** Every pending promise is rejected; the table is cleared by the caller. */
    method RejectAll()
      modifies this`aborted
      ensures aborted == old(aborted) + PendingJoins(pending, pending.Keys)
    {
      hide PendingJoins;
      var todo := pending.Keys;
      ghost var done: set<nat> := {};
      NoJoinsYet(aborted, pending);
      while todo != {}
        invariant done == pending.Keys - todo && todo <= pending.Keys
        invariant aborted == old(aborted) + PendingJoins(pending, done)
        decreases |todo|
      {
        var r :| r in todo;
        OneMoreJoin(old(aborted), pending, done, r);
        todo := todo - {r};
        done := done + {r};
        if pending[r].Join? {
          aborted := aborted[r := pending[r]];
        }
      }
      assert done == pending.Keys;
    }

    /** A new connection: the old one is torn down, and the opened socket starts with a heartbeat. */
    method ConnectSocket(now: nat)
      modifies this
      ensures View() == Act(who, old(View()), Connect, now).0
      ensures wire == old(wire) + Act(who, old(View()), Connect, now).1
    {
      TeardownSession();
      open := true;
      SendPdu(Heartbeat, now);
    }

    method OnRawBinary(m: Message, now: nat)
      modifies this
      ensures (View(), wire) == (OnPdu(who, old(View()), m, now).0, old(wire) + OnPdu(who, old(View()), m, now).1)
    {
      assert wire + [] == wire;
      match m
      case IdentityRequest(reqId, reason, challenge, newSession) =>
        if reason == CHALLENGE_FAILURE {
          TeardownSession();
        } else if who.username != "" {
          ghost var c := View();
          SendPdu(IdentityResponse(reqId, who.username, who.sign(challenge), newSession), now);
          session := Some(newSession);
          SendPdu(Heartbeat, now);
          ghost var reply := IdentityResponse(reqId, who.username, who.sign(challenge), newSession);
          assert old(wire) + Sent(c, now, reply) + Sent(View(), now, Heartbeat)
              == old(wire) + (Sent(c, now, reply) + Sent(View(), now, Heartbeat));
        }
      case CreateResponse(rid, channelId, code) => Settle(rid, code, channelId, None);
      case JoinResponse(rid, channelId, code, limits) => Settle(rid, code, channelId, limits);
      case LeaveResponse(rid) =>
        if rid in pending {
          if pending[rid].Leave? {
            Resolve(rid, 0, None);
          } else {
            Reject(rid);
          }
        }
      case _ =>
    }

    method Settle(rid: nat, code: Status, channelId: nat, limits: Option<Limits>)
      modifies this
      ensures View() == OnResponse(old(View()), rid, code, channelId, limits) && wire == old(wire)
    {
      if rid in pending {
        if code != OK {
          Reject(rid);
        } else {
          Resolve(rid, channelId, limits);
        }
      }
    }

    method Resolve(rid: nat, channelId: nat, limits: Option<Limits>)
      requires rid in pending
      modifies this
      ensures View() == Granted(old(View()), rid, channelId, limits) && wire == old(wire)
    {
      var req := pending[rid];
      pending := pending - {rid};
      match req
      case Leave(left) => channels := channels - {left};
      case _ => channels := channels[channelId := Handle(channelId, req.name, req.metadata, limits)];
    }
  }
}
