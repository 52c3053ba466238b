/** What a client has in hand when the network delivers: joining or creating, leaving, and losing the connection. */
module Deliveries {
  import opened Wrappers
  import opened Protocol
  import opened SwitchModel
  import opened SwitchInvariant
  import opened SwitchRelay
  import opened SwitchAnswers
  import SwitchHistory
  import SwitchLogin
  import SwitchOwners
  import opened Network
  import opened RequestIds
  import C = ClientModel

  // ---- Explicit runs ----------------------------------------------------------------------------------------------

  predicate RunsTo(cfg: Config, who: map<Transport, C.Credentials>, y: System, run: seq<Action>, y': System) {
    && y.clients.Keys <= who.Keys && y'.clients.Keys <= who.Keys
    && CanRun(cfg, who, y, run) && RunFrom(cfg, who, y, run) == y'
  }

  lemma ThreeActions(cfg: Config, who: map<Transport, C.Credentials>, y: System, a1: Action, y1: System, a2: Action,
                     y2: System, a3: Action, y3: System)
    requires y.clients.Keys <= who.Keys && Enabled(cfg, y, a1) && y1 == Next(cfg, who, y, a1)
    requires y1.clients.Keys <= who.Keys && Enabled(cfg, y1, a2) && y2 == Next(cfg, who, y1, a2)
    requires y2.clients.Keys <= who.Keys && Enabled(cfg, y2, a3) && y3 == Next(cfg, who, y2, a3)
    ensures RunsTo(cfg, who, y, [a1, a2, a3], y3)
  {
    hide Enabled, Next;
    SameClients(cfg, who, y2, a3);
    ThreeSteps(cfg, who, y, a1, a2, a3);
  }

  lemma {:induction false} RunsJoin(cfg: Config, who: map<Transport, C.Credentials>, y: System, run: seq<Action>,
                                    y': System, more: seq<Action>, y'': System)
    requires RunsTo(cfg, who, y, run, y') && RunsTo(cfg, who, y', more, y'')
    ensures RunsTo(cfg, who, y, run + more, y'')
    decreases |run|
  {
    hide Enabled, Next;
    if run == [] {
      assert run + more == more;
    } else {
      SameClients(cfg, who, y, run[0]);
      assert (run + more)[1..] == run[1..] + more;
      RunsJoin(cfg, who, Next(cfg, who, y, run[0]), run[1..], y', more, y'');
    }
  }

  /** What the client does and sends is what `C.Act` says, and nothing else changes. */
  lemma ClientMoves(cfg: Config, who: map<Transport, C.Credentials>, y: System, t: Transport, e: C.ClientEvent,
                    now: nat)
    requires y.clients.Keys <= who.Keys && Enabled(cfg, y, ClientActs(t, e, now))
    ensures var y' := Next(cfg, who, y, ClientActs(t, e, now));
      && t in y'.clients && y'.clients[t] == C.Act(who[t], y.clients[t], e, now).0
      && (forall p | p in C.Act(who[t], y.clients[t], e, now).1 :: (t, p) in y'.upward)
      && y'.switch == y.switch && y'.downward == y.downward && y.upward <= y'.upward
  {
    hide C.Act;
  }

  /** A request of this session, or without one from this transport, has a speaker. */
  predicate Known(s: State, t: Transport, session: Option<Tag>) {
    if session.Some? then session.value in s.sessions else SwitchOwners.OwnerOf(s, t).Some?
  }

  /** Whom a request speaks for. */
  function Requester(s: State, t: Transport, session: Option<Tag>): Tag
    requires Known(s, t, session)
  {
    if session.Some? then session.value else SwitchOwners.OwnerOf(s, t).value
  }

  lemma KnownStays(cfg: Config, s: State, e: Event)
    requires Inv(cfg, s) && e.Receive? && !e.pdu.message.IdentityResponse? && Known(s, e.from, e.pdu.session)
    ensures Known(Step(cfg, s, e).0, e.from, e.pdu.session)
    ensures Requester(Step(cfg, s, e).0, e.from, e.pdu.session) == Requester(s, e.from, e.pdu.session)
    ensures SpeakerOf(s, e) == Some(Requester(s, e.from, e.pdu.session))
  {
    hide Step, Inv;
    if e.pdu.session.Some? {
      SwitchHistory.TagStays(cfg, s, e, e.pdu.session.value);
    } else {
      SwitchOwners.OwnerStep(cfg, s, e, e.from);
    }
  }

  // ---- Joining or creating -----------------------------------------------------------------------------------------

  lemma AskIsRefused(who: C.Credentials, c: C.Client, name: string, metadata: string, now: nat)
    requires c.open
    ensures var (r, req) := (c.nextReqId, C.Join(name, metadata));
      var (c1, sent) := C.Act(who, c, C.AskFor(name, metadata), now);
      && sent == [Says(now, c.session, JoinRequest(r, name, metadata))]
      && var c2 := C.Act(who, c1, C.Hear(JoinResponse(r, 0, NOT_FOUND, None)), now).0;
      && c2.open && c2.session == c.session && c2.nextReqId == C.Following(r)
      && r in c2.aborted && c2.aborted[r] == req
  {
  }

  lemma FallBackIsGranted(who: C.Credentials, c: C.Client, rid: nat, cid: nat, now: nat)
    requires c.open && rid in c.aborted && c.aborted[rid].Join?
    ensures C.Possible(c, C.FallBack(rid))
    ensures var (r, req) := (c.nextReqId, c.aborted[rid]);
      var (c1, sent) := C.Act(who, c, C.FallBack(rid), now);
      && sent == [Says(now, c.session, CreateRequest(r, req.name, req.metadata, Limits(0, 0)))]
      && var c2 := C.Act(who, c1, C.Hear(CreateResponse(r, cid, OK)), now).0;
      cid in c2.channels && c2.channels[cid] == C.Handle(cid, req.name, req.metadata, None)
  {
  }

  /** Asking for a free name, with both datagrams delivered. */
  function Refusal(t: Transport, c: C.Client, name: string, metadata: string, now: nat, nonce: Nonce): seq<Action> {
    [ClientActs(t, C.AskFor(name, metadata), now),
     SwitchHears(t, Says(now, c.session, JoinRequest(c.nextReqId, name, metadata)), now, nonce),
     ClientActs(t, C.Hear(JoinResponse(c.nextReqId, 0, NOT_FOUND, None)), now)]
  }

  /** Creating it instead, as request `r`, with both datagrams delivered; the answer names channel `cid`. */
  function Creation(t: Transport, c: C.Client, name: string, metadata: string, r: nat, cid: nat, now: nat, nonce: Nonce)
    : seq<Action>
  {
    [ClientActs(t, C.FallBack(c.nextReqId), now),
     SwitchHears(t, Says(now, c.session, CreateRequest(r, name, metadata, Limits(0, 0))), now, nonce),
     ClientActs(t, C.Hear(CreateResponse(r, cid, OK)), now)]
  }

  lemma IsRefused(cfg: Config, who: map<Transport, C.Credentials>, y: System, t: Transport,
                  name: string, metadata: string, now: nat, nonce: Nonce) returns (y': System)
    requires Inv(cfg, y.switch) && y.clients.Keys <= who.Keys && t in y.clients && y.clients[t].open
    requires GoodNonce(cfg, nonce) && Known(y.switch, t, y.clients[t].session) && name !in y.switch.names
    ensures RunsTo(cfg, who, y, Refusal(t, y.clients[t], name, metadata, now, nonce), y')
    ensures Inv(cfg, y'.switch) && Known(y'.switch, t, y.clients[t].session)
    ensures Requester(y'.switch, t, y.clients[t].session) == Requester(y.switch, t, y.clients[t].session)
    ensures (y'.switch.names, y'.switch.nextChannelId) == (y.switch.names, y.switch.nextChannelId)
    ensures y'.switch.channels == y.switch.channels && t in y'.clients
    ensures var (c, c') := (y.clients[t], y'.clients[t]);
      && c'.open && c'.session == c.session && c'.nextReqId == C.Following(c.nextReqId)
      && c.nextReqId in c'.aborted && c'.aborted[c.nextReqId] == C.Join(name, metadata)
  {
    hide Step, C.Act, Inv, RunsTo, Known, Next, CanRun, RunFrom;
    var c := y.clients[t];
    var join := Says(now, c.session, JoinRequest(c.nextReqId, name, metadata));
    var no := JoinResponse(c.nextReqId, 0, NOT_FOUND, None);
    AskIsRefused(who[t], c, name, metadata, now);
    var a1 := ClientActs(t, C.AskFor(name, metadata), now);
    var y1 := Next(cfg, who, y, a1);
    ClientMoves(cfg, who, y, t, C.AskFor(name, metadata), now);
    SameClients(cfg, who, y, a1);

    var e := Receive(t, join, now, nonce);
    KnownStays(cfg, y.switch, e);
    JoinAnswered(cfg, y.switch, e);
    SwitchStaysSound(cfg, y.switch, e);
    JoinKeepsCounter(cfg, y.switch, e);
    var a2 := SwitchHears(t, join, now, nonce);
    EventHeard(cfg, who, y1, t, join, now, nonce, no);
    var y2 := Next(cfg, who, y1, a2);
    SameClients(cfg, who, y1, a2);

    var a3 := ClientActs(t, C.Hear(no), now);
    ClientMoves(cfg, who, y2, t, C.Hear(no), now);
    y' := Next(cfg, who, y2, a3);
    ThreeActions(cfg, who, y, a1, y1, a2, y2, a3, y');
  }

  lemma IsCreated(cfg: Config, who: map<Transport, C.Credentials>, y: System, t: Transport, r: nat,
                  name: string, metadata: string, now: nat, nonce: Nonce) returns (y': System)
    requires Inv(cfg, y.switch) && y.clients.Keys <= who.Keys && t in y.clients && y.clients[t].open
    requires GoodNonce(cfg, nonce) && Known(y.switch, t, y.clients[t].session) && name !in y.switch.names
    requires r in y.clients[t].aborted && y.clients[t].aborted[r] == C.Join(name, metadata)
    ensures var (c, cid) := (y.clients[t], y.switch.nextChannelId);
      && RunsTo(cfg, who, y, Creation(t, c.(nextReqId := r), name, metadata, c.nextReqId, cid, now, nonce), y')
      && t in y'.clients && cid in y'.clients[t].channels
      && y'.clients[t].channels[cid] == C.Handle(cid, name, metadata, None)
      && cid !in y.switch.channels && HasChannel(y'.switch, cid, name, metadata)
      && y'.switch.channels[cid].members == {Requester(y.switch, t, c.session)}
  {
    hide Step, C.Act, Inv, RunsTo, Next, CanRun, RunFrom, Tightest;
    var (c, cid) := (y.clients[t], y.switch.nextChannelId);
    var create := Says(now, c.session, CreateRequest(c.nextReqId, name, metadata, Limits(0, 0)));
    var yes := CreateResponse(c.nextReqId, cid, OK);
    FallBackIsGranted(who[t], c, r, cid, now);
    var a1 := ClientActs(t, C.FallBack(r), now);
    var y1 := Next(cfg, who, y, a1);
    ClientMoves(cfg, who, y, t, C.FallBack(r), now);
    SameClients(cfg, who, y, a1);

    var e := Receive(t, create, now, nonce);
    KnownStays(cfg, y.switch, e);
    CreateAnswered(cfg, y.switch, e);
    var a2 := SwitchHears(t, create, now, nonce);
    EventHeard(cfg, who, y1, t, create, now, nonce, yes);
    var y2 := Next(cfg, who, y1, a2);
    SameClients(cfg, who, y1, a2);

    var a3 := ClientActs(t, C.Hear(yes), now);
    ClientMoves(cfg, who, y2, t, C.Hear(yes), now);
    y' := Next(cfg, who, y2, a3);
    ThreeActions(cfg, who, y, a1, y1, a2, y2, a3, y');
  }

  /**
   * Asking for a channel whose name is free, with every datagram delivered: the join is refused, the client falls back
   * to a create, and ends with a handle of the new channel, which has that name and metadata and the client's session
   * as its only member.
   */
  lemma DeliveredCreateIsGranted(cfg: Config, who: map<Transport, C.Credentials>, y: System, t: Transport,
                                 name: string, metadata: string, now: nat, nonce: Nonce)
    requires Inv(cfg, y.switch) && y.clients.Keys <= who.Keys && t in y.clients && y.clients[t].open
    requires GoodNonce(cfg, nonce) && Known(y.switch, t, y.clients[t].session) && name !in y.switch.names
    ensures var (c, cid) := (y.clients[t], y.switch.nextChannelId);
      var run := Refusal(t, c, name, metadata, now, nonce)
                 + Creation(t, c, name, metadata, C.Following(c.nextReqId), cid, now, nonce);
      && CanRun(cfg, who, y, run)
      && var end := RunFrom(cfg, who, y, run);
      && t in end.clients && cid in end.clients[t].channels
      && end.clients[t].channels[cid] == C.Handle(cid, name, metadata, None)
      && cid !in y.switch.channels && HasChannel(end.switch, cid, name, metadata)
      && end.switch.channels[cid].members == {Requester(y.switch, t, c.session)}
  {
    hide Inv, RunsTo, CanRun, RunFrom, Known, Requester, Refusal;
    var (c, cid) := (y.clients[t], y.switch.nextChannelId);
    var y1 := IsRefused(cfg, who, y, t, name, metadata, now, nonce);
    RunsToMeans(cfg, who, y, Refusal(t, c, name, metadata, now, nonce), y1);
    var y2 := IsCreated(cfg, who, y1, t, c.nextReqId, name, metadata, now, nonce);
    var creation := Creation(t, c, name, metadata, C.Following(c.nextReqId), cid, now, nonce);
    RunsJoin(cfg, who, y, Refusal(t, c, name, metadata, now, nonce), y1, creation, y2);
    RunsToMeans(cfg, who, y, Refusal(t, c, name, metadata, now, nonce) + creation, y2);
  }

  lemma RunsToMeans(cfg: Config, who: map<Transport, C.Credentials>, y: System, run: seq<Action>, y': System)
    requires RunsTo(cfg, who, y, run, y')
    ensures y.clients.Keys <= who.Keys && y'.clients.Keys <= who.Keys
    ensures CanRun(cfg, who, y, run) && RunFrom(cfg, who, y, run) == y'
  {
  }

  lemma JoinKeepsCounter(cfg: Config, s: State, e: Event)
    requires Inv(cfg, s) && e.Receive? && e.pdu.message.JoinRequest? && SpeakerOf(s, e).Some?
    ensures Step(cfg, s, e).0.nextChannelId == s.nextChannelId
  {
    hide Inv, Step, HandleIdentity, HandleStream, HandleCreate, HandleLeave, HandleHeartbeat;
    var s2 := SwitchHistory.Dispatched(cfg, s, e);
  }

  // ---- Leaving -----------------------------------------------------------------------------------------------------

  lemma LeaveIsConfirmed(who: C.Credentials, c: C.Client, cid: nat, now: nat)
    requires c.open
    ensures var (c1, sent) := C.Act(who, c, C.LeaveChannel(cid), now);
      && sent == [Says(now, c.session, LeaveRequest(c.nextReqId, cid))]
      && var c2 := C.Act(who, c1, C.Hear(LeaveResponse(c.nextReqId)), now).0;
      c2.channels == c.channels - {cid} && c2.pending == c.pending - {c.nextReqId}
  {
  }

  /** Leaving a joined channel, with both datagrams delivered: handle and membership are gone, and no others are. */
  lemma DeliveredLeaveIsDone(cfg: Config, who: map<Transport, C.Credentials>, y: System, t: Transport, cid: nat,
                             now: nat, nonce: Nonce)
    requires Inv(cfg, y.switch) && y.clients.Keys <= who.Keys && t in y.clients && y.clients[t].open
    requires GoodNonce(cfg, nonce) && Known(y.switch, t, y.clients[t].session)
    requires cid in y.switch.channels
    requires Requester(y.switch, t, y.clients[t].session) in y.switch.channels[cid].members
    ensures var (c, r) := (y.clients[t], y.clients[t].nextReqId);
      var run := [ClientActs(t, C.LeaveChannel(cid), now),
                  SwitchHears(t, Says(now, c.session, LeaveRequest(r, cid)), now, nonce),
                  ClientActs(t, C.Hear(LeaveResponse(r)), now)];
      && CanRun(cfg, who, y, run)
      && var end := RunFrom(cfg, who, y, run);
      && t in end.clients && end.clients[t].channels == c.channels - {cid}
      && cid in end.switch.channels
      && end.switch.channels[cid].members
         == y.switch.channels[cid].members - {Requester(y.switch, t, c.session)}
  {
    hide Step, C.Act, Inv, RunsTo, Next, CanRun, RunFrom, Ignored;
    var (c, r) := (y.clients[t], y.clients[t].nextReqId);
    var leave := Says(now, c.session, LeaveRequest(r, cid));
    LeaveIsConfirmed(who[t], c, cid, now);
    var a1 := ClientActs(t, C.LeaveChannel(cid), now);
    var y1 := Next(cfg, who, y, a1);
    ClientMoves(cfg, who, y, t, C.LeaveChannel(cid), now);
    SameClients(cfg, who, y, a1);

    var e := Receive(t, leave, now, nonce);
    KnownStays(cfg, y.switch, e);
    LeaveAnswered(cfg, y.switch, e);
    var a2 := SwitchHears(t, leave, now, nonce);
    EventHeard(cfg, who, y1, t, leave, now, nonce, LeaveResponse(r));
    var y2 := Next(cfg, who, y1, a2);
    SameClients(cfg, who, y1, a2);

    var a3 := ClientActs(t, C.Hear(LeaveResponse(r)), now);
    ClientMoves(cfg, who, y2, t, C.Hear(LeaveResponse(r)), now);
    var y3 := Next(cfg, who, y2, a3);
    ThreeActions(cfg, who, y, a1, y1, a2, y2, a3, y3);
    RunsToMeans(cfg, who, y, [a1, a2, a3], y3);
  }

  // ---- Losing the connection ---------------------------------------------------------------------------------------

  /** Nothing is left of a session. */
  predicate Bare(c: C.Client) { c.session == None && c.channels == map[] && c.pending == map[] }

  /** What ends a connection: closing it, opening a new one, and hearing that the login has failed. */
  predicate Ends(e: C.ClientEvent) {
    e.Disconnect? || e.Connect? || (e.Hear? && e.m.IdentityRequest? && e.m.reason == CHALLENGE_FAILURE)
  }

  lemma EndsBare(who: C.Credentials, c: C.Client, e: C.ClientEvent, now: nat)
    requires Ends(e)
    ensures C.Possible(c, e)
    ensures var c' := C.Act(who, c, e, now).0;
      && Bare(c') && c'.open == e.Connect? && c'.nextReqId == c.nextReqId
      && forall r | r in c.pending && c.pending[r].Join? :: r in c'.aborted && c'.aborted[r] == c.pending[r]
  {
  }

  /** A join that is given up, or refused for any reason, is no longer pending and will be tried as a create. */
  lemma RefusedJoinIsTriedAsCreate(who: C.Credentials, c: C.Client, rid: nat, e: C.ClientEvent, now: nat)
    requires rid in c.pending && c.pending[rid].Join?
    requires e == C.GiveUp(rid) || (e.Hear? && e.m.JoinResponse? && e.m.reqId == rid && e.m.code != OK)
    ensures C.Possible(c, e)
    ensures var (c1, sent) := C.Act(who, c, e, now);
      && sent == [] && rid !in c1.pending && c1.channels == c.channels && c1.session == c.session
      && C.Possible(c1, C.FallBack(rid))
      && var (c2, sent') := C.Act(who, c1, C.FallBack(rid), now);
      && c2.pending == c1.pending[c.nextReqId := C.Create(c.pending[rid].name, c.pending[rid].metadata)]
      && (c.open ==> sent' == [Says(now, c.session, CreateRequest(c.nextReqId, c.pending[rid].name,
                                                                  c.pending[rid].metadata, Limits(0, 0)))])
  {
  }

  /** The request id of a response. */
  function Answered(m: Message): nat
    requires m.CreateResponse? || m.JoinResponse? || m.LeaveResponse?
  {
    m.reqId
  }

  /**
   * A response settles the pending request of its id, once and whatever its kind: positive ones hand out or drop one
   * handle, all others reject; without such a request it changes nothing.
   */
  lemma ResponseSettles(who: C.Credentials, c: C.Client, m: Message, now: nat)
    requires m.CreateResponse? || m.JoinResponse? || m.LeaveResponse?
    ensures var (c', sent) := C.Act(who, c, C.Hear(m), now);
      var r := Answered(m);
      && sent == []
      && if r !in c.pending then c' == c
         else
           var req := c.pending[r];
           var ok := m.LeaveResponse? || m.code == OK;
           && c'.pending == c.pending - {r} && c'.session == c.session && c'.nextReqId == c.nextReqId
           && (ok && req.Leave? ==> c'.channels == c.channels - {req.channelId})
           && (ok && !req.Leave? && !m.LeaveResponse? ==>
                 && c'.channels.Keys == c.channels.Keys + {m.channelId}
                 && c'.channels[m.channelId].name == req.name && c'.channels[m.channelId].metadata == req.metadata)
           && (!ok || (m.LeaveResponse? && !req.Leave?) ==> c'.channels == c.channels)
           && ((!ok || m.LeaveResponse?) && req.Join? ==> r in c'.aborted && c'.aborted[r] == req)
  {
  }

  /** A user without a name does not answer a challenge, and no client says anything on a closed connection. */
  lemma NothingToSay(who: C.Credentials, c: C.Client, e: C.ClientEvent, now: nat)
    requires C.Possible(c, e)
    requires (!c.open && !e.Connect?) || (e.Hear? && e.m.IdentityRequest? && who.username == "")
    ensures C.Act(who, c, e, now).1 == []
  {
  }

  /**
   * After any run that ends with the client's connection closed, opened anew or refused, the client holds no handle, no
   * session and no pending request; joins that were pending have been rejected, and ids go on counting.
   */
  lemma LostConnectionLeavesNothing(cfg: Config, who: map<Transport, C.Credentials>, y: System, run: seq<Action>,
                                    t: Transport, e: C.ClientEvent, now: nat)
    requires y.clients.Keys <= who.Keys && CanRun(cfg, who, y, run) && Ends(e)
    requires Enabled(cfg, RunFrom(cfg, who, y, run), ClientActs(t, e, now))
    ensures var run' := run + [ClientActs(t, e, now)];
      && CanRun(cfg, who, y, run') && t in RunFrom(cfg, who, y, run').clients
      && t in RunFrom(cfg, who, y, run).clients
      && var (c, c') := (RunFrom(cfg, who, y, run).clients[t], RunFrom(cfg, who, y, run').clients[t]);
      && Bare(c') && c'.open == e.Connect? && c'.nextReqId == c.nextReqId
      && forall r | r in c.pending && c.pending[r].Join? :: r in c'.aborted && c'.aborted[r] == c.pending[r]
  {
    hide C.Act, CanRun, RunFrom, Enabled, Next, Ends;
    var y' := RunFrom(cfg, who, y, run);
    RunKeepsClients(cfg, who, y, run);
    RunMore(cfg, who, y, run, ClientActs(t, e, now));
    ClientMoves(cfg, who, y', t, e, now);
    EnabledClient(cfg, y', t, e, now);
    EndsBare(who[t], y'.clients[t], e, now);
  }

  lemma {:induction false} RunKeepsClients(cfg: Config, who: map<Transport, C.Credentials>, y: System,
                                           run: seq<Action>)
    requires y.clients.Keys <= who.Keys && CanRun(cfg, who, y, run)
    ensures RunFrom(cfg, who, y, run).clients.Keys == y.clients.Keys
    decreases |run|
  {
    hide Enabled, Next;
    if run != [] {
      SameClients(cfg, who, y, run[0]);
      RunKeepsClients(cfg, who, Next(cfg, who, y, run[0]), run[1..]);
    }
  }

  lemma EnabledClient(cfg: Config, y: System, t: Transport, e: C.ClientEvent, now: nat)
    requires Enabled(cfg, y, ClientActs(t, e, now))
    ensures t in y.clients && C.Possible(y.clients[t], e)
  {
  }

  // ---- A wrong password --------------------------------------------------------------------------------------------

  lemma ReplyIsSent(who: C.Credentials, c: C.Client, m: Message, now: nat)
    requires c.open && m.IdentityRequest? && m.reason != CHALLENGE_FAILURE && who.username != ""
    ensures Says(now, c.session, IdentityResponse(m.reqId, who.username, who.sign(m.challenge), m.newSession))
         in C.Act(who, c, C.Hear(m), now).1
  {
    var reply := IdentityResponse(m.reqId, who.username, who.sign(m.challenge), m.newSession);
    var first := C.Sent(c, now, reply);
    assert first[0] == Says(now, c.session, reply);
    assert C.Act(who, c, C.Hear(m), now).1[0] == first[0];
  }

  lemma FailureIsSent(cfg: Config, s: State, t: Transport, reason: Reason, now: nat, n: Nonce)
    requires GoodNonce(cfg, n)
    ensures Challenge(cfg, s, t, reason, now, n).1
         == FromSwitch(t, now, IdentityRequest(s.nextReqId, reason, n.challenge, n.tag))
  {
  }

  /**
   * A client whose answer to the pending challenge does not verify, with every datagram delivered, is told so and
   * closes its connection, with nothing left; the switch has no session more.
   */
  lemma WrongPasswordDisconnects(cfg: Config, who: map<Transport, C.Credentials>, y: System, t: Transport,
                                 challenge: Message, sent: nat, now: nat, nonce: Nonce)
    requires Inv(cfg, y.switch) && y.clients.Keys <= who.Keys && t in y.clients && y.clients[t].open
    requires GoodNonce(cfg, nonce) && who[t].username != "" && cfg.hasStore
    requires challenge.IdentityRequest? && challenge.reason != CHALLENGE_FAILURE
    requires (t, Says(sent, None, challenge)) in y.downward && t in y.switch.clients
    requires y.switch.clients[t].pending == Some(Pending(challenge.challenge, challenge.newSession, challenge.reqId))
    requires !cfg.verify(challenge.challenge, who[t].sign(challenge.challenge), who[t].username, cfg.allowGuest)
    ensures var c := y.clients[t];
      var answer := IdentityResponse(challenge.reqId, who[t].username, who[t].sign(challenge.challenge),
                                     challenge.newSession);
      var failure := IdentityRequest(y.switch.nextReqId, CHALLENGE_FAILURE, nonce.challenge, nonce.tag);
      var run := [ClientActs(t, C.Hear(challenge), now), SwitchHears(t, Says(now, c.session, answer), now, nonce),
                  ClientActs(t, C.Hear(failure), now)];
      && CanRun(cfg, who, y, run)
      && var end := RunFrom(cfg, who, y, run);
      t in end.clients && !end.clients[t].open && Bare(end.clients[t]) && end.switch.sessions == y.switch.sessions
  {
    hide Step, C.Act, Inv, RunsTo, Next, CanRun, RunFrom, Challenge, Bare, Ends;
    var c := y.clients[t];
    var answer := IdentityResponse(challenge.reqId, who[t].username, who[t].sign(challenge.challenge),
                                   challenge.newSession);
    var failure := IdentityRequest(y.switch.nextReqId, CHALLENGE_FAILURE, nonce.challenge, nonce.tag);
    var a1 := ClientActs(t, C.Hear(challenge), now);
    assert Enabled(cfg, y, a1);
    ReplyIsSent(who[t], c, challenge, now);
    var y1 := Next(cfg, who, y, a1);
    ClientMoves(cfg, who, y, t, C.Hear(challenge), now);
    SameClients(cfg, who, y, a1);

    var response := Says(now, c.session, answer);
    var e := Receive(t, response, now, nonce);
    SoundIsConsistent(cfg, y.switch);
    SwitchLogin.RejectionReasons(cfg, y.switch, e);
    FailureIsSent(cfg, Touch(y.switch, t), t, CHALLENGE_FAILURE, now, nonce);
    ChallengeKeepsSessions(cfg, Touch(y.switch, t), t, CHALLENGE_FAILURE, now, nonce);
    var a2 := SwitchHears(t, response, now, nonce);
    EventHeard(cfg, who, y1, t, response, now, nonce, failure);
    var y2 := Next(cfg, who, y1, a2);
    SameClients(cfg, who, y1, a2);

    var a3 := ClientActs(t, C.Hear(failure), now);
    assert Enabled(cfg, y2, a3);
    assert Ends(C.Hear(failure)) by { FailureEnds(failure); }
    EndsBare(who[t], y2.clients[t], C.Hear(failure), now);
    ClientMoves(cfg, who, y2, t, C.Hear(failure), now);
    var y3 := Next(cfg, who, y2, a3);
    ThreeActions(cfg, who, y, a1, y1, a2, y2, a3, y3);
    RunsToMeans(cfg, who, y, [a1, a2, a3], y3);
  }

  lemma FailureEnds(m: Message)
    requires m.IdentityRequest? && m.reason == CHALLENGE_FAILURE
    ensures Ends(C.Hear(m))
  {
  }

  lemma ChallengeKeepsSessions(cfg: Config, s: State, t: Transport, reason: Reason, now: nat, n: Nonce)
    ensures Challenge(cfg, s, t, reason, now, n).0.sessions == s.sessions
  {
  }
}
