/**
 * Clients and switch over a network that loses, duplicates and reorders: whatever was sent once may arrive any
 * number of times, at any later moment, or never.
 */
module Network {
  import opened Wrappers
  import opened Protocol
  import opened SwitchModel
  import opened SwitchInvariant
  import SwitchRelay
  import SwitchAnswers
  import C = ClientModel

  type Flight = (Transport, Pdu)

  /** `upward` and `downward` hold every datagram ever sent to the switch and to the transports. */
  datatype System = System(
    switch: State,
    clients: map<Transport, C.Client>,
    upward: set<Flight>,
    downward: set<Flight>)

  datatype Action =
    | SwitchHears(from: Transport, pdu: Pdu, now: nat, nonce: Nonce)
    | SwitchForgets(from: Transport)
    | ClientActs(at: Transport, event: C.ClientEvent, now: nat)
    | StrangerSends(from: Transport, pdu: Pdu)

  predicate Enabled(cfg: Config, y: System, a: Action) {
    match a
    case SwitchHears(t, pdu, _, nonce) => (t, pdu) in y.upward && GoodNonce(cfg, nonce)
    case SwitchForgets(_) => true
    case ClientActs(t, e, _) =>
      t in y.clients && C.Possible(y.clients[t], e)
      && (e.Hear? ==> exists f | f in y.downward :: f.0 == t && f.1.message == e.m)
    case StrangerSends(t, _) => t !in y.clients
  }

  function Datagrams(out: Output): set<Flight> {
    match out
    case Silent => {}
    case Reply(to, pdu) => {(to, pdu)}
    case Relay(pdu, recipients) => set m | m in recipients :: (recipients[m], pdu)
  }

  function Next(cfg: Config, who: map<Transport, C.Credentials>, y: System, a: Action): System
    requires Enabled(cfg, y, a) && y.clients.Keys <= who.Keys
  {
    match a
    case SwitchHears(t, pdu, now, nonce) =>
      var (s', out) := Step(cfg, y.switch, Receive(t, pdu, now, nonce));
      y.(switch := s', downward := y.downward + Datagrams(out))
    case SwitchForgets(t) => y.(switch := Step(cfg, y.switch, Forget(t)).0)
    case ClientActs(t, e, now) =>
      var (c', sent) := C.Act(who[t], y.clients[t], e, now);
      y.(clients := y.clients[t := c'], upward := y.upward + (set p | p in sent :: (t, p)))
    case StrangerSends(t, pdu) => y.(upward := y.upward + {(t, pdu)})
  }

  function Start(transports: set<Transport>): System {
    System(INITIAL, map t | t in transports :: C.FRESH_CLIENT, {}, {})
  }

  // ---- What the switch says about channels --------------------------------------------------------------

  predicate HasChannel(s: State, cid: nat, name: string, metadata: string) {
    cid in s.channels && s.channels[cid].name == name && s.channels[cid].metadata == metadata
  }

  /** A channel, once there, keeps its name and metadata through a handler. */
  lemma DispatchKeepsChannel(cfg: Config, s: State, t: Transport, rx: Option<Tag>, pdu: Pdu, now: nat, n: Nonce,
                             cid: nat)
    requires Consistent(cfg, s) && cid in s.channels
    ensures HasChannel(Dispatch(cfg, s, t, rx, pdu, now, n).0, cid, s.channels[cid].name, s.channels[cid].metadata)
  {
    hide Answer, Emit, WireSize, RateAllow, Recipients, Kept, Stamped, MergeLimits;
  }

  lemma StepKeepsChannel(cfg: Config, s: State, e: Event, cid: nat)
    requires Consistent(cfg, s) && cid in s.channels
    ensures HasChannel(Step(cfg, s, e).0, cid, s.channels[cid].name, s.channels[cid].metadata)
  {
    if e.Receive? {
      var s1 := Touch(s, e.from);
      var rx := Speaker(s1, e.from, e.pdu);
      if !e.pdu.message.IdentityResponse? && e.pdu.session.Some? {
        if e.pdu.session.value in s.sessions {
          RebindKeeps(cfg, s1, e.pdu.session.value, e.from);
          DispatchKeepsChannel(cfg, Rebind(s1, e.pdu.session.value, e.from), e.from, rx, e.pdu, e.now, e.nonce, cid);
        }
      } else {
        DispatchKeepsChannel(cfg, s1, e.from, rx, e.pdu, e.now, e.nonce, cid);
      }
    }
  }

  /** An answer is about the request it answers, and a positive one about a channel with that name and metadata. */
  predicate AnswersRequest(s: State, request: Message, answer: Message) {
    match answer
    case JoinResponse(rid, cid, code, _) =>
      request.JoinRequest? && request.reqId == rid
      && (code == OK ==> HasChannel(s, cid, request.channelName, request.metadata))
    case CreateResponse(rid, cid, code) =>
      request.CreateRequest? && request.reqId == rid
      && (code == OK ==> HasChannel(s, cid, request.channelName, request.metadata))
    case LeaveResponse(rid) => request.LeaveRequest? && request.reqId == rid
    case _ => true
  }

  lemma DispatchAnswers(cfg: Config, s: State, t: Transport, rx: Option<Tag>, pdu: Pdu, now: nat, n: Nonce)
    requires Consistent(cfg, s)
    ensures var (s', out) := Dispatch(cfg, s, t, rx, pdu, now, n);
      && (out.Reply? ==> out.to == t && AnswersRequest(s', pdu.message, out.pdu.message))
      && (out.Relay? ==> out.pdu.message.StreamData?)
  {
    hide WireSize, RateAllow, Recipients, Kept, MergeLimits;
  }

  lemma StepAnswers(cfg: Config, s: State, t: Transport, pdu: Pdu, now: nat, n: Nonce)
    requires Consistent(cfg, s)
    ensures var (s', out) := Step(cfg, s, Receive(t, pdu, now, n));
      && (out.Reply? ==> out.to == t && AnswersRequest(s', pdu.message, out.pdu.message))
      && (out.Relay? ==> out.pdu.message.StreamData?)
  {
    var s1 := Touch(s, t);
    var rx := Speaker(s1, t, pdu);
    if !pdu.message.IdentityResponse? && pdu.session.Some? {
      if pdu.session.value in s.sessions {
        RebindKeeps(cfg, s1, pdu.session.value, t);
        DispatchAnswers(cfg, Rebind(s1, pdu.session.value, t), t, rx, pdu, now, n);
      }
    } else {
      DispatchAnswers(cfg, s1, t, rx, pdu, now, n);
    }
  }

  // ---- The invariant of the composition -------------------------------------------------------------------

  /** Request number `rid` of a client, while its ids have not wrapped round. */
  predicate Issued(c: C.Client, rid: nat, req: C.Request) {
    1 <= rid <= |c.issued| && c.issued[rid - 1] == req
  }

  /** So many requests have been made that an id was given out twice. */
  predicate WrappedRound(c: C.Client) {
    |c.issued| > C.MAX_REQ_ID
  }

  /** Ids are handed out in turn, 1 to 65535 and round again. */
  predicate IdsInStep(c: C.Client) {
    c.nextReqId == 1 + |c.issued| % C.MAX_REQ_ID
  }

  predicate RequestIsIssued(c: C.Client, m: Message) {
    match m
    case JoinRequest(rid, name, metadata) => Issued(c, rid, C.Join(name, metadata))
    case CreateRequest(rid, name, metadata, _) => Issued(c, rid, C.Create(name, metadata))
    case LeaveRequest(rid, cid) => Issued(c, rid, C.Leave(cid))
    case _ => true
  }

  predicate AnswerIsTrue(s: State, c: C.Client, m: Message) {
    match m
    case JoinResponse(rid, cid, code, _) =>
      1 <= rid <= |c.issued| && c.issued[rid - 1].Join?
      && (code == OK ==> HasChannel(s, cid, c.issued[rid - 1].name, c.issued[rid - 1].metadata))
    case CreateResponse(rid, cid, code) =>
      1 <= rid <= |c.issued| && c.issued[rid - 1].Create?
      && (code == OK ==> HasChannel(s, cid, c.issued[rid - 1].name, c.issued[rid - 1].metadata))
    case LeaveResponse(rid) => 1 <= rid <= |c.issued| && c.issued[rid - 1].Leave?
    case _ => true
  }

  predicate TableIsIssued(c: C.Client) {
    && IdsInStep(c)
    && (forall rid | rid in c.pending :: Issued(c, rid, c.pending[rid]))
  }

  /** The claim: every handle names a channel of the switch with that name and metadata. */
  predicate HandlesMatch(s: State, c: C.Client) {
    forall cid | cid in c.channels ::
      c.channels[cid].channelId == cid && HasChannel(s, cid, c.channels[cid].name, c.channels[cid].metadata)
  }

  ghost predicate ClientOk(y: System, t: Transport)
    requires t in y.clients
  {
    var c := y.clients[t];
    && TableIsIssued(c) && HandlesMatch(y.switch, c)
    && (forall pdu: Pdu | (t, pdu) in y.upward :: RequestIsIssued(c, pdu.message))
    && (forall pdu: Pdu | (t, pdu) in y.downward :: AnswerIsTrue(y.switch, c, pdu.message))
  }

  ghost predicate SystemInv(cfg: Config, y: System) {
    && Inv(cfg, y.switch)
    && (forall t | t in y.clients :: IdsInStep(y.clients[t]))
    && (forall t | t in y.clients && !WrappedRound(y.clients[t]) :: ClientOk(y, t))
  }

  // ---- Preservation -----------------------------------------------------------------------------------------

  lemma TruthLasts(cfg: Config, s: State, e: Event, c: C.Client, m: Message)
    requires Consistent(cfg, s) && AnswerIsTrue(s, c, m)
    ensures AnswerIsTrue(Step(cfg, s, e).0, c, m)
  {
    hide SwitchModel.Step;
    match m
    case JoinResponse(rid, cid, code, _) => if cid in s.channels { StepKeepsChannel(cfg, s, e, cid); }
    case CreateResponse(rid, cid, code) => if cid in s.channels { StepKeepsChannel(cfg, s, e, cid); }
    case _ =>
  }

  lemma HandlesLast(cfg: Config, s: State, e: Event, c: C.Client)
    requires Consistent(cfg, s) && HandlesMatch(s, c)
    ensures HandlesMatch(Step(cfg, s, e).0, c)
  {
    hide SwitchModel.Step;
    forall cid | cid in c.channels
      ensures HasChannel(Step(cfg, s, e).0, cid, c.channels[cid].name, c.channels[cid].metadata)
    {
      StepKeepsChannel(cfg, s, e, cid);
    }
  }

  lemma SwitchKeeps(cfg: Config, who: map<Transport, C.Credentials>, y: System, a: Action)
    requires SystemInv(cfg, y) && Enabled(cfg, y, a) && y.clients.Keys <= who.Keys
    requires a.SwitchHears? || a.SwitchForgets?
    ensures SystemInv(cfg, Next(cfg, who, y, a))
  {
    hide SwitchModel.Step;
    var e := if a.SwitchHears? then Receive(a.from, a.pdu, a.now, a.nonce) else Forget(a.from);
    var y' := Next(cfg, who, y, a);
    SwitchStaysSound(cfg, y.switch, e);
    forall t | t in y'.clients && !WrappedRound(y'.clients[t]) ensures ClientOk(y', t) {
      var c := y.clients[t];
      assert ClientOk(y, t);
      HandlesLast(cfg, y.switch, e, c);
      forall pdu: Pdu | (t, pdu) in y'.downward ensures AnswerIsTrue(y'.switch, c, pdu.message) {
        if (t, pdu) in y.downward {
          TruthLasts(cfg, y.switch, e, c, pdu.message);
        } else {
          StepAnswers(cfg, y.switch, a.from, a.pdu, a.now, a.nonce);
          if t == a.from {
            assert RequestIsIssued(c, a.pdu.message);
          }
        }
      }
    }
  }

  lemma StartKeeps(s: State, c: C.Client, req: C.Request, now: nat)
    requires IdsInStep(c)
    ensures var (c', sent) := C.Start(c, req, now);
      && IdsInStep(c') && c.issued <= c'.issued
      && (TableIsIssued(c) && !WrappedRound(c') ==>
            TableIsIssued(c') && forall p | p in sent :: RequestIsIssued(c', p.message))
  {
    var (c', sent) := C.Start(c, req, now);
    var n := |c.issued|;
    if n % C.MAX_REQ_ID == C.MAX_REQ_ID - 1 {
      assert (n + 1) % C.MAX_REQ_ID == 0;
    } else {
      assert (n + 1) % C.MAX_REQ_ID == n % C.MAX_REQ_ID + 1;
    }
    if TableIsIssued(c) && !WrappedRound(c') {
      assert n % C.MAX_REQ_ID == n;
      assert Issued(c', c.nextReqId, req);
    }
  }

  ghost predicate Truthful(s: State, c: C.Client, sent: seq<Pdu>) {
    TableIsIssued(c) && HandlesMatch(s, c) && forall p | p in sent :: RequestIsIssued(c, p.message)
  }

  lemma RejectedKeeps(s: State, c: C.Client, rid: nat)
    requires rid in c.pending && Truthful(s, c, [])
    ensures Truthful(s, C.Rejected(c, rid), [])
  {
  }

  lemma GrantedKeeps(s: State, c: C.Client, rid: nat, cid: nat, limits: Option<Limits>)
    requires rid in c.pending && Truthful(s, c, [])
    requires !c.pending[rid].Leave? ==> HasChannel(s, cid, c.pending[rid].name, c.pending[rid].metadata)
    ensures Truthful(s, C.Granted(c, rid, cid, limits), [])
  {
  }

  lemma ResponseKeeps(s: State, c: C.Client, rid: nat, code: Status, cid: nat, limits: Option<Limits>)
    requires Truthful(s, c, [])
    requires AnswerIsTrue(s, c, JoinResponse(rid, cid, code, limits))
          || AnswerIsTrue(s, c, CreateResponse(rid, cid, code))
    ensures Truthful(s, C.OnResponse(c, rid, code, cid, limits), [])
  {
    if rid in c.pending {
      assert Issued(c, rid, c.pending[rid]);
      if code == OK { GrantedKeeps(s, c, rid, cid, limits); } else { RejectedKeeps(s, c, rid); }
    }
  }

  lemma HearKeeps(who: C.Credentials, s: State, c: C.Client, m: Message, now: nat)
    requires Truthful(s, c, []) && AnswerIsTrue(s, c, m)
    ensures var (c', sent) := C.OnPdu(who, c, m, now); Truthful(s, c', sent)
  {
    match m
    case CreateResponse(rid, cid, code) => ResponseKeeps(s, c, rid, code, cid, None);
    case JoinResponse(rid, cid, code, limits) => ResponseKeeps(s, c, rid, code, cid, limits);
    case LeaveResponse(rid) =>
      if rid in c.pending {
        if c.pending[rid].Leave? { GrantedKeeps(s, c, rid, 0, None); } else { RejectedKeeps(s, c, rid); }
      }
    case _ =>
  }

  /** Hearing changes neither the history nor the counter. */
  lemma HearIssuesNothing(who: C.Credentials, c: C.Client, m: Message, now: nat)
    ensures var c' := C.OnPdu(who, c, m, now).0; c'.issued == c.issued && c'.nextReqId == c.nextReqId
  {
  }

  /** Whatever a client does, ids stay in step; until they wrap round, its table and handles stay truthful. */
  lemma ActKeeps(who: C.Credentials, s: State, c: C.Client, e: C.ClientEvent, now: nat)
    requires C.Possible(c, e) && IdsInStep(c)
    requires e.Hear? && !WrappedRound(c) ==> AnswerIsTrue(s, c, e.m)
    ensures var (c', sent) := C.Act(who, c, e, now);
      && IdsInStep(c') && c.issued <= c'.issued
      && (Truthful(s, c, []) && !WrappedRound(c') ==> Truthful(s, c', sent))
  {
    hide AnswerIsTrue, C.OnPdu;
    match e
    case AskFor(name, metadata) => StartKeeps(s, c, C.Join(name, metadata), now);
    case LeaveChannel(channelId) => StartKeeps(s, c, C.Leave(channelId), now);
    case FallBack(rid) =>
      StartKeeps(s, c.(aborted := c.aborted - {rid}), C.Create(c.aborted[rid].name, c.aborted[rid].metadata), now);
    case GiveUp(rid) => if Truthful(s, c, []) { RejectedKeeps(s, c, rid); }
    case Hear(m) =>
      HearIssuesNothing(who, c, m, now);
      if Truthful(s, c, []) && !WrappedRound(c) { HearKeeps(who, s, c, m, now); }
    case _ =>
  }

  lemma LongerHistory(s: State, c: C.Client, c': C.Client, m: Message)
    requires c.issued <= c'.issued
    ensures RequestIsIssued(c, m) ==> RequestIsIssued(c', m)
    ensures AnswerIsTrue(s, c, m) ==> AnswerIsTrue(s, c', m)
  {
  }

  lemma ClientKeeps(cfg: Config, who: map<Transport, C.Credentials>, y: System, a: Action)
    requires SystemInv(cfg, y) && Enabled(cfg, y, a) && y.clients.Keys <= who.Keys
    requires a.ClientActs?
    ensures SystemInv(cfg, Next(cfg, who, y, a))
  {
    hide C.Act, AnswerIsTrue, RequestIsIssued;
    var t := a.at;
    var c := y.clients[t];
    if !WrappedRound(c) {
      assert ClientOk(y, t);
      assert Truthful(y.switch, c, []);
    }
    var y' := Next(cfg, who, y, a);
    var (c', sent) := C.Act(who[t], c, a.event, a.now);
    ActKeeps(who[t], y.switch, c, a.event, a.now);
    forall t2 | t2 in y'.clients && !WrappedRound(y'.clients[t2]) ensures ClientOk(y', t2) {
      assert ClientOk(y, t2);
      if t2 == t {
        forall pdu: Pdu | (t, pdu) in y'.upward ensures RequestIsIssued(c', pdu.message) {
          if (t, pdu) in y.upward { LongerHistory(y.switch, c, c', pdu.message); }
        }
        forall pdu: Pdu | (t, pdu) in y'.downward ensures AnswerIsTrue(y'.switch, c', pdu.message) {
          LongerHistory(y.switch, c, c', pdu.message);
        }
      }
    }
  }

  lemma {:induction false} NextKeeps(cfg: Config, who: map<Transport, C.Credentials>, y: System, a: Action)
    requires SystemInv(cfg, y) && Enabled(cfg, y, a) && y.clients.Keys <= who.Keys
    ensures SystemInv(cfg, Next(cfg, who, y, a))
  {
    match a
    case ClientActs(_, _, _) => ClientKeeps(cfg, who, y, a);
    case StrangerSends(_, _) =>
      forall t | t in y.clients && !WrappedRound(y.clients[t]) ensures ClientOk(Next(cfg, who, y, a), t) {
        assert ClientOk(y, t);
      }
    case _ => SwitchKeeps(cfg, who, y, a);
  }

  // ---- Whole runs ---------------------------------------------------------------------------------------------

  predicate CanRun(cfg: Config, who: map<Transport, C.Credentials>, y: System, run: seq<Action>)
    requires y.clients.Keys <= who.Keys
    decreases |run|
  {
    run == [] || (Enabled(cfg, y, run[0]) && CanRun(cfg, who, Next(cfg, who, y, run[0]), run[1..]))
  }

  function RunFrom(cfg: Config, who: map<Transport, C.Credentials>, y: System, run: seq<Action>): System
    requires y.clients.Keys <= who.Keys && CanRun(cfg, who, y, run)
    decreases |run|
  {
    if run == [] then y else RunFrom(cfg, who, Next(cfg, who, y, run[0]), run[1..])
  }

  lemma {:induction false} RunKeeps(cfg: Config, who: map<Transport, C.Credentials>, y: System, run: seq<Action>)
    requires y.clients.Keys <= who.Keys && CanRun(cfg, who, y, run) && SystemInv(cfg, y)
    ensures SystemInv(cfg, RunFrom(cfg, who, y, run))
    decreases |run|
  {
    hide SystemInv;
    if run != [] {
      NextKeeps(cfg, who, y, run[0]);
      RunKeeps(cfg, who, Next(cfg, who, y, run[0]), run[1..]);
    }
  }

  /**
   * From the start, under any loss, duplication, reordering, session destruction and traffic of others: a client
   * that made at most 65535 requests holds only handles that name a channel with that id, name and metadata.
   */
  lemma HandlesAlwaysMatch(cfg: Config, who: map<Transport, C.Credentials>, run: seq<Action>, t: Transport)
    requires CanRun(cfg, who, Start(who.Keys), run)
    ensures var y := RunFrom(cfg, who, Start(who.Keys), run);
      t in y.clients && !WrappedRound(y.clients[t]) ==> HandlesMatch(y.switch, y.clients[t])
  {
    hide SystemInv;
    StartIsSound(cfg, who.Keys);
    RunKeeps(cfg, who, Start(who.Keys), run);
    HandlesOf(cfg, RunFrom(cfg, who, Start(who.Keys), run), t);
  }

  lemma HandlesOf(cfg: Config, y: System, t: Transport)
    requires SystemInv(cfg, y)
    ensures t in y.clients && !WrappedRound(y.clients[t]) ==> HandlesMatch(y.switch, y.clients[t])
  {
  }

  lemma StartIsSound(cfg: Config, transports: set<Transport>)
    ensures SystemInv(cfg, Start(transports))
  {
  }

  lemma NextKeepsChannel(cfg: Config, who: map<Transport, C.Credentials>, y: System, a: Action, cid: nat, name: string,
                         metadata: string)
    requires y.clients.Keys <= who.Keys && Enabled(cfg, y, a) && Inv(cfg, y.switch)
    requires HasChannel(y.switch, cid, name, metadata)
    ensures HasChannel(Next(cfg, who, y, a).switch, cid, name, metadata)
  {
    hide SwitchModel.Step;
    match a
    case SwitchHears(t, pdu, now, nonce) => StepKeepsChannel(cfg, y.switch, Receive(t, pdu, now, nonce), cid);
    case SwitchForgets(t) => StepKeepsChannel(cfg, y.switch, Forget(t), cid);
    case _ =>
  }

  /** For ever after: the channel a handle named when it was obtained keeps that name and metadata. */
  lemma {:induction false} ChannelsAreForever(cfg: Config, who: map<Transport, C.Credentials>, y: System,
                                              run: seq<Action>, cid: nat, name: string, metadata: string)
    requires y.clients.Keys <= who.Keys && CanRun(cfg, who, y, run) && SystemInv(cfg, y)
    requires HasChannel(y.switch, cid, name, metadata)
    ensures HasChannel(RunFrom(cfg, who, y, run).switch, cid, name, metadata)
    decreases |run|
  {
    hide HasChannel;
    if run != [] {
      NextKeeps(cfg, who, y, run[0]);
      NextKeepsChannel(cfg, who, y, run[0], cid, name, metadata);
      ChannelsAreForever(cfg, who, Next(cfg, who, y, run[0]), run[1..], cid, name, metadata);
    }
  }

  // ---- When the network delivers ----------------------------------------------------------------------------------

  /** What client `t` sends for its next join. */
  function JoinPdu(c: C.Client, name: string, metadata: string, now: nat): Pdu {
    Pdu(PROTOCOL_VERSION, now, c.session, JoinRequest(c.nextReqId, name, metadata))
  }

  lemma AskSends(c: C.Client, who: C.Credentials, name: string, metadata: string, now: nat)
    requires c.open
    ensures var (c', sent) := C.Act(who, c, C.AskFor(name, metadata), now);
      && sent == [JoinPdu(c, name, metadata, now)]
      && c.nextReqId in c'.pending && c'.pending[c.nextReqId] == C.Join(name, metadata)
  {
  }

  lemma HearGrants(c: C.Client, who: C.Credentials, rid: nat, cid: nat, limits: Option<Limits>, now: nat)
    requires rid in c.pending && !c.pending[rid].Leave?
    ensures var c' := C.Act(who, c, C.Hear(JoinResponse(rid, cid, OK, limits)), now).0;
      && cid in c'.channels
      && c'.channels[cid] == C.Handle(cid, c.pending[rid].name, c.pending[rid].metadata, limits)
  {
  }

  /**
   * A join that is delivered both ways ends in a handle: for an open client whose session the switch knows, and a
   * channel with that name and metadata, asking, hearing and hearing back are possible one after the other, and the
   * handle has the id, name, metadata and limits of the channel.
   */
  lemma DeliveredJoinIsGranted(cfg: Config, who: map<Transport, C.Credentials>, y: System, t: Transport, name: string,
                               metadata: string, now: nat, nonce: Nonce)
    requires Inv(cfg, y.switch) && y.clients.Keys <= who.Keys && t in y.clients && y.clients[t].open
    requires GoodNonce(cfg, nonce)
    requires var p := JoinPdu(y.clients[t], name, metadata, now);
      SwitchRelay.SpeakerOf(y.switch, Receive(t, p, now, nonce)).Some?
    requires name in y.switch.names && y.switch.names[name] in y.switch.channels
    requires y.switch.channels[y.switch.names[name]].metadata == metadata
    ensures var (cid, p) := (y.switch.names[name], JoinPdu(y.clients[t], name, metadata, now));
      var answer := JoinResponse(y.clients[t].nextReqId, cid, OK, Some(y.switch.channels[cid].limits));
      var run := [ClientActs(t, C.AskFor(name, metadata), now), SwitchHears(t, p, now, nonce),
                  ClientActs(t, C.Hear(answer), now)];
      && CanRun(cfg, who, y, run)
      && t in RunFrom(cfg, who, y, run).clients
      && var c := RunFrom(cfg, who, y, run).clients[t];
      cid in c.channels && c.channels[cid] == C.Handle(cid, name, metadata, Some(y.switch.channels[cid].limits))
  {
    hide SwitchModel.Step, C.Act, Inv;
    var (cid, p) := (y.switch.names[name], JoinPdu(y.clients[t], name, metadata, now));
    var e := Receive(t, p, now, nonce);
    var answer := JoinResponse(y.clients[t].nextReqId, cid, OK, Some(y.switch.channels[cid].limits));
    AskSends(y.clients[t], who[t], name, metadata, now);
    SwitchAnswers.JoinAnswered(cfg, y.switch, e);
    var a1, a2 := ClientActs(t, C.AskFor(name, metadata), now), SwitchHears(t, p, now, nonce);
    var a3 := ClientActs(t, C.Hear(answer), now);
    var y1 := Next(cfg, who, y, a1);
    assert Enabled(cfg, y1, a2);
    var y2 := Next(cfg, who, y1, a2);
    var back := (t, Pdu(PROTOCOL_VERSION, now, None, answer));
    assert back in y2.downward;
    assert Enabled(cfg, y2, a3);
    HearGrants(y2.clients[t], who[t], y.clients[t].nextReqId, cid, Some(y.switch.channels[cid].limits), now);
    ThreeSteps(cfg, who, y, a1, a2, a3);
  }

  lemma SameClients(cfg: Config, who: map<Transport, C.Credentials>, y: System, a: Action)
    requires y.clients.Keys <= who.Keys && Enabled(cfg, y, a)
    ensures Next(cfg, who, y, a).clients.Keys == y.clients.Keys
  {
    hide SwitchModel.Step, C.Act;
  }

  lemma OneStep(cfg: Config, who: map<Transport, C.Credentials>, y: System, a: Action, run: seq<Action>)
    requires y.clients.Keys <= who.Keys && Enabled(cfg, y, a)
    requires Next(cfg, who, y, a).clients.Keys <= who.Keys && CanRun(cfg, who, Next(cfg, who, y, a), run)
    ensures CanRun(cfg, who, y, [a] + run)
    ensures RunFrom(cfg, who, y, [a] + run) == RunFrom(cfg, who, Next(cfg, who, y, a), run)
  {
    hide Enabled, Next;
    assert ([a] + run)[1..] == run;
  }

  lemma ThreeSteps(cfg: Config, who: map<Transport, C.Credentials>, y: System, a1: Action, a2: Action, a3: Action)
    requires y.clients.Keys <= who.Keys && Enabled(cfg, y, a1)
    requires Next(cfg, who, y, a1).clients.Keys <= who.Keys && Enabled(cfg, Next(cfg, who, y, a1), a2)
    requires Next(cfg, who, Next(cfg, who, y, a1), a2).clients.Keys <= who.Keys
    requires Enabled(cfg, Next(cfg, who, Next(cfg, who, y, a1), a2), a3)
    ensures CanRun(cfg, who, y, [a1, a2, a3])
    ensures RunFrom(cfg, who, y, [a1, a2, a3]) == Next(cfg, who, Next(cfg, who, Next(cfg, who, y, a1), a2), a3)
  {
    hide Enabled, Next;
    var y1 := Next(cfg, who, y, a1);
    var y2 := Next(cfg, who, y1, a2);
    SameClients(cfg, who, y2, a3);
    OneStep(cfg, who, y2, a3, []);
    OneStep(cfg, who, y1, a2, [a3]);
    OneStep(cfg, who, y, a1, [a2, a3]);
    assert [a3] + [] == [a3] && [a2] + [a3] == [a2, a3] && [a1] + [a2, a3] == [a1, a2, a3];
  }
}
