/** Request ids that come round again: the bound of 65535 requests is sharp. */
module RequestIds {
  import opened Wrappers
  import opened Protocol
  import opened SwitchModel
  import opened SwitchInvariant
  import opened SwitchRelay
  import opened SwitchAnswers
  import SwitchHistory
  import SwitchLogin
  import opened Network
  import C = ClientModel

  // ---- Runs, one action at a time -------------------------------------------------------------------------------

  ghost predicate Reaches(cfg: Config, who: map<Transport, C.Credentials>, y: System, y': System) {
    && y.clients.Keys <= who.Keys
    && exists run :: CanRun(cfg, who, y, run) && RunFrom(cfg, who, y, run) == y'
  }

  lemma {:induction false} RunMore(cfg: Config, who: map<Transport, C.Credentials>, y: System, run: seq<Action>,
                                   a: Action)
    requires y.clients.Keys <= who.Keys && CanRun(cfg, who, y, run) && Enabled(cfg, RunFrom(cfg, who, y, run), a)
    requires RunFrom(cfg, who, y, run).clients.Keys <= who.Keys
    ensures CanRun(cfg, who, y, run + [a])
    ensures RunFrom(cfg, who, y, run + [a]) == Next(cfg, who, RunFrom(cfg, who, y, run), a)
    decreases |run|
  {
    hide Next, Enabled;
    if run == [] {
      assert run + [a] == [a] && [a][1..] == [];
      SameClients(cfg, who, y, a);
    } else {
      SameClients(cfg, who, y, run[0]);
      RunMore(cfg, who, Next(cfg, who, y, run[0]), run[1..], a);
      assert (run + [a])[1..] == run[1..] + [a];
    }
  }

  lemma ReachesNext(cfg: Config, who: map<Transport, C.Credentials>, y: System, y': System, a: Action)
    requires Reaches(cfg, who, y, y') && y'.clients.Keys <= who.Keys && Enabled(cfg, y', a)
    ensures Reaches(cfg, who, y, Next(cfg, who, y', a))
    ensures Next(cfg, who, y', a).clients.Keys == y'.clients.Keys
  {
    hide Next, Enabled, CanRun, RunFrom;
    var run :| CanRun(cfg, who, y, run) && RunFrom(cfg, who, y, run) == y';
    RunMore(cfg, who, y, run, a);
    SameClients(cfg, who, y', a);
  }

  lemma ReachesItself(cfg: Config, who: map<Transport, C.Credentials>, y: System)
    requires y.clients.Keys <= who.Keys
    ensures Reaches(cfg, who, y, y)
  {
    assert CanRun(cfg, who, y, []) && RunFrom(cfg, who, y, []) == y;
  }

  /** In every reachable state the switch is sound. */
  lemma ReachedIsSound(cfg: Config, who: map<Transport, C.Credentials>, y: System)
    requires Reaches(cfg, who, Start(who.Keys), y)
    ensures Inv(cfg, y.switch)
  {
    hide CanRun, RunFrom, Inv;
    var run :| CanRun(cfg, who, Start(who.Keys), run) && RunFrom(cfg, who, Start(who.Keys), run) == y;
    StartIsSound(cfg, who.Keys);
    Network.RunKeeps(cfg, who, Start(who.Keys), run);
  }

  // ---- Asking again and again -------------------------------------------------------------------------------------

  function AskAgain(c: C.Client, reqs: seq<C.Request>, now: nat): C.Client
    decreases |reqs|
  {
    if reqs == [] then c else AskAgain(C.Start(c, reqs[0], now).0, reqs[1..], now)
  }

  lemma {:induction false} AskAgainCounts(c: C.Client, reqs: seq<C.Request>, now: nat)
    requires IdsInStep(c)
    ensures IdsInStep(AskAgain(c, reqs, now)) && AskAgain(c, reqs, now).issued == c.issued + reqs
    ensures AskAgain(c, reqs, now).channels == c.channels
    decreases |reqs|
  {
    if reqs != [] {
      StartKeeps(INITIAL, c, reqs[0], now);
      AskAgainCounts(C.Start(c, reqs[0], now).0, reqs[1..], now);
      assert c.issued + reqs == (c.issued + [reqs[0]]) + reqs[1..];
    }
  }

  lemma {:induction false} AskOneMore(c: C.Client, reqs: seq<C.Request>, last: C.Request, now: nat)
    ensures AskAgain(c, reqs + [last], now) == C.Start(AskAgain(c, reqs, now), last, now).0
    decreases |reqs|
  {
    if reqs == [] {
      assert (reqs + [last])[1..] == [];
    } else {
      assert (reqs + [last])[1..] == reqs[1..] + [last];
      AskOneMore(C.Start(c, reqs[0], now).0, reqs[1..], last, now);
    }
  }

  // ---- Logging in, asking, creating --------------------------------------------------------------------------------

  /** The client's credentials pass the switch's check of this challenge. */
  predicate Passes(cfg: Config, who: C.Credentials, challenge: seq<byte>) {
    who.username != "" && cfg.hasStore && cfg.verify(challenge, who.sign(challenge), who.username, cfg.allowGuest)
  }

  function Says(now: nat, session: Option<Tag>, m: Message): Pdu { Pdu(PROTOCOL_VERSION, now, session, m) }

  function LoggedIn(tag: Tag): C.Client { C.FRESH_CLIENT.(open := true, session := Some(tag)) }

  lemma ClientLogsIn(who: C.Credentials, m: Message, now: nat)
    requires m.IdentityRequest? && m.reason != CHALLENGE_FAILURE && who.username != ""
    ensures var open := C.FRESH_CLIENT.(open := true);
      var reply := IdentityResponse(m.reqId, who.username, who.sign(m.challenge), m.newSession);
      && C.Act(who, C.FRESH_CLIENT, C.Connect, now) == (open, [Says(now, None, Heartbeat)])
      && var (c', sent) := C.Act(who, open, C.Hear(m), now);
      c' == LoggedIn(m.newSession) && Says(now, None, reply) in sent
  {
    var first := C.Sent(C.FRESH_CLIENT.(open := true), now,
                        IdentityResponse(m.reqId, who.username, who.sign(m.challenge), m.newSession));
    assert C.PendingJoins(map[], {}) == map[];
    assert C.Teardown(C.FRESH_CLIENT) == C.FRESH_CLIENT;
    assert first[0] == Says(now, None, IdentityResponse(m.reqId, who.username, who.sign(m.challenge), m.newSession));
  }

  lemma EventHeard(cfg: Config, who: map<Transport, C.Credentials>, y: System, t: Transport, p: Pdu, now: nat,
                   nonce: Nonce, m: Message)
    requires y.clients.Keys <= who.Keys && (t, p) in y.upward && GoodNonce(cfg, nonce)
    requires Step(cfg, y.switch, Receive(t, p, now, nonce)).1 == FromSwitch(t, now, m)
    ensures var y' := Next(cfg, who, y, SwitchHears(t, p, now, nonce));
      && y'.switch == Step(cfg, y.switch, Receive(t, p, now, nonce)).0
      && (t, Says(now, None, m)) in y'.downward
      && y'.clients == y.clients && y'.upward == y.upward && y.downward <= y'.downward
  {
    hide Step;
  }

  function FirstChallenge(nonce: Nonce): Message {
    IdentityRequest(1, UNRECOGNIZED_TRANSPORT, nonce.challenge, nonce.tag)
  }

  /** From the start, client `t` can connect, and its first heartbeat is answered with a challenge. */
  lemma GetsChallenge(cfg: Config, who: map<Transport, C.Credentials>, t: Transport, now: nat, nonce: Nonce)
    returns (y: System)
    requires t in who && GoodNonce(cfg, nonce) && who[t].username != ""
    ensures Reaches(cfg, who, Start(who.Keys), y) && y.clients.Keys == who.Keys
    ensures y.clients[t] == C.FRESH_CLIENT.(open := true)
    ensures (t, Says(now, None, FirstChallenge(nonce))) in y.downward
    ensures t in y.switch.clients && y.switch.sessions == map[] && y.switch.names == map[]
    ensures y.switch.clients[t].pending == Some(Pending(nonce.challenge, nonce.tag, 1))
  {
    hide Step, C.Act, Inv, Reaches;
    var y0 := Start(who.Keys);
    ReachesItself(cfg, who, y0);
    ClientLogsIn(who[t], FirstChallenge(nonce), now);
    var a1 := ClientActs(t, C.Connect, now);
    var y1 := Next(cfg, who, y0, a1);
    ReachesNext(cfg, who, y0, y0, a1);
    ReachedIsSound(cfg, who, y1);

    var beat := Says(now, None, Heartbeat);
    StrangersAreChallenged(cfg, y1.switch, Receive(t, beat, now, nonce));
    EventHeard(cfg, who, y1, t, beat, now, nonce, FirstChallenge(nonce));
    var a2 := SwitchHears(t, beat, now, nonce);
    y := Next(cfg, who, y1, a2);
    ReachesNext(cfg, who, y0, y1, a2);
  }

  /** From the start, client `t` can log in. */
  lemma LogsIn(cfg: Config, who: map<Transport, C.Credentials>, t: Transport, now: nat, nonce: Nonce)
    returns (y: System)
    requires t in who && GoodNonce(cfg, nonce) && Passes(cfg, who[t], nonce.challenge)
    ensures Reaches(cfg, who, Start(who.Keys), y) && y.clients.Keys == who.Keys
    ensures y.clients[t] == LoggedIn(nonce.tag) && nonce.tag in y.switch.sessions && y.switch.names == map[]
  {
    hide Step, C.Act, Inv, Reaches;
    var y0 := Start(who.Keys);
    var y2 := GetsChallenge(cfg, who, t, now, nonce);
    ClientLogsIn(who[t], FirstChallenge(nonce), now);
    var a3 := ClientActs(t, C.Hear(FirstChallenge(nonce)), now);
    var y3 := Next(cfg, who, y2, a3);
    ReachesNext(cfg, who, y0, y2, a3);
    ReachedIsSound(cfg, who, y3);

    var reply := Says(now, None, IdentityResponse(1, who[t].username, who[t].sign(nonce.challenge), nonce.tag));
    var e4 := Receive(t, reply, now, nonce);
    SoundIsConsistent(cfg, y3.switch);
    assert SwitchLogin.Accepts(cfg, y3.switch, e4, nonce.tag);
    SwitchLogin.AcceptedStep(cfg, y3.switch, e4, nonce.tag);
    var a4 := SwitchHears(t, reply, now, nonce);
    y := Next(cfg, who, y3, a4);
    ReachesNext(cfg, who, y0, y3, a4);
  }

  function Asked(tag: Tag, name: string, metadata: string): C.Client {
    var req := C.Join(name, metadata);
    LoggedIn(tag).(nextReqId := 2, pending := map[1 := req], issued := [req])
  }

  function Refused(tag: Tag, name: string, metadata: string): C.Client {
    var req := C.Join(name, metadata);
    LoggedIn(tag).(nextReqId := 2, aborted := map[1 := req], issued := [req])
  }

  function Creating(tag: Tag, name: string, metadata: string): C.Client {
    var req := C.Create(name, metadata);
    LoggedIn(tag).(nextReqId := 3, pending := map[2 := req], issued := [C.Join(name, metadata), req])
  }

  lemma ClientFallsBack(who: C.Credentials, tag: Tag, name: string, metadata: string, now: nat)
    ensures C.Act(who, LoggedIn(tag), C.AskFor(name, metadata), now)
         == (Asked(tag, name, metadata), [Says(now, Some(tag), JoinRequest(1, name, metadata))])
    ensures C.Act(who, Asked(tag, name, metadata), C.Hear(JoinResponse(1, 0, NOT_FOUND, None)), now)
         == (Refused(tag, name, metadata), [])
    ensures C.Act(who, Refused(tag, name, metadata), C.FallBack(1), now)
         == (Creating(tag, name, metadata), [Says(now, Some(tag), CreateRequest(2, name, metadata, Limits(0, 0)))])
  {
    var req := C.Join(name, metadata);
    assert map[1 := req] - {1} == map[];
    assert LoggedIn(tag).pending[1 := req] == map[1 := req];
    assert [] + [req] == [req] && [req] + [C.Create(name, metadata)] == [req, C.Create(name, metadata)];
  }

  /** The switch knows the session, and one channel, `cid`, made for `name`. */
  predicate HasOne(s: State, tag: Tag, cid: nat, name: string, metadata: string) {
    tag in s.sessions && s.names == map[name := cid] && HasChannel(s, cid, name, metadata)
  }

  /** Logged in to a switch without channels, the client asks for one, is refused, and creates it. */
  lemma Creates(cfg: Config, who: map<Transport, C.Credentials>, y0: System, t: Transport, tag: Tag, name: string,
                metadata: string, now: nat, nonce: Nonce)
    returns (y: System, cid: nat)
    requires Reaches(cfg, who, Start(who.Keys), y0) && y0.clients.Keys == who.Keys && t in who
    requires GoodNonce(cfg, nonce) && y0.clients[t] == LoggedIn(tag)
    requires tag in y0.switch.sessions && y0.switch.names == map[]
    ensures Reaches(cfg, who, Start(who.Keys), y) && y.clients.Keys == who.Keys
    ensures y.clients[t] == Creating(tag, name, metadata) && HasOne(y.switch, tag, cid, name, metadata)
    ensures (t, Says(now, Some(tag), JoinRequest(1, name, metadata))) in y.upward
  {
    hide Step, C.Act, Inv, Reaches, Asked, Refused, Creating, LoggedIn;
    var first := Start(who.Keys);
    ClientFallsBack(who[t], tag, name, metadata, now);
    var join := Says(now, Some(tag), JoinRequest(1, name, metadata));
    var a1 := ClientActs(t, C.AskFor(name, metadata), now);
    var y1 := Next(cfg, who, y0, a1);
    ReachesNext(cfg, who, first, y0, a1);
    ReachedIsSound(cfg, who, y1);

    var e2 := Receive(t, join, now, nonce);
    JoinAnswered(cfg, y1.switch, e2);
    SwitchHistory.TagStays(cfg, y1.switch, e2, tag);
    var no := JoinResponse(1, 0, NOT_FOUND, None);
    EventHeard(cfg, who, y1, t, join, now, nonce, no);
    var a2 := SwitchHears(t, join, now, nonce);
    var y2 := Next(cfg, who, y1, a2);
    ReachesNext(cfg, who, first, y1, a2);

    var a3 := ClientActs(t, C.Hear(no), now);
    var y3 := Next(cfg, who, y2, a3);
    ReachesNext(cfg, who, first, y2, a3);
    var a4 := ClientActs(t, C.FallBack(1), now);
    assert C.Possible(y3.clients[t], C.FallBack(1)) by { MayFallBack(tag, name, metadata); }
    var y4 := Next(cfg, who, y3, a4);
    ReachesNext(cfg, who, first, y3, a4);
    ReachedIsSound(cfg, who, y4);

    var create := Says(now, Some(tag), CreateRequest(2, name, metadata, Limits(0, 0)));
    var e5 := Receive(t, create, now, nonce);
    CreateAnswered(cfg, y4.switch, e5);
    SwitchHistory.TagStays(cfg, y4.switch, e5, tag);
    cid := y4.switch.nextChannelId;
    EventHeard(cfg, who, y4, t, create, now, nonce, CreateResponse(2, cid, OK));
    var a5 := SwitchHears(t, create, now, nonce);
    y := Next(cfg, who, y4, a5);
    ReachesNext(cfg, who, first, y4, a5);
  }

  lemma MayFallBack(tag: Tag, name: string, metadata: string)
    ensures C.Possible(Refused(tag, name, metadata), C.FallBack(1))
  {
  }

  /** The network delivers the first request again: now there is a positive answer under its id. */
  lemma AnsweredLate(cfg: Config, who: map<Transport, C.Credentials>, y0: System, t: Transport, tag: Tag, cid: nat,
                     name: string, metadata: string, now: nat, nonce: Nonce)
    returns (y: System, limits: Option<Limits>)
    requires Reaches(cfg, who, Start(who.Keys), y0) && y0.clients.Keys == who.Keys && t in who
    requires GoodNonce(cfg, nonce) && HasOne(y0.switch, tag, cid, name, metadata)
    requires (t, Says(now, Some(tag), JoinRequest(1, name, metadata))) in y0.upward
    ensures Reaches(cfg, who, Start(who.Keys), y) && y.clients == y0.clients
    ensures HasChannel(y.switch, cid, name, metadata)
    ensures (t, Says(now, None, JoinResponse(1, cid, OK, limits))) in y.downward
  {
    hide Step, Inv, Reaches;
    var join := Says(now, Some(tag), JoinRequest(1, name, metadata));
    var e := Receive(t, join, now, nonce);
    ReachedIsSound(cfg, who, y0);
    JoinAnswered(cfg, y0.switch, e);
    limits := Some(y0.switch.channels[cid].limits);
    EventHeard(cfg, who, y0, t, join, now, nonce, JoinResponse(1, cid, OK, limits));
    var a := SwitchHears(t, join, now, nonce);
    y := Next(cfg, who, y0, a);
    ReachesNext(cfg, who, Start(who.Keys), y0, a);
  }

  /** A client can ask as often as it likes. */
  lemma {:induction false} AsksOn(cfg: Config, who: map<Transport, C.Credentials>, y0: System, t: Transport,
                                  name: string, metadata: string, k: nat, now: nat)
    returns (y: System)
    requires Reaches(cfg, who, Start(who.Keys), y0) && y0.clients.Keys == who.Keys && t in who
    ensures Reaches(cfg, who, Start(who.Keys), y) && y.clients.Keys == who.Keys
    ensures y.switch == y0.switch && y.downward == y0.downward
    ensures y.clients[t] == AskAgain(y0.clients[t], seq(k, _ => C.Join(name, metadata)), now)
  {
    hide Reaches, C.Start, AskAgain;
    var req := C.Join(name, metadata);
    if k == 0 {
      y := y0;
      AskNothing(y0.clients[t], now);
      assert seq(0, _ => req) == [];
    } else {
      var y1 := AsksOn(cfg, who, y0, t, name, metadata, k - 1, now);
      var a := ClientActs(t, C.AskFor(name, metadata), now);
      y := Next(cfg, who, y1, a);
      ReachesNext(cfg, who, Start(who.Keys), y1, a);
      assert seq(k, _ => req) == seq(k - 1, _ => req) + [req];
      AskOneMore(y0.clients[t], seq(k - 1, _ => req), req, now);
    }
  }

  lemma AskNothing(c: C.Client, now: nat)
    ensures AskAgain(c, [], now) == c
  {
  }

  /**
   * The bound is sharp. A client with valid credentials, alone on the network, can log in, ask for a channel, create
   * it and go on asking for another one. Its first request reaches the switch twice; when the second answer comes back
   * after request 65536, which has the same id, the client holds a handle under the wrong name.
   */
  lemma IdReuseMisleads(cfg: Config, who: map<Transport, C.Credentials>, t: Transport, name: string, other: string,
                        metadata: string, now: nat, nonce: Nonce)
    requires t in who && GoodNonce(cfg, nonce) && Passes(cfg, who[t], nonce.challenge) && name != other
    ensures exists y ::
              && Reaches(cfg, who, Start(who.Keys), y) && t in y.clients
              && |y.clients[t].issued| == C.MAX_REQ_ID + 1 && !HandlesMatch(y.switch, y.clients[t])
  {
    hide Reaches, C.Act, Step, AskAgain;
    var y1 := LogsIn(cfg, who, t, now, nonce);
    var y2, cid := Creates(cfg, who, y1, t, nonce.tag, name, metadata, now, nonce);
    var y3, limits := AnsweredLate(cfg, who, y2, t, nonce.tag, cid, name, metadata, now, nonce);
    var k := C.MAX_REQ_ID - 1;
    var y4 := AsksOn(cfg, who, y3, t, other, metadata, k, now);
    LastAskIsFirst(Creating(nonce.tag, name, metadata), other, metadata, now);
    var c := y4.clients[t];
    var late := JoinResponse(1, cid, OK, limits);
    var a := ClientActs(t, C.Hear(late), now);
    assert (t, Says(now, None, late)) in y4.downward;
    var y := Next(cfg, who, y4, a);
    ReachesNext(cfg, who, Start(who.Keys), y4, a);
    HearGrants(c, who[t], 1, cid, limits, now);
    HearIssuesNothing(who[t], c, late, now);
    assert y.clients[t] == C.OnPdu(who[t], c, late, now).0 by { HearIsOnPdu(who[t], c, late, now); }
    assert y.clients[t].channels[cid].name == other;
    assert !HandlesMatch(y.switch, y.clients[t]);
  }

  lemma HearIsOnPdu(who: C.Credentials, c: C.Client, m: Message, now: nat)
    ensures C.Act(who, c, C.Hear(m), now) == C.OnPdu(who, c, m, now)
  {
  }

  /** After two requests, the 65534th more is number 65536 and has id 1 again. */
  lemma LastAskIsFirst(c: C.Client, name: string, metadata: string, now: nat)
    requires IdsInStep(c) && |c.issued| == 2
    ensures var c' := AskAgain(c, seq(C.MAX_REQ_ID - 1, _ => C.Join(name, metadata)), now);
      && |c'.issued| == C.MAX_REQ_ID + 1 && 1 in c'.pending && c'.pending[1] == C.Join(name, metadata)
  {
    hide AskAgain;
    var req := C.Join(name, metadata);
    var before := seq(C.MAX_REQ_ID - 2, _ => req);
    assert seq(C.MAX_REQ_ID - 1, _ => req) == before + [req];
    AskOneMore(c, before, req, now);
    AskAgainCounts(c, before, now);
    var c1 := AskAgain(c, before, now);
    assert |c1.issued| == C.MAX_REQ_ID && c1.nextReqId == 1;
  }
}
