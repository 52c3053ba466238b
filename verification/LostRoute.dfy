/** A run of the switch in which a live member loses its route, and a relay does not reach it. */
module LostRoute {
  import opened Wrappers
  import opened Protocol
  import opened SwitchModel
  import opened SwitchInvariant
  import opened SwitchRelay

  const K: Transport := (1, 1, 1)
  const L: Transport := (2, 2, 2)

  function TagOf(b: byte): Tag { seq(TAG_BYTES, _ => b) }
  function Draw(b: byte): Nonce { Nonce(seq(8, _ => 0), TagOf(b), 7) }
  function At(t: Transport, session: Option<Tag>, m: Message, b: byte): Event {
    Receive(t, Pdu(PROTOCOL_VERSION, 1, session, m), 1, Draw(b))
  }

  const ANY_ANSWER := Config(true, (c, a, u, g) => true, true, 0, Limits(0, 0), 0)

  /** "a" logs in from K and makes a channel, "b" logs in from L and joins it. */
  const A_ASKS := At(K, None, Heartbeat, 1)
  const A_ANSWERS := At(K, None, IdentityResponse(1, "a", [], TagOf(1)), 2)
  const A_CREATES := At(K, Some(TagOf(1)), CreateRequest(1, "c", "", Limits(0, 0)), 3)
  const B_ASKS := At(L, None, Heartbeat, 4)
  const B_ANSWERS := At(L, None, IdentityResponse(2, "b", [], TagOf(4)), 5)
  const B_JOINS := At(L, Some(TagOf(4)), JoinRequest(1, "c", ""), 6)
  /** "d" logs in from K too; then K is forgotten, and "b" streams. */
  const D_ASKS := At(K, Some(TagOf(9)), Heartbeat, 7)
  const D_ANSWERS := At(K, None, IdentityResponse(3, "d", [], TagOf(7)), 8)
  const B_STREAMS := At(L, Some(TagOf(4)), StreamData("", 0, 1, []), 10)

  const A_IN := map[TagOf(1) := Session("a", Some(K), TagOf(1), 7)]
  const AB_IN := A_IN[TagOf(4) := Session("b", Some(L), TagOf(4), 7)]
  const ABD_IN := AB_IN[TagOf(7) := Session("d", Some(K), TagOf(7), 7)]

  function Challenged(session: Option<Tag>, b: byte, reqId: nat): Client {
    Client(session, Some(Pending(Draw(b).challenge, TagOf(b), reqId)), 0)
  }

  function Owned(b: byte): Client { Client(Some(TagOf(b)), None, 0) }

  function OneChannel(members: set<Tag>): map<nat, Channel> {
    map[1 := Channel(1, "c", "", Limits(0, 0), members, RateWindow(0, 0))]
  }

  const NAMED := map["c" := 1]

  function S1(): State { State(map[K := Challenged(None, 1, 1)], map[], map[], map[], 2, 1) }
  function S2(): State { State(map[K := Owned(1)], A_IN, map[], map[], 2, 1) }
  function S3(): State { State(map[K := Owned(1)], A_IN, OneChannel({TagOf(1)}), NAMED, 2, 2) }
  function S4(): State { S3().(clients := map[K := Owned(1), L := Challenged(None, 4, 2)], nextReqId := 3) }
  function S5(): State { S4().(clients := map[K := Owned(1), L := Owned(4)], sessions := AB_IN) }
  function S6(): State { S5().(channels := OneChannel({TagOf(1), TagOf(4)})) }
  function S7(): State {
    S6().(clients := map[K := Challenged(Some(TagOf(1)), 7, 3), L := Owned(4)], nextReqId := 4)
  }
  function S8(): State { S7().(clients := map[K := Owned(7), L := Owned(4)], sessions := ABD_IN) }
  function S9(): State { S8().(clients := map[L := Owned(4)], sessions := AB_IN) }

  lemma TagsDiffer()
    ensures forall a: byte, b: byte :: TagOf(a) == TagOf(b) ==> a == b
  {
    forall a: byte, b: byte | TagOf(a) == TagOf(b) ensures a == b {
      assert TagOf(a)[0] == a && TagOf(b)[0] == b;
    }
  }

  lemma FirstLogin()
    ensures Step(ANY_ANSWER, INITIAL, A_ASKS).0 == S1() && Step(ANY_ANSWER, S1(), A_ANSWERS).0 == S2()
  {
  }

  lemma ChannelIsMade()
    ensures Step(ANY_ANSWER, S2(), A_CREATES).0 == S3()
  {
  }

  lemma SecondLogin()
    ensures Step(ANY_ANSWER, S3(), B_ASKS).0 == S4() && Step(ANY_ANSWER, S4(), B_ANSWERS).0 == S5()
  {
    TagsDiffer();
  }

  lemma ChannelIsJoined()
    ensures Step(ANY_ANSWER, S5(), B_JOINS).0 == S6()
  {
    hide HandleIdentity, HandleStream, HandleCreate, HandleLeave, HandleHeartbeat, Challenge;
    TagsDiffer();
    var s := Touch(S5(), L);
    assert s == S5() && Rebind(s, TagOf(4), L) == s;
    assert {TagOf(1)} + {TagOf(4)} == {TagOf(1), TagOf(4)};
    var c := s.channels[1].(members := {TagOf(1), TagOf(4)});
    assert s.channels[1 := c] == OneChannel({TagOf(1), TagOf(4)});
  }

  lemma ThirdIsChallenged()
    ensures Step(ANY_ANSWER, S6(), D_ASKS).0 == S7()
  {
    hide Dispatch;
    TagsDiffer();
    assert Touch(S6(), K) == S6();
    assert S6().clients[K := Challenged(Some(TagOf(1)), 7, 3)] == S7().clients;
  }

  lemma ThirdLogin()
    ensures Step(ANY_ANSWER, S7(), D_ANSWERS).0 == S8()
  {
    hide Challenge, HandleStream, HandleCreate, HandleJoin, HandleLeave, HandleHeartbeat, Evict, Rebind, OneChannel;
    TagsDiffer();
    assert Touch(S7(), K) == S7();
  }

  lemma ForgetThirdLogin()
    ensures Step(ANY_ANSWER, S8(), Forget(K)).0 == S9()
  {
    hide OnMessage, RemoveEverywhere, OneChannel;
    ThirdIsRemoved();
    NoneOfThirds();
    assert S8().clients - {K} == S9().clients;
  }

  lemma ThirdIsRemoved()
    ensures ABD_IN - {TagOf(7)} == AB_IN
  {
    TagsDiffer();
  }

  lemma NoneOfThirds()
    ensures RemoveEverywhere(OneChannel({TagOf(1), TagOf(4)}), TagOf(7)) == OneChannel({TagOf(1), TagOf(4)})
  {
    TagsDiffer();
    assert {TagOf(1), TagOf(4)} - {TagOf(7)} == {TagOf(1), TagOf(4)};
  }

  /** Each event leads from the state of its number to the next. */
  lemma OneMoreEvent(run: seq<Event>, e: Event, s: State, s': State)
    requires After(ANY_ANSWER, run) == s && Step(ANY_ANSWER, s, e).0 == s'
    ensures After(ANY_ANSWER, run + [e]) == s'
  {
    hide Step;
    assert (run + [e])[..|run|] == run;
  }

  const MADE := [A_ASKS, A_ANSWERS, A_CREATES]
  const JOINED := MADE + [B_ASKS, B_ANSWERS, B_JOINS]
  const LOSING := JOINED + [D_ASKS, D_ANSWERS, Forget(K)]

  lemma NothingYet()
    ensures After(ANY_ANSWER, []) == INITIAL
  {
  }

  lemma ThreeMoreEvents(run: seq<Event>, a: Event, b: Event, c: Event, s0: State, s1: State, s2: State, s3: State)
    requires After(ANY_ANSWER, run) == s0 && Step(ANY_ANSWER, s0, a).0 == s1
    requires Step(ANY_ANSWER, s1, b).0 == s2 && Step(ANY_ANSWER, s2, c).0 == s3
    ensures After(ANY_ANSWER, run + [a, b, c]) == s3
  {
    hide Step, After;
    OneMoreEvent(run, a, s0, s1);
    OneMoreEvent(run + [a], b, s1, s2);
    OneMoreEvent(run + [a] + [b], c, s2, s3);
    assert run + [a, b, c] == run + [a] + [b] + [c];
  }

  lemma LosingEnds()
    ensures After(ANY_ANSWER, LOSING) == S9()
  {
    hide Step, After, S1, S2, S3, S4, S5, S6, S7, S8, S9;
    NothingYet();
    FirstLogin();
    ChannelIsMade();
    SecondLogin();
    ChannelIsJoined();
    ThirdIsChallenged();
    ThirdLogin();
    ForgetThirdLogin();
    ThreeMoreEvents([], A_ASKS, A_ANSWERS, A_CREATES, INITIAL, S1(), S2(), S3());
    assert [] + MADE == MADE;
    ThreeMoreEvents(MADE, B_ASKS, B_ANSWERS, B_JOINS, S3(), S4(), S5(), S6());
    ThreeMoreEvents(JOINED, D_ASKS, D_ANSWERS, Forget(K), S6(), S7(), S8(), S9());
  }

  /** The tags drawn, in order; 0 stands for the event that draws none. */
  const DRAWN: seq<byte> := [1, 2, 3, 4, 5, 6, 7, 8, 0, 10]

  lemma LosingDraws()
    ensures |LOSING + [B_STREAMS]| == |DRAWN|
    ensures forall i | 0 <= i < |DRAWN| && (LOSING + [B_STREAMS])[i].Receive? ::
      (LOSING + [B_STREAMS])[i].nonce == Draw(DRAWN[i])
  {
  }

  lemma LosingIsGood()
    ensures GoodRun(ANY_ANSWER, LOSING + [B_STREAMS]) && FreshTags(LOSING + [B_STREAMS])
    ensures GoodRun(ANY_ANSWER, LOSING)
  {
    hide TagOf;
    var run := LOSING + [B_STREAMS];
    TagsDiffer();
    LosingDraws();
    DrawsAreGood();
    assert forall i | 0 <= i < |run| :: GoodEvent(ANY_ANSWER, run[i]);
    assert forall i | 0 <= i < |LOSING| :: LOSING[i] == run[i];
  }

  lemma DrawsAreGood()
    ensures forall b: byte :: GoodNonce(ANY_ANSWER, Draw(b))
  {
  }

  /**
   * "A relay addresses every other live member" fails in a reachable state: "a" and "d" logged in on one transport,
   * which was then forgotten. "a" is still live and a member, but what "b" streams is relayed to nobody.
   */
  lemma LiveMemberWithoutRoute()
    ensures GoodRun(ANY_ANSWER, LOSING + [B_STREAMS]) && FreshTags(LOSING + [B_STREAMS])
    ensures var s := After(ANY_ANSWER, LOSING);
      var out := Step(ANY_ANSWER, s, B_STREAMS).1;
      && SpeakerOf(s, B_STREAMS) == Some(TagOf(4)) && TagOf(4) != TagOf(1)
      && !Stale(s, TagOf(1)) && 1 in s.channels && s.channels[1].members == {TagOf(1), TagOf(4)}
      && out.Relay? && out.recipients == map[]
  {
    hide Step, After, GoodRun, FreshTags, Inv, GoodEvent;
    LosingEnds();
    LosingIsGood();
    RunKeeps(ANY_ANSWER, LOSING);
    StreamIsRelayed();
    StreamReachesNobody();
  }

  lemma StreamIsRelayed()
    ensures MayRelay(ANY_ANSWER, S9(), B_STREAMS) && SpeakerOf(S9(), B_STREAMS) == Some(TagOf(4))
    ensures TagOf(4) != TagOf(1) && !Stale(S9(), TagOf(1)) && S9().channels[1].members == {TagOf(1), TagOf(4)}
  {
    TagsDiffer();
  }

  lemma StreamReachesNobody()
    requires Inv(ANY_ANSWER, S9())
    ensures Step(ANY_ANSWER, S9(), B_STREAMS).1.Relay? && Step(ANY_ANSWER, S9(), B_STREAMS).1.recipients == map[]
  {
    hide Step, Inv;
    StreamIsRelayed();
    ExactRelay(ANY_ANSWER, S9(), B_STREAMS);
    ReceiveRoutes(ANY_ANSWER, S9(), B_STREAMS, TagOf(1));
    var out := Step(ANY_ANSWER, S9(), B_STREAMS).1;
    assert out.recipients.Keys == {};
  }

  /** A stream packet of another session gives a session without a route none. */
  lemma ReceiveRoutes(cfg: Config, s: State, e: Event, tag: Tag)
    requires Inv(cfg, s) && e.Receive? && e.pdu.message.StreamData? && SpeakerOf(s, e).Some?
    requires SpeakerOf(s, e).value != tag && tag in s.sessions && !HasRoute(s, tag)
    requires s.sessions[tag].transport != Some(e.from)
    ensures !HasRoute(Step(cfg, s, e).0, tag)
  {
    hide Step, HandleStream, Inv;
    var s2, rx := Prepared(cfg, s, e);
    StreamKeepsContexts(cfg, s2, e.from, rx.value, e.pdu, e.now, e.nonce);
  }

  lemma StreamKeepsContexts(cfg: Config, s: State, t: Transport, sid: Tag, pdu: Pdu, now: nat, n: Nonce)
    requires pdu.message.StreamData? && sid in s.sessions && t in s.clients
    ensures HandleStream(cfg, s, t, sid, pdu, now, n).0.sessions == s.sessions
    ensures HandleStream(cfg, s, t, sid, pdu, now, n).0.clients.Keys == s.clients.Keys
  {
  }
}
