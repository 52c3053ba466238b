/** What the switch answers to each request, read off the state before it arrives. */
module SwitchAnswers {
  import opened Wrappers
  import opened Protocol
  import opened SwitchModel
  import opened SwitchInvariant
  import opened SwitchRelay
  import opened SwitchHistory

  /** The datagram with which the switch itself speaks to `t`. */
  function FromSwitch(t: Transport, now: nat, m: Message): Output {
    Reply(t, Pdu(PROTOCOL_VERSION, now, None, m))
  }

  /** A request that needs a session. */
  predicate NeedsSession(m: Message) {
    m.Heartbeat? || m.CreateRequest? || m.JoinRequest? || m.LeaveRequest? || m.StreamData?
  }

  /**
   * A request without a session is answered with a challenge, which is then the one pending at its source, and
   * nothing else changes for sessions and channels.
   */
  lemma StrangersAreChallenged(cfg: Config, s: State, e: Event)
    requires Inv(cfg, s) && GoodEvent(cfg, e) && e.Receive? && NeedsSession(e.pdu.message) && SpeakerOf(s, e).None?
    ensures var (s', out) := Step(cfg, s, e);
      var reason := if e.pdu.session.Some? then SESSION_NOT_AVAILABLE else UNRECOGNIZED_TRANSPORT;
      && out == FromSwitch(e.from, e.now, IdentityRequest(s.nextReqId, reason, e.nonce.challenge, e.nonce.tag))
      && e.from in s'.clients
      && s'.clients[e.from].pending == Some(Pending(e.nonce.challenge, e.nonce.tag, s.nextReqId))
      && s'.sessions == s.sessions && s'.channels == s.channels && s'.names == s.names
  {
    hide Inv, HandleIdentity, HandleStream, HandleJoin, HandleCreate, HandleLeave, HandleHeartbeat;
  }

  /** A heartbeat of a session is answered with a heartbeat, to where it came from, and changes no channel. */
  lemma HeartbeatAnswered(cfg: Config, s: State, e: Event)
    requires Inv(cfg, s) && e.Receive? && e.pdu.message.Heartbeat? && SpeakerOf(s, e).Some?
    ensures var (s', out) := Step(cfg, s, e);
      && out == Reply(e.from, Pdu(e.pdu.version, e.now, None, Heartbeat))
      && s'.channels == s.channels && s'.names == s.names && s'.sessions.Keys == s.sessions.Keys
  {
    hide Inv, Step, HandleIdentity, HandleStream, HandleJoin, HandleCreate, HandleLeave;
    var s2 := Dispatched(cfg, s, e);
  }

  /** A challenge has the configured number of bytes if that is between 8 and 2048, and the nearer bound otherwise. */
  lemma ChallengeLengthIsClamped(cfg: Config)
    ensures 8 <= ChallengeLength(cfg) <= 2048
    ensures 8 <= cfg.challengeBytes <= 2048 ==> ChallengeLength(cfg) == cfg.challengeBytes
    ensures cfg.challengeBytes < 8 ==> ChallengeLength(cfg) == 8
    ensures cfg.challengeBytes > 2048 ==> ChallengeLength(cfg) == 2048
  {
  }

  // ---- Request ids of challenges ----------------------------------------------------------------------------------

  predicate IsChallenge(out: Output) {
    out.Reply? && out.pdu.message.IdentityRequest?
  }

  /** A challenge carries the next request id and takes it; nothing else does. */
  predicate TakesId(s: State, r: (State, Output)) {
    if IsChallenge(r.1) then r.1.pdu.message.reqId == s.nextReqId && r.0.nextReqId == NextReqId(s.nextReqId)
    else r.0.nextReqId == s.nextReqId
  }

  lemma ChallengeTakesId(cfg: Config, s: State, t: Transport, reason: Reason, now: nat, n: Nonce)
    requires GoodNonce(cfg, n)
    ensures TakesId(s, Challenge(cfg, s, t, reason, now, n))
  {
  }

  lemma DispatchTakesId(cfg: Config, s: State, t: Transport, rx: Option<Tag>, pdu: Pdu, now: nat, n: Nonce)
    requires GoodNonce(cfg, n)
    ensures TakesId(s, Dispatch(cfg, s, t, rx, pdu, now, n))
  {
    hide Challenge, WireSize, RateAllow, Recipients, Kept, MergeLimits;
    ChallengeTakesId(cfg, s, t, CHALLENGE_FAILURE, now, n);
    ChallengeTakesId(cfg, s, t, SESSION_NOT_AVAILABLE, now, n);
    ChallengeTakesId(cfg, s, t, UNRECOGNIZED_TRANSPORT, now, n);
  }

  lemma StepTakesId(cfg: Config, s: State, e: Event)
    requires GoodEvent(cfg, e)
    ensures TakesId(s, Step(cfg, s, e))
  {
    hide Dispatch, Challenge;
    if e.Receive? {
      var s1 := Touch(s, e.from);
      var rx := Speaker(s1, e.from, e.pdu);
      if !e.pdu.message.IdentityResponse? && e.pdu.session.Some? {
        if e.pdu.session.value in s.sessions {
          DispatchTakesId(cfg, Rebind(s1, e.pdu.session.value, e.from), e.from, rx, e.pdu, e.now, e.nonce);
        } else {
          ChallengeTakesId(cfg, s1, e.from, SESSION_NOT_AVAILABLE, e.now, e.nonce);
        }
      } else {
        DispatchTakesId(cfg, s1, e.from, rx, e.pdu, e.now, e.nonce);
      }
    }
  }

  /** How many challenges were sent in a run. */
  function Challenges(cfg: Config, run: seq<Event>): nat {
    if run == [] then 0
    else
      var before := run[..|run| - 1];
      Challenges(cfg, before) + if IsChallenge(Step(cfg, After(cfg, before), run[|run| - 1]).1) then 1 else 0
  }

  /** Challenges are numbered in turn, 1 to 65535 and round again, over all transports. */
  lemma {:induction false} ChallengesAreNumbered(cfg: Config, run: seq<Event>, e: Event)
    requires GoodRun(cfg, run) && GoodEvent(cfg, e)
    ensures After(cfg, run).nextReqId == 1 + Challenges(cfg, run) % 65535
    ensures var out := Step(cfg, After(cfg, run), e).1;
      IsChallenge(out) ==> out.pdu.message.reqId == 1 + Challenges(cfg, run) % 65535
    decreases |run|
  {
    hide Step, IsChallenge;
    StepTakesId(cfg, After(cfg, run), e);
    if run != [] {
      ChallengesAreNumbered(cfg, run[..|run| - 1], run[|run| - 1]);
      StepTakesId(cfg, After(cfg, run[..|run| - 1]), run[|run| - 1]);
      NextInTurn(Challenges(cfg, run[..|run| - 1]));
    }
  }

  lemma NextInTurn(n: nat)
    ensures NextReqId(1 + n % 65535) == 1 + (n + 1) % 65535
  {
    if n % 65535 == 65534 {
      assert (n + 1) % 65535 == 0;
    } else {
      assert (n + 1) % 65535 == n % 65535 + 1;
    }
  }

  // ---- Create -------------------------------------------------------------------------------------------------

  /** `cap` is the tightest of two caps, where zero means none. */
  predicate Tightest(cap: nat, a: nat, b: nat) {
    && (cap == 0 <==> a == 0 && b == 0)
    && (a > 0 ==> cap <= a) && (b > 0 ==> cap <= b)
    && (cap == a || cap == b)
  }

  lemma MergedIsTightest(cfg: Config, requested: Limits)
    ensures var merged := MergeLimits(cfg, requested);
      && Tightest(merged.pktRateLimit, requested.pktRateLimit, cfg.sharedLimits.pktRateLimit)
      && Tightest(merged.maxPayloadSize, requested.maxPayloadSize, cfg.sharedLimits.maxPayloadSize)
  {
  }

  /** A create is granted exactly when the name is free; the new channel is what was asked for, capped as told. */
  lemma CreateAnswered(cfg: Config, s: State, e: Event)
    requires Inv(cfg, s) && e.Receive? && e.pdu.message.CreateRequest? && SpeakerOf(s, e).Some?
    ensures var (s', out) := Step(cfg, s, e);
      var (m, sid) := (e.pdu.message, SpeakerOf(s, e).value);
      if m.channelName in s.names then
        out == FromSwitch(e.from, e.now, CreateResponse(m.reqId, 0, EXIST)) && s'.channels == s.channels
      else
        && out == FromSwitch(e.from, e.now, CreateResponse(m.reqId, s.nextChannelId, OK))
        && s.nextChannelId !in s.channels && s.nextChannelId in s'.channels
        && s'.names == s.names[m.channelName := s.nextChannelId]
        && var c := s'.channels[s.nextChannelId];
        && s'.channels == s.channels[s.nextChannelId := c]
        && (c.id, c.name, c.metadata, c.members) == (s.nextChannelId, m.channelName, m.metadata, {sid})
        && Tightest(c.limits.pktRateLimit, m.limits.pktRateLimit, cfg.sharedLimits.pktRateLimit)
        && Tightest(c.limits.maxPayloadSize, m.limits.maxPayloadSize, cfg.sharedLimits.maxPayloadSize)
  {
    hide Inv, Step, MergeLimits, Tightest, HandleIdentity, HandleStream, HandleJoin, HandleLeave, HandleHeartbeat;
    var s2 := Dispatched(cfg, s, e);
    IdsAreFree(cfg, s);
    MergedIsTightest(cfg, e.pdu.message.limits);
  }

  lemma IdsAreFree(cfg: Config, s: State)
    requires Inv(cfg, s)
    ensures s.nextChannelId !in s.channels
  {
    forall c | c in s.channels ensures c < s.nextChannelId {
      assert GoodChannel(cfg, s, c, s.channels[c]);
    }
  }

  // ---- Join and leave -------------------------------------------------------------------------------------------

  lemma NamedChannel(cfg: Config, s: State, name: string)
    requires Inv(cfg, s) && name in s.names
    ensures s.names[name] in s.channels && s.channels[s.names[name]].id == s.names[name]
    ensures s.channels[s.names[name]].name == name
  {
  }

  /** A join is granted exactly when a channel of that name exists with that metadata; only then it adds a member. */
  lemma JoinAnswered(cfg: Config, s: State, e: Event)
    requires Inv(cfg, s) && e.Receive? && e.pdu.message.JoinRequest? && SpeakerOf(s, e).Some?
    ensures Step(cfg, s, e).0.names == s.names
    ensures var (s', out) := Step(cfg, s, e);
      var (m, sid) := (e.pdu.message, SpeakerOf(s, e).value);
      if m.channelName !in s.names then
        out == FromSwitch(e.from, e.now, JoinResponse(m.reqId, 0, NOT_FOUND, None)) && s'.channels == s.channels
      else
        var cid := s.names[m.channelName];
        && cid in s.channels && s.channels[cid].name == m.channelName
        && var c := s.channels[cid];
        if c.metadata != m.metadata then
          out == FromSwitch(e.from, e.now, JoinResponse(m.reqId, cid, META_MISMATCH, None)) && s'.channels == s.channels
        else
          && out == FromSwitch(e.from, e.now, JoinResponse(m.reqId, cid, OK, Some(c.limits)))
          && s'.channels == s.channels[cid := c.(members := c.members + {sid})]
  {
    hide Inv, Step, HandleIdentity, HandleStream, HandleCreate, HandleLeave, HandleHeartbeat;
    var s2 := Dispatched(cfg, s, e);
    if e.pdu.message.channelName in s.names {
      NamedChannel(cfg, s, e.pdu.message.channelName);
      var c := s.channels[s.names[e.pdu.message.channelName]];
      LiveIsKept(cfg, s2, c, SpeakerOf(s, e).value);
      assert s2.channels[c.id := c] == s2.channels;
    }
  }

  lemma LiveIsKept(cfg: Config, s: State, c: Channel, sid: Tag)
    requires Inv(cfg, s) && sid in s.sessions
    ensures Prune(s, c, sid) == c
  {
  }

  /** An ignored indication is due to the source of the event, unless its last one is less than a cooldown ago. */
  function Ignored(cfg: Config, s: State, e: Event, reason: Reason): Output
    requires e.Receive?
  {
    var last := ClientAt(s, e.from).lastIgnoreUs;
    if last > 0 && cfg.cooldownMs > 0 && e.now - last < cfg.cooldownMs * 1000 then Silent
    else Reply(e.from, Pdu(e.pdu.version, e.now, None, IgnoredIndication(reason, "")))
  }

  lemma IgnoreIsDue(cfg: Config, s: State, e: Event, s2: State, reason: Reason)
    requires e.Receive? && e.from in s2.clients
    requires s2.clients[e.from].lastIgnoreUs == ClientAt(s, e.from).lastIgnoreUs
    ensures Ignore(cfg, s2, e.from, e.pdu, reason, e.now).1 == Ignored(cfg, s, e, reason)
    ensures Ignore(cfg, s2, e.from, e.pdu, reason, e.now).0.channels == s2.channels
  {
  }

  /** A leave is confirmed to a member, who is none any more; others are due an ignored indication. */
  lemma LeaveAnswered(cfg: Config, s: State, e: Event)
    requires Inv(cfg, s) && e.Receive? && e.pdu.message.LeaveRequest? && SpeakerOf(s, e).Some?
    ensures var (s', out) := Step(cfg, s, e);
      var (m, sid) := (e.pdu.message, SpeakerOf(s, e).value);
      if m.channelId in s.channels && sid in s.channels[m.channelId].members then
        var c := s.channels[m.channelId];
        && out == FromSwitch(e.from, e.now, LeaveResponse(m.reqId))
        && s'.channels == s.channels[m.channelId := c.(members := c.members - {sid})]
      else
        out == Ignored(cfg, s, e, NOT_JOINED) && s'.channels == s.channels
  {
    hide Inv, Step, Ignore, Ignored, HandleIdentity, HandleStream, HandleCreate, HandleJoin, HandleHeartbeat;
    var s2 := Dispatched(cfg, s, e);
    IgnoreIsDue(cfg, s, e, s2, NOT_JOINED);
  }

  /** A stream packet that is not relayed: what its sender is told, and that no channel loses or gains a member. */
  lemma StreamRefusalAnswered(cfg: Config, s: State, e: Event)
    requires Inv(cfg, s) && e.Receive? && e.pdu.message.StreamData? && SpeakerOf(s, e).Some? && !MayRelay(cfg, s, e)
    ensures var out := Step(cfg, s, e).1;
      var (cid, sid) := (e.pdu.message.channelId, SpeakerOf(s, e).value);
      if cid !in s.channels then out == Ignored(cfg, s, e, UNKNOWN_CHANNEL)
      else if sid !in s.channels[cid].members then out == Ignored(cfg, s, e, NOT_JOINED)
      else out == Silent
  {
    hide Inv, Step, Ignore, Ignored, MayRelay, HandleStream, HandleIdentity, HandleLeave, HandleCreate, HandleJoin,
         HandleHeartbeat;
    var s2 := Dispatched(cfg, s, e);
    var cid, sid := e.pdu.message.channelId, SpeakerOf(s, e).value;
    StreamRefusal(cfg, s2, e.from, sid, e.pdu, e.now, e.nonce);
    IgnoreIsDue(cfg, s, e, s2, UNKNOWN_CHANNEL);
    IgnoreIsDue(cfg, s, e, s2, NOT_JOINED);
    ExactRelay(cfg, s, e);
  }

  lemma StreamRefusal(cfg: Config, s: State, t: Transport, sid: Tag, pdu: Pdu, now: nat, n: Nonce)
    requires Inv(cfg, s) && pdu.message.StreamData? && sid in s.sessions
    ensures var out := HandleStream(cfg, s, t, sid, pdu, now, n).1;
      var cid := pdu.message.channelId;
      if cid !in s.channels then out == Ignore(cfg, s, t, pdu, UNKNOWN_CHANNEL, now).1
      else if sid !in s.channels[cid].members then out == Ignore(cfg, s, t, pdu, NOT_JOINED, now).1
      else out.Silent? || out.Relay?
  {
    hide Ignore, RateAllow, WireSize, Challenge, ChannelsOk, NamesOk, PendingsOk, ContextsOk;
    if pdu.message.channelId in s.channels {
      var c := s.channels[pdu.message.channelId];
      assert Prune(s, c, sid) == c;
      assert s.(channels := s.channels[pdu.message.channelId := c]) == s;
    }
  }

  // ---- Ignored indications --------------------------------------------------------------------------------------

  predicate SaysIgnored(out: Output, t: Transport) {
    out.Reply? && out.to == t && out.pdu.message.IgnoredIndication?
  }

  /** When an ignored indication goes out to `u` in the step of `t`, and how its time is remembered. */
  predicate IgnoresRarely(cfg: Config, s: State, r: (State, Output), t: Transport, u: Transport, now: nat) {
    var last := ClientAt(s, u).lastIgnoreUs;
    && (SaysIgnored(r.1, u) ==> u == t && u in r.0.clients)
    && (SaysIgnored(r.1, u) && cfg.cooldownMs > 0 ==>
          (last > 0 ==> now - last >= cfg.cooldownMs * 1000) && r.0.clients[u].lastIgnoreUs == now)
    && (u in r.0.clients && !SaysIgnored(r.1, u) ==> r.0.clients[u].lastIgnoreUs == last)
  }

  lemma ChallengeIgnores(cfg: Config, s: State, t: Transport, reason: Reason, now: nat, n: Nonce, u: Transport)
    ensures IgnoresRarely(cfg, s, Challenge(cfg, s, t, reason, now, n), t, u, now)
  {
  }

  lemma IgnoreIgnores(cfg: Config, s: State, t: Transport, pdu: Pdu, reason: Reason, now: nat, u: Transport)
    requires t in s.clients
    ensures IgnoresRarely(cfg, s, Ignore(cfg, s, t, pdu, reason, now), t, u, now)
  {
  }

  lemma IdentityIgnores(cfg: Config, s: State, t: Transport, pdu: Pdu, now: nat, n: Nonce, u: Transport)
    requires pdu.message.IdentityResponse? && t in s.clients
    ensures IgnoresRarely(cfg, s, HandleIdentity(cfg, s, t, pdu, now, n), t, u, now)
  {
    hide Challenge;
    ChallengeIgnores(cfg, s, t, CHALLENGE_FAILURE, now, n, u);
    ChallengeIgnores(cfg, s, t, SESSION_NOT_AVAILABLE, now, n, u);
  }

  lemma StreamIgnores(cfg: Config, s: State, t: Transport, sid: Tag, pdu: Pdu, now: nat, n: Nonce, u: Transport)
    requires pdu.message.StreamData? && t in s.clients && sid in s.sessions
    ensures IgnoresRarely(cfg, s, HandleStream(cfg, s, t, sid, pdu, now, n), t, u, now)
  {
    hide Challenge, Ignore;
    ChallengeIgnores(cfg, s, t, UNRECOGNIZED_TRANSPORT, now, n, u);
    IgnoreIgnores(cfg, s, t, pdu, UNKNOWN_CHANNEL, now, u);
    if pdu.message.channelId in s.channels {
      var c := Prune(s, s.channels[pdu.message.channelId], sid);
      IgnoreIgnores(cfg, s.(channels := s.channels[pdu.message.channelId := c]), t, pdu, NOT_JOINED, now, u);
    }
  }

  lemma DispatchIgnores(cfg: Config, s: State, t: Transport, rx: Option<Tag>, pdu: Pdu, now: nat, n: Nonce,
                        u: Transport)
    requires t in s.clients
    ensures IgnoresRarely(cfg, s, Dispatch(cfg, s, t, rx, pdu, now, n), t, u, now)
  {
    hide Challenge, Ignore, HandleIdentity, HandleStream;
    ChallengeIgnores(cfg, s, t, UNRECOGNIZED_TRANSPORT, now, n, u);
    if pdu.message.IdentityResponse? {
      IdentityIgnores(cfg, s, t, pdu, now, n, u);
    } else if Authenticated(s, rx) && pdu.message.LeaveRequest? {
      IgnoreIgnores(cfg, s, t, pdu, NOT_JOINED, now, u);
    } else if Authenticated(s, rx) && pdu.message.StreamData? {
      StreamIgnores(cfg, s, t, rx.value, pdu, now, n, u);
    }
  }

  lemma StepIgnores(cfg: Config, s: State, e: Event, u: Transport)
    requires Inv(cfg, s)
    ensures var (s', out) := Step(cfg, s, e);
      var last := ClientAt(s, u).lastIgnoreUs;
      && (SaysIgnored(out, u) ==> e.Receive? && u == e.from && u in s'.clients)
      && (SaysIgnored(out, u) && cfg.cooldownMs > 0 ==>
            (last > 0 ==> e.now - last >= cfg.cooldownMs * 1000) && s'.clients[u].lastIgnoreUs == e.now)
      && (u in s'.clients && !SaysIgnored(out, u) ==> s'.clients[u].lastIgnoreUs == last)
  {
    hide Inv, Dispatch;
    if e.Receive? {
      var s1 := Touch(s, e.from);
      var rx := Speaker(s1, e.from, e.pdu);
      TouchKeeps(cfg, s, e.from);
      if !e.pdu.message.IdentityResponse? && e.pdu.session.Some? {
        if e.pdu.session.value in s.sessions {
          ReboundIgnores(cfg, s1, e.pdu.session.value, e.from, u);
          DispatchIgnores(cfg, Rebind(s1, e.pdu.session.value, e.from), e.from, rx, e.pdu, e.now, e.nonce, u);
        }
      } else {
        DispatchIgnores(cfg, s1, e.from, rx, e.pdu, e.now, e.nonce, u);
      }
    }
  }

  lemma ReboundIgnores(cfg: Config, s: State, tag: Tag, t: Transport, u: Transport)
    requires Inv(cfg, s) && tag in s.sessions && t in s.clients
    ensures Inv(cfg, Rebind(s, tag, t)) && t in Rebind(s, tag, t).clients
    ensures ClientAt(Rebind(s, tag, t), u).lastIgnoreUs == ClientAt(s, u).lastIgnoreUs
    ensures u in Rebind(s, tag, t).clients <==> u in s.clients
  {
    RebindKeeps(cfg, s, tag, t);
  }

  /** While the context of `u` lives on, the time of its latest ignored indication is not forgotten. */
  lemma {:induction false} IgnoreIsRemembered(cfg: Config, run: seq<Event>, i: nat, k: nat, u: Transport)
    requires GoodRun(cfg, run) && GrowingClock(run) && cfg.cooldownMs > 0 && i < k <= |run|
    requires SaysIgnored(Step(cfg, After(cfg, run[..i]), run[i]).1, u)
    requires forall x | i < x <= k :: u in After(cfg, run[..x]).clients
    ensures run[i].Receive? && u in After(cfg, run[..k]).clients
    ensures After(cfg, run[..k]).clients[u].lastIgnoreUs >= run[i].now > 0
    decreases k
  {
    hide Step, SaysIgnored;
    assert run[..k][..k - 1] == run[..k - 1];
    RunKeeps(cfg, run[..i]);
    StepIgnores(cfg, After(cfg, run[..i]), run[i], u);
    if k - 1 > i {
      IgnoreIsRemembered(cfg, run, i, k - 1, u);
      RunKeeps(cfg, run[..k - 1]);
      StepIgnores(cfg, After(cfg, run[..k - 1]), run[k - 1], u);
    }
  }

  /** A remembered time is that of an ignored indication of the run. */
  lemma {:induction false} RememberedWasSent(cfg: Config, run: seq<Event>, u: Transport)
    requires GoodRun(cfg, run) && cfg.cooldownMs > 0
    ensures ClientAt(After(cfg, run), u).lastIgnoreUs > 0 ==>
      exists i :: 0 <= i < |run| && SaysIgnored(Step(cfg, After(cfg, run[..i]), run[i]).1, u)
                  && run[i].Receive? && run[i].now == ClientAt(After(cfg, run), u).lastIgnoreUs
  {
    hide Step, SaysIgnored, Inv;
    if run != [] {
      var k := |run| - 1;
      var before := run[..k];
      RunKeeps(cfg, before);
      StepIgnores(cfg, After(cfg, before), run[k], u);
      RememberedWasSent(cfg, before, u);
      if ClientAt(After(cfg, run), u).lastIgnoreUs > 0 {
        if SaysIgnored(Step(cfg, After(cfg, before), run[k]).1, u) {
          assert run[..k] == before && run[k].now == ClientAt(After(cfg, run), u).lastIgnoreUs;
        } else {
          var i :| 0 <= i < k && SaysIgnored(Step(cfg, After(cfg, before[..i]), before[i]).1, u)
                   && before[i].Receive? && before[i].now == ClientAt(After(cfg, before), u).lastIgnoreUs;
          assert before[..i] == run[..i] && run[i] == before[i];
        }
      }
    }
  }

  /** An ignored indication to `u` in the run, less than a cooldown before `now`. */
  ghost predicate IgnoredLately(cfg: Config, run: seq<Event>, u: Transport, now: nat) {
    exists i :: 0 <= i < |run| && SaysIgnored(Step(cfg, After(cfg, run[..i]), run[i]).1, u)
                && run[i].Receive? && now - run[i].now < cfg.cooldownMs * 1000
  }

  /** An ignored indication that is due after a run is sent unless the transport got one less than a cooldown ago. */
  lemma {:induction false} IgnoredWhenDue(cfg: Config, run: seq<Event>, e: Event, reason: Reason)
    requires GoodRun(cfg, run) && e.Receive? && (cfg.cooldownMs > 0 ==> !IgnoredLately(cfg, run, e.from, e.now))
    ensures Ignored(cfg, After(cfg, run), e, reason)
         == Reply(e.from, Pdu(e.pdu.version, e.now, None, IgnoredIndication(reason, "")))
  {
    hide Step, SaysIgnored, After;
    if cfg.cooldownMs > 0 {
      RememberedWasSent(cfg, run, e.from);
    }
  }

  /** Over a run, as long as its context lives on, a transport gets at most one ignored indication per cooldown. */
  lemma {:induction false} IgnoredOncePerCooldown(cfg: Config, run: seq<Event>, i: nat, j: nat, u: Transport)
    requires GoodRun(cfg, run) && GrowingClock(run) && cfg.cooldownMs > 0 && i < j < |run|
    requires SaysIgnored(Step(cfg, After(cfg, run[..i]), run[i]).1, u)
    requires SaysIgnored(Step(cfg, After(cfg, run[..j]), run[j]).1, u)
    requires forall x | i < x <= j :: u in After(cfg, run[..x]).clients
    ensures run[i].Receive? && run[j].Receive? && run[j].now - run[i].now >= cfg.cooldownMs * 1000
  {
    hide Step, SaysIgnored, After;
    IgnoreIsRemembered(cfg, run, i, j, u);
    RunKeeps(cfg, run[..j]);
    StepIgnores(cfg, After(cfg, run[..j]), run[j], u);
  }
}
