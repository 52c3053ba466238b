/** What every step of the switch keeps, for the switch of the source and for its lazily cleaning variant. */
module SwitchInvariant {
  import opened Wrappers
  import opened Protocol
  import opened SwitchModel

  predicate GoodSession(tag: Tag, x: Session) {
    x.tag == tag && x.username != "" && x.member != 0 && x.transport.Some?
  }

  predicate SessionsOk(s: State) {
    forall tag | tag in s.sessions :: GoodSession(tag, s.sessions[tag])
  }

  predicate BoundTo(s: State, tag: Tag, t: Transport) {
    tag in s.sessions && s.sessions[tag].transport == Some(t)
  }

  /** A context that points to a session points to a live one bound to that very transport. */
  predicate ContextsOk(s: State) {
    forall t | t in s.clients && s.clients[t].session.Some? :: BoundTo(s, s.clients[t].session.value, t)
  }

  predicate GoodPending(cfg: Config, p: Pending) {
    |p.challenge| == ChallengeLength(cfg) && |p.newSession| == TAG_BYTES && 1 <= p.reqId < 0x1_0000
  }

  predicate PendingsOk(cfg: Config, s: State) {
    forall t | t in s.clients && s.clients[t].pending.Some? :: GoodPending(cfg, s.clients[t].pending.value)
  }

  /** `limit` is at least as tight as a non-zero shared cap. */
  predicate Respects(limit: nat, shared: nat) {
    shared > 0 ==> 0 < limit <= shared
  }

  predicate GoodChannel(cfg: Config, s: State, cid: nat, c: Channel) {
    && c.id == cid && 0 < cid < s.nextChannelId
    && c.name in s.names && s.names[c.name] == cid
    && Respects(c.limits.pktRateLimit, cfg.sharedLimits.pktRateLimit)
    && Respects(c.limits.maxPayloadSize, cfg.sharedLimits.maxPayloadSize)
    && (c.limits.pktRateLimit > 0 ==> c.window.count <= c.limits.pktRateLimit)
  }

  predicate ChannelsOk(cfg: Config, s: State) {
    forall cid | cid in s.channels :: GoodChannel(cfg, s, cid, s.channels[cid])
  }

  /** With ChannelsOk this makes the two channel indexes inverse to each other. */
  predicate NamesOk(s: State) {
    forall name | name in s.names :: s.names[name] in s.channels && s.channels[s.names[name]].name == name
  }

  predicate Consistent(cfg: Config, s: State) {
    && SessionsOk(s) && ContextsOk(s) && PendingsOk(cfg, s) && ChannelsOk(cfg, s) && NamesOk(s)
    && 1 <= s.nextReqId < 0x1_0000 && 1 <= s.nextChannelId
  }

  predicate MembersLive(s: State) {
    forall cid | cid in s.channels :: s.channels[cid].members <= s.sessions.Keys
  }

  /** The joint invariant of the source's switch. */
  predicate Inv(cfg: Config, s: State) {
    Consistent(cfg, s) && MembersLive(s)
  }

  // ---- Pieces of a step -------------------------------------------------------------------------------

  lemma ChallengeKeeps(cfg: Config, s: State, t: Transport, reason: Reason, now: nat, n: Nonce)
    requires Consistent(cfg, s) && GoodNonce(cfg, n)
    ensures Consistent(cfg, Challenge(cfg, s, t, reason, now, n).0)
    ensures var s' := Challenge(cfg, s, t, reason, now, n).0; s'.sessions == s.sessions && s'.channels == s.channels
  {
    hide Answer;
  }

  lemma RebindKeeps(cfg: Config, s: State, tag: Tag, t: Transport)
    requires Consistent(cfg, s) && tag in s.sessions
    ensures Consistent(cfg, Rebind(s, tag, t)) && BoundTo(Rebind(s, tag, t), tag, t)
    ensures Rebind(s, tag, t).sessions.Keys == s.sessions.Keys
    ensures Rebind(s, tag, t).channels == s.channels
  {
  }

  lemma LogInKeeps(cfg: Config, s: State, t: Transport, tag: Tag, username: string, member: nat)
    requires Consistent(cfg, s) && username != "" && member != 0
    ensures Consistent(cfg, LogIn(s, t, tag, username, member))
    ensures LogIn(s, t, tag, username, member).sessions.Keys == s.sessions.Keys + {tag}
    ensures BoundTo(LogIn(s, t, tag, username, member), tag, t)
    ensures LogIn(s, t, tag, username, member).channels == s.channels
  {
    hide GoodPending;
  }

  lemma IdentityKeeps(cfg: Config, s: State, t: Transport, pdu: Pdu, now: nat, n: Nonce)
    requires Consistent(cfg, s) && GoodNonce(cfg, n) && pdu.message.IdentityResponse?
    ensures Consistent(cfg, HandleIdentity(cfg, s, t, pdu, now, n).0)
    ensures s.sessions.Keys <= HandleIdentity(cfg, s, t, pdu, now, n).0.sessions.Keys
    ensures HandleIdentity(cfg, s, t, pdu, now, n).0.channels == s.channels
  {
    hide Challenge, LogIn;
    ChallengeKeeps(cfg, s, t, CHALLENGE_FAILURE, now, n);
    ChallengeKeeps(cfg, s, t, SESSION_NOT_AVAILABLE, now, n);
    if AnswersPending(s, t, pdu.message) && pdu.message.username != "" {
      LogInKeeps(cfg, s, t, s.clients[t].pending.value.newSession, pdu.message.username, n.member);
    }
  }

  /** Replacing a channel by one that differs in members and window only. */
  lemma ChannelUpdateKeeps(cfg: Config, s: State, cid: nat, c: Channel)
    requires Consistent(cfg, s) && cid in s.channels && GoodChannel(cfg, s, cid, c) && c.name == s.channels[cid].name
    ensures Consistent(cfg, s.(channels := s.channels[cid := c]))
    ensures MembersLive(s) && c.members <= s.sessions.Keys ==> MembersLive(s.(channels := s.channels[cid := c]))
  {
  }

  lemma IgnoreKeeps(cfg: Config, s: State, t: Transport, pdu: Pdu, reason: Reason, now: nat)
    requires Consistent(cfg, s)
    ensures Consistent(cfg, Ignore(cfg, s, t, pdu, reason, now).0)
    ensures Ignore(cfg, s, t, pdu, reason, now).0.channels == s.channels
    ensures Ignore(cfg, s, t, pdu, reason, now).0.sessions == s.sessions
  {
  }

  lemma CreateKeeps(cfg: Config, s: State, t: Transport, sid: Tag, m: Message, now: nat)
    requires Consistent(cfg, s) && m.CreateRequest? && sid in s.sessions
    ensures Consistent(cfg, HandleCreate(cfg, s, t, sid, m, now).0)
    ensures MembersLive(s) ==> MembersLive(HandleCreate(cfg, s, t, sid, m, now).0)
  {
  }

  lemma JoinKeeps(cfg: Config, s: State, t: Transport, sid: Tag, m: Message, now: nat)
    requires Consistent(cfg, s) && m.JoinRequest? && sid in s.sessions
    ensures Consistent(cfg, HandleJoin(cfg, s, t, sid, m, now).0)
    ensures MembersLive(s) ==> MembersLive(HandleJoin(cfg, s, t, sid, m, now).0)
  {
    if m.channelName in s.names {
      var cid := s.names[m.channelName];
      ChannelUpdateKeeps(cfg, s, cid, s.channels[cid]);
      ChannelUpdateKeeps(cfg, s, cid, s.channels[cid].(members := s.channels[cid].members + {sid}));
    }
  }

  lemma LeaveKeeps(cfg: Config, s: State, t: Transport, sid: Tag, pdu: Pdu, now: nat)
    requires Consistent(cfg, s) && pdu.message.LeaveRequest?
    ensures Consistent(cfg, HandleLeave(cfg, s, t, sid, pdu, now).0)
    ensures MembersLive(s) ==> MembersLive(HandleLeave(cfg, s, t, sid, pdu, now).0)
  {
    var cid := pdu.message.channelId;
    if cid in s.channels {
      ChannelUpdateKeeps(cfg, s, cid, s.channels[cid].(members := s.channels[cid].members - {sid}));
    }
    IgnoreKeeps(cfg, s, t, pdu, NOT_JOINED, now);
  }

  lemma StreamKeeps(cfg: Config, s: State, t: Transport, sid: Tag, pdu: Pdu, now: nat, n: Nonce)
    requires Consistent(cfg, s) && pdu.message.StreamData? && sid in s.sessions
    ensures Consistent(cfg, HandleStream(cfg, s, t, sid, pdu, now, n).0)
    ensures MembersLive(s) ==> MembersLive(HandleStream(cfg, s, t, sid, pdu, now, n).0)
  {
    var cid := pdu.message.channelId;
    if cid !in s.channels {
      IgnoreKeeps(cfg, s, t, pdu, UNKNOWN_CHANNEL, now);
    } else {
      var c := s.channels[cid];
      assert Prune(s, c, sid) == c;
      assert s.(channels := s.channels[cid := c]) == s;
      if sid !in c.members {
        IgnoreKeeps(cfg, s, t, pdu, NOT_JOINED, now);
      } else if PayloadWithinLimit(|pdu.message.payload|, c.limits.maxPayloadSize) {
        RelayKeeps(cfg, s, t, sid, pdu, now, n);
      }
    }
  }

  lemma RelayKeeps(cfg: Config, s: State, t: Transport, sid: Tag, pdu: Pdu, now: nat, n: Nonce)
    requires Consistent(cfg, s) && pdu.message.StreamData? && sid in s.sessions && pdu.message.channelId in s.channels
    requires var c := s.channels[pdu.message.channelId];
      sid in c.members && PayloadWithinLimit(|pdu.message.payload|, c.limits.maxPayloadSize)
    ensures Consistent(cfg, HandleStream(cfg, s, t, sid, pdu, now, n).0)
    ensures MembersLive(s) ==> MembersLive(HandleStream(cfg, s, t, sid, pdu, now, n).0)
  {
    var cid := pdu.message.channelId;
    var c := s.channels[cid];
    assert Prune(s, c, sid) == c;
    assert s.(channels := s.channels[cid := c]) == s;
    var c' := c.(window := RateAllow(c.window, c.limits.pktRateLimit, now).1);
    var kept := c'.(members := (set m | m in c'.members && (m == sid || !Stale(s, m))));
    assert s.channels[cid := c'][cid := kept] == s.channels[cid := kept];
    assert s.channels[cid := c][cid := c'] == s.channels[cid := c'];
    var s' := HandleStream(cfg, s, t, sid, pdu, now, n).0;
    assert kept.members == Kept(s, c.members, c.members, sid);
    assert s' == s.(channels := s.channels[cid := c']) || s' == s.(channels := s.channels[cid := kept]);
    hide HandleStream, RateAllow, Stale;
    ChannelUpdateKeeps(cfg, s, cid, c');
    ChannelUpdateKeeps(cfg, s, cid, kept);
  }

  lemma DispatchKeeps(cfg: Config, s: State, t: Transport, rx: Option<Tag>, pdu: Pdu, now: nat, n: Nonce)
    requires Consistent(cfg, s) && GoodNonce(cfg, n)
    ensures Consistent(cfg, Dispatch(cfg, s, t, rx, pdu, now, n).0)
    ensures MembersLive(s) ==> MembersLive(Dispatch(cfg, s, t, rx, pdu, now, n).0)
  {
    if pdu.message.IdentityResponse? {
      IdentityKeeps(cfg, s, t, pdu, now, n);
    } else if !Authenticated(s, rx) {
      ChallengeKeeps(cfg, s, t, UNRECOGNIZED_TRANSPORT, now, n);
    } else {
      match pdu.message
      case CreateRequest(_, _, _, _) => CreateKeeps(cfg, s, t, rx.value, pdu.message, now);
      case JoinRequest(_, _, _) => JoinKeeps(cfg, s, t, rx.value, pdu.message, now);
      case LeaveRequest(_, _) => LeaveKeeps(cfg, s, t, rx.value, pdu, now);
      case StreamData(_, _, _, _) => StreamKeeps(cfg, s, t, rx.value, pdu, now, n);
      case _ =>
    }
  }

  lemma OnMessageKeeps(cfg: Config, s: State, t: Transport, pdu: Pdu, now: nat, n: Nonce)
    requires Consistent(cfg, s) && GoodNonce(cfg, n)
    ensures Consistent(cfg, OnMessage(cfg, s, t, pdu, now, n).0)
    ensures MembersLive(s) ==> MembersLive(OnMessage(cfg, s, t, pdu, now, n).0)
  {
    var rx := Speaker(s, t, pdu);
    if !pdu.message.IdentityResponse? && pdu.session.Some? {
      if pdu.session.value in s.sessions {
        RebindKeeps(cfg, s, pdu.session.value, t);
        DispatchKeeps(cfg, Rebind(s, pdu.session.value, t), t, rx, pdu, now, n);
      } else {
        ChallengeKeeps(cfg, s, t, SESSION_NOT_AVAILABLE, now, n);
      }
    } else {
      DispatchKeeps(cfg, s, t, rx, pdu, now, n);
    }
  }

  lemma ForgetKeeps(cfg: Config, s: State, t: Transport, eager: bool)
    requires Consistent(cfg, s)
    ensures Consistent(cfg, ForgetTransport(s, t, eager))
    ensures eager && MembersLive(s) ==> MembersLive(ForgetTransport(s, t, eager))
  {
  }

  /** Every step of either switch keeps the tables consistent; the eager one also keeps members live. */
  lemma StepKeeps(cfg: Config, eager: bool, s: State, e: Event)
    requires Consistent(cfg, s) && GoodEvent(cfg, e)
    ensures Consistent(cfg, StepWith(cfg, eager, s, e).0)
    ensures eager && MembersLive(s) ==> MembersLive(StepWith(cfg, eager, s, e).0)
  {
    match e
    case Receive(t, pdu, now, nonce) =>
      assert Consistent(cfg, Touch(s, t));
      OnMessageKeeps(cfg, Touch(s, t), t, pdu, now, nonce);
    case Forget(t) => ForgetKeeps(cfg, s, t, eager);
  }

  /** Every state a run reaches satisfies the joint invariant. */
  lemma {:induction false} RunKeeps(cfg: Config, run: seq<Event>)
    requires GoodRun(cfg, run)
    ensures Inv(cfg, After(cfg, run))
  {
    if run != [] {
      RunKeeps(cfg, run[..|run| - 1]);
      StepKeeps(cfg, true, After(cfg, run[..|run| - 1]), run[|run| - 1]);
    }
  }

  lemma SoundIsConsistent(cfg: Config, s: State)
    requires Inv(cfg, s)
    ensures Consistent(cfg, s)
  {
  }

  lemma SwitchStaysSound(cfg: Config, s: State, e: Event)
    requires Inv(cfg, s) && GoodEvent(cfg, e)
    ensures Inv(cfg, Step(cfg, s, e).0)
  {
    StepKeeps(cfg, true, s, e);
  }
}
