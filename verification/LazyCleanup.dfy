/**
 * Lazy cleanup refines eager cleanup: a switch that leaves a destroyed session in its channels until a join or a
 * relay prunes it sends exactly the datagrams of a switch that removes it everywhere at once.
 */
module LazyCleanup {
  import opened Wrappers
  import opened Protocol
  import opened SwitchModel
  import opened SwitchInvariant
  import opened SwitchLogin

  /** The eager view of a lazy state: members that are no longer live are taken out. */
  function Trimmed(s: State): State {
    s.(channels := map c | c in s.channels :: TrimmedChannel(s, s.channels[c]))
  }

  function TrimmedChannel(s: State, c: Channel): Channel {
    c.(members := c.members * s.sessions.Keys)
  }

  function AfterLazily(cfg: Config, run: seq<Event>): State {
    if run == [] then INITIAL else StepWith(cfg, false, AfterLazily(cfg, run[..|run| - 1]), run[|run| - 1]).0
  }

  /** All outputs of a run. */
  function Outputs(cfg: Config, eager: bool, run: seq<Event>): seq<Output> {
    if run == [] then []
    else
      var before, e := run[..|run| - 1], run[|run| - 1];
      Outputs(cfg, eager, before)
      + [StepWith(cfg, eager, if eager then After(cfg, before) else AfterLazily(cfg, before), e).1]
  }

  // ---- One handler at a time: trimming before or after makes no difference ------------------------------

  lemma TrimUpdate(s: State, cid: nat, c: Channel)
    ensures Trimmed(s.(channels := s.channels[cid := c]))
         == Trimmed(s).(channels := Trimmed(s).channels[cid := TrimmedChannel(s, c)])
  {
    assert Trimmed(s.(channels := s.channels[cid := c])).channels
        == Trimmed(s).channels[cid := TrimmedChannel(s, c)];
  }

  lemma TrimSame(s: State, s': State)
    requires s'.channels == s.channels && s'.sessions == s.sessions
    ensures Trimmed(s').channels == Trimmed(s).channels
  {
  }

  lemma TrimChallenge(cfg: Config, s: State, t: Transport, reason: Reason, now: nat, n: Nonce)
    ensures Challenge(cfg, Trimmed(s), t, reason, now, n)
         == (Trimmed(Challenge(cfg, s, t, reason, now, n).0), Challenge(cfg, s, t, reason, now, n).1)
  {
    TrimSame(s, Challenge(cfg, s, t, reason, now, n).0);
  }

  lemma TrimIgnore(cfg: Config, s: State, t: Transport, pdu: Pdu, reason: Reason, now: nat)
    ensures Ignore(cfg, Trimmed(s), t, pdu, reason, now)
         == (Trimmed(Ignore(cfg, s, t, pdu, reason, now).0), Ignore(cfg, s, t, pdu, reason, now).1)
  {
    TrimSame(s, Ignore(cfg, s, t, pdu, reason, now).0);
  }

  lemma TrimRebind(s: State, tag: Tag, t: Transport)
    requires tag in s.sessions
    ensures Rebind(Trimmed(s), tag, t) == Trimmed(Rebind(s, tag, t))
  {
    assert Rebind(s, tag, t).sessions.Keys == s.sessions.Keys;
  }

  lemma TrimLogIn(s: State, t: Transport, tag: Tag, username: string, member: nat)
    requires tag !in s.sessions ==> forall c | c in s.channels :: tag !in s.channels[c].members
    ensures LogIn(Trimmed(s), t, tag, username, member) == Trimmed(LogIn(s, t, tag, username, member))
  {
    var a, b := LogIn(Trimmed(s), t, tag, username, member), Trimmed(LogIn(s, t, tag, username, member));
    forall c | c in s.channels ensures a.channels[c] == b.channels[c] {
      assert s.channels[c].members * s.sessions.Keys
          == s.channels[c].members * LogIn(s, t, tag, username, member).sessions.Keys;
    }
    assert a.channels == b.channels;
  }

  /** A tag a login may revive is no stale member of any channel. */
  predicate Unremembered(s: State, tag: Tag) {
    tag !in s.sessions ==> forall c | c in s.channels :: tag !in s.channels[c].members
  }

  lemma TrimIdentity(cfg: Config, s: State, t: Transport, pdu: Pdu, now: nat, n: Nonce)
    requires pdu.message.IdentityResponse?
    requires t in s.clients && s.clients[t].pending.Some? ==> Unremembered(s, s.clients[t].pending.value.newSession)
    ensures HandleIdentity(cfg, Trimmed(s), t, pdu, now, n)
         == (Trimmed(HandleIdentity(cfg, s, t, pdu, now, n).0), HandleIdentity(cfg, s, t, pdu, now, n).1)
  {
    TrimChallenge(cfg, s, t, CHALLENGE_FAILURE, now, n);
    TrimChallenge(cfg, s, t, SESSION_NOT_AVAILABLE, now, n);
    if AnswersPending(s, t, pdu.message) {
      TrimLogIn(s, t, s.clients[t].pending.value.newSession, pdu.message.username, n.member);
    }
  }

  lemma TrimCreate(cfg: Config, s: State, t: Transport, sid: Tag, m: Message, now: nat)
    requires m.CreateRequest? && sid in s.sessions
    ensures HandleCreate(cfg, Trimmed(s), t, sid, m, now)
         == (Trimmed(HandleCreate(cfg, s, t, sid, m, now).0), HandleCreate(cfg, s, t, sid, m, now).1)
  {
    var c := Channel(s.nextChannelId, m.channelName, m.metadata, MergeLimits(cfg, m.limits), {sid}, RateWindow(0, 0));
    TrimUpdate(s, s.nextChannelId, c);
    assert TrimmedChannel(s, c) == c;
    if m.channelName !in s.names {
      TrimSame(s.(channels := s.channels[s.nextChannelId := c]), HandleCreate(cfg, s, t, sid, m, now).0);
    }
  }

  lemma TrimJoin(cfg: Config, s: State, t: Transport, sid: Tag, m: Message, now: nat)
    requires Consistent(cfg, s) && m.JoinRequest? && sid in s.sessions
    ensures HandleJoin(cfg, Trimmed(s), t, sid, m, now)
         == (Trimmed(HandleJoin(cfg, s, t, sid, m, now).0), HandleJoin(cfg, s, t, sid, m, now).1)
  {
    if m.channelName in s.names {
      var cid := s.names[m.channelName];
      var c := s.channels[cid];
      TrimUpdate(s, cid, c);
      TrimUpdate(s, cid, c.(members := c.members + {sid}));
      assert TrimmedChannel(s, c.(members := c.members + {sid}))
          == TrimmedChannel(s, c).(members := TrimmedChannel(s, c).members + {sid});
    }
  }

  lemma TrimLeave(cfg: Config, s: State, t: Transport, sid: Tag, pdu: Pdu, now: nat)
    requires pdu.message.LeaveRequest? && sid in s.sessions
    ensures HandleLeave(cfg, Trimmed(s), t, sid, pdu, now)
         == (Trimmed(HandleLeave(cfg, s, t, sid, pdu, now).0), HandleLeave(cfg, s, t, sid, pdu, now).1)
  {
    TrimIgnore(cfg, s, t, pdu, NOT_JOINED, now);
    var cid := pdu.message.channelId;
    if cid in s.channels {
      var c := s.channels[cid];
      TrimUpdate(s, cid, c.(members := c.members - {sid}));
      assert TrimmedChannel(s, c.(members := c.members - {sid}))
          == TrimmedChannel(s, c).(members := TrimmedChannel(s, c).members - {sid});
    }
  }

  /** The relay proper: whoever is stale is skipped and pruned in one switch and already gone in the other. */
  lemma TrimAudience(cfg: Config, s: State, c: Channel, sid: Tag)
    requires Consistent(cfg, s) && sid in s.sessions
    ensures Recipients(Trimmed(s), TrimmedChannel(s, c).members, sid) == Recipients(s, c.members, sid)
    ensures Kept(Trimmed(s), TrimmedChannel(s, c).members, TrimmedChannel(s, c).members, sid)
         == Kept(s, c.members, c.members, sid) <= s.sessions.Keys
  {
    assert Audience(Trimmed(s), TrimmedChannel(s, c).members, sid) == Audience(s, c.members, sid);
  }

  lemma TrimStream(cfg: Config, s: State, t: Transport, sid: Tag, pdu: Pdu, now: nat, n: Nonce)
    requires Consistent(cfg, s) && pdu.message.StreamData? && sid in s.sessions
    ensures HandleStream(cfg, Trimmed(s), t, sid, pdu, now, n)
         == (Trimmed(HandleStream(cfg, s, t, sid, pdu, now, n).0), HandleStream(cfg, s, t, sid, pdu, now, n).1)
  {
    var cid := pdu.message.channelId;
    if cid !in s.channels {
      TrimIgnore(cfg, s, t, pdu, UNKNOWN_CHANNEL, now);
    } else {
      var c := s.channels[cid];
      var g := Trimmed(s);
      assert Prune(s, c, sid) == c && Prune(g, TrimmedChannel(s, c), sid) == TrimmedChannel(s, c);
      assert s.(channels := s.channels[cid := c]) == s;
      assert g.(channels := g.channels[cid := TrimmedChannel(s, c)]) == g;
      if sid !in c.members {
        TrimIgnore(cfg, s, t, pdu, NOT_JOINED, now);
      } else {
        TrimRelay(cfg, s, cid, c, sid, pdu, now);
      }
    }
  }

  lemma TrimRelay(cfg: Config, s: State, cid: nat, c: Channel, sid: Tag, pdu: Pdu, now: nat)
    requires Consistent(cfg, s) && pdu.message.StreamData? && sid in s.sessions
    ensures var (s', out) := RelayInto(s, cid, c, sid, s.sessions[sid], pdu, now);
      RelayInto(Trimmed(s), cid, TrimmedChannel(s, c), sid, s.sessions[sid], pdu, now) == (Trimmed(s'), out)
  {
    var g := Trimmed(s);
    var c' := c.(window := RateAllow(c.window, c.limits.pktRateLimit, now).1);
    var kept := c'.(members := Kept(s, c.members, c.members, sid));
    TrimUpdate(s, cid, c');
    TrimUpdate(s, cid, kept);
    TrimAudience(cfg, s, c, sid);
    assert TrimmedChannel(s, kept) == kept;
    assert TrimmedChannel(s, c') == TrimmedChannel(s, c).(window := c'.window);
    assert s.channels[cid := c'][cid := kept] == s.channels[cid := kept];
    assert g.channels[cid := TrimmedChannel(s, c')][cid := kept] == g.channels[cid := kept];
  }

  lemma TrimDispatch(cfg: Config, s: State, t: Transport, rx: Option<Tag>, pdu: Pdu, now: nat, n: Nonce)
    requires Consistent(cfg, s) && !pdu.message.IdentityResponse?
    ensures Dispatch(cfg, Trimmed(s), t, rx, pdu, now, n)
         == (Trimmed(Dispatch(cfg, s, t, rx, pdu, now, n).0), Dispatch(cfg, s, t, rx, pdu, now, n).1)
  {
    if !Authenticated(s, rx) {
      TrimChallenge(cfg, s, t, UNRECOGNIZED_TRANSPORT, now, n);
    } else {
      match pdu.message
      case CreateRequest(_, _, _, _) => TrimCreate(cfg, s, t, rx.value, pdu.message, now);
      case JoinRequest(_, _, _) => TrimJoin(cfg, s, t, rx.value, pdu.message, now);
      case LeaveRequest(_, _) => TrimLeave(cfg, s, t, rx.value, pdu, now);
      case StreamData(_, _, _, _) => TrimStream(cfg, s, t, rx.value, pdu, now, n);
      case _ =>
    }
  }

  lemma TrimForget(s: State, t: Transport)
    ensures ForgetTransport(Trimmed(s), t, true) == Trimmed(ForgetTransport(s, t, false))
  {
    if t in s.clients && s.clients[t].session.Some? {
      var tag := s.clients[t].session.value;
      var a, b := ForgetTransport(Trimmed(s), t, true), Trimmed(ForgetTransport(s, t, false));
      forall c | c in s.channels ensures a.channels[c] == b.channels[c] {
        assert s.channels[c].members * s.sessions.Keys - {tag} == s.channels[c].members * (s.sessions - {tag}).Keys;
      }
      assert a.channels == b.channels;
    }
  }

  lemma TrimTouch(s: State, t: Transport)
    ensures Touch(Trimmed(s), t) == Trimmed(Touch(s, t))
  {
  }

  /** One step: the lazy switch and the eager switch on the trimmed state answer alike and stay in step. */
  lemma TrimStep(cfg: Config, s: State, e: Event)
    requires Consistent(cfg, s)
    requires forall t, tag | PendingTag(s, t, tag) :: Unremembered(s, tag)
    ensures Step(cfg, Trimmed(s), e) == (Trimmed(StepWith(cfg, false, s, e).0), StepWith(cfg, false, s, e).1)
  {
    match e
    case Forget(t) => TrimForget(s, t);
    case Receive(t, pdu, now, n) =>
      TrimTouch(s, t);
      var s1 := Touch(s, t);
      var rx := Speaker(s1, t, pdu);
      if pdu.message.IdentityResponse? {
        assert s1.clients[t].pending.Some? ==> PendingTag(s, t, s1.clients[t].pending.value.newSession);
        TrimIdentity(cfg, s1, t, pdu, now, n);
      } else if pdu.session.None? {
        TrimDispatch(cfg, s1, t, rx, pdu, now, n);
      } else if pdu.session.value in s.sessions {
        TrimRebind(s1, pdu.session.value, t);
        RebindKeeps(cfg, s1, pdu.session.value, t);
        TrimDispatch(cfg, Rebind(s1, pdu.session.value, t), t, rx, pdu, now, n);
      } else {
        TrimChallenge(cfg, s1, t, SESSION_NOT_AVAILABLE, now, n);
      }
  }

  // ---- Whole runs -------------------------------------------------------------------------------------

  /** Every tag the channels remember was used for a login. */
  predicate Remembered(s: State, used: set<Tag>) {
    forall c | c in s.channels :: s.channels[c].members <= used
  }

  lemma DispatchRemembers(cfg: Config, s: State, t: Transport, rx: Option<Tag>, pdu: Pdu, now: nat, n: Nonce,
                          used: set<Tag>)
    requires Consistent(cfg, s) && Remembered(s, used) && s.sessions.Keys <= used && !pdu.message.IdentityResponse?
    ensures Remembered(Dispatch(cfg, s, t, rx, pdu, now, n).0, used)
  {
  }

  lemma StepRemembers(cfg: Config, s: State, e: Event, used: set<Tag>)
    requires Consistent(cfg, s) && Remembered(s, used) && s.sessions.Keys <= used
    ensures Remembered(StepWith(cfg, false, s, e).0, used)
  {
    if e.Receive? {
      var s1 := Touch(s, e.from);
      var rx := Speaker(s1, e.from, e.pdu);
      if e.pdu.message.IdentityResponse? {
        IdentityLeavesChannels(cfg, s1, e);
      } else if e.pdu.session.None? {
        DispatchRemembers(cfg, s1, e.from, rx, e.pdu, e.now, e.nonce, used);
      } else if e.pdu.session.value in s.sessions {
        RebindKeeps(cfg, s1, e.pdu.session.value, e.from);
        DispatchRemembers(cfg, Rebind(s1, e.pdu.session.value, e.from), e.from, rx, e.pdu, e.now, e.nonce, used);
      }
    }
  }

  lemma IdentityLeavesChannels(cfg: Config, s: State, e: Event)
    requires e.Receive? && e.pdu.message.IdentityResponse?
    ensures HandleIdentity(cfg, s, e.from, e.pdu, e.now, e.nonce).0.channels == s.channels
  {
  }

  lemma NothingForgottenReturns(cfg: Config, run: seq<Event>, s: State)
    requires GoodRun(cfg, run) && FreshTags(run) && Trimmed(s) == After(cfg, run) && Remembered(s, Used(cfg, run))
    ensures forall t, tag | PendingTag(s, t, tag) :: Unremembered(s, tag)
    ensures s.sessions.Keys <= Used(cfg, run)
  {
    TagsStayApart(cfg, run);
    forall t, tag | PendingTag(s, t, tag) ensures Unremembered(s, tag) {
      assert PendingTag(After(cfg, run), t, tag);
    }
  }

  lemma {:induction false} LazyIsInStep(cfg: Config, run: seq<Event>)
    requires GoodRun(cfg, run) && FreshTags(run)
    ensures After(cfg, run) == Trimmed(AfterLazily(cfg, run)) && Consistent(cfg, AfterLazily(cfg, run))
    ensures Remembered(AfterLazily(cfg, run), Used(cfg, run))
  {
    if run != [] {
      var before, e := run[..|run| - 1], run[|run| - 1];
      PrefixOfFresh(run, |run| - 1);
      LazyIsInStep(cfg, before);
      NothingForgottenReturns(cfg, before, AfterLazily(cfg, before));
      LastStepInStep(cfg, AfterLazily(cfg, before), e, Used(cfg, before));
    }
  }

  lemma LastStepInStep(cfg: Config, s: State, e: Event, used: set<Tag>)
    requires Consistent(cfg, s) && GoodEvent(cfg, e) && Remembered(s, used) && s.sessions.Keys <= used
    requires forall t, tag | PendingTag(s, t, tag) :: Unremembered(s, tag)
    ensures Step(cfg, Trimmed(s), e) == (Trimmed(StepWith(cfg, false, s, e).0), StepWith(cfg, false, s, e).1)
    ensures Consistent(cfg, StepWith(cfg, false, s, e).0)
    ensures Remembered(StepWith(cfg, false, s, e).0, used)
  {
    TrimStep(cfg, s, e);
    StepKeeps(cfg, false, s, e);
    StepRemembers(cfg, s, e, used);
  }

  /**
   * If no tag is drawn twice, then for every run of PDUs and session deletions the two switches send the same
   * datagrams, and the members of the eager one are the live members of the lazy one.
   */
  lemma {:induction false} LazyRefinesEager(cfg: Config, run: seq<Event>)
    requires GoodRun(cfg, run) && FreshTags(run)
    ensures Outputs(cfg, false, run) == Outputs(cfg, true, run)
    ensures After(cfg, run) == Trimmed(AfterLazily(cfg, run))
  {
    LazyIsInStep(cfg, run);
    if run != [] {
      var before, e := run[..|run| - 1], run[|run| - 1];
      PrefixOfFresh(run, |run| - 1);
      LazyRefinesEager(cfg, before);
      LazyIsInStep(cfg, before);
      NothingForgottenReturns(cfg, before, AfterLazily(cfg, before));
      TrimStep(cfg, AfterLazily(cfg, before), e);
    }
  }
}
