/** Which context owns which session, and so for whom an untagged packet speaks, read off the history. */
module SwitchOwners {
  import opened Wrappers
  import opened Protocol
  import opened SwitchModel
  import opened SwitchInvariant
  import opened SwitchLogin
  import opened SwitchRelay
  import opened SwitchHistory
  import opened SwitchAnswers

  /** The session the context of `t` points to. */
  function OwnerOf(s: State, t: Transport): Option<Tag> { ClientAt(s, t).session }

  /** The tag whose login from `t` is accepted in the event. */
  ghost function LoginAt(cfg: Config, s: State, e: Event, t: Transport): Option<Tag> {
    if e.Receive? && e.from == t then AcceptedTag(cfg, s, e) else None
  }

  /** The owner of the context of `t` speaks from elsewhere, or `t` is forgotten. */
  ghost predicate Leaves(cfg: Config, s: State, e: Event, t: Transport, owner: Tag) {
    e == Forget(t) || (e.Receive? && e.from != t && Speaks(cfg, s, e, owner))
  }

  lemma DispatchOwners(cfg: Config, s: State, t: Transport, rx: Option<Tag>, pdu: Pdu, now: nat, n: Nonce, u: Transport)
    requires !pdu.message.IdentityResponse? && t in s.clients
    ensures OwnerOf(Dispatch(cfg, s, t, rx, pdu, now, n).0, u) == OwnerOf(s, u)
    ensures u in Dispatch(cfg, s, t, rx, pdu, now, n).0.clients <==> u in s.clients
  {
  }

  lemma RebindOwners(s: State, tag: Tag, t: Transport, u: Transport)
    requires ContextsOk(s) && tag in s.sessions
    ensures OwnerOf(Rebind(s, tag, t), u) == if u != t && OwnerOf(s, u) == Some(tag) then None else OwnerOf(s, u)
    ensures u in Rebind(s, tag, t).clients <==> u in s.clients
  {
  }

  lemma LogInOwners(s: State, t: Transport, tag: Tag, username: string, member: nat, u: Transport)
    requires ContextsOk(s)
    ensures OwnerOf(LogIn(s, t, tag, username, member), u)
         == if u == t then Some(tag) else if OwnerOf(s, u) == Some(tag) then None else OwnerOf(s, u)
  {
  }

  lemma ChallengeOwners(cfg: Config, s: State, t: Transport, reason: Reason, now: nat, n: Nonce, u: Transport)
    ensures OwnerOf(Challenge(cfg, s, t, reason, now, n).0, u) == OwnerOf(s, u)
  {
  }

  /**
   * The owner of a context changes in two ways only: a login accepted from there makes its tag the owner, and an owner
   * that speaks from elsewhere, or whose transport is forgotten, is one no longer.
   */
  lemma OwnerStep(cfg: Config, s: State, e: Event, t: Transport)
    requires Inv(cfg, s)
    ensures OwnerOf(Step(cfg, s, e).0, t) ==
      if LoginAt(cfg, s, e, t).Some? then LoginAt(cfg, s, e, t)
      else if OwnerOf(s, t).Some? && Leaves(cfg, s, e, t, OwnerOf(s, t).value) then None
      else OwnerOf(s, t)
  {
    hide Dispatch, Challenge, Rebind, LogIn, Answers, ChannelsOk, NamesOk, PendingsOk, SessionsOk, MembersLive;
    if e.Receive? {
      var s1 := Touch(s, e.from);
      var rx := Speaker(s1, e.from, e.pdu);
      assert OwnerOf(s1, t) == OwnerOf(s, t) && ContextsOk(s1);
      if e.pdu.message.IdentityResponse? {
        LoginOwners(cfg, s, e, t);
      } else if e.pdu.session.None? {
        DispatchOwners(cfg, s1, e.from, rx, e.pdu, e.now, e.nonce, t);
      } else if e.pdu.session.value in s.sessions {
        RebindOwners(s1, e.pdu.session.value, e.from, t);
        RebindOwners(s1, e.pdu.session.value, e.from, e.from);
        var s2 := Rebind(s1, e.pdu.session.value, e.from);
        DispatchOwners(cfg, s2, e.from, rx, e.pdu, e.now, e.nonce, t);
      } else {
        ChallengeOwners(cfg, s1, e.from, SESSION_NOT_AVAILABLE, e.now, e.nonce, t);
      }
    }
  }

  lemma LoginOwners(cfg: Config, s: State, e: Event, t: Transport)
    requires Inv(cfg, s) && e.Receive? && e.pdu.message.IdentityResponse?
    ensures OwnerOf(Step(cfg, s, e).0, t) ==
      if LoginAt(cfg, s, e, t).Some? then LoginAt(cfg, s, e, t)
      else if OwnerOf(s, t).Some? && e.from != t && Accepts(cfg, s, e, OwnerOf(s, t).value) then None
      else OwnerOf(s, t)
  {
    hide Step, Challenge, LogIn, ChannelsOk, NamesOk, PendingsOk, SessionsOk, MembersLive;
    var s1 := Touch(s, e.from);
    if tag :| Accepts(cfg, s, e, tag) {
      AcceptedStep(cfg, s, e, tag);
      LogInOwners(s1, e.from, tag, e.pdu.message.username, e.nonce.member, t);
    } else {
      RejectedStep(cfg, s, e);
      ChallengeOwners(cfg, s1, e.from, CHALLENGE_FAILURE, e.now, e.nonce, t);
      ChallengeOwners(cfg, s1, e.from, SESSION_NOT_AVAILABLE, e.now, e.nonce, t);
    }
  }

  /** The event logs in, elsewhere, a session last reached at `t`, whose context no other session owns. */
  ghost predicate Evicts(cfg: Config, s: State, e: Event, t: Transport) {
    && e.Receive? && e.from != t && AcceptedTag(cfg, s, e).Some?
    && var tag := AcceptedTag(cfg, s, e).value;
    BoundTo(s, tag, t) && (OwnerOf(s, t).None? || OwnerOf(s, t) == Some(tag))
  }

  /** A context comes with the first datagram, and goes when its owner is forgotten or evicted. */
  lemma ContextStep(cfg: Config, s: State, e: Event, t: Transport)
    requires Inv(cfg, s)
    ensures t in Step(cfg, s, e).0.clients <==>
      || (e.Receive? && e.from == t)
      || (t in s.clients && !(e == Forget(t) && OwnerOf(s, t).Some?) && !Evicts(cfg, s, e, t))
  {
    hide Dispatch, Rebind, LogIn, Answers, ChannelsOk, NamesOk, PendingsOk, SessionsOk, MembersLive;
    if e.Receive? {
      var s1 := Touch(s, e.from);
      var rx := Speaker(s1, e.from, e.pdu);
      assert ContextsOk(s1);
      if e.pdu.message.IdentityResponse? {
        LoginContexts(cfg, s, e, t);
      } else if e.pdu.session.None? {
        DispatchOwners(cfg, s1, e.from, rx, e.pdu, e.now, e.nonce, t);
      } else if e.pdu.session.value in s.sessions {
        RebindOwners(s1, e.pdu.session.value, e.from, t);
        RebindOwners(s1, e.pdu.session.value, e.from, e.from);
        var s2 := Rebind(s1, e.pdu.session.value, e.from);
        DispatchOwners(cfg, s2, e.from, rx, e.pdu, e.now, e.nonce, t);
      }
    }
  }

  lemma LoginContexts(cfg: Config, s: State, e: Event, t: Transport)
    requires Inv(cfg, s) && e.Receive? && e.pdu.message.IdentityResponse?
    ensures t in Step(cfg, s, e).0.clients <==> e.from == t || (t in s.clients && !Evicts(cfg, s, e, t))
  {
    hide Step, ChannelsOk, NamesOk, PendingsOk, SessionsOk, MembersLive;
    if tag :| Accepts(cfg, s, e, tag) {
      AcceptedStep(cfg, s, e, tag);
    } else {
      RejectedStep(cfg, s, e);
    }
  }

  /** Sessions come with accepted logins and go with the transports they own; nothing else adds or removes one. */
  lemma LiveStep(cfg: Config, s: State, e: Event)
    requires Inv(cfg, s)
    ensures Step(cfg, s, e).0.sessions.Keys == s.sessions.Keys
      + (if AcceptedTag(cfg, s, e).Some? then {AcceptedTag(cfg, s, e).value} else {})
      - (if e.Forget? && OwnerOf(s, e.from).Some? then {OwnerOf(s, e.from).value} else {})
  {
    hide Dispatch, Rebind, LogIn, ChannelsOk, NamesOk, PendingsOk, SessionsOk, MembersLive;
    if e.Receive? {
      var s1 := Touch(s, e.from);
      var rx := Speaker(s1, e.from, e.pdu);
      if e.pdu.message.IdentityResponse? {
        if tag :| Accepts(cfg, s, e, tag) {
          AcceptedStep(cfg, s, e, tag);
          LogInKeys(s1, e.from, tag, e.pdu.message.username, e.nonce.member);
        } else {
          RejectedStep(cfg, s, e);
        }
      } else if e.pdu.session.None? {
        DispatchSessions(cfg, s1, e.from, rx, e.pdu, e.now, e.nonce);
      } else if e.pdu.session.value in s.sessions {
        RebindKeys(s1, e.pdu.session.value, e.from);
        DispatchSessions(cfg, Rebind(s1, e.pdu.session.value, e.from), e.from, rx, e.pdu, e.now, e.nonce);
      }
    }
  }

  lemma LogInKeys(s: State, t: Transport, tag: Tag, username: string, member: nat)
    ensures LogIn(s, t, tag, username, member).sessions.Keys == s.sessions.Keys + {tag}
  {
  }

  lemma RebindKeys(s: State, tag: Tag, t: Transport)
    requires tag in s.sessions
    ensures Rebind(s, tag, t).sessions.Keys == s.sessions.Keys
  {
  }

  // ---- Whole runs -------------------------------------------------------------------------------------------------

  /** The owner of the context of `t` after a run, as a fold over its events. */
  ghost function Owner(cfg: Config, run: seq<Event>, t: Transport): Option<Tag> {
    if run == [] then None
    else
      var before, e := run[..|run| - 1], run[|run| - 1];
      var (login, was) := (LoginAt(cfg, After(cfg, before), e, t), Owner(cfg, before, t));
      if login.Some? then login
      else if was.Some? && Leaves(cfg, After(cfg, before), e, t, was.value) then None
      else was
  }

  lemma {:induction false} OwnerIsAFold(cfg: Config, run: seq<Event>, t: Transport)
    requires GoodRun(cfg, run)
    ensures OwnerOf(After(cfg, run), t) == Owner(cfg, run, t)
  {
    hide Step, LoginAt, Leaves, Inv;
    if run == [] {
      NobodyYet(cfg, t);
    } else {
      var before, e := run[..|run| - 1], run[|run| - 1];
      OwnerIsAFold(cfg, before, t);
      RunKeeps(cfg, before);
      OwnerStep(cfg, After(cfg, before), e, t);
    }
  }

  lemma NobodyYet(cfg: Config, t: Transport)
    ensures OwnerOf(After(cfg, []), t) == None
  {
  }

  /** The sessions that live after a run: logged in, and their transport not forgotten while they owned it. */
  ghost function Live(cfg: Config, run: seq<Event>): set<Tag> {
    if run == [] then {}
    else
      var before, e := run[..|run| - 1], run[|run| - 1];
      var login := AcceptedTag(cfg, After(cfg, before), e);
      Live(cfg, before) + (if login.Some? then {login.value} else {})
      - (if e.Forget? && Owner(cfg, before, e.from).Some? then {Owner(cfg, before, e.from).value} else {})
  }

  lemma {:induction false} LiveIsAFold(cfg: Config, run: seq<Event>)
    requires GoodRun(cfg, run)
    ensures After(cfg, run).sessions.Keys == Live(cfg, run)
  {
    hide Step, Inv, AcceptedTag;
    if run != [] {
      var before, e := run[..|run| - 1], run[|run| - 1];
      LiveIsAFold(cfg, before);
      RunKeeps(cfg, before);
      OwnerIsAFold(cfg, before, e.from);
      LiveStep(cfg, After(cfg, before), e);
    }
  }

  /** Event `i` is the latest login from `t`, with `tag`, and since then `tag` spoke nowhere else and `t` was kept. */
  ghost predicate OwnsSince(cfg: Config, run: seq<Event>, t: Transport, tag: Tag, i: nat) {
    && i < |run| && LoginAt(cfg, After(cfg, run[..i]), run[i], t) == Some(tag)
    && forall j | i < j < |run| ::
         LoginAt(cfg, After(cfg, run[..j]), run[j], t).None? && !Leaves(cfg, After(cfg, run[..j]), run[j], t, tag)
  }

  /** After every run `tag` owns the context of `t` exactly if there is such a login. */
  lemma {:induction false} LatestLoginOwns(cfg: Config, run: seq<Event>, t: Transport, tag: Tag)
    requires GoodRun(cfg, run)
    ensures OwnerOf(After(cfg, run), t) == Some(tag) <==> exists i :: OwnsSince(cfg, run, t, tag, i)
  {
    hide LoginAt, Leaves, After;
    OwnerIsAFold(cfg, run, t);
    FoldIsLatest(cfg, run, t, tag);
  }

  lemma {:induction false} FoldIsLatest(cfg: Config, run: seq<Event>, t: Transport, tag: Tag)
    ensures Owner(cfg, run, t) == Some(tag) <==> exists i :: OwnsSince(cfg, run, t, tag, i)
  {
    hide LoginAt, Leaves, After;
    if run != [] {
      var k := |run| - 1;
      var before := run[..k];
      FoldIsLatest(cfg, before, t, tag);
      assert forall j | 0 <= j <= k :: before[..j] == run[..j];
      var login := LoginAt(cfg, After(cfg, before), run[k], t);
      if login == Some(tag) {
        assert OwnsSince(cfg, run, t, tag, k);
      } else if i :| OwnsSince(cfg, before, t, tag, i) {
        if login.None? && !Leaves(cfg, After(cfg, before), run[k], t, tag) {
          assert OwnsSince(cfg, run, t, tag, i);
        }
      }
      forall i: nat | OwnsSince(cfg, run, t, tag, i) && i < k ensures OwnsSince(cfg, before, t, tag, i) {
      }
    }
  }

  /** An untagged packet speaks for the owner of its transport. */
  lemma UntaggedSpeaksForOwner(cfg: Config, run: seq<Event>, e: Event)
    requires GoodRun(cfg, run) && e.Receive? && e.pdu.session.None?
    ensures SpeakerOf(After(cfg, run), e) == Owner(cfg, run, e.from)
  {
    hide After;
    OwnerIsAFold(cfg, run, e.from);
  }

  /**
   * What becomes of an untagged request after any run: without an owner of its transport it is answered with a
   * challenge; otherwise it is the owner whose heartbeat is echoed, who is made a member, or whose name is relayed.
   */
  lemma UntaggedAnswered(cfg: Config, run: seq<Event>, e: Event)
    requires GoodRun(cfg, run) && GoodEvent(cfg, e) && e.Receive?
    requires e.pdu.session.None? && NeedsSession(e.pdu.message)
    ensures var (s, owner, m) := (After(cfg, run), Owner(cfg, run, e.from), e.pdu.message);
      var (s', out) := Step(cfg, s, e);
      if owner.None? then
        out == FromSwitch(e.from, e.now,
                          IdentityRequest(s.nextReqId, UNRECOGNIZED_TRANSPORT, e.nonce.challenge, e.nonce.tag))
      else
        && owner.value in s.sessions
        && (m.Heartbeat? ==> out == Reply(e.from, Pdu(e.pdu.version, e.now, None, Heartbeat)))
        && (m.CreateRequest? && m.channelName !in s.names ==>
              s.nextChannelId in s'.channels && s'.channels[s.nextChannelId].members == {owner.value})
        && (m.JoinRequest? && m.channelName in s.names ==>
              var cid := s.names[m.channelName];
              && cid in s.channels && cid in s'.channels
              && (s.channels[cid].metadata == m.metadata ==>
                    s'.channels[cid].members == s.channels[cid].members + {owner.value}))
        && (out.Relay? ==>
              && out.pdu.message.StreamData?
              && out.pdu.message.fromUsername == s.sessions[owner.value].username
              && out.pdu.message.fromSession == s.sessions[owner.value].member)
  {
    hide After, Step, Inv, MayRelay, Tightest, Ignored;
    var s := After(cfg, run);
    RunKeeps(cfg, run);
    UntaggedSpeaksForOwner(cfg, run, e);
    if SpeakerOf(s, e).None? {
      StrangersAreChallenged(cfg, s, e);
    } else {
      SpeakerIsLive(cfg, s, e);
      ExactRelay(cfg, s, e);
      match e.pdu.message
      case Heartbeat => HeartbeatAnswered(cfg, s, e);
      case CreateRequest(_, _, _, _) => CreateAnswered(cfg, s, e);
      case JoinRequest(_, _, _) => JoinAnswered(cfg, s, e);
      case _ =>
    }
  }

  lemma SpeakerIsLive(cfg: Config, s: State, e: Event)
    requires Inv(cfg, s) && e.Receive? && SpeakerOf(s, e).Some?
    ensures SpeakerOf(s, e).value in s.sessions
    ensures MayRelay(cfg, s, e) ==> e.pdu.message.StreamData?
  {
  }
}
