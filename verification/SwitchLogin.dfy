/** Login over whole runs: who gets a session, what never changes about it, and why replays are worthless. */
module SwitchLogin {
  import opened Wrappers
  import opened Protocol
  import opened SwitchModel
  import opened SwitchInvariant

  /** The event answers the challenge pending on its own transport: id, tag and HMAC all match. */
  predicate Answers(cfg: Config, s: State, e: Event, tag: Tag) {
    && e.Receive? && e.pdu.message.IdentityResponse? && e.pdu.message.username != ""
    && e.from in s.clients && s.clients[e.from].pending.Some?
    && var pending := s.clients[e.from].pending.value;
    && pending.reqId == e.pdu.message.reqId
    && pending.newSession == tag == e.pdu.message.sessionToUse && |tag| == TAG_BYTES
    && cfg.hasStore && cfg.verify(pending.challenge, e.pdu.message.answer, e.pdu.message.username, cfg.allowGuest)
  }

  /** The identity response is accepted: its tag is new, or names a session of the same user. */
  predicate Accepts(cfg: Config, s: State, e: Event, tag: Tag) {
    Answers(cfg, s, e, tag) && (tag in s.sessions ==> s.sessions[tag].username == e.pdu.message.username)
  }

  lemma DispatchSessions(cfg: Config, s: State, t: Transport, rx: Option<Tag>, pdu: Pdu, now: nat, n: Nonce)
    requires !pdu.message.IdentityResponse?
    ensures Dispatch(cfg, s, t, rx, pdu, now, n).0.sessions == s.sessions
  {
  }

  lemma AcceptedStep(cfg: Config, s: State, e: Event, tag: Tag)
    requires Consistent(cfg, s) && Accepts(cfg, s, e, tag)
    ensures Step(cfg, s, e) == (LogIn(Touch(s, e.from), e.from, tag, e.pdu.message.username, e.nonce.member), Silent)
  {
    assert Touch(s, e.from).clients[e.from] == s.clients[e.from];
  }

  lemma RejectedStep(cfg: Config, s: State, e: Event)
    requires Consistent(cfg, s) && e.Receive? && e.pdu.message.IdentityResponse?
    requires forall tag :: !Accepts(cfg, s, e, tag)
    ensures Step(cfg, s, e) == Challenge(cfg, Touch(s, e.from), e.from, CHALLENGE_FAILURE, e.now, e.nonce)
         || Step(cfg, s, e) == Challenge(cfg, Touch(s, e.from), e.from, SESSION_NOT_AVAILABLE, e.now, e.nonce)
  {
    var s1 := Touch(s, e.from);
    var m := e.pdu.message;
    if m.username != "" && AnswersPending(s1, e.from, m) {
      assert !Accepts(cfg, s, e, s1.clients[e.from].pending.value.newSession);
    }
  }

  /**
   * Why an identity response is not accepted decides the reason of the new challenge, and with it whether the client
   * tries again: a missing name, a wrong tag or a wrong HMAC is a failure; no such challenge, no store, or a tag in use
   * by another user is not.
   */
  lemma RejectionReasons(cfg: Config, s: State, e: Event)
    requires Consistent(cfg, s) && e.Receive? && e.pdu.message.IdentityResponse?
    ensures var m := e.pdu.message;
      var known := e.from in s.clients && s.clients[e.from].pending.Some?
                   && s.clients[e.from].pending.value.reqId == m.reqId;
      var failed := Challenge(cfg, Touch(s, e.from), e.from, CHALLENGE_FAILURE, e.now, e.nonce);
      var unavailable := Challenge(cfg, Touch(s, e.from), e.from, SESSION_NOT_AVAILABLE, e.now, e.nonce);
      if m.username == "" then Step(cfg, s, e) == failed
      else if !known || !cfg.hasStore then Step(cfg, s, e) == unavailable
      else
        var p := s.clients[e.from].pending.value;
        && (p.newSession != m.sessionToUse ==> Step(cfg, s, e) == failed)
        && (!cfg.verify(p.challenge, m.answer, m.username, cfg.allowGuest) ==> Step(cfg, s, e) == failed)
        && (p.newSession == m.sessionToUse && cfg.verify(p.challenge, m.answer, m.username, cfg.allowGuest)
            && p.newSession in s.sessions && s.sessions[p.newSession].username != m.username ==>
              Step(cfg, s, e) == unavailable)
  {
    hide Challenge, LogIn;
    if e.from in s.clients {
      assert Touch(s, e.from).clients[e.from] == s.clients[e.from];
    }
  }

  /** A session appears exactly when its tag's pending challenge is answered, with the data of that answer. */
  lemma SessionAppears(cfg: Config, s: State, e: Event, tag: Tag)
    requires Consistent(cfg, s) && tag !in s.sessions
    ensures tag in Step(cfg, s, e).0.sessions <==> Answers(cfg, s, e, tag)
    ensures Answers(cfg, s, e, tag) ==>
      Step(cfg, s, e).0.sessions[tag] == Session(e.pdu.message.username, Some(e.from), tag, e.nonce.member)
  {
    if Answers(cfg, s, e, tag) {
      AcceptedStep(cfg, s, e, tag);
    } else if e.Receive? {
      var s1 := Touch(s, e.from);
      if !e.pdu.message.IdentityResponse? {
        if e.pdu.session.Some? && e.pdu.session.value in s.sessions {
          var s2 := Rebind(s1, e.pdu.session.value, e.from);
          DispatchSessions(cfg, s2, e.from, Speaker(s1, e.from, e.pdu), e.pdu, e.now, e.nonce);
        } else {
          DispatchSessions(cfg, s1, e.from, Speaker(s1, e.from, e.pdu), e.pdu, e.now, e.nonce);
        }
      } else if other :| Accepts(cfg, s, e, other) {
        AcceptedStep(cfg, s, e, other);
      } else {
        RejectedStep(cfg, s, e);
      }
    }
  }

  /** No step changes the username, the member id or the tag of a session that stays. */
  lemma SessionKeepsIdentity(cfg: Config, s: State, e: Event, tag: Tag)
    requires Consistent(cfg, s) && tag in s.sessions && tag in Step(cfg, s, e).0.sessions
    ensures Step(cfg, s, e).0.sessions[tag] == s.sessions[tag].(transport := Step(cfg, s, e).0.sessions[tag].transport)
  {
    if e.Receive? {
      var s1 := Touch(s, e.from);
      if !e.pdu.message.IdentityResponse? {
        if e.pdu.session.Some? && e.pdu.session.value in s.sessions {
          var s2 := Rebind(s1, e.pdu.session.value, e.from);
          DispatchSessions(cfg, s2, e.from, Speaker(s1, e.from, e.pdu), e.pdu, e.now, e.nonce);
        } else {
          DispatchSessions(cfg, s1, e.from, Speaker(s1, e.from, e.pdu), e.pdu, e.now, e.nonce);
        }
      } else if other :| Accepts(cfg, s, e, other) {
        AcceptedStep(cfg, s, e, other);
      } else {
        RejectedStep(cfg, s, e);
      }
    }
  }

  // ---- Freshness --------------------------------------------------------------------------------------

  /** Tags drawn in the events of a run. */
  function Issued(run: seq<Event>): set<Tag> {
    set e | e in run && e.Receive? :: e.nonce.tag
  }

  /** Tags some identity response of the run was accepted for. */
  ghost function Used(cfg: Config, run: seq<Event>): set<Tag> {
    if run == [] then {}
    else
      var before := run[..|run| - 1];
      var accepted := AcceptedTag(cfg, After(cfg, before), run[|run| - 1]);
      Used(cfg, before) + (if accepted.Some? then {accepted.value} else {})
  }

  predicate PendingTag(s: State, t: Transport, tag: Tag) {
    t in s.clients && s.clients[t].pending.Some? && s.clients[t].pending.value.newSession == tag
  }

  /** Pending tags were issued, are not used yet and are all different; live tags are used ones. */
  ghost predicate TagsApart(used: set<Tag>, issued: set<Tag>, s: State) {
    && used <= issued && s.sessions.Keys <= used
    && (forall t, tag :: PendingTag(s, t, tag) ==> tag in issued && tag !in used)
    && (forall t, u, tag :: PendingTag(s, t, tag) && PendingTag(s, u, tag) ==> t == u)
  }

  lemma DispatchPendings(
    cfg: Config, s: State, t: Transport, rx: Option<Tag>, pdu: Pdu, now: nat, n: Nonce, u: Transport, tag: Tag)
    requires !pdu.message.IdentityResponse? && PendingTag(Dispatch(cfg, s, t, rx, pdu, now, n).0, u, tag)
    ensures PendingTag(s, u, tag) || (u == t && tag == n.tag)
  {
  }

  lemma RebindPendings(s: State, sid: Tag, t: Transport, u: Transport, tag: Tag)
    requires sid in s.sessions && PendingTag(Rebind(s, sid, t), u, tag)
    ensures PendingTag(s, u, tag)
  {
  }

  /** The tag an event is accepted for, if any. */
  ghost function AcceptedTag(cfg: Config, s: State, e: Event): Option<Tag> {
    if e.Receive? && e.pdu.message.IdentityResponse? && Accepts(cfg, s, e, e.pdu.message.sessionToUse)
    then Some(e.pdu.message.sessionToUse) else None
  }

  /** How tags move in one step from `s` to `s'`: into a challenge, from there into a session, and never back. */
  ghost predicate TagsMove(s: State, e: Event, s': State, accepted: Option<Tag>) {
    && (forall tag | tag in s'.sessions :: tag in s.sessions || accepted == Some(tag))
    && (forall u, tag | PendingTag(s', u, tag) ::
          PendingTag(s, u, tag) || (accepted.None? && e.Receive? && u == e.from && tag == e.nonce.tag))
    && (accepted.Some? ==> PendingTag(s, e.from, accepted.value))
    && (accepted.Some? ==> forall tag :: !PendingTag(s', e.from, tag))
  }

  lemma PendingsAfterLogin(cfg: Config, s: State, e: Event, u: Transport, tag: Tag)
    requires Consistent(cfg, s) && PendingTag(Step(cfg, s, e).0, u, tag)
    requires e.Receive? && e.pdu.message.IdentityResponse?
    ensures PendingTag(s, u, tag) || (AcceptedTag(cfg, s, e).None? && u == e.from && tag == e.nonce.tag)
  {
    hide Step;
    if other :| Accepts(cfg, s, e, other) {
      AcceptedStep(cfg, s, e, other);
    } else {
      RejectedStep(cfg, s, e);
    }
  }

  lemma PendingsAfter(cfg: Config, s: State, e: Event, u: Transport, tag: Tag)
    requires Consistent(cfg, s) && PendingTag(Step(cfg, s, e).0, u, tag)
    ensures PendingTag(s, u, tag)
         || (AcceptedTag(cfg, s, e).None? && e.Receive? && u == e.from && tag == e.nonce.tag)
  {
    hide Dispatch;
    if e.Receive? {
      var s1 := Touch(s, e.from);
      var rx := Speaker(s1, e.from, e.pdu);
      if e.pdu.message.IdentityResponse? {
        PendingsAfterLogin(cfg, s, e, u, tag);
      } else if e.pdu.session.Some? && e.pdu.session.value in s.sessions {
        var s2 := Rebind(s1, e.pdu.session.value, e.from);
        DispatchPendings(cfg, s2, e.from, rx, e.pdu, e.now, e.nonce, u, tag);
        if PendingTag(s2, u, tag) {
          RebindPendings(s1, e.pdu.session.value, e.from, u, tag);
        }
      } else if e.pdu.session.None? {
        DispatchPendings(cfg, s1, e.from, rx, e.pdu, e.now, e.nonce, u, tag);
      }
    }
  }

  lemma TagsMoveInStep(cfg: Config, s: State, e: Event)
    requires Consistent(cfg, s)
    ensures TagsMove(s, e, Step(cfg, s, e).0, AcceptedTag(cfg, s, e))
  {
    var s' := Step(cfg, s, e).0;
    var accepted := AcceptedTag(cfg, s, e);
    forall tag | tag in s'.sessions && tag !in s.sessions ensures accepted == Some(tag) {
      SessionAppears(cfg, s, e, tag);
    }
    forall u, tag | PendingTag(s', u, tag)
      ensures PendingTag(s, u, tag) || (accepted.None? && e.Receive? && u == e.from && tag == e.nonce.tag)
    {
      PendingsAfter(cfg, s, e, u, tag);
    }
    if accepted.Some? {
      AcceptedStep(cfg, s, e, accepted.value);
    }
  }

  lemma PrefixOfFresh(run: seq<Event>, k: nat)
    requires FreshTags(run) && k <= |run|
    ensures FreshTags(run[..k])
  {
  }

  lemma LastTagIsNew(run: seq<Event>)
    requires run != [] && FreshTags(run) && run[|run| - 1].Receive?
    ensures run[|run| - 1].nonce.tag !in Issued(run[..|run| - 1])
    ensures Issued(run) == Issued(run[..|run| - 1]) + {run[|run| - 1].nonce.tag}
  {
    assert run == run[..|run| - 1] + [run[|run| - 1]];
  }

  lemma TagsApartStep(
    s: State, e: Event, s': State, accepted: Option<Tag>, used: set<Tag>, issued: set<Tag>, issued': set<Tag>)
    requires TagsApart(used, issued, s) && TagsMove(s, e, s', accepted) && issued <= issued'
    requires e.Receive? ==> e.nonce.tag !in issued && e.nonce.tag in issued'
    ensures TagsApart(used + (if accepted.Some? then {accepted.value} else {}), issued', s')
  {
  }

  lemma {:induction false} TagsStayApart(cfg: Config, run: seq<Event>)
    requires GoodRun(cfg, run) && FreshTags(run)
    ensures TagsApart(Used(cfg, run), Issued(run), After(cfg, run))
  {
    if run != [] {
      var before, e := run[..|run| - 1], run[|run| - 1];
      PrefixOfFresh(run, |run| - 1);
      TagsStayApart(cfg, before);
      RunKeeps(cfg, before);
      assert forall x | x in before :: x in run;
      if e.Receive? {
        LastTagIsNew(run);
      }
      TagsMoveInStep(cfg, After(cfg, before), e);
      TagsApartStep(After(cfg, before), e, After(cfg, run), AcceptedTag(cfg, After(cfg, before), e),
        Used(cfg, before), Issued(before), Issued(run));
    }
  }

  lemma {:induction false} UsedGrows(cfg: Config, run: seq<Event>, i: nat, j: nat)
    requires i <= j <= |run|
    ensures Used(cfg, run[..i]) <= Used(cfg, run[..j])
    decreases j - i
  {
    hide AcceptedTag, After;
    if i < j {
      UsedGrows(cfg, run, i, j - 1);
      assert run[..j][..j - 1] == run[..j - 1];
    }
  }

  lemma UsedIsNotPending(used: set<Tag>, issued: set<Tag>, s: State, t: Transport, tag: Tag)
    requires TagsApart(used, issued, s) && tag in used
    ensures !PendingTag(s, t, tag)
  {
  }

  /**
   * With fresh tags a tag is accepted at most once in a run. So a replayed identity response (same PDU, from
   * whatever transport, with whatever request id is pending there by then) never logs anybody in again.
   */
  lemma AcceptedAtMostOnce(cfg: Config, run: seq<Event>, i: nat, j: nat, tag: Tag)
    requires GoodRun(cfg, run) && FreshTags(run) && i < j < |run|
    requires Accepts(cfg, After(cfg, run[..i]), run[i], tag)
    ensures !Accepts(cfg, After(cfg, run[..j]), run[j], tag)
  {
    assert run[..i + 1][..i] == run[..i];
    assert tag in Used(cfg, run[..i + 1]);
    UsedGrows(cfg, run, i + 1, j);
    PrefixOfFresh(run, j);
    TagsStayApart(cfg, run[..j]);
    UsedIsNotPending(Used(cfg, run[..j]), Issued(run[..j]), After(cfg, run[..j]), run[j].from, tag);
  }

  /** With fresh tags, a used tag that is live after an event was live before it, for the same user. */
  lemma IdentityStep(cfg: Config, run: seq<Event>, e: Event, tag: Tag)
    requires GoodRun(cfg, run) && FreshTags(run) && tag in Used(cfg, run)
    requires tag in Step(cfg, After(cfg, run), e).0.sessions
    ensures tag in After(cfg, run).sessions
    ensures Step(cfg, After(cfg, run), e).0.sessions[tag].username == After(cfg, run).sessions[tag].username
    ensures Step(cfg, After(cfg, run), e).0.sessions[tag].member == After(cfg, run).sessions[tag].member
  {
    RunKeeps(cfg, run);
    TagsStayApart(cfg, run);
    if tag !in After(cfg, run).sessions {
      SessionAppears(cfg, After(cfg, run), e, tag);
      assert PendingTag(After(cfg, run), e.from, tag);
      assert false;
    }
    SessionKeepsIdentity(cfg, After(cfg, run), e, tag);
  }

  /** Who a tag stands for in a state, if its session is live. */
  function Identity(s: State, tag: Tag): Option<(string, nat)> {
    if tag in s.sessions then Some((s.sessions[tag].username, s.sessions[tag].member)) else None
  }

  /** What the tag stands for after each prefix of a run, from the empty one to the whole run. */
  function History(cfg: Config, run: seq<Event>, tag: Tag): (h: seq<Option<(string, nat)>>)
    ensures |h| == |run| + 1
  {
    (if run == [] then [] else History(cfg, run[..|run| - 1], tag)) + [Identity(After(cfg, run), tag)]
  }

  lemma {:induction false} HistoryAt(cfg: Config, run: seq<Event>, k: nat, tag: Tag)
    requires k <= |run|
    ensures History(cfg, run, tag)[k] == Identity(After(cfg, run[..k]), tag)
  {
    if run == [] || k == |run| {
      assert run[..k] == run;
      if run != [] {
        HistoryAt(cfg, run[..|run| - 1], 0, tag);
      }
    } else {
      assert run[..|run| - 1][..k] == run[..k];
      HistoryAt(cfg, run[..|run| - 1], k, tag);
    }
  }

  lemma IdentityPrefix(cfg: Config, run: seq<Event>, i: nat, k: nat, tag: Tag)
    requires GoodRun(cfg, run) && FreshTags(run) && i <= k < |run|
    requires tag in After(cfg, run[..i]).sessions && tag in After(cfg, run[..k + 1]).sessions
    ensures Identity(After(cfg, run[..k]), tag) == Identity(After(cfg, run[..k + 1]), tag)
  {
    hide Used, Step;
    assert run[..k + 1][..k] == run[..k];
    PrefixOfFresh(run, i);
    PrefixOfFresh(run, k);
    TagsStayApart(cfg, run[..i]);
    UsedGrows(cfg, run, i, k);
    IdentityStep(cfg, run[..k], run[k], tag);
  }

  lemma HistoryStep(cfg: Config, run: seq<Event>, i: nat, k: nat, tag: Tag)
    requires GoodRun(cfg, run) && FreshTags(run) && i <= k < |run|
    requires History(cfg, run, tag)[i].Some? && History(cfg, run, tag)[k + 1].Some?
    ensures History(cfg, run, tag)[k] == History(cfg, run, tag)[k + 1]
  {
    HistoryAt(cfg, run, i, tag);
    HistoryAt(cfg, run, k, tag);
    HistoryAt(cfg, run, k + 1, tag);
    IdentityPrefix(cfg, run, i, k, tag);
  }

  /**
   * Username and member id of a tag never change over a run: between two moments at which its session is live,
   * the session is live all the time and stands for the same user. So a destroyed session never returns.
   */
  lemma {:induction false} IdentityIsForever(cfg: Config, run: seq<Event>, i: nat, k: nat, j: nat, tag: Tag)
    requires GoodRun(cfg, run) && FreshTags(run) && i <= k <= j <= |run|
    requires History(cfg, run, tag)[i].Some? && History(cfg, run, tag)[j].Some?
    ensures History(cfg, run, tag)[k] == History(cfg, run, tag)[j]
    decreases j - k
  {
    if k < j {
      IdentityIsForever(cfg, run, i, k + 1, j, tag);
      HistoryStep(cfg, run, i, k, tag);
    }
  }
}
