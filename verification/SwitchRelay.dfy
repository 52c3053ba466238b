/** What a relay sends to whom, and exactly when every other live member is reached. */
module SwitchRelay {
  import opened Wrappers
  import opened Protocol
  import opened SwitchModel
  import opened SwitchInvariant
  import opened SwitchLogin

  /** The session has a transport, and that transport has a context (so a sender function). */
  predicate HasRoute(s: State, tag: Tag) {
    tag in s.sessions && s.sessions[tag].transport.Some? && s.sessions[tag].transport.value in s.clients
  }

  predicate Routed(s: State) {
    forall tag | tag in s.sessions :: HasRoute(s, tag)
  }

  /** The session that speaks in an event: the one its tag names, or else the one its transport belongs to. */
  function SpeakerOf(s: State, e: Event): Option<Tag>
    requires e.Receive?
  {
    if e.pdu.session.Some? then (if e.pdu.session.value in s.sessions then e.pdu.session else None)
    else if e.from in s.clients then s.clients[e.from].session
    else None
  }

  /** `n` is at most `cap`, where zero means no cap. */
  predicate WithinCap(n: nat, cap: nat) { cap > 0 ==> n <= cap }

  /** The checks a stream PDU must pass, read off the state before it arrives. */
  predicate MayRelay(cfg: Config, s: State, e: Event) {
    && e.Receive? && e.pdu.message.StreamData? && SpeakerOf(s, e).Some?
    && var sid, cid := SpeakerOf(s, e).value, e.pdu.message.channelId;
    && sid in s.sessions && cid in s.channels && sid in s.channels[cid].members
    && WithinCap(|e.pdu.message.payload|, s.channels[cid].limits.maxPayloadSize)
    && RateAllow(s.channels[cid].window, s.channels[cid].limits.pktRateLimit, e.now).0
    && WireSize(Stamped(e.pdu, s.sessions[sid])) <= WIRE_CAPACITY
  }

  /** Touch and Rebind leave the speaker's name and the channels alone, and give it the event's transport. */
  lemma Prepared(cfg: Config, s: State, e: Event) returns (s2: State, rx: Option<Tag>)
    requires Inv(cfg, s) && e.Receive? && e.pdu.message.StreamData? && SpeakerOf(s, e).Some?
    ensures rx == SpeakerOf(s, e) && Authenticated(s2, rx)
    ensures Step(cfg, s, e) == HandleStream(cfg, s2, e.from, rx.value, e.pdu, e.now, e.nonce)
    ensures s2.channels == s.channels && s2.sessions.Keys == s.sessions.Keys && e.from in s2.clients
    ensures s2.sessions[rx.value] == s.sessions[rx.value].(transport := Some(e.from))
    ensures forall m | m in s.sessions :: m != rx.value ==> s2.sessions[m] == s.sessions[m]
    ensures s2.clients.Keys == s.clients.Keys + {e.from} && Inv(cfg, s2)
  {
    hide HandleStream, Challenge, HandleIdentity, HandleHeartbeat, HandleCreate, HandleJoin, HandleLeave;
    rx := SpeakerOf(s, e);
    s2 := Touch(s, e.from);
    hide Inv;
    TouchKeeps(cfg, s, e.from);
    if e.pdu.session.Some? {
      ReboundSession(cfg, s2, rx.value, e.from);
      s2 := Rebind(s2, rx.value, e.from);
    }
  }

  lemma TouchKeeps(cfg: Config, s: State, t: Transport)
    requires Inv(cfg, s)
    ensures Inv(cfg, Touch(s, t))
  {
  }

  lemma ReboundSession(cfg: Config, s: State, tag: Tag, t: Transport)
    requires Inv(cfg, s) && tag in s.sessions
    ensures Inv(cfg, Rebind(s, tag, t)) && Rebind(s, tag, t).channels == s.channels
    ensures Rebind(s, tag, t).sessions == s.sessions[tag := s.sessions[tag].(transport := Some(t))]
    ensures Rebind(s, tag, t).clients.Keys == s.clients.Keys
  {
    RebindKeeps(cfg, s, tag, t);
  }

  lemma StreamOutcome(cfg: Config, s: State, t: Transport, sid: Tag, pdu: Pdu, now: nat, n: Nonce)
    requires pdu.message.StreamData? && sid in s.sessions && BoundTo(s, sid, t)
    requires pdu.message.channelId in s.channels && sid in s.channels[pdu.message.channelId].members
    ensures
      var c := s.channels[pdu.message.channelId];
      var (s', out) := HandleStream(cfg, s, t, sid, pdu, now, n);
      && out.Relay? == (PayloadWithinLimit(|pdu.message.payload|, c.limits.maxPayloadSize)
                        && RateAllow(c.window, c.limits.pktRateLimit, now).0
                        && WireSize(Stamped(pdu, s.sessions[sid])) <= WIRE_CAPACITY)
      && (out.Relay? || out.Silent?)
      && (out.Relay? ==> out.pdu == Stamped(pdu, s.sessions[sid]) && out.recipients == Recipients(s, c.members, sid))
      && s'.sessions == s.sessions && s'.clients == s.clients
  {
    assert Prune(s, s.channels[pdu.message.channelId], sid) == s.channels[pdu.message.channelId];
  }

  lemma StreamRefused(cfg: Config, s: State, t: Transport, sid: Tag, pdu: Pdu, now: nat, n: Nonce)
    requires pdu.message.StreamData? && sid in s.sessions && BoundTo(s, sid, t)
    requires pdu.message.channelId !in s.channels || sid !in s.channels[pdu.message.channelId].members
    ensures !HandleStream(cfg, s, t, sid, pdu, now, n).1.Relay?
  {
  }

  /**
   * Exact relay. A step relays exactly when the checks pass. The relayed PDU is the received one with the
   * sender's own name and member id; each other member that has a route is addressed once, at the transport it
   * is bound to; the sender and outsiders are not addressed; and no payload is above a non-zero limit.
   */
  lemma ExactRelay(cfg: Config, s: State, e: Event)
    requires Inv(cfg, s)
    ensures Step(cfg, s, e).1.Relay? <==> MayRelay(cfg, s, e)
    ensures MayRelay(cfg, s, e) ==>
      var (s', out) := Step(cfg, s, e);
      var sid, cid := SpeakerOf(s, e).value, e.pdu.message.channelId;
      && out.pdu == e.pdu.(message := StreamData(s.sessions[sid].username, s.sessions[sid].member, cid,
                                                  e.pdu.message.payload))
      && out.recipients.Keys == (set m | m in s.channels[cid].members && m != sid && HasRoute(s', m))
      && (forall m | m in out.recipients :: BoundTo(s', m, out.recipients[m]))
      && (s.channels[cid].limits.maxPayloadSize > 0 ==>
            |out.pdu.message.payload| <= s.channels[cid].limits.maxPayloadSize)
  {
    hide Step, HandleStream, WireSize, RateAllow;
    if e.Receive? && e.pdu.message.StreamData? {
      if SpeakerOf(s, e).Some? {
        var s2, rx := Prepared(cfg, s, e);
        var cid := e.pdu.message.channelId;
        if cid in s.channels && rx.value in s.channels[cid].members {
          StreamOutcome(cfg, s2, e.from, rx.value, e.pdu, e.now, e.nonce);
        } else {
          StreamRefused(cfg, s2, e.from, rx.value, e.pdu, e.now, e.nonce);
        }
      } else {
        StrangersRelayNothing(cfg, s, e);
      }
    } else {
      OnlyStreamsRelay(cfg, s, e);
    }
  }

  lemma StrangersRelayNothing(cfg: Config, s: State, e: Event)
    requires e.Receive? && SpeakerOf(s, e).None?
    ensures !Step(cfg, s, e).1.Relay?
  {
    hide HandleStream, HandleCreate, HandleJoin, HandleLeave;
  }

  lemma OnlyStreamsRelay(cfg: Config, s: State, e: Event)
    requires !(e.Receive? && e.pdu.message.StreamData?)
    ensures !Step(cfg, s, e).1.Relay?
  {
  }

  /** With routes for everybody, a relay addresses every other member. */
  lemma RelayReachesAll(cfg: Config, s: State, e: Event)
    requires Inv(cfg, s) && Routed(s) && MayRelay(cfg, s, e)
    ensures Step(cfg, s, e).1.recipients.Keys
         == s.channels[e.pdu.message.channelId].members - {SpeakerOf(s, e).value}
  {
    ExactRelay(cfg, s, e);
    var s2, rx := Prepared(cfg, s, e);
    StreamOutcome(cfg, s2, e.from, rx.value, e.pdu, e.now, e.nonce);
    forall m | m in s.channels[e.pdu.message.channelId].members && m != rx.value
      ensures HasRoute(Step(cfg, s, e).0, m)
    {
      assert HasRoute(s, m);
    }
  }

  // ---- When routes survive ----------------------------------------------------------------------------

  lemma DispatchRoutes(cfg: Config, s: State, t: Transport, rx: Option<Tag>, pdu: Pdu, now: nat, n: Nonce)
    requires !pdu.message.IdentityResponse? && t in s.clients
    ensures Dispatch(cfg, s, t, rx, pdu, now, n).0.clients.Keys == s.clients.Keys
    ensures Dispatch(cfg, s, t, rx, pdu, now, n).0.sessions == s.sessions
  {
  }

  /** A PDU never loses a route, unless it logs in on a tag that is still in use. */
  lemma ReceiveKeepsRoutes(cfg: Config, s: State, e: Event)
    requires Inv(cfg, s) && Routed(s) && e.Receive?
    requires forall tag | Accepts(cfg, s, e, tag) :: tag !in s.sessions
    ensures Routed(Step(cfg, s, e).0)
  {
    var s1 := Touch(s, e.from);
    var rx := Speaker(s1, e.from, e.pdu);
    assert Routed(s1);
    if e.pdu.message.IdentityResponse? {
      if tag :| Accepts(cfg, s, e, tag) {
        AcceptedStep(cfg, s, e, tag);
        assert s1.sessions == s.sessions;
      } else {
        RejectedStep(cfg, s, e);
      }
    } else if e.pdu.session.Some? && e.pdu.session.value in s.sessions {
      var s2 := Rebind(s1, e.pdu.session.value, e.from);
      assert Routed(s2);
      DispatchRoutes(cfg, s2, e.from, rx, e.pdu, e.now, e.nonce);
    } else if e.pdu.session.None? {
      DispatchRoutes(cfg, s1, e.from, rx, e.pdu, e.now, e.nonce);
    }
  }

  /** No session besides the one the context of `t` points to is bound to `t`. */
  predicate SoleTenant(s: State, t: Transport) {
    forall tag | tag in s.sessions && s.sessions[tag].transport == Some(t) ::
      t in s.clients && s.clients[t].session.Some? ==> s.clients[t].session == Some(tag)
  }

  /** Forgetting a transport keeps every route exactly when no second session is bound to it. */
  lemma ForgetKeepsRoutesIff(cfg: Config, s: State, t: Transport)
    requires Inv(cfg, s) && Routed(s)
    ensures Routed(Step(cfg, s, Forget(t)).0) <==> SoleTenant(s, t)
  {
    var s' := Step(cfg, s, Forget(t)).0;
    if tag :| tag in s.sessions && s.sessions[tag].transport == Some(t) && t in s.clients
              && s.clients[t].session.Some? && s.clients[t].session != Some(tag) {
      assert !HasRoute(s', tag);
    }
  }

  ghost predicate SoleTenants(cfg: Config, run: seq<Event>) {
    forall i | 0 <= i < |run| && run[i].Forget? :: SoleTenant(After(cfg, run[..i]), run[i].from)
  }

  /** With fresh tags and no forgotten transport shared, every relay of a run reaches every other member. */
  lemma {:induction false} RunKeepsRoutes(cfg: Config, run: seq<Event>)
    requires GoodRun(cfg, run) && FreshTags(run) && SoleTenants(cfg, run)
    ensures Routed(After(cfg, run))
  {
    if run != [] {
      var before, e := run[..|run| - 1], run[|run| - 1];
      forall i | 0 <= i < |before| && before[i].Forget?
        ensures SoleTenant(After(cfg, before[..i]), before[i].from)
      {
        assert before[..i] == run[..i];
      }
      PrefixOfFresh(run, |run| - 1);
      RunKeepsRoutes(cfg, before);
      RunKeeps(cfg, before);
      TagsStayApart(cfg, before);
      LastStepKeepsRoutes(cfg, run, before, e);
    }
  }

  lemma LastStepKeepsRoutes(cfg: Config, run: seq<Event>, before: seq<Event>, e: Event)
    requires Inv(cfg, After(cfg, before)) && Routed(After(cfg, before))
    requires TagsApart(Used(cfg, before), Issued(before), After(cfg, before))
    requires e.Forget? ==> SoleTenant(After(cfg, before), e.from)
    ensures Routed(Step(cfg, After(cfg, before), e).0)
  {
    var s := After(cfg, before);
    if e.Receive? {
      forall tag | Accepts(cfg, s, e, tag) ensures tag !in s.sessions {
        assert PendingTag(s, e.from, tag);
      }
      ReceiveKeepsRoutes(cfg, s, e);
    } else {
      ForgetKeepsRoutesIff(cfg, s, e.from);
    }
  }
}
