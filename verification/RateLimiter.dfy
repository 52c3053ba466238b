/** The packet limiter of a channel: what it admits over a run of calls, and over a run of the whole switch. */
module RateLimiter {
  import opened Wrappers
  import opened Protocol
  import opened SwitchModel
  import opened SwitchInvariant
  import opened SwitchLogin
  import opened SwitchRelay
  import opened SwitchHistory

  const UNUSED := RateWindow(0, 0)

  /** The window after `stream_rate_allow` was called at each of `times`. */
  function WindowAfter(limit: nat, times: seq<nat>): RateWindow {
    if times == [] then UNUSED
    else RateAllow(WindowAfter(limit, times[..|times| - 1]), limit, times[|times| - 1]).1
  }

  /** How many of the calls at a time in [from, until) were admitted. */
  function Admitted(limit: nat, times: seq<nat>, from: nat, until: nat): nat {
    if times == [] then 0
    else
      var before, now := times[..|times| - 1], times[|times| - 1];
      Admitted(limit, before, from, until)
      + (if from <= now < until && RateAllow(WindowAfter(limit, before), limit, now).0 then 1 else 0)
  }

  predicate Clock(times: seq<nat>) {
    (forall i | 0 <= i < |times| :: 0 < times[i]) && (forall i, j | 0 <= i < j < |times| :: times[i] <= times[j])
  }

  /** A used window started at a packet it admitted, and counts no more than the limit. */
  lemma {:induction false} WindowFacts(limit: nat, times: seq<nat>)
    requires limit > 0 && Clock(times)
    ensures WindowAfter(limit, times).count <= limit
    ensures times != [] ==>
      0 < WindowAfter(limit, times).startUs <= times[|times| - 1] && 0 < WindowAfter(limit, times).count
  {
    if times != [] {
      WindowFacts(limit, times[..|times| - 1]);
    }
  }

  /** Whole windows that fit between `from` and the start of a window. */
  function WindowsSince(startUs: int, from: nat): nat
    requires from <= startUs
  {
    (startUs - from) / WINDOW_US
  }

  /** What can have been admitted since `from` once the current window is `w`. */
  function Budget(limit: nat, w: RateWindow, from: nat): int {
    if w.startUs < from then w.count - 1 else limit - 1 + limit * WindowsSince(w.startUs, from) + w.count
  }

  /** Opening the next window at `now` leaves room for all that the previous one admitted. */
  lemma NextWindow(w: RateWindow, now: nat, from: nat, limit: nat)
    requires from <= now && now - w.startUs >= WINDOW_US && 0 < w.count <= limit
    ensures Budget(limit, w, from) <= Budget(limit, RateWindow(now, 0), from)
  {
    var b := WindowsSince(now, from);
    if w.startUs >= from {
      var a := WindowsSince(w.startUs, from);
      assert b >= a + 1;
      assert limit * b >= limit * (a + 1) == limit * a + limit;
    } else {
      assert limit * b >= 0;
    }
  }

  /** The bound the induction carries. */
  lemma {:induction false} AdmittedSince(limit: nat, times: seq<nat>, from: nat, until: nat)
    requires limit > 0 && Clock(times) && times != []
    ensures Admitted(limit, times, from, until) <= Budget(limit, WindowAfter(limit, times), from)
  {
    var before, now := times[..|times| - 1], times[|times| - 1];
    if before == [] {
      assert Admitted(limit, before, from, until) == 0;
      assert WindowAfter(limit, times) == RateWindow(now, 1);
      if now >= from {
        assert limit * WindowsSince(now, from) >= 0;
      }
    } else {
      AdmittedSince(limit, before, from, until);
      WindowFacts(limit, before);
      NoEarlierAdmission(limit, times, from, until);
      var w := WindowAfter(limit, before);
      if CurrentWindow(w, now) != w && now >= from {
        NextWindow(w, now, from, limit);
      }
    }
  }

  lemma {:induction false} NoEarlierAdmission(limit: nat, times: seq<nat>, from: nat, until: nat)
    requires Clock(times) && times != []
    ensures times[|times| - 1] < from ==> Admitted(limit, times, from, until) == 0
  {
    if |times| > 1 {
      NoEarlierAdmission(limit, times[..|times| - 1], from, until);
    } else {
      assert times[..0] == [];
    }
  }

  /** In any half-open interval of `k` seconds fewer than (k + 1) * limit packets are admitted. */
  lemma {:induction false} FewerThanInInterval(limit: nat, times: seq<nat>, from: nat, k: nat)
    requires limit > 0 && Clock(times)
    ensures Admitted(limit, times, from, from + k * WINDOW_US) < (k + 1) * limit
  {
    if times == [] {
      assert (k + 1) * limit >= limit;
    } else {
      var before, now := times[..|times| - 1], times[|times| - 1];
      var until := from + k * WINDOW_US;
      if now >= until {
        FewerThanInInterval(limit, before, from, k);
      } else {
        AdmittedSince(limit, times, from, until);
        WindowFacts(limit, times);
        BudgetFits(limit, WindowAfter(limit, times), from, k);
      }
    }
  }

  lemma BudgetFits(limit: nat, w: RateWindow, from: nat, k: nat)
    requires limit > 0 && w.count <= limit && w.startUs < from + k * WINDOW_US
    ensures Budget(limit, w, from) < (k + 1) * limit
  {
    if w.startUs >= from {
      var n := WindowsSince(w.startUs, from);
      assert n * WINDOW_US <= w.startUs - from < k * WINDOW_US;
      assert n < k;
      assert limit * n <= limit * (k - 1) == limit * k - limit;
      assert limit * k + limit == (k + 1) * limit;
    } else {
      assert limit <= (k + 1) * limit;
    }
  }

  // ---- The bound is reached ---------------------------------------------------------------------------

  /** `n` calls at the same time. */
  function Burst(n: nat, at: nat): seq<nat> { seq(n, _ => at) }

  lemma OneMoreCall(limit: nat, times: seq<nat>, at: nat, from: nat, until: nat)
    ensures var w := WindowAfter(limit, times);
      && WindowAfter(limit, times + [at]) == RateAllow(w, limit, at).1
      && Admitted(limit, times + [at], from, until)
         == Admitted(limit, times, from, until) + if from <= at < until && RateAllow(w, limit, at).0 then 1 else 0
  {
    assert (times + [at])[..|times|] == times;
  }

  /** A burst that the window at its time has room for is admitted whole. */
  lemma {:induction false} BurstIsAdmitted(limit: nat, times: seq<nat>, n: nat, at: nat, from: nat, until: nat)
    requires at > 0 && CurrentWindow(WindowAfter(limit, times), at).count + n <= limit
    ensures var w := CurrentWindow(WindowAfter(limit, times), at);
      && (n > 0 ==> WindowAfter(limit, times + Burst(n, at)) == w.(count := w.count + n))
      && Admitted(limit, times + Burst(n, at), from, until)
         == Admitted(limit, times, from, until) + if from <= at < until then n else 0
  {
    hide WindowAfter, Admitted;
    assert times + Burst(0, at) == times;
    if n > 0 {
      BurstIsAdmitted(limit, times, n - 1, at, from, until);
      OneMoreCall(limit, times + Burst(n - 1, at), at, from, until);
      assert times + Burst(n, at) == times + Burst(n - 1, at) + [at];
    }
  }

  /** One call just before `from`, all that its window still admits at `from`, and `k` bursts a second apart. */
  function Saturating(limit: nat, from: nat, k: nat): seq<nat>
    requires limit > 0 && from > 1
  {
    if k == 0 then [from - 1] + Burst(limit - 1, from)
    else Saturating(limit, from, k - 1) + Burst(limit, from - 1 + k * WINDOW_US)
  }

  lemma {:induction false} SaturatingIsClock(limit: nat, from: nat, k: nat)
    requires limit > 0 && from > 1
    ensures Clock(Saturating(limit, from, k))
    ensures forall t | t in Saturating(limit, from, k) :: t <= from + k * WINDOW_US
    ensures k > 0 ==> forall t | t in Saturating(limit, from, k) :: t <= from - 1 + k * WINDOW_US
  {
    if k > 0 {
      SaturatingIsClock(limit, from, k - 1);
      LaterBurst(Saturating(limit, from, k - 1), limit, from - 1 + k * WINDOW_US);
    } else {
      LaterBurst([from - 1], limit - 1, from);
    }
  }

  lemma LaterBurst(times: seq<nat>, n: nat, at: nat)
    requires Clock(times) && at > 0 && forall t | t in times :: t <= at
    ensures Clock(times + Burst(n, at)) && forall t | t in times + Burst(n, at) :: t <= at
  {
    assert forall i | 0 <= i < |times| :: times[i] in times;
  }

  lemma {:induction false} SaturatingIsAdmitted(limit: nat, from: nat, k: nat, until: nat)
    requires limit > 0 && from > 1 && until >= from + k * WINDOW_US && until > from
    ensures WindowAfter(limit, Saturating(limit, from, k)) == RateWindow(from - 1 + k * WINDOW_US, limit)
    ensures Admitted(limit, Saturating(limit, from, k), from, until) == (k + 1) * limit - 1
  {
    hide Admitted, WindowAfter;
    if k > 0 {
      SaturatingIsAdmitted(limit, from, k - 1, until);
      BurstIsAdmitted(limit, Saturating(limit, from, k - 1), limit, from - 1 + k * WINDOW_US, from, until);
      assert (k + 1) * limit == k * limit + limit;
    } else {
      OneCall(limit, from - 1, from, until);
      BurstIsAdmitted(limit, [from - 1], limit - 1, from, from, until);
      assert [from - 1] + Burst(0, from) == [from - 1];
    }
  }

  lemma OneCall(limit: nat, at: nat, from: nat, until: nat)
    requires limit > 0 && 0 < at < from
    ensures WindowAfter(limit, [at]) == RateWindow(at, 1) && Admitted(limit, [at], from, until) == 0
  {
    assert [at][..0] == [];
  }

  lemma {:induction false} NoneInNoTime(limit: nat, times: seq<nat>, from: nat)
    ensures Admitted(limit, times, from, from) == 0
  {
    if times != [] {
      NoneInNoTime(limit, times[..|times| - 1], from);
    }
  }

  /**
   * The bound is reached for every limit and every number of seconds, except in the empty interval, where it is 0 only
   * for the limit 1.
   */
  lemma {:induction false} BoundIsSharp(limit: nat, from: nat, k: nat)
    requires limit > 0 && from > 1
    ensures (exists times ::
               Clock(times) && Admitted(limit, times, from, from + k * WINDOW_US) == (k + 1) * limit - 1)
            <==> k >= 1 || limit == 1
  {
    if k >= 1 {
      SaturatingIsClock(limit, from, k);
      SaturatingIsAdmitted(limit, from, k, from + k * WINDOW_US);
    } else {
      assert Clock([]) && Admitted(limit, [], from, from + k * WINDOW_US) == 0;
      forall times: seq<nat> ensures Admitted(limit, times, from, from) == 0 {
        NoneInNoTime(limit, times, from);
      }
    }
  }

  // ---- The limiter inside the switch --------------------------------------------------------------------

  /** The event is a packet for channel `c` that gets as far as the limiter. */
  predicate Metered(cfg: Config, s: State, e: Event, c: nat) {
    && e.Receive? && e.pdu.message.StreamData? && e.pdu.message.channelId == c && SpeakerOf(s, e).Some?
    && SpeakerOf(s, e).value in s.sessions && InChannel(s, SpeakerOf(s, e).value, c)
    && WithinCap(|e.pdu.message.payload|, s.channels[c].limits.maxPayloadSize)
  }

  /** Times of the metered packets of channel `c` in a run. */
  ghost function MeteredTimes(cfg: Config, run: seq<Event>, c: nat): seq<nat> {
    if run == [] then []
    else
      var before, e := run[..|run| - 1], run[|run| - 1];
      MeteredTimes(cfg, before, c) + (if Metered(cfg, After(cfg, before), e, c) then [e.now] else [])
  }

  /** How many packets the switch relayed on channel `c` at a time in [from, until). */
  ghost function Relayed(cfg: Config, run: seq<Event>, c: nat, from: nat, until: nat): nat {
    if run == [] then 0
    else
      var before, e := run[..|run| - 1], run[|run| - 1];
      Relayed(cfg, before, c, from, until)
      + (if e.Receive? && e.pdu.message.StreamData? && e.pdu.message.channelId == c && from <= e.now < until
            && Step(cfg, After(cfg, before), e).1.Relay? then 1 else 0)
  }

  lemma StreamWindow(cfg: Config, s: State, t: Transport, sid: Tag, pdu: Pdu, now: nat, n: Nonce, c: nat)
    requires Inv(cfg, s) && pdu.message.StreamData? && BoundTo(s, sid, t) && c in s.channels
    ensures c in HandleStream(cfg, s, t, sid, pdu, now, n).0.channels
    ensures var c0, c1 := s.channels[c], HandleStream(cfg, s, t, sid, pdu, now, n).0.channels[c];
      c1.limits == c0.limits && c1.window ==
        if pdu.message.channelId == c && sid in c0.members
           && PayloadWithinLimit(|pdu.message.payload|, c0.limits.maxPayloadSize)
        then RateAllow(c0.window, c0.limits.pktRateLimit, now).1 else c0.window
  {
  }

  lemma OtherWindows(cfg: Config, s: State, t: Transport, rx: Option<Tag>, pdu: Pdu, now: nat, n: Nonce, c: nat)
    requires Inv(cfg, s) && !pdu.message.IdentityResponse? && c in s.channels
    requires !pdu.message.StreamData? || !Authenticated(s, rx)
    ensures var s' := Dispatch(cfg, s, t, rx, pdu, now, n).0;
      c in s'.channels && s'.channels[c].limits == s.channels[c].limits && s'.channels[c].window == s.channels[c].window
  {
  }

  /** A step moves the window of a channel only by calling the limiter for a metered packet. */
  lemma WindowStep(cfg: Config, s: State, e: Event, c: nat)
    requires Inv(cfg, s) && c in s.channels
    ensures c in Step(cfg, s, e).0.channels
    ensures var c0, c1 := s.channels[c], Step(cfg, s, e).0.channels[c];
      c1.limits == c0.limits && c1.window ==
        if Metered(cfg, s, e, c) then RateAllow(c0.window, c0.limits.pktRateLimit, e.now).1 else c0.window
  {
    if e.Forget? {
    } else if e.pdu.message.IdentityResponse? || (e.pdu.session.Some? && e.pdu.session.value !in s.sessions) {
      MembershipUntouched(cfg, s, e);
    } else if e.pdu.message.StreamData? && SpeakerOf(s, e).Some? {
      var s2, rx := Prepared(cfg, s, e);
      StreamWindow(cfg, s2, e.from, rx.value, e.pdu, e.now, e.nonce, c);
    } else {
      var s2 := Dispatched(cfg, s, e);
      OtherWindows(cfg, s2, e.from, SpeakerOf(s, e), e.pdu, e.now, e.nonce, c);
    }
  }

  lemma DispatchNewChannel(cfg: Config, s: State, t: Transport, rx: Option<Tag>, pdu: Pdu, now: nat, n: Nonce, c: nat)
    requires Inv(cfg, s) && !pdu.message.IdentityResponse? && c !in s.channels
    requires c in Dispatch(cfg, s, t, rx, pdu, now, n).0.channels
    ensures Dispatch(cfg, s, t, rx, pdu, now, n).0.channels[c].window == UNUSED
  {
  }

  lemma NewChannelIsUnused(cfg: Config, s: State, e: Event, c: nat)
    requires Inv(cfg, s) && c !in s.channels && c in Step(cfg, s, e).0.channels
    ensures Step(cfg, s, e).0.channels[c].window == UNUSED
  {
    if e.Receive? {
      if e.pdu.message.IdentityResponse? || (e.pdu.session.Some? && e.pdu.session.value !in s.sessions) {
        MembershipUntouched(cfg, s, e);
      } else {
        var s2 := Dispatched(cfg, s, e);
        DispatchNewChannel(cfg, s2, e.from, SpeakerOf(s, e), e.pdu, e.now, e.nonce, c);
      }
    }
  }

  /** The window of a channel is what the limiter makes of its metered packets. */
  lemma {:induction false} WindowInRun(cfg: Config, run: seq<Event>, c: nat)
    requires GoodRun(cfg, run)
    ensures c !in After(cfg, run).channels ==> MeteredTimes(cfg, run, c) == []
    ensures c in After(cfg, run).channels ==>
      After(cfg, run).channels[c].window
      == WindowAfter(After(cfg, run).channels[c].limits.pktRateLimit, MeteredTimes(cfg, run, c))
  {
    if run != [] {
      var before, e := run[..|run| - 1], run[|run| - 1];
      WindowInRun(cfg, before, c);
      RunKeeps(cfg, before);
      WindowInStep(cfg, After(cfg, before), e, c, MeteredTimes(cfg, before, c));
    }
  }

  /** `times` followed by the time of `e`, if the limiter is called for it. */
  function Extended(cfg: Config, s: State, e: Event, c: nat, times: seq<nat>): seq<nat> {
    times + (if Metered(cfg, s, e, c) then [e.now] else [])
  }

  lemma WindowInStep(cfg: Config, s: State, e: Event, c: nat, times: seq<nat>)
    requires Inv(cfg, s)
    requires if c in s.channels then s.channels[c].window == WindowAfter(s.channels[c].limits.pktRateLimit, times)
             else times == []
    ensures var s' := Step(cfg, s, e).0;
      if c in s'.channels
      then s'.channels[c].window == WindowAfter(s'.channels[c].limits.pktRateLimit, Extended(cfg, s, e, c, times))
      else Extended(cfg, s, e, c, times) == []
  {
    if c in s.channels {
      WindowStep(cfg, s, e, c);
      assert Metered(cfg, s, e, c) ==> (times + [e.now])[..|times|] == times;
      assert times + [] == times;
    } else if c in Step(cfg, s, e).0.channels {
      NewChannelIsUnused(cfg, s, e, c);
    }
  }

  lemma {:induction false} MeteredClock(cfg: Config, run: seq<Event>, c: nat)
    requires GrowingClock(run)
    ensures Clock(MeteredTimes(cfg, run, c))
    ensures forall now | now in MeteredTimes(cfg, run, c) ::
      exists i :: 0 <= i < |run| && run[i].Receive? && run[i].now == now
  {
    if run != [] {
      var before, e := run[..|run| - 1], run[|run| - 1];
      MeteredClock(cfg, before, c);
      var ts, ts' := MeteredTimes(cfg, before, c), MeteredTimes(cfg, run, c);
      forall now | now in ts' ensures exists i :: 0 <= i < |run| && run[i].Receive? && run[i].now == now {
        if now in ts {
          var i :| 0 <= i < |before| && before[i].Receive? && before[i].now == now;
          assert run[i].now == now;
        } else {
          assert run[|run| - 1].now == now;
        }
      }
      if Metered(cfg, After(cfg, before), e, c) {
        forall i | 0 <= i < |ts| ensures ts[i] <= e.now {
          assert ts[i] in ts;
          var k :| 0 <= k < |before| && before[k].Receive? && before[k].now == ts[i];
          assert run[k].now == ts[i];
        }
      }
    }
  }

  /** Every relayed packet was admitted by the limiter of its channel. */
  lemma {:induction false} RelayedWereAdmitted(cfg: Config, run: seq<Event>, c: nat, limit: nat, from: nat, until: nat)
    requires GoodRun(cfg, run)
    requires c in After(cfg, run).channels ==> After(cfg, run).channels[c].limits.pktRateLimit == limit
    ensures Relayed(cfg, run, c, from, until) <= Admitted(limit, MeteredTimes(cfg, run, c), from, until)
  {
    if run != [] {
      var before, e := run[..|run| - 1], run[|run| - 1];
      var s := After(cfg, before);
      RunKeeps(cfg, before);
      WindowInRun(cfg, before, c);
      LimitIsFixed(cfg, s, e, c);
      RelayedWereAdmitted(cfg, before, c, limit, from, until);
      if Step(cfg, s, e).1.Relay? && e.Receive? && e.pdu.message.StreamData? && e.pdu.message.channelId == c {
        RelayIsMetered(cfg, s, e, c);
      }
      var ts := MeteredTimes(cfg, before, c);
      if Metered(cfg, s, e, c) {
        assert (ts + [e.now])[..|ts|] == ts;
      } else {
        assert ts + [] == ts;
      }
    }
  }

  lemma LimitIsFixed(cfg: Config, s: State, e: Event, c: nat)
    requires Inv(cfg, s)
    ensures c in s.channels ==>
      c in Step(cfg, s, e).0.channels && Step(cfg, s, e).0.channels[c].limits == s.channels[c].limits
  {
    if c in s.channels {
      WindowStep(cfg, s, e, c);
    }
  }

  lemma RelayIsMetered(cfg: Config, s: State, e: Event, c: nat)
    requires Inv(cfg, s) && e.Receive? && e.pdu.message.StreamData? && e.pdu.message.channelId == c
    requires Step(cfg, s, e).1.Relay?
    ensures Metered(cfg, s, e, c) && RateAllow(s.channels[c].window, s.channels[c].limits.pktRateLimit, e.now).0
  {
    ExactRelay(cfg, s, e);
  }

  /**
   * Over a whole run of the switch, a channel with rate limit L > 0 relays fewer than (k + 1) * L packets in any
   * half-open interval of k seconds.
   */
  lemma SwitchRespectsRate(cfg: Config, run: seq<Event>, c: nat, from: nat, k: nat)
    requires GoodRun(cfg, run) && GrowingClock(run)
    requires c in After(cfg, run).channels && After(cfg, run).channels[c].limits.pktRateLimit > 0
    ensures Relayed(cfg, run, c, from, from + k * WINDOW_US)
          < (k + 1) * After(cfg, run).channels[c].limits.pktRateLimit
  {
    var limit := After(cfg, run).channels[c].limits.pktRateLimit;
    RelayedWereAdmitted(cfg, run, c, limit, from, from + k * WINDOW_US);
    MeteredClock(cfg, run, c);
    FewerThanInInterval(limit, MeteredTimes(cfg, run, c), from, k);
  }
}
