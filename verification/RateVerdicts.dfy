/** The packet limiter told without a window: which calls it denies, and that it admits all others. */
module RateVerdicts {
  import opened Wrappers
  import opened Protocol
  import opened SwitchModel
  import opened SwitchInvariant
  import opened SwitchRelay
  import opened RateLimiter

  predicate Positive(times: seq<nat>) { forall t | t in times :: t > 0 }

  /** The latest call that opened a window: it was admitted, and the opening before it is a second ago or more. */
  function LatestOpening(times: seq<nat>, ok: seq<bool>): (o: Option<nat>)
    requires |ok| == |times|
    ensures o.Some? ==> o.value < |times|
  {
    if times == [] then None
    else
      var n := |times| - 1;
      var before := LatestOpening(times[..n], ok[..n]);
      if ok[n] && (before.None? || times[n] - times[before.value] >= WINDOW_US) then Some(n) else before
  }

  function Count(ok: seq<bool>): nat {
    if ok == [] then 0 else Count(ok[..|ok| - 1]) + if ok[|ok| - 1] then 1 else 0
  }

  /** Less than a second before `now` a window was opened, and `limit` calls were admitted since. */
  predicate Full(limit: nat, times: seq<nat>, ok: seq<bool>, now: nat)
    requires |ok| == |times|
  {
    var o := LatestOpening(times, ok);
    limit > 0 && o.Some? && now - times[o.value] < WINDOW_US && Count(ok[o.value..]) >= limit
  }

  /** Which calls are admitted: all but those that come when the latest window is full. */
  function Verdicts(limit: nat, times: seq<nat>): (ok: seq<bool>)
    ensures |ok| == |times|
  {
    if times == [] then []
    else
      var before, now := times[..|times| - 1], times[|times| - 1];
      Verdicts(limit, before) + [!Full(limit, before, Verdicts(limit, before), now)]
  }

  lemma OpeningMore(times: seq<nat>, ok: seq<bool>, now: nat, v: bool)
    requires |ok| == |times|
    ensures LatestOpening(times + [now], ok + [v]) ==
      var o := LatestOpening(times, ok);
      if v && (o.None? || now - times[o.value] >= WINDOW_US) then Some(|times|) else o
  {
    assert (times + [now])[..|times|] == times && (ok + [v])[..|times|] == ok;
  }

  lemma CountMore(ok: seq<bool>, i: nat, v: bool)
    requires i <= |ok|
    ensures Count((ok + [v])[i..]) == Count(ok[i..]) + if v then 1 else 0
  {
    assert (ok + [v])[i..] == ok[i..] + [v];
    assert (ok[i..] + [v])[..|ok| - i] == ok[i..];
  }

  lemma VerdictsMore(limit: nat, times: seq<nat>)
    requires times != []
    ensures var before, now := times[..|times| - 1], times[|times| - 1];
      && times == before + [now]
      && Verdicts(limit, times) == Verdicts(limit, before) + [!Full(limit, before, Verdicts(limit, before), now)]
  {
    hide Full;
  }

  lemma PositiveBefore(times: seq<nat>)
    requires Positive(times) && times != []
    ensures Positive(times[..|times| - 1])
  {
    var before := times[..|times| - 1];
    forall t | t in before ensures t > 0 {
      assert t in times;
    }
  }

  /** The window of the source starts at the latest opening and counts the calls admitted since. */
  lemma {:induction false} WindowIsLatest(limit: nat, times: seq<nat>)
    requires limit > 0 && Positive(times)
    ensures var (w, ok) := (WindowAfter(limit, times), Verdicts(limit, times));
      var o := LatestOpening(times, ok);
      if times == [] then w == UNUSED && o.None?
      else o.Some? && ok[o.value] && w.startUs == times[o.value] && w.count == Count(ok[o.value..])
  {
    hide Full, LatestOpening, Count, Verdicts;
    if times == [] {
      NothingOpened(limit);
    } else {
      PositiveBefore(times);
      var n := |times| - 1;
      var before, now := times[..n], times[n];
      var ok := Verdicts(limit, before);
      WindowIsLatest(limit, before);
      VerdictsMore(limit, times);
      FullMeans(limit, before, ok, now);
      var v := !Full(limit, before, ok, now);
      OpeningMore(before, ok, now, v);
      assert now in times && now > 0;
      if v {
        CountMore(ok, n, v);
        CountNothing(ok[n..]);
      }
      if before != [] {
        assert before[LatestOpening(before, ok).value] in times;
        CountMore(ok, LatestOpening(before, ok).value, v);
      }
    }
  }

  lemma FullMeans(limit: nat, times: seq<nat>, ok: seq<bool>, now: nat)
    requires |ok| == |times|
    ensures Full(limit, times, ok, now) <==>
      var o := LatestOpening(times, ok);
      limit > 0 && o.Some? && now - times[o.value] < WINDOW_US && Count(ok[o.value..]) >= limit
  {
  }

  lemma NothingOpened(limit: nat)
    ensures LatestOpening([], []) == None && Verdicts(limit, []) == [] && WindowAfter(limit, []) == UNUSED
  {
  }

  lemma CountNothing(ok: seq<bool>)
    requires ok == []
    ensures Count(ok) == 0
  {
  }

  /** The limiter denies a call exactly if the latest window is full; denied calls change nothing. */
  lemma {:induction false} DeniedOnlyWhenFull(limit: nat, times: seq<nat>, now: nat)
    requires Positive(times)
    ensures RateAllow(WindowAfter(limit, times), limit, now).0 <==> !Full(limit, times, Verdicts(limit, times), now)
  {
    hide LatestOpening, Count, Verdicts, WindowAfter;
    if limit > 0 {
      WindowIsLatest(limit, times);
      if times != [] {
        assert times[LatestOpening(times, Verdicts(limit, times)).value] in times;
      }
    }
  }

  /** Every window is filled in order: its first `limit` calls are admitted, and no later one. */
  lemma {:induction false} WindowIsFilled(limit: nat, times: seq<nat>)
    requires limit > 0 && Positive(times) && times != []
    ensures var ok := Verdicts(limit, times);
      var o := LatestOpening(times, ok);
      && o.Some?
      && forall j | o.value <= j < |times| :: times[j] - times[o.value] < WINDOW_US && (ok[j] <==> j < o.value + limit)
    ensures var ok := Verdicts(limit, times);
      Count(ok[LatestOpening(times, ok).value..]) == Min(limit, |times| - LatestOpening(times, ok).value)
  {
    hide Full, LatestOpening, Count, Verdicts, WindowAfter;
    PositiveBefore(times);
    var n := |times| - 1;
    var before, now := times[..n], times[n];
    var ok := Verdicts(limit, before);
    VerdictsMore(limit, times);
    FullMeans(limit, before, ok, now);
    var v := !Full(limit, before, ok, now);
    OpeningMore(before, ok, now, v);
    if before == [] {
      NothingOpened(limit);
    } else {
      WindowIsFilled(limit, before);
      CountMore(ok, LatestOpening(before, ok).value, v);
    }
    if v {
      CountMore(ok, n, v);
      CountNothing(ok[n..]);
    }
  }

  /** In a run of the switch: a packet that passes all other checks is relayed unless its channel's window is full. */
  lemma RelayedUnlessFull(cfg: Config, run: seq<Event>, e: Event, c: nat)
    requires GoodRun(cfg, run) && GrowingClock(run) && Metered(cfg, After(cfg, run), e, c)
    requires var s := After(cfg, run);
      WireSize(Stamped(e.pdu, s.sessions[SpeakerOf(s, e).value])) <= WIRE_CAPACITY
    ensures var (s, times) := (After(cfg, run), MeteredTimes(cfg, run, c));
      var limit := s.channels[c].limits.pktRateLimit;
      Step(cfg, s, e).1.Relay? <==> !Full(limit, times, Verdicts(limit, times), e.now)
  {
    hide Step, After, Full, RateAllow, WireSize, Inv;
    var s := After(cfg, run);
    RunKeeps(cfg, run);
    ExactRelay(cfg, s, e);
    WindowInRun(cfg, run, c);
    MeteredClock(cfg, run, c);
    var times := MeteredTimes(cfg, run, c);
    assert Positive(times) by {
      forall t | t in times ensures t > 0 {
        var i :| 0 <= i < |times| && times[i] == t;
      }
    }
    DeniedOnlyWhenFull(s.channels[c].limits.pktRateLimit, times, e.now);
  }
}
