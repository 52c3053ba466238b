/** The loss accounting of the flow consumer: what its counters say about the numbers that arrived. */
module LossAccounting {
  import opened Wrappers
  import opened Protocol
  import opened Framing

  /** "FLOWSEQ1". */
  const MAGIC: seq<byte> := [0x46, 0x4c, 0x4f, 0x57, 0x53, 0x45, 0x51, 0x31]
  const HEADER_LEN := 24

  datatype Tally = Tally(
    expected: Option<nat>,
    invalid: nat,
    total: nat,
    gaps: nat,
    missing: nat,
    duplicates: nat,
    outOfOrder: nat)

  const NOTHING := Tally(None, 0, 0, 0, 0, 0, 0)

  /** The number of a packet: eight bytes, most significant first, after the magic. */
  function Number(payload: seq<byte>): Option<nat> {
    if |payload| < HEADER_LEN || payload[..8] != MAGIC then None
    else Some(0x1_0000_0000 * Be32Value(payload[8..12]) + Be32Value(payload[12..16]))
  }

  /** Which packets are invalid: those shorter than 24 bytes or without the magic. */
  lemma InvalidIff(payload: seq<byte>)
    ensures Number(payload).None? <==>
      |payload| < 24 || payload[..8] != [0x46, 0x4c, 0x4f, 0x57, 0x53, 0x45, 0x51, 0x31]
  {
  }

  /** The header the producer packs: the magic, then number and time as eight bytes each, most significant first. */
  lemma NumberReadsBack(n: nat, time: seq<byte>, rest: seq<byte>)
    requires n < 0x1_0000_0000 * 0x1_0000_0000 && |time| == 8
    ensures Number(MAGIC + Be32(n / 0x1_0000_0000) + Be32(n % 0x1_0000_0000) + time + rest) == Some(n)
  {
    hide Be32, Be32Value;
    var (high, low) := (n / 0x1_0000_0000, n % 0x1_0000_0000);
    var payload := MAGIC + Be32(high) + Be32(low) + time + rest;
    assert payload[..8] == MAGIC && payload[8..12] == Be32(high) && payload[12..16] == Be32(low);
    Be32ReadsBack(high);
    Be32ReadsBack(low);
  }

  function Count(t: Tally, seqNo: nat): Tally {
    var t := t.(total := t.total + 1);
    match t.expected
    case None => t.(expected := Some(seqNo + 1))
    case Some(e) =>
      if seqNo == e then t.(expected := Some(e + 1))
      else if seqNo > e then t.(gaps := t.gaps + 1, missing := t.missing + (seqNo - e), expected := Some(seqNo + 1))
      else if seqNo + 1 == e then t.(duplicates := t.duplicates + 1)
      else t.(outOfOrder := t.outOfOrder + 1)
  }

  /** `consume_payload`. */
  function Consume(t: Tally, payload: seq<byte>): Tally {
    match Number(payload)
    case None => t.(invalid := t.invalid + 1)
    case Some(n) => Count(t, n)
  }

  class FlowConsumer {
    var expectedSeq: Option<nat>
    var invalid: nat
    var total: nat
    var gaps: nat
    var missing: nat
    var duplicates: nat
    var outOfOrder: nat

    constructor ()
      ensures View() == NOTHING
    {
      expectedSeq := None;
      invalid, total, gaps, missing, duplicates, outOfOrder := 0, 0, 0, 0, 0, 0;
    }

    ghost function View(): Tally
      reads this
    {
      Tally(expectedSeq, invalid, total, gaps, missing, duplicates, outOfOrder)
    }

    method ConsumePayload(payload: seq<byte>)
      modifies this
      ensures View() == Consume(old(View()), payload)
    {
      if |payload| < HEADER_LEN {
        invalid := invalid + 1;
        return;
      }
      if payload[..8] != MAGIC {
        invalid := invalid + 1;
        return;
      }
      var seqNo := 0x1_0000_0000 * Be32Value(payload[8..12]) + Be32Value(payload[12..16]);
      total := total + 1;
      if expectedSeq == None {
        expectedSeq := Some(seqNo + 1);
      } else if seqNo == expectedSeq.value {
        expectedSeq := Some(expectedSeq.value + 1);
      } else if seqNo > expectedSeq.value {
        gaps := gaps + 1;
        missing := missing + (seqNo - expectedSeq.value);
        expectedSeq := Some(seqNo + 1);
      } else if seqNo + 1 == expectedSeq.value {
        duplicates := duplicates + 1;
      } else {
        outOfOrder := outOfOrder + 1;
      }
    }
  }

  // ---- What arrived -----------------------------------------------------------------------------------------------

  function TallyOf(payloads: seq<seq<byte>>): Tally {
    if payloads == [] then NOTHING else Consume(TallyOf(payloads[..|payloads| - 1]), payloads[|payloads| - 1])
  }

  /** The numbers that arrived, in order. */
  function Numbers(payloads: seq<seq<byte>>): seq<nat> {
    if payloads == [] then [] else
      var last := Number(payloads[|payloads| - 1]);
      Numbers(payloads[..|payloads| - 1]) + if last.Some? then [last.value] else []
  }

  function Max(ns: seq<nat>): (m: nat)
    requires ns != []
    ensures m in ns && forall n | n in ns :: n <= m
  {
    var last := ns[|ns| - 1];
    assert ns == ns[..|ns| - 1] + [last];
    if |ns| == 1 then last else
      var m := Max(ns[..|ns| - 1]);
      if last > m then last else m
  }

  /** The packets that raised the maximum, the first included. */
  function Advancing(ns: seq<nat>): nat {
    if ns == [] then 0 else
      var before := ns[..|ns| - 1];
      Advancing(before) + if before == [] || ns[|ns| - 1] > Max(before) then 1 else 0
  }

  /** The packets below the maximum of their time that repeat an earlier number or lie below the first one. */
  function Stale(ns: seq<nat>): nat {
    if ns == [] then 0 else
      var before, last := ns[..|ns| - 1], ns[|ns| - 1];
      Stale(before) + if before != [] && last < Max(before) && (last in before || last < ns[0]) then 1 else 0
  }

  /** The packets that left at least one number out: more than one above the maximum of their time. */
  function Jumps(ns: seq<nat>): nat {
    if ns == [] then 0 else
      var before := ns[..|ns| - 1];
      Jumps(before) + if before != [] && ns[|ns| - 1] > Max(before) + 1 then 1 else 0
  }

  /** The packets that repeat the maximum of their time. */
  function Repeats(ns: seq<nat>): nat {
    if ns == [] then 0 else
      var before := ns[..|ns| - 1];
      Repeats(before) + if before != [] && ns[|ns| - 1] == Max(before) then 1 else 0
  }

  function Interval(lo: nat, hi: nat): (s: set<nat>)
    ensures forall n: nat :: n in s <==> lo <= n < hi
    decreases hi
  {
    if hi <= lo then {} else Interval(lo, hi - 1) + {hi - 1}
  }

  lemma {:induction false} IntervalSize(lo: nat, hi: nat)
    requires lo <= hi
    ensures |Interval(lo, hi)| == hi - lo
    decreases hi
  {
    if lo < hi {
      IntervalSize(lo, hi - 1);
    }
  }

  /** The numbers from the first to the largest, and those among them that arrived. */
  function Expected(ns: seq<nat>): set<nat>
    requires ns != []
  {
    Interval(ns[0], Max(ns) + 1)
  }

  function Arrived(ns: seq<nat>): set<nat>
    requires ns != []
  {
    set n | n in Expected(ns) && n in ns
  }

  function NeverArrived(ns: seq<nat>): set<nat>
    requires ns != []
  {
    Expected(ns) - Arrived(ns)
  }

  /** One more number: how maximum, advancing and stale packets move. */
  lemma {:induction false} OneMore(ns: seq<nat>, x: nat)
    ensures var ns' := ns + [x];
      var advances := ns == [] || x > Max(ns);
      && ns' != [] && ns'[0] == (if ns == [] then x else ns[0])
      && Max(ns') == (if advances then x else Max(ns))
      && Advancing(ns') == Advancing(ns) + (if advances then 1 else 0)
      && Stale(ns') == Stale(ns) + (if ns != [] && x < Max(ns) && (x in ns || x < ns[0]) then 1 else 0)
      && Jumps(ns') == Jumps(ns) + (if ns != [] && x > Max(ns) + 1 then 1 else 0)
      && Repeats(ns') == Repeats(ns) + (if ns != [] && x == Max(ns) then 1 else 0)
  {
    var ns' := ns + [x];
    assert ns'[..|ns'| - 1] == ns && ns'[|ns'| - 1] == x;
  }

  lemma NumbersGrow(payloads: seq<seq<byte>>)
    requires payloads != []
    ensures var (before, last) := (payloads[..|payloads| - 1], payloads[|payloads| - 1]);
      && TallyOf(payloads) == Consume(TallyOf(before), last)
      && Numbers(payloads) == if Number(last).Some? then Numbers(before) + [Number(last).value] else Numbers(before)
  {
  }

  /** What the counters say. */
  predicate CountersFit(t: Tally, ns: seq<nat>) {
    && t.total == |ns|
    && t.expected == (if ns == [] then None else Some(Max(ns) + 1))
    && t.total == Advancing(ns) + t.duplicates + t.outOfOrder
    && t.missing == (if ns == [] then 0 else (Max(ns) + 1 - ns[0]) - Advancing(ns))
    && t.gaps == Jumps(ns) && t.duplicates == Repeats(ns)
  }

  lemma CountKeepsFit(t: Tally, ns: seq<nat>, x: nat)
    requires CountersFit(t, ns)
    ensures CountersFit(Count(t, x), ns + [x])
  {
    OneMore(ns, x);
    if ns == [] { assert Advancing([]) == 0 && Jumps([]) == 0 && Repeats([]) == 0; }
    hide Max, Advancing, Stale, Jumps, Repeats;
  }

  /** The counters of any arrival sequence. */
  lemma {:induction false} Counters(payloads: seq<seq<byte>>)
    ensures CountersFit(TallyOf(payloads), Numbers(payloads))
    ensures TallyOf(payloads).invalid == |payloads| - |Numbers(payloads)|
  {
    if payloads != [] {
      var (before, last) := (payloads[..|payloads| - 1], payloads[|payloads| - 1]);
      Counters(before);
      NumbersGrow(payloads);
      hide TallyOf, Numbers, Number;
      if Number(last).Some? {
        CountKeepsFit(TallyOf(before), Numbers(before), Number(last).value);
      }
      hide CountersFit;
    }
  }

  lemma {:induction false} OneMoreArrives(ns: seq<nat>, x: nat)
    ensures ns == [] ==> Arrived(ns + [x]) == {x}
    ensures ns != [] ==> Arrived(ns + [x]) == Arrived(ns) + if x < ns[0] then {} else {x}
    ensures ns != [] ==> (x in Arrived(ns) <==> x in ns && ns[0] <= x)
  {
    OneMore(ns, x);
    hide Advancing, Stale;
  }

  predicate PacketsFit(t: Tally, ns: seq<nat>) {
    ns == [] || |Arrived(ns)| + t.duplicates + Stale(ns) == t.total
  }

  lemma CountKeepsPackets(t: Tally, ns: seq<nat>, x: nat)
    requires CountersFit(t, ns) && PacketsFit(t, ns)
    ensures PacketsFit(Count(t, x), ns + [x])
  {
    OneMore(ns, x);
    OneMoreArrives(ns, x);
    if ns == [] {
      assert Stale([]) == 0 && Advancing([]) == 0;
    } else {
      assert ns[0] in ns;
      assert x == Max(ns) ==> x in ns && ns[0] <= x;
      hide Arrived, Max, Advancing, Stale;
      if x in Arrived(ns) { assert Arrived(ns) + {x} == Arrived(ns); }
      assert Arrived(ns) + {} == Arrived(ns);
    }
  }

  /** Every packet is a new number in the span, a repeat of the largest one, or stale. */
  lemma {:induction false} EveryPacketCounts(payloads: seq<seq<byte>>)
    ensures PacketsFit(TallyOf(payloads), Numbers(payloads))
  {
    if payloads != [] {
      var (before, last) := (payloads[..|payloads| - 1], payloads[|payloads| - 1]);
      EveryPacketCounts(before);
      Counters(before);
      NumbersGrow(payloads);
      hide TallyOf, Numbers, Number, CountersFit;
      if Number(last).Some? {
        CountKeepsPackets(TallyOf(before), Numbers(before), Number(last).value);
      }
    }
  }

  /**
   * The numbers of the span that never arrived are missing - out_of_order plus the stale packets: the difference is
   * exact if and only if no packet is stale.
   */
  lemma {:induction false} MissingIsExact(payloads: seq<seq<byte>>)
    requires Numbers(payloads) != []
    ensures var (t, ns) := (TallyOf(payloads), Numbers(payloads));
      && |NeverArrived(ns)| == t.missing - t.outOfOrder + Stale(ns)
      && (|NeverArrived(ns)| == t.missing - t.outOfOrder <==> Stale(ns) == 0)
  {
    hide TallyOf, Numbers, Stale, Advancing;
    var ns := Numbers(payloads);
    Counters(payloads);
    EveryPacketCounts(payloads);
    assert ns[0] in ns;
    IntervalSize(ns[0], Max(ns) + 1);
    assert Expected(ns) == NeverArrived(ns) + Arrived(ns);
  }

  predicate Distinct(ns: seq<nat>) {
    forall i, j | 0 <= i < j < |ns| :: ns[i] != ns[j]
  }

  lemma DistinctFront(ns: seq<nat>, x: nat)
    requires Distinct(ns + [x])
    ensures Distinct(ns) && x !in ns
  {
    var ns' := ns + [x];
    assert forall i | 0 <= i < |ns| :: ns'[i] == ns[i];
    assert ns'[|ns|] == x;
  }

  lemma {:induction false} NothingStale(ns: seq<nat>)
    requires Distinct(ns) && forall n | n in ns :: ns[0] <= n
    ensures Stale(ns) == 0
  {
    if ns != [] {
      var (before, x) := (ns[..|ns| - 1], ns[|ns| - 1]);
      assert ns == before + [x];
      DistinctFront(before, x);
      OneMore(before, x);
      if before != [] { assert before[0] == ns[0]; }
      assert x in ns;
      forall n | n in before ensures before[0] <= n { assert n in ns; }
      NothingStale(before);
    }
  }

  lemma {:induction false} NoDuplicates(payloads: seq<seq<byte>>)
    requires Distinct(Numbers(payloads))
    ensures TallyOf(payloads).duplicates == 0
  {
    if payloads != [] {
      var (before, last) := (payloads[..|payloads| - 1], payloads[|payloads| - 1]);
      NumbersGrow(payloads);
      hide TallyOf, Numbers, Number;
      if Number(last).Some? {
        DistinctFront(Numbers(before), Number(last).value);
      }
      NoDuplicates(before);
      Counters(before);
    } else {
      assert TallyOf([]) == NOTHING;
    }
  }

  /** When no number arrives twice and none is below the first: the loss is exact and there are no duplicates. */
  lemma {:induction false} CleanFlow(payloads: seq<seq<byte>>)
    requires Numbers(payloads) != [] && Distinct(Numbers(payloads))
    requires forall n | n in Numbers(payloads) :: Numbers(payloads)[0] <= n
    ensures var (t, ns) := (TallyOf(payloads), Numbers(payloads));
      t.missing - t.outOfOrder == |NeverArrived(ns)| && t.duplicates == 0
  {
    NothingStale(Numbers(payloads));
    MissingIsExact(payloads);
    NoDuplicates(payloads);
  }
}
