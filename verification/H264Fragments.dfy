/** H.264 access units over stream_data payloads of at most 1250 bytes: fragmentation and reassembly. */
module H264Fragments {
  import opened Wrappers
  import opened Protocol
  import opened Framing

  const PAYLOAD_H264: byte := 2
  const SDU_MAX := 1250
  const MAX_BODY := SDU_MAX - 1
  const MAGIC: byte := 0xfe
  const HEADER := 9
  const CHUNK := MAX_BODY - HEADER
  const MAX_FRAGMENTS := 0xffff

  // ---- Sender ---------------------------------------------------------------------------------------------------

  function FragmentCount(unit: seq<byte>): nat { (|unit| + CHUNK - 1) / CHUNK }

  function Min(a: nat, b: nat): nat { if a < b then a else b }

  /** Fragment `i` of a unit. */
  function Chunk(unit: seq<byte>, i: nat): seq<byte> {
    unit[Min(i * CHUNK, |unit|)..Min((i + 1) * CHUNK, |unit|)]
  }

  /** `buildH264V2FragBody`: every field is cut to its width. */
  function FragmentBody(number: nat, index: nat, count: nat, chunk: seq<byte>): (b: seq<byte>)
    ensures |b| == HEADER + |chunk|
  {
    [MAGIC] + Be32(number) + Be16(index) + Be16(count) + chunk
  }

  /** The bodies that carry a unit. */
  function Bodies(unit: seq<byte>, number: nat): seq<seq<byte>> {
    if |unit| <= MAX_BODY then [unit]
    else seq(FragmentCount(unit), i requires 0 <= i => FragmentBody(number, i, FragmentCount(unit), Chunk(unit, i)))
  }

  function Sdu(body: seq<byte>): seq<byte> { [PAYLOAD_H264] + body }

  function Sdus(unit: seq<byte>, number: nat): (s: seq<seq<byte>>)
    ensures |s| == |Bodies(unit, number)|
  {
    seq(|Bodies(unit, number)|, i requires 0 <= i < |Bodies(unit, number)| => Sdu(Bodies(unit, number)[i]))
  }

  /** No SDU exceeds 1250 bytes, so the sender's two size checks never drop anything. */
  lemma SdusFit(unit: seq<byte>, number: nat, i: nat)
    requires i < |Bodies(unit, number)|
    ensures |Sdu(Bodies(unit, number)[i])| <= SDU_MAX
  {
  }

  method BuildFragmentBody(number: nat, index: nat, count: nat, chunk: seq<byte>) returns (out: array<byte>)
    ensures fresh(out) && out[..] == FragmentBody(number, index, count, chunk)
  {
    out := new byte[HEADER + |chunk|](_ => 0);
    out[0] := MAGIC;
    out[1], out[2] := (number / 0x100_0000) % 0x100, (number / 0x1_0000) % 0x100;
    out[3], out[4] := (number / 0x100) % 0x100, number % 0x100;
    out[5], out[6] := (index / 0x100) % 0x100, index % 0x100;
    out[7], out[8] := (count / 0x100) % 0x100, count % 0x100;
    forall j | 0 <= j < |chunk| {
      out[HEADER + j] := chunk[j];
    }
    HeaderThenChunk(out[..], number, index, count, chunk);
  }

  lemma HeaderThenChunk(out: seq<byte>, number: nat, index: nat, count: nat, chunk: seq<byte>)
    requires |out| == HEADER + |chunk| && out[0] == MAGIC
    requires out[1] == (number / 0x100_0000) % 0x100 && out[2] == (number / 0x1_0000) % 0x100
    requires out[3] == (number / 0x100) % 0x100 && out[4] == number % 0x100
    requires out[5] == (index / 0x100) % 0x100 && out[6] == index % 0x100
    requires out[7] == (count / 0x100) % 0x100 && out[8] == count % 0x100
    requires forall j | 0 <= j < |chunk| :: out[HEADER + j] == chunk[j]
    ensures out == FragmentBody(number, index, count, chunk)
  {
    assert out[1..5] == Be32(number) && out[5..7] == Be16(index) && out[7..9] == Be16(count);
    hide Be32, Be16;
    assert out[..HEADER] == [MAGIC] + out[1..5] + out[5..7] + out[7..9];
    assert out[HEADER..] == chunk;
    assert out == out[..HEADER] + out[HEADER..];
  }

  class Sender {
    var lastNumber: nat
    /** Everything handed to the channel. */
    var sent: seq<seq<byte>>

    constructor ()
      ensures lastNumber == 0 && sent == []
    {
      lastNumber, sent := 0, [];
    }

    /** `fanoutVideoSdu`. */
    method Fanout(unit: seq<byte>)
      modifies this
      ensures lastNumber == old(lastNumber) + if |unit| <= MAX_BODY then 0 else 1
      ensures sent == old(sent) + Sdus(unit, lastNumber % 0x1_0000_0000)
    {
      if |unit| <= MAX_BODY {
        if |Sdu(unit)| > SDU_MAX {
          return;
        }
        assert [Sdu(unit)] == Sdus(unit, lastNumber % 0x1_0000_0000);
        sent := sent + [Sdu(unit)];
        return;
      }
      lastNumber := lastNumber + 1;
      var number, count := lastNumber % 0x1_0000_0000, FragmentCount(unit);
      ghost var all := Sdus(unit, number);
      var i := 0;
      while i < count
        invariant i <= count && lastNumber == old(lastNumber) + 1
        invariant sent == old(sent) + all[..i]
      {
        var body := BuildFragmentBody(number, i, count, Chunk(unit, i));
        var sdu := Sdu(body[..]);
        SdusFit(unit, number, i);
        if |sdu| > SDU_MAX {
          return;
        }
        assert all[..i + 1] == all[..i] + [sdu];
        sent := sent + [sdu];
        i := i + 1;
      }
      assert all[..count] == all;
    }
  }

  // ---- Receiver -------------------------------------------------------------------------------------------------

  type Key = (string, nat)

  datatype Partial = Partial(total: nat, got: map<nat, seq<byte>>)

  type Table = map<Key, Partial>

  datatype Fragment = Fragment(number: nat, index: nat, count: nat, chunk: seq<byte>)

  /** What the receiver makes of a body; `None` where it drops it. */
  function Parse(body: seq<byte>): Option<Fragment> {
    if |body| < HEADER || body[0] != MAGIC then None
    else
      var f := Fragment(Be32Value(body[1..5]), Be16Value(body[5..7]), Be16Value(body[7..9]), body[HEADER..]);
      if f.count < 1 || f.index >= f.count || f.chunk == [] then None else Some(f)
  }

  /** The record of `key` with the fragment stored; a record of another total is started afresh. */
  function Stored(table: Table, key: Key, f: Fragment): Partial {
    var rec := if key in table && table[key].total == f.count then table[key] else Partial(f.count, map[]);
    rec.(got := rec.got[f.index := f.chunk])
  }

  predicate HasAll(rec: Partial) {
    forall i | 0 <= i < rec.total :: i in rec.got
  }

  function Ordered(rec: Partial): seq<seq<byte>>
    requires HasAll(rec)
  {
    seq(rec.total, i requires 0 <= i < rec.total => rec.got[i])
  }

  /** `ingestV2H264Fragment`: the new table, and the buffer handed on, if any. */
  function Ingest(table: Table, peer: string, body: seq<byte>): (Table, Option<seq<byte>>) {
    match Parse(body)
    case None => (table, None)
    case Some(f) => Accept(table, peer, f)
  }

  function Accept(table: Table, peer: string, f: Fragment): (Table, Option<seq<byte>>) {
    var key := (peer, f.number);
    var rec := Stored(table, key, f);
    if |rec.got| < rec.total || !HasAll(rec) then (table[key := rec], None)
    else (table - {key}, Some(Joined(Ordered(rec))))
  }

  /** The H264 branch of `onStreamSdu`. */
  function Hear(table: Table, peer: string, body: seq<byte>): (Table, Option<seq<byte>>) {
    if body != [] && body[0] == MAGIC then Ingest(table, peer, body) else (table, Some(body))
  }

  /** The parts in order; `None` at a missing one. */
  method Assemble(rec: Partial) returns (buffer: Option<seq<byte>>)
    ensures buffer == if HasAll(rec) then Some(Joined(Ordered(rec))) else None
  {
    hide Joined;
    var ordered: seq<seq<byte>> := [];
    var i := 0;
    while i < rec.total
      invariant i <= rec.total && |ordered| == i
      invariant forall j | 0 <= j < i :: j in rec.got && ordered[j] == rec.got[j]
    {
      if i !in rec.got { return None; }
      ordered := ordered + [rec.got[i]];
      i := i + 1;
    }
    assert HasAll(rec) && ordered == Ordered(rec);
    return Some(Joined(ordered));
  }

  /**
   * Bodies are told apart by their first byte: one that starts as a start code, a length or a NAL unit header does
   * (below 80), or with FF, is handed on whole, and a fragment, which starts with FE, never is.
   */
  lemma WholeOrFragment(table: Table, peer: string, body: seq<byte>, number: nat, index: nat, count: nat,
                        chunk: seq<byte>)
    ensures body == [] || body[0] < 0x80 || body[0] == 0xff ==> Hear(table, peer, body) == (table, Some(body))
    ensures var fragment := FragmentBody(number, index, count, chunk);
      fragment[0] == 0xfe && Hear(table, peer, fragment) == Ingest(table, peer, fragment)
  {
    hide Ingest;
  }

  /** A fragment with an empty chunk, or an index not below its count, is dropped and leaves no trace. */
  lemma MalformedIsDropped(table: Table, peer: string, body: seq<byte>)
    requires body != [] && body[0] == 0xfe
    requires |body| <= 9 || 0x100 * body[5] as int + body[6] >= 0x100 * body[7] as int + body[8]
    ensures Hear(table, peer, body) == (table, None)
  {
  }

  class Receiver {
    var partials: Table
    /** What was handed to the decoders. */
    var fed: seq<(string, seq<byte>)>

    constructor ()
      ensures partials == map[] && fed == []
    {
      partials, fed := map[], [];
    }

    method OnH264Sdu(peer: string, body: seq<byte>)
      modifies this
      ensures var (t, out) := Hear(old(partials), peer, body);
        partials == t && fed == old(fed) + if out.Some? then [(peer, out.value)] else []
    {
      if |body| > 0 && body[0] == MAGIC {
        IngestFragment(peer, body);
        return;
      }
      fed := fed + [(peer, body)];
    }

    method IngestFragment(peer: string, body: seq<byte>)
      modifies this
      ensures var (t, out) := Ingest(old(partials), peer, body);
        partials == t && fed == old(fed) + if out.Some? then [(peer, out.value)] else []
    {
      if |body| < HEADER { return; }
      if body[0] != MAGIC { return; }
      var f := Fragment(Be32Value(body[1..5]), Be16Value(body[5..7]), Be16Value(body[7..9]), body[HEADER..]);
      if f.count < 1 || f.index >= f.count || |f.chunk| == 0 { return; }
      StoreFragment(peer, f);
    }

    method StoreFragment(peer: string, f: Fragment)
      modifies this
      ensures var (t, out) := Accept(old(partials), peer, f);
        partials == t && fed == old(fed) + if out.Some? then [(peer, out.value)] else []
    {
      hide Joined;
      var key := (peer, f.number);
      if key !in partials || partials[key].total != f.count {
        partials := partials[key := Partial(f.count, map[])];
      }
      partials := partials[key := partials[key].(got := partials[key].got[f.index := f.chunk])];
      var rec := partials[key];
      assert rec == Stored(old(partials), key, f) && partials == old(partials)[key := rec];
      if |rec.got| < rec.total { return; }
      var buffer := Assemble(rec);
      if buffer.None? { return; }
      assert old(partials)[key := rec] - {key} == old(partials) - {key};
      partials := partials - {key};
      fed := fed + [(peer, buffer.value)];
    }
  }

  // ---- Counting -------------------------------------------------------------------------------------------------

  function Range(n: nat): (r: set<nat>)
    ensures forall i: nat :: i in r <==> i < n
  {
    if n == 0 then {} else Range(n - 1) + {n - 1}
  }

  lemma {:induction false} RangeSize(n: nat)
    ensures |Range(n)| == n
  {
    if n > 0 {
      RangeSize(n - 1);
      assert Range(n) == Range(n - 1) + {n - 1};
    }
  }

  lemma {:induction false} SubsetSize(a: set<nat>, b: set<nat>)
    requires a <= b
    ensures |a| <= |b| && (|a| == |b| ==> a == b)
    decreases |b|
  {
    if a != {} {
      var x :| x in a;
      SubsetSize(a - {x}, b - {x});
      assert a == (a - {x}) + {x} && b == (b - {x}) + {x};
    } else if b != {} {
      assert |b| > 0;
    }
  }

  /** Pigeonhole: `n` different indices below `n` are all of them. */
  lemma {:induction false} AllPresent(keys: set<nat>, n: nat)
    requires keys <= Range(n)
    ensures |keys| >= n <==> keys == Range(n)
  {
    RangeSize(n);
    SubsetSize(keys, Range(n));
  }

  /** Stored indices are below their totals. */
  predicate IndicesOk(table: Table) {
    forall k | k in table :: table[k].got.Keys <= Range(table[k].total)
  }

  /**
   * Whatever bytes arrive, a record with as many parts as its total misses none of them: the early return for a
   * missing part is never taken.
   */
  lemma {:induction false} MissingPartIsDead(table: Table, peer: string, body: seq<byte>)
    requires IndicesOk(table)
    ensures IndicesOk(Ingest(table, peer, body).0)
    ensures Parse(body).Some? ==>
      var rec := Stored(table, (peer, Parse(body).value.number), Parse(body).value);
      |rec.got| >= rec.total <==> HasAll(rec)
  {
    hide Joined, Be32Value, Be16Value;
    if Parse(body).Some? {
      var f := Parse(body).value;
      var rec := Stored(table, (peer, f.number), f);
      assert |rec.got| == |rec.got.Keys| && rec.got.Keys <= Range(rec.total);
      AllPresent(rec.got.Keys, rec.total);
      assert HasAll(rec) <==> rec.got.Keys == Range(rec.total);
    }
  }

  // ---- Any order, duplication and interleaving ------------------------------------------------------------------

  /** What reaches the receiver: a unit sent whole, or fragment `index` of the unit `(peer, number)`. */
  datatype Arrival =
    | Whole(peer: string, unit: seq<byte>)
    | Piece(peer: string, number: nat, index: nat)

  /** The unit each peer sent in fragments under each number. */
  type Units = map<Key, seq<byte>>

  predicate GoodUnits(units: Units) {
    forall k | k in units :: k.1 < 0x1_0000_0000 && MAX_BODY < |units[k]| && FragmentCount(units[k]) <= MAX_FRAGMENTS
  }

  predicate GoodArrival(units: Units, a: Arrival) {
    match a
    case Whole(_, unit) => unit == [] || unit[0] != MAGIC
    case Piece(peer, number, i) => (peer, number) in units && i < FragmentCount(units[(peer, number)])
  }

  function BodyOf(units: Units, a: Arrival): seq<byte>
    requires GoodArrival(units, a)
  {
    match a
    case Whole(_, unit) => unit
    case Piece(peer, number, i) =>
      var u := units[(peer, number)];
      FragmentBody(number, i, FragmentCount(u), Chunk(u, i))
  }

  predicate GoodRun(units: Units, run: seq<Arrival>) {
    GoodUnits(units) && forall a | a in run :: GoodArrival(units, a)
  }

  function TableAfter(units: Units, run: seq<Arrival>): Table
    requires GoodRun(units, run)
  {
    if run == [] then map[] else
      var a := run[|run| - 1];
      Hear(TableAfter(units, run[..|run| - 1]), a.peer, BodyOf(units, a)).0
  }

  /** What the last arrival of a run makes the receiver hand on. */
  function Output(units: Units, run: seq<Arrival>): Option<seq<byte>>
    requires GoodRun(units, run) && run != []
  {
    var a := run[|run| - 1];
    Hear(TableAfter(units, run[..|run| - 1]), a.peer, BodyOf(units, a)).1
  }

  predicate IsPieceOf(a: Arrival, k: Key) {
    a.Piece? && (a.peer, a.number) == k
  }

  /** The indices of `k` that arrived since the last time they were complete. */
  function Collected(units: Units, run: seq<Arrival>, k: Key): set<nat>
    requires GoodRun(units, run) && k in units
    decreases |run|, 1
  {
    if run == [] then {} else
      var before := Collected(units, run[..|run| - 1], k);
      if !IsPieceOf(run[|run| - 1], k) then before
      else if Completes(units, run, k) then {}
      else before + {run[|run| - 1].index}
  }

  /** The last arrival is the last missing fragment of `k`. */
  predicate Completes(units: Units, run: seq<Arrival>, k: Key)
    requires GoodRun(units, run) && run != [] && k in units
    decreases |run|, 0
  {
    && IsPieceOf(run[|run| - 1], k)
    && Collected(units, run[..|run| - 1], k) + {run[|run| - 1].index} == Range(FragmentCount(units[k]))
  }

  // ---- Reassembly -------------------------------------------------------------------------------------------------

  lemma PieceParses(number: nat, i: nat, count: nat, chunk: seq<byte>)
    requires number < 0x1_0000_0000 && i < count <= MAX_FRAGMENTS && chunk != []
    ensures Parse(FragmentBody(number, i, count, chunk)) == Some(Fragment(number, i, count, chunk))
  {
    hide Be32, Be16, Be32Value, Be16Value;
    var b := FragmentBody(number, i, count, chunk);
    assert b[1..5] == Be32(number) && b[5..7] == Be16(i) && b[7..9] == Be16(count) && b[HEADER..] == chunk;
    Be32ReadsBack(number);
    Be16ReadsBack(i);
    Be16ReadsBack(count);
  }

  lemma ChunkIsThere(u: seq<byte>, i: nat)
    requires i < FragmentCount(u)
    ensures Chunk(u, i) != [] && |Chunk(u, i)| <= CHUNK
  {
  }

  function Chunks(u: seq<byte>, n: nat): seq<seq<byte>> {
    seq(n, i requires 0 <= i < n => Chunk(u, i))
  }

  lemma {:induction false} ChunksMakeUnit(u: seq<byte>, n: nat)
    requires n <= FragmentCount(u)
    ensures Joined(Chunks(u, n)) == u[..Min(n * CHUNK, |u|)]
  {
    if n > 0 {
      var a, b := Min((n - 1) * CHUNK, |u|), Min(n * CHUNK, |u|);
      ChunksMakeUnit(u, n - 1);
      JoinedMore(Chunks(u, n - 1), u[a..b]);
      assert Chunks(u, n) == Chunks(u, n - 1) + [u[a..b]];
      hide Chunks, FragmentCount;
      assert u[..a] + u[a..b] == u[..b];
    }
  }

  /** A record holds true fragments of its unit, and not all of them. */
  predicate TruePartial(u: seq<byte>, rec: Partial) {
    && rec.total == FragmentCount(u)
    && rec.got.Keys <= Range(rec.total)
    && (forall i | i in rec.got :: rec.got[i] == Chunk(u, i))
  }

  /** The table keeps exactly what `collected` says, and every record is a true partial of its unit. */
  predicate TableMatches(units: Units, table: Table, collected: map<Key, set<nat>>) {
    && collected.Keys == units.Keys
    && (forall k | k in table :: k in units && TruePartial(units[k], table[k]) && table[k].got != map[])
    && (forall k | k in units :: collected[k] == if k in table then table[k].got.Keys else {})
  }

  function CollectedAll(units: Units, run: seq<Arrival>): map<Key, set<nat>>
    requires GoodRun(units, run)
  {
    map k | k in units :: Collected(units, run, k)
  }

  lemma StoredIsTrue(units: Units, table: Table, k: Key, i: nat)
    requires k in units && i < FragmentCount(units[k]) && (k in table ==> TruePartial(units[k], table[k]))
    ensures var rec := Stored(table, k, Fragment(k.1, i, FragmentCount(units[k]), Chunk(units[k], i)));
      && TruePartial(units[k], rec)
      && rec.got.Keys == (if k in table then table[k].got.Keys else {}) + {i}
      && (HasAll(rec) <==> rec.got.Keys == Range(rec.total))
      && (|rec.got| >= rec.total <==> HasAll(rec))
  {
    hide FragmentCount, Chunk;
    var rec := Stored(table, k, Fragment(k.1, i, FragmentCount(units[k]), Chunk(units[k], i)));
    assert |rec.got| == |rec.got.Keys|;
    AllPresent(rec.got.Keys, rec.total);
  }

  lemma TrueAndFullIsUnit(u: seq<byte>, rec: Partial)
    requires TruePartial(u, rec) && HasAll(rec)
    ensures Joined(Ordered(rec)) == u
  {
    ChunksMakeUnit(u, rec.total);
    assert rec.total * CHUNK >= |u|;
    assert Ordered(rec) == Chunks(u, rec.total);
    assert u[..|u|] == u;
  }

  /** What one fragment does to the table of a truthful receiver. */
  lemma {:induction false} HearPiece(units: Units, table: Table, k: Key, i: nat)
    requires GoodUnits(units) && k in units && i < FragmentCount(units[k])
    requires k in table ==> TruePartial(units[k], table[k])
    ensures var (t, out) := Hear(table, k.0, BodyOf(units, Piece(k.0, k.1, i)));
      var now := (if k in table then table[k].got.Keys else {}) + {i};
      && out == (if now == Range(FragmentCount(units[k])) then Some(units[k]) else None)
      && (out.Some? ==> t == table - {k})
      && (out.None? ==> k in t && t == table[k := t[k]] && TruePartial(units[k], t[k]) && t[k].got.Keys == now)
  {
    hide FragmentCount, Chunk, Joined, Stored, HasAll;
    var u := units[k];
    var f := Fragment(k.1, i, FragmentCount(u), Chunk(u, i));
    ChunkIsThere(u, i);
    PieceParses(k.1, i, FragmentCount(u), Chunk(u, i));
    StoredIsTrue(units, table, k, i);
    var rec := Stored(table, k, f);
    if HasAll(rec) { TrueAndFullIsUnit(u, rec); }
  }

  /**
   * After any run: a record is kept exactly for the units of which some fragments but not all have been collected,
   * and it holds exactly those.
   */
  lemma {:induction false} TableFollows(units: Units, run: seq<Arrival>)
    requires GoodRun(units, run)
    ensures TableMatches(units, TableAfter(units, run), CollectedAll(units, run))
  {
    hide Hear, TruePartial, FragmentCount;
    if run != [] {
      var before, a := run[..|run| - 1], run[|run| - 1];
      TableFollows(units, before);
      assert GoodArrival(units, a);
      var table := TableAfter(units, before);
      if a.Whole? {
        HearWhole(units, table, a);
        assert CollectedAll(units, run) == CollectedAll(units, before);
      } else {
        PieceFollows(units, run, table);
      }
    }
  }

  lemma {:induction false} PieceFollows(units: Units, run: seq<Arrival>, table: Table)
    requires GoodRun(units, run) && run != [] && run[|run| - 1].Piece? && table == TableAfter(units, run[..|run| - 1])
    requires TableMatches(units, table, CollectedAll(units, run[..|run| - 1]))
    ensures TableMatches(units, TableAfter(units, run), CollectedAll(units, run))
  {
    hide Hear, TruePartial, FragmentCount, BodyOf, GoodUnits, TableMatches, Collected;
    var before, a := run[..|run| - 1], run[|run| - 1];
    var k := (a.peer, a.number);
    assert GoodArrival(units, a);
    var was := CollectedAll(units, before);
    RecordOf(units, table, was, k);
    HearPiece(units, table, k, a.index);
    var now := was[k] + {a.index};
    var left := if now == Range(FragmentCount(units[k])) then {} else now;
    CollectedMoves(units, run, k, left);
    TableUpdate(units, table, TableAfter(units, run), was, k, left);
  }

  lemma RecordOf(units: Units, table: Table, collected: map<Key, set<nat>>, k: Key)
    requires TableMatches(units, table, collected) && k in units
    ensures k in collected && collected[k] == if k in table then table[k].got.Keys else {}
    ensures k in table ==> TruePartial(units[k], table[k])
  {
  }

  lemma CollectedMoves(units: Units, run: seq<Arrival>, k: Key, left: set<nat>)
    requires GoodRun(units, run) && run != [] && k in units && IsPieceOf(run[|run| - 1], k)
    requires var now := Collected(units, run[..|run| - 1], k) + {run[|run| - 1].index};
      left == if now == Range(FragmentCount(units[k])) then {} else now
    ensures CollectedAll(units, run) == CollectedAll(units, run[..|run| - 1])[k := left]
  {
    hide FragmentCount;
    var before := run[..|run| - 1];
    assert Collected(units, run, k) == left;
    forall k' | k' in units && k' != k ensures Collected(units, run, k') == Collected(units, before, k') {}
  }

  lemma TableUpdate(units: Units, table: Table, t: Table, was: map<Key, set<nat>>, k: Key, left: set<nat>)
    requires TableMatches(units, table, was) && k in units
    requires if left == {} then t == table - {k}
      else k in t && t == table[k := t[k]] && TruePartial(units[k], t[k]) && t[k].got.Keys == left
    ensures TableMatches(units, t, was[k := left])
  {
    hide TruePartial;
    assert left != {} ==> t[k].got != map[];
  }

  lemma HearWhole(units: Units, table: Table, a: Arrival)
    requires a.Whole? && GoodArrival(units, a)
    ensures Hear(table, a.peer, BodyOf(units, a)) == (table, Some(a.unit))
  {
  }

  /**
   * In every run, under any order, duplication and interleaving of peers and units: a whole unit is handed on as it
   * is, and a fragment makes the receiver hand on something exactly when it is the last missing one, and then it is
   * the very unit that peer sent under that number.
   */
  lemma {:induction false} Reassembly(units: Units, run: seq<Arrival>)
    requires GoodRun(units, run) && run != []
    ensures GoodArrival(units, run[|run| - 1])
    ensures match run[|run| - 1]
      case Whole(_, unit) => Output(units, run) == Some(unit)
      case Piece(peer, number, _) =>
        Output(units, run) == if Completes(units, run, (peer, number)) then Some(units[(peer, number)]) else None
  {
    hide Hear, TruePartial, FragmentCount;
    var before, a := run[..|run| - 1], run[|run| - 1];
    TableFollows(units, before);
    assert GoodArrival(units, a);
    var table := TableAfter(units, before);
    if a.Whole? {
      HearWhole(units, table, a);
    } else {
      HearPiece(units, table, (a.peer, a.number), a.index);
    }
  }

  // ---- How often a unit is delivered ------------------------------------------------------------------------------

  function Deliveries(units: Units, run: seq<Arrival>, k: Key): nat
    requires GoodRun(units, run) && k in units
  {
    if run == [] then 0
    else Deliveries(units, run[..|run| - 1], k) + if Completes(units, run, k) then 1 else 0
  }

  function Pieces(run: seq<Arrival>, k: Key): nat {
    if run == [] then 0 else Pieces(run[..|run| - 1], k) + if IsPieceOf(run[|run| - 1], k) then 1 else 0
  }

  lemma {:induction false} CollectedIsSmall(units: Units, run: seq<Arrival>, k: Key)
    requires GoodRun(units, run) && k in units
    ensures Collected(units, run, k) <= Range(FragmentCount(units[k]))
  {
    hide FragmentCount;
    if run != [] {
      assert GoodArrival(units, run[|run| - 1]);
      CollectedIsSmall(units, run[..|run| - 1], k);
    }
  }

  /** Every delivery uses up a full set of arrivals: with no fragment duplicated, a unit is delivered at most once. */
  lemma {:induction false} DeliveriesCost(units: Units, run: seq<Arrival>, k: Key)
    requires GoodRun(units, run) && k in units
    ensures Deliveries(units, run, k) * FragmentCount(units[k]) + |Collected(units, run, k)| <= Pieces(run, k)
  {
    hide FragmentCount;
    if run != [] {
      var before := run[..|run| - 1];
      DeliveriesCost(units, before, k);
      var n, d := FragmentCount(units[k]), Deliveries(units, before, k);
      if IsPieceOf(run[|run| - 1], k) {
        OneMoreDelivery(Collected(units, before, k), run[|run| - 1].index, d, n);
      }
    }
  }

  lemma OneMoreDelivery(collected: set<nat>, i: nat, d: nat, n: nat)
    ensures |collected + {i}| <= |collected| + 1
    ensures collected + {i} == Range(n) ==> (d + 1) * n <= d * n + |collected| + 1
  {
    RangeSize(n);
    assert (d + 1) * n == d * n + n;
    if i in collected { assert collected + {i} == collected; }
  }

  /** If every fragment arrives at least once, in whatever order, the unit is delivered. */
  lemma {:induction false} AllArrivedIsDelivered(units: Units, run: seq<Arrival>, k: Key)
    requires GoodRun(units, run) && k in units
    requires forall i: nat | i < FragmentCount(units[k]) :: Piece(k.0, k.1, i) in run
    ensures Deliveries(units, run, k) >= 1
  {
    hide FragmentCount;
    if Deliveries(units, run, k) == 0 {
      UndeliveredIsCollected(units, run, k);
      assert Collected(units, run, k) == Range(FragmentCount(units[k])) by {
        CollectedIsSmall(units, run, k);
      }
      NeverFull(units, run, k);
    }
  }

  lemma {:induction false} UndeliveredIsCollected(units: Units, run: seq<Arrival>, k: Key)
    requires GoodRun(units, run) && k in units && Deliveries(units, run, k) == 0
    ensures forall i: nat | Piece(k.0, k.1, i) in run :: i in Collected(units, run, k)
  {
    if run != [] {
      var before, a := run[..|run| - 1], run[|run| - 1];
      UndeliveredIsCollected(units, before, k);
      assert run == before + [a];
    }
  }

  lemma {:induction false} NeverFull(units: Units, run: seq<Arrival>, k: Key)
    requires GoodRun(units, run) && k in units
    ensures Collected(units, run, k) != Range(FragmentCount(units[k]))
  {
    assert 0 in Range(FragmentCount(units[k]));
    if run != [] {
      NeverFull(units, run[..|run| - 1], k);
    }
  }

  // ---- Units of more than 65535 fragments -------------------------------------------------------------------------

  /** Records that SDUs of at most 1250 bytes can build. */
  predicate SmallTable(table: Table) {
    forall k | k in table ::
      table[k].total <= MAX_FRAGMENTS && forall i | i in table[k].got :: |table[k].got[i]| <= CHUNK
  }

  lemma {:induction false} JoinedIsShort(parts: seq<seq<byte>>)
    requires forall i | 0 <= i < |parts| :: |parts[i]| <= CHUNK
    ensures |Joined(parts)| <= CHUNK * |parts|
  {
    if parts != [] {
      var n := |parts| - 1;
      JoinedIsShort(parts[..n]);
      JoinedMore(parts[..n], parts[n]);
      assert parts == parts[..n] + [parts[n]];
    }
  }

  /**
   * The fragment count has 16 bits: from SDUs within budget no buffer above 65535 fragments' worth is ever put
   * together, so a longer unit, whose count is cut to its low 16 bits, is never handed on.
   */
  lemma {:induction false} ReassembledIsBounded(table: Table, peer: string, body: seq<byte>)
    requires SmallTable(table) && |body| <= MAX_BODY
    ensures SmallTable(Ingest(table, peer, body).0)
    ensures var out := Ingest(table, peer, body).1;
      out.Some? ==> |out.value| <= MAX_FRAGMENTS * CHUNK && FragmentCount(out.value) <= MAX_FRAGMENTS
  {
    hide Joined, Be32Value, FragmentCount;
    if Parse(body).Some? {
      var f := Parse(body).value;
      var rec := Stored(table, (peer, f.number), f);
      assert rec.total <= MAX_FRAGMENTS && forall i | i in rec.got :: |rec.got[i]| <= CHUNK;
      if HasAll(rec) {
        FullIsBounded(rec);
      }
    }
  }

  lemma {:induction false} FullIsBounded(rec: Partial)
    requires HasAll(rec) && rec.total <= MAX_FRAGMENTS && forall i | i in rec.got :: |rec.got[i]| <= CHUNK
    ensures var u := Joined(Ordered(rec)); |u| <= MAX_FRAGMENTS * CHUNK && FragmentCount(u) <= MAX_FRAGMENTS
  {
    hide Joined;
    JoinedIsShort(Ordered(rec));
  }

  // ---- One unit over a perfect channel -----------------------------------------------------------------------------

  /** Everything the receiver hands on while the bodies arrive in order. */
  function Feed(table: Table, peer: string, bodies: seq<seq<byte>>): set<seq<byte>>
    decreases |bodies|
  {
    if bodies == [] then {} else
      var (t, out) := Hear(table, peer, bodies[0]);
      Feed(t, peer, bodies[1..]) + if out.Some? then {out.value} else {}
  }

  lemma {:induction false} FeedIsBounded(table: Table, peer: string, bodies: seq<seq<byte>>)
    requires SmallTable(table)
    requires forall b | b in bodies :: b != [] && b[0] == MAGIC && |b| <= MAX_BODY
    ensures forall u | u in Feed(table, peer, bodies) :: FragmentCount(u) <= MAX_FRAGMENTS
    decreases |bodies|
  {
    hide Ingest, SmallTable, FragmentCount;
    if bodies != [] {
      ReassembledIsBounded(table, peer, bodies[0]);
      FeedIsBounded(Ingest(table, peer, bodies[0]).0, peer, bodies[1..]);
    }
  }

  lemma {:induction false} FeedInOrder(table: Table, k: Key, u: seq<byte>, n: nat)
    requires MAX_BODY < |u| && k.1 < 0x1_0000_0000 && FragmentCount(u) <= MAX_FRAGMENTS && n < FragmentCount(u)
    requires k in table ==> TruePartial(u, table[k])
    requires Range(n) == if k in table then table[k].got.Keys else {}
    ensures u in Feed(table, k.0, Bodies(u, k.1)[n..])
    decreases FragmentCount(u) - n
  {
    hide Hear, TruePartial, FragmentCount, Chunk;
    var units: Units := map[k := u];
    var bodies := Bodies(u, k.1)[n..];
    HearPiece(units, table, k, n);
    assert bodies[0] == BodyOf(units, Piece(k.0, k.1, n));
    assert bodies[1..] == Bodies(u, k.1)[n + 1..];
    assert Range(n) + {n} == Range(n + 1);
    if n + 1 < FragmentCount(u) {
      assert n + 1 !in Range(n + 1) && n + 1 in Range(FragmentCount(u));
      FeedInOrder(Hear(table, k.0, bodies[0]).0, k, u, n + 1);
    }
  }

  /** Sent and received in order, a unit arrives exactly if it needs no more than 65535 fragments. */
  lemma {:induction false} FragmentedLoopback(k: Key, u: seq<byte>)
    requires MAX_BODY < |u| && k.1 < 0x1_0000_0000
    ensures u in Feed(map[], k.0, Bodies(u, k.1)) <==> FragmentCount(u) <= MAX_FRAGMENTS
    ensures FragmentCount(u) <= MAX_FRAGMENTS <==> |u| <= MAX_FRAGMENTS * CHUNK
  {
    hide Hear, FragmentCount, FragmentBody, Chunk, Feed;
    var bodies := Bodies(u, k.1);
    if FragmentCount(u) <= MAX_FRAGMENTS {
      assert 0 < FragmentCount(u) by { LongHasFragments(u); }
      assert bodies[0..] == bodies && Range(0) == {};
      FeedInOrder(map[], k, u, 0);
    } else {
      forall b | b in bodies ensures b != [] && b[0] == MAGIC && |b| <= MAX_BODY {
        FragmentsAreMarked(u, k.1, b);
      }
      FeedIsBounded(map[], k.0, bodies);
    }
    LongHasFragments(u);
  }

  lemma LongHasFragments(u: seq<byte>)
    requires MAX_BODY < |u|
    ensures 0 < FragmentCount(u) && (FragmentCount(u) <= MAX_FRAGMENTS <==> |u| <= MAX_FRAGMENTS * CHUNK)
  {
  }

  lemma FragmentsAreMarked(u: seq<byte>, number: nat, b: seq<byte>)
    requires MAX_BODY < |u| && b in Bodies(u, number)
    ensures b != [] && b[0] == MAGIC && |b| <= MAX_BODY
  {
    var i :| 0 <= i < FragmentCount(u) && Bodies(u, number)[i] == b;
    ChunkIsThere(u, i);
  }
}
