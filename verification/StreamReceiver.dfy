/** The receiver in front of the splitter: which slices it takes as whole buffers and which as parts of a stream. */
module StreamReceiver {
  import opened Protocol
  import opened Cum
  import opened Framing
  import opened AnnexB

  /** `hasAnnexBStartCodeAnywhere`: never true below four bytes. */
  predicate HasStartCode(x: seq<byte>) {
    |x| >= 4 && FirstMark(x, 0) < |x|
  }

  /** `looksLikeAnnexBH264`: a start code among the first 33 positions. */
  predicate LooksLikeAnnexB(x: seq<byte>) {
    HasStartCode(x) && FirstMark(x, 0) <= 32
  }

  /** `looksLikeAvccH264`: at most three plausible length-prefixed units, and nothing after them. */
  predicate LooksLikeAvcc(x: seq<byte>, checked: nat)
    decreases 3 - checked
  {
    if |x| < 4 || checked >= 3 then checked > 0 && x == [] else
      var n := Be32Value(x[..4]);
      && 1 <= n <= |x| - 4 && x[4] < 0x80 && 1 <= x[4] % 0x20 <= 12
      && LooksLikeAvcc(x[4 + n..], checked + 1)
  }

  /** A buffer looks like a byte stream exactly if a start code begins at one of its first 33 bytes. */
  lemma LooksLikeAnnexBIff(x: seq<byte>)
    ensures LooksLikeAnnexB(x) <==> |x| >= 4 && exists i :: 0 <= i <= 32 && i < |x| && IsMark(x, i)
  {
    hide IsMark;
    if |x| >= 4 {
      if i: nat :| i <= 32 && i < |x| && IsMark(x, i) {
        assert FirstMark(x, 0) <= i;
      }
    }
  }

  /** A unit with a header of a usual kind. */
  predicate Plausible(u: seq<byte>) {
    u != [] && u[0] < 0x80 && 1 <= u[0] % 0x20 <= 12 && |u| < 0x1_0000_0000
  }

  predicate AreLeft(us: seq<seq<byte>>, checked: nat) {
    0 < checked + |us| <= 3 && forall u | u in us :: Plausible(u)
  }

  /** Exactly the lists of one to three plausible units look so. */
  lemma {:induction false} LooksLikeAvccIff(x: seq<byte>)
    ensures LooksLikeAvcc(x, 0) <==>
      exists us :: x == Avcc(us) && 1 <= |us| <= 3 && forall u | u in us :: Plausible(u)
  {
    LooksLikeLeft(x, 0);
    if us :| x == Avcc(us) && AreLeft(us, 0) {
      assert 1 <= |us| <= 3;
    }
    if us :| x == Avcc(us) && 1 <= |us| <= 3 && forall u | u in us :: Plausible(u) {
      assert AreLeft(us, 0);
    }
  }

  lemma {:induction false} LooksLikeLeft(x: seq<byte>, checked: nat)
    requires checked <= 3
    ensures LooksLikeAvcc(x, checked) <==> exists us :: x == Avcc(us) && AreLeft(us, checked)
    decreases 3 - checked
  {
    hide LooksLikeAvcc, Avcc, AreLeft, Be32Value;
    LooksStep(x, checked);
    NoneLeft(checked);
    if LooksLikeAvcc(x, checked) && |x| >= 4 && checked < 3 {
      var n := Be32Value(x[..4]);
      LooksLikeLeft(x[4 + n..], checked + 1);
      var us :| x[4 + n..] == Avcc(us) && AreLeft(us, checked + 1);
      FirstLeft(x, n, us, checked);
    }
    if us :| x == Avcc(us) && AreLeft(us, checked) {
      if us != [] {
        LeftFirst(us, checked);
        LooksLikeLeft(Avcc(us[1..]), checked + 1);
      }
    }
  }

  lemma LooksStep(x: seq<byte>, checked: nat)
    ensures LooksLikeAvcc(x, checked) <==>
      if |x| < 4 || checked >= 3 then checked > 0 && x == [] else
        var n := Be32Value(x[..4]);
        && 1 <= n <= |x| - 4 && x[4] < 0x80 && 1 <= x[4] % 0x20 <= 12
        && LooksLikeAvcc(x[4 + n..], checked + 1)
  {
    hide Be32Value;
  }

  lemma NoneLeft(checked: nat)
    requires checked <= 3
    ensures Avcc([]) == [] && (AreLeft([], checked) <==> checked > 0)
  {
  }

  lemma FirstLeft(x: seq<byte>, n: nat, us: seq<seq<byte>>, checked: nat)
    requires |x| >= 4 && n == Be32Value(x[..4]) && 1 <= n <= |x| - 4 && x[4] < 0x80 && 1 <= x[4] % 0x20 <= 12
    requires x[4 + n..] == Avcc(us) && AreLeft(us, checked + 1)
    ensures var all := [x[4..4 + n]] + us; x == Avcc(all) && AreLeft(all, checked)
  {
    hide Be32, Be32Value;
    var u := x[4..4 + n];
    Be32WritesBack(x[..4]);
    assert ([u] + us)[1..] == us;
    assert x == x[..4] + u + x[4 + n..];
    assert Plausible(u);
  }

  lemma LeftFirst(us: seq<seq<byte>>, checked: nat)
    requires us != [] && AreLeft(us, checked)
    ensures AreLeft(us[1..], checked + 1) && checked < 3
    ensures var (x, n) := (Avcc(us), |us[0]|);
      && |x| >= 4 && Be32Value(x[..4]) == n && 1 <= n <= |x| - 4 && x[4] < 0x80 && 1 <= x[4] % 0x20 <= 12
      && x[4 + n..] == Avcc(us[1..])
  {
    hide Be32, Be32Value;
    var (x, u) := (Avcc(us), us[0]);
    assert Plausible(u);
    assert x[..4] == Be32(|u|) && x[4] == u[0];
    Be32ReadsBack(|u|);
  }

  predicate AvccBuffer(x: seq<byte>) { |x| >= 6 && LooksLikeAvcc(x, 0) }

  /** Slices that `push` takes for parts of a continuous byte stream. */
  predicate PartOfStream(x: seq<byte>) {
    x != [] && !AvccBuffer(x) && !LooksLikeAnnexB(x)
  }

  /** The units of a slice that is not part of a stream: those of the whole buffer. */
  function BufferUnits(x: seq<byte>): seq<seq<byte>> {
    if x == [] then [] else if AvccBuffer(x) then AvccUnits(x) else NalUnits(x)
  }

  /** `push`: the units it goes on with, and the new carry. */
  function Push(carry: seq<byte>, x: seq<byte>): Split {
    if x == [] then Split([], carry)
    else if AvccBuffer(x) then Split(AvccUnits(x), carry)
    else if LooksLikeAnnexB(x) then Split(NalUnits(x), carry)
    else if HasStartCode(x) || carry != [] then Extract(carry + x)
    else Split([], carry)
  }

  function PushAll(carry: seq<byte>, slices: seq<seq<byte>>): Split
    decreases |slices|
  {
    if slices == [] then Split([], carry) else
      var first := Push(carry, slices[0]);
      var more := PushAll(first.carry, slices[1..]);
      Split(first.units + more.units, more.carry)
  }

  class StreamDecoder {
    var carry: seq<byte>
    /** The units handed to the decoder. */
    var decoded: seq<seq<byte>>

    constructor ()
      ensures carry == [] && decoded == []
    {
      carry, decoded := [], [];
    }

    method PushSlice(encoded: seq<byte>)
      modifies this
      ensures decoded == old(decoded) + Push(old(carry), encoded).units && carry == Push(old(carry), encoded).carry
    {
      hide Extract, NalUnits, AvccUnits, HasStartCode;
      if |encoded| == 0 { return; }
      var units: seq<seq<byte>>;
      if AvccBuffer(encoded) {
        units := AvccToNalUnits(encoded);
      } else if LooksLikeAnnexB(encoded) {
        units := AnnexBToNalUnits(encoded);
      } else if HasStartCode(encoded) || |carry| > 0 {
        var rest: seq<byte>;
        units, rest := ExtractAnnexBNals(carry + encoded);
        carry := rest;
      } else {
        return;
      }
      decoded := decoded + units;
    }
  }

  /** The slices from the first with a start code on. */
  function FromFirstCode(slices: seq<seq<byte>>): seq<seq<byte>> {
    if slices == [] || HasStartCode(slices[0]) then slices else FromFirstCode(slices[1..])
  }

  lemma {:induction false} CarryIsKept(b: seq<byte>)
    requires b != []
    ensures Extract(b).carry != []
  {
    var j := FirstMark(b, 0);
    if j < |b| {
      SplitInTwo(b, [], j);
    }
  }

  lemma {:induction false} PushesWithCarry(carry: seq<byte>, slices: seq<seq<byte>>)
    requires carry != [] && forall x | x in slices :: PartOfStream(x)
    ensures PushAll(carry, slices) == Feed(carry, slices)
    decreases |slices|
  {
    hide Extract, PartOfStream;
    if slices != [] {
      assert PartOfStream(slices[0]);
      StreamPush(carry, slices[0]);
      CarryIsKept(carry + slices[0]);
      PushesWithCarry(Extract(carry + slices[0]).carry, slices[1..]);
    }
  }

  lemma StreamPush(carry: seq<byte>, x: seq<byte>)
    requires PartOfStream(x)
    ensures Push(carry, x) == if HasStartCode(x) || carry != [] then Extract(carry + x) else Split([], carry)
  {
  }

  /**
   * Slices that are all taken for parts of a stream: the receiver drops those before the first with a start code of its
   * own, and splits the rest as one stream. A slice with a start code near its beginning is none of these.
   */
  lemma {:induction false} PushedStream(slices: seq<seq<byte>>)
    requires forall x | x in slices :: PartOfStream(x)
    ensures PushAll([], slices) == Extract(Joined(FromFirstCode(slices)))
    decreases |slices|
  {
    hide Extract, PartOfStream, HasStartCode, Push;
    if slices == [] {
      NothingIsSettled();
    } else {
      var x := slices[0];
      assert PartOfStream(x);
      StreamPush([], x);
      if HasStartCode(x) {
        assert [] + x == x && x != [] by { CodeNeedsBytes(x); }
        CarryIsKept(x);
        PushesWithCarry(Extract(x).carry, slices[1..]);
        CarryIsSettled(x);
        SlicingDoesNotMatter(Extract(x).carry, slices[1..]);
        ExtractInTwo(x, Joined(slices[1..]));
      } else {
        PushedStream(slices[1..]);
      }
    }
  }

  lemma CodeNeedsBytes(x: seq<byte>)
    requires HasStartCode(x)
    ensures x != []
  {
  }

  // ---- Slices of both kinds ---------------------------------------------------------------------------------------

  function Streamed(slices: seq<seq<byte>>): seq<seq<byte>> {
    if slices == [] then [] else (if PartOfStream(slices[0]) then [slices[0]] else []) + Streamed(slices[1..])
  }

  /** The stream the receiver sees: the slices taken for parts of one, from the first with a start code on. */
  function Seen(slices: seq<seq<byte>>): seq<byte> { Joined(FromFirstCode(Streamed(slices))) }

  lemma {:induction false} StreamedMore(slices: seq<seq<byte>>, x: seq<byte>)
    ensures Streamed(slices + [x]) == Streamed(slices) + if PartOfStream(x) then [x] else []
    ensures forall y | y in Streamed(slices) :: PartOfStream(y)
  {
    hide PartOfStream;
    var now := if PartOfStream(x) then [x] else [];
    if slices == [] {
      assert (slices + [x])[1..] == [] && slices + [x] == [x];
      assert now + [] == [] + now;
    } else {
      StreamedMore(slices[1..], x);
      assert (slices + [x])[1..] == slices[1..] + [x];
      var first := if PartOfStream(slices[0]) then [slices[0]] else [];
      assert first + (Streamed(slices[1..]) + now) == first + Streamed(slices[1..]) + now;
    }
  }

  lemma {:induction false} PushMore(carry: seq<byte>, slices: seq<seq<byte>>, x: seq<byte>)
    ensures var (before, now) := (PushAll(carry, slices), Push(PushAll(carry, slices).carry, x));
      PushAll(carry, slices + [x]) == Split(before.units + now.units, now.carry)
    decreases |slices|
  {
    hide Push;
    if slices == [] {
      assert (slices + [x])[1..] == [] && slices + [x] == [x];
      assert Push(carry, x).units + [] == [] + Push(carry, x).units;
    } else {
      var first := Push(carry, slices[0]);
      PushMore(first.carry, slices[1..], x);
      assert (slices + [x])[1..] == slices[1..] + [x];
      var (more, now) := (PushAll(first.carry, slices[1..]), Push(PushAll(carry, slices).carry, x));
      assert first.units + (more.units + now.units) == first.units + more.units + now.units;
    }
  }

  lemma BufferPush(carry: seq<byte>, x: seq<byte>)
    requires !PartOfStream(x)
    ensures Push(carry, x) == Split(BufferUnits(x), carry)
  {
  }

  lemma {:induction false} BuffersKeepCarry(carry: seq<byte>, slices: seq<seq<byte>>)
    ensures PushAll(carry, slices).carry == PushAll(carry, Streamed(slices)).carry
    decreases |slices|
  {
    hide Push, PartOfStream, BufferUnits;
    if slices != [] {
      BuffersKeepCarry(Push(carry, slices[0]).carry, slices[1..]);
      var rest := Streamed(slices[1..]);
      if PartOfStream(slices[0]) {
        assert ([slices[0]] + rest)[1..] == rest;
      } else {
        BufferPush(carry, slices[0]);
        assert [] + rest == rest;
      }
    }
  }

  /**
   * Any slices, in any mix: a whole buffer yields its own units and touches nothing else; any other slice yields what
   * it adds to the units of the stream seen, whatever buffers came in between.
   */
  lemma {:induction false} PushedSlice(slices: seq<seq<byte>>, x: seq<byte>)
    ensures PushAll([], slices).carry == Extract(Seen(slices)).carry
    ensures var out := Push(Extract(Seen(slices)).carry, x).units;
      && PushAll([], slices + [x]).units == PushAll([], slices).units + out
      && if PartOfStream(x) then Extract(Seen(slices + [x])).units == Extract(Seen(slices)).units + out
         else out == BufferUnits(x) && Seen(slices + [x]) == Seen(slices)
  {
    hide Push, PartOfStream, Extract, FromFirstCode, BufferUnits;
    var s := Streamed(slices);
    StreamedMore(slices, x);
    BuffersKeepCarry([], slices);
    PushedStream(s);
    PushMore([], slices, x);
    if PartOfStream(x) {
      PushedStream(s + [x]);
      PushMore([], s, x);
    } else {
      BufferPush(Extract(Seen(slices)).carry, x);
      assert s + [] == s;
    }
  }

  // ---- Streams that arrive intact ---------------------------------------------------------------------------------

  function Dropped(slices: seq<seq<byte>>): seq<byte> {
    if slices == [] || HasStartCode(slices[0]) then [] else slices[0] + Dropped(slices[1..])
  }

  /** The bytes through the first start code that lies within one slice. */
  function Leading(slices: seq<seq<byte>>): seq<byte> {
    if slices == [] then [] else
      var x := slices[0];
      if HasStartCode(x) then
        MarkFits(x, FirstMark(x, 0));
        x[..FirstMark(x, 0) + CodeLength(x, FirstMark(x, 0))]
      else x + Leading(slices[1..])
  }

  lemma {:induction false} LeadingJoins(slices: seq<seq<byte>>)
    ensures var (d, r) := (Dropped(slices), Joined(FromFirstCode(slices)));
      && Joined(slices) == d + r
      && if FromFirstCode(slices) == [] then Leading(slices) == d else
         var k := FirstMark(r, 0);
         k < |r| && k + CodeLength(r, k) <= |r| && Leading(slices) == d + r[..k + CodeLength(r, k)]
  {
    hide HasStartCode, IsMark, CodeLength;
    if slices != [] {
      var x := slices[0];
      if HasStartCode(x) {
        FirstCodeIsThere(x);
        FirstCodeStays(x, Joined(slices[1..]));
        assert [] + Joined(slices) == Joined(slices);
      } else {
        LeadingJoins(slices[1..]);
        assert x + (Dropped(slices[1..]) + Joined(FromFirstCode(slices[1..]))) == Joined(slices);
      }
    }
  }

  lemma FirstCodeStays(x: seq<byte>, rest: seq<byte>)
    requires FirstMark(x, 0) < |x|
    ensures var (k, r) := (FirstMark(x, 0), x + rest);
      && FirstMark(r, 0) == k && CodeLength(r, k) == CodeLength(x, k) && k + CodeLength(x, k) <= |x|
      && r[..k + CodeLength(x, k)] == x[..k + CodeLength(x, k)]
  {
    hide IsMark, CodeLength;
    FirstStays(x, rest, 0);
    MarksStay(x, rest, FirstMark(x, 0));
    MarkFits(x, FirstMark(x, 0));
  }

  lemma FirstCodeIsThere(x: seq<byte>)
    requires HasStartCode(x)
    ensures FirstMark(x, 0) < |x|
  {
  }

  /** The carry of bytes that end in a start code: that start code, which a zero before it may make longer. */
  lemma {:induction false} EndsInCode(b: seq<byte>, j: nat, i: nat)
    requires j <= i < |b| && IsMark(b, j) && IsMark(b, i) && i + CodeLength(b, i) == |b|
    ensures SplitFrom(b, j).carry == b[i..] || (i > 0 && Is4(b, i - 1) && SplitFrom(b, j).carry == b[i - 1..])
    decreases |b| - j
  {
    var s := j + CodeLength(b, j);
    var k := FirstMark(b, s);
    SplitStep(b, j, s, k);
    if s <= i {
      assert k <= i;
      EndsInCode(b, k, i);
    } else {
      CodesOverlap(b, j, i);
    }
  }

  lemma CodesOverlap(b: seq<byte>, j: nat, i: nat)
    requires j <= i < j + CodeLength(b, j) && IsMark(b, j) && IsMark(b, i) && i + CodeLength(b, i) == |b|
    ensures j + CodeLength(b, j) == |b| && FirstMark(b, |b|) == |b|
    ensures i == j || (i == j + 1 && Is4(b, j))
  {
  }

  /** What follows a start code is split alike, whatever precedes it. */
  lemma {:induction false} CodeThenRest(p: seq<byte>, y: seq<byte>)
    requires IsMark(y, 0) && CodeLength(y, 0) <= |y|
    ensures Extract(p + y).units == Extract(p + y[..CodeLength(y, 0)]).units + SplitFrom(y, 0).units
  {
    hide SplitFrom, IsMark, CodeLength, Extract;
    var n := CodeLength(y, 0);
    var a, rest := p + y[..n], y[n..];
    ExtractInTwo(a, rest);
    CodeIsCarried(p, y);
    assert p + y == a + rest;
    if Extract(a).carry == y[..n] {
      assert y[..n] + rest == y;
      FirstIsLeast(y, 0, 0);
      ExtractAtMark(y, 0);
    } else {
      assert [0] + y[..n] + rest == [0] + y;
      ZeroBeforeCode(y);
    }
  }

  lemma CodeIsCarried(p: seq<byte>, y: seq<byte>)
    requires IsMark(y, 0) && CodeLength(y, 0) <= |y|
    ensures var c := y[..CodeLength(y, 0)];
      Extract(p + c).carry == c || Extract(p + c).carry == [0] + c
  {
    hide SplitFrom, IsMark, CodeLength, Extract;
    CodeAlone(y);
    var c := y[..CodeLength(y, 0)];
    var a := p + c;
    Shifted(p, c, 0);
    MarkNeedsBytes(c);
    var j := FirstMark(a, 0);
    ExtractAtMark(a, j);
    EndsInCode(a, j, |p|);
    assert a[|p|..] == c;
    if SplitFrom(a, j).carry != c {
      ZeroFirst(a, |p| - 1);
      assert a[|p| - 1..] == [a[|p| - 1]] + c;
    }
  }

  lemma ZeroFirst(b: seq<byte>, i: nat)
    requires Is4(b, i)
    ensures b[i] == 0
  {
  }

  lemma CodeAlone(y: seq<byte>)
    requires IsMark(y, 0) && CodeLength(y, 0) <= |y|
    ensures var c := y[..CodeLength(y, 0)]; IsMark(c, 0) && CodeLength(c, 0) == |c|
  {
  }

  lemma {:induction false} ZeroBeforeCode(y: seq<byte>)
    requires IsMark(y, 0) && CodeLength(y, 0) <= |y|
    ensures Extract([0] + y).units == SplitFrom(y, 0).units
  {
    hide SplitFrom, Extract, CodeLength;
    var z := [0 as byte];
    var b := z + y;
    Shifted(z, y, 0);
    SplitShifted(z, y, 0);
    if Is4(y, 0) {
      FirstIsLeast(b, 0, 1);
      ExtractAtMark(b, 1);
    } else {
      FirstIsLeast(b, 0, 0);
      ExtractAtMark(b, 0);
      var k := FirstMark(b, 4);
      ShortAndLong(y);
      SplitStep(b, 0, 4, k);
      SplitStep(b, 1, 4, k);
    }
  }

  /** A zero before a short start code makes it a long one. */
  lemma ShortAndLong(y: seq<byte>)
    requires Is3(y, 0) && !Is4(y, 0)
    ensures var b := [0] + y; CodeLength(b, 0) == 4 && CodeLength(b, 1) == 3 && |b| >= 4
  {
  }

  /**
   * Slices of a continuous stream, however it is cut: the units that come out are those of the joined stream if and
   * only if no unit ends before the first start code that lies within one slice.
   */
  lemma {:induction false} IntactStream(slices: seq<seq<byte>>)
    requires forall x | x in slices :: PartOfStream(x)
    ensures PushAll([], slices).units == Extract(Joined(slices)).units <==> Extract(Leading(slices)).units == []
  {
    hide PartOfStream, Extract, SplitFrom, IsMark, CodeLength, PushAll, HasStartCode;
    PushedStream(slices);
    LeadingJoins(slices);
    var (d, r) := (Dropped(slices), Joined(FromFirstCode(slices)));
    if FromFirstCode(slices) == [] {
      assert d + [] == d;
      NothingIsSettled();
      assert Extract([]).units == [] by { ExtractNothing(); }
    } else {
      SplitAtCode(d, r);
    }
  }

  lemma ExtractNothing()
    ensures Extract([]).units == []
  {
  }

  lemma {:induction false} SplitAtCode(d: seq<byte>, r: seq<byte>)
    requires FirstMark(r, 0) < |r|
    ensures var k := FirstMark(r, 0);
      && k + CodeLength(r, k) <= |r|
      && Extract(d + r).units == Extract(d + r[..k + CodeLength(r, k)]).units + Extract(r).units
  {
    hide Extract, SplitFrom, IsMark, CodeLength;
    var k := FirstMark(r, 0);
    var (q, y) := (r[..k], r[k..]);
    Pieces(d, r, k, k);
    Shifted(q, y, 0);
    MarkFits(y, 0);
    CodeThenRest(d + q, y);
    Pieces(d, r, k, k + CodeLength(y, 0));
    ExtractAtMark(r, k);
    SplitShifted(q, y, 0);
  }

  lemma Pieces(d: seq<byte>, r: seq<byte>, k: nat, n: nat)
    requires k <= n <= |r|
    ensures r == r[..k] + r[k..] && d + r == (d + r[..k]) + r[k..]
    ensures (d + r[..k]) + r[k..][..n - k] == d + r[..n]
  {
  }

  lemma ExtractAtMark(r: seq<byte>, k: nat)
    requires k == FirstMark(r, 0) < |r|
    ensures IsMark(r, k) && Extract(r) == SplitFrom(r, k)
  {
  }

  const CUT0: seq<byte> := [0, 0]
  const CUT1: seq<byte> := [1, 0x65, 0]
  const CUT2: seq<byte> := [0, 1, 0x41, 9]

  lemma CutSlicesArePlain()
    ensures PartOfStream(CUT0) && PartOfStream(CUT1) && PartOfStream(CUT2)
    ensures !HasStartCode(CUT0) && !HasStartCode(CUT1) && !HasStartCode(CUT2)
  {
    FirstIsLeast(CUT2, 0, 4);
  }

  lemma CutStreamHasUnit()
    ensures Extract(CUT0 + CUT1 + CUT2).units == [[0x65]]
  {
    var b := CUT0 + CUT1 + CUT2;
    assert b == [0, 0, 1, 0x65, 0, 0, 1, 0x41, 9];
    FirstIsLeast(b, 0, 0);
    FirstIsLeast(b, 3, 4);
    FirstIsLeast(b, 7, 9);
    SplitStep(b, 0, 3, 4);
    SplitStep(b, 4, 7, 9);
    assert b[3..4] == [0x65] && SplitFrom(b, 4).units == [];
    assert [[0x65]] + [] == [[0x65 as byte]];
  }

  lemma JoinedThree(x: seq<byte>, y: seq<byte>, z: seq<byte>)
    ensures Joined([x, y, z]) == x + y + z
  {
    assert [x, y, z][1..] == [y, z] && [y, z][1..] == [z] && Joined([z]) == z;
  }

  lemma NoneHasCode(x: seq<byte>, y: seq<byte>, z: seq<byte>)
    requires !HasStartCode(x) && !HasStartCode(y) && !HasStartCode(z)
    ensures FromFirstCode([x, y, z]) == []
  {
    hide HasStartCode;
    assert [x, y, z][1..] == [y, z] && [y, z][1..] == [z] && [z][1..] == [];
    assert FromFirstCode([z]) == FromFirstCode([]) == [];
    assert FromFirstCode([y, z]) == FromFirstCode([z]);
  }

  /** A start code cut between slices is lost: the whole stream holds the unit 65, the slices yield nothing. */
  lemma CutStartCodeIsLost()
    ensures var slices := [CUT0, CUT1, CUT2];
      && (forall x | x in slices :: PartOfStream(x))
      && PushAll([], slices) == Split([], [])
      && Extract(Joined(slices)).units == [[0x65]]
  {
    hide PartOfStream, HasStartCode, Extract;
    CutSlicesArePlain();
    CutStreamHasUnit();
    JoinedThree(CUT0, CUT1, CUT2);
    NoneHasCode(CUT0, CUT1, CUT2);
    PushedStream([CUT0, CUT1, CUT2]);
    NothingIsSettled();
  }
}
