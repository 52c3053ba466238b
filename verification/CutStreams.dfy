/** A byte stream of good units that reaches the receiver in slices: which cuts lose nothing. */
module CutStreams {
  import opened Protocol
  import opened Cum
  import opened Framing
  import opened AnnexB
  import opened StreamReceiver

  // ---- What comes out went in -------------------------------------------------------------------------------------

  /** The number of bytes other than zero. */
  function NonZeros(s: seq<byte>): nat {
    if s == [] then 0 else (if s[0] == 0 then 0 else 1) + NonZeros(s[1..])
  }

  /** Every unit counts one more, for the byte 1 of its start code. */
  function Weight(us: seq<seq<byte>>): nat {
    if us == [] then 0 else NonZeros(us[0]) + 1 + Weight(us[1..])
  }

  lemma {:induction false} NonZerosJoin(a: seq<byte>, b: seq<byte>)
    ensures NonZeros(a + b) == NonZeros(a) + NonZeros(b)
  {
    if a == [] {
      assert [] + b == b;
    } else {
      NonZerosJoin(a[1..], b);
      assert (a + b)[1..] == a[1..] + b;
    }
  }

  lemma {:induction false} NonZerosOfPart(s: seq<byte>, i: nat, k: nat)
    requires i <= k <= |s|
    ensures NonZeros(s[i..]) == NonZeros(s[i..k]) + NonZeros(s[k..])
  {
    assert s[i..] == s[i..k] + s[k..];
    NonZerosJoin(s[i..k], s[k..]);
  }

  lemma {:induction false} WeightJoins(a: seq<seq<byte>>, b: seq<seq<byte>>)
    ensures Weight(a + b) == Weight(a) + Weight(b)
  {
    if a == [] {
      assert [] + b == b;
    } else {
      WeightJoins(a[1..], b);
      assert (a + b)[1..] == a[1..] + b;
    }
  }

  lemma WeightOfOne(u: seq<byte>)
    ensures Weight([u]) == NonZeros(u) + 1 && Weight([]) == 0
  {
  }

  lemma CodeWeighsOne(b: seq<byte>, j: nat)
    requires j < |b| && IsMark(b, j)
    ensures j + CodeLength(b, j) <= |b| && NonZeros(b[j..j + CodeLength(b, j)]) == 1
  {
    var c := b[j..j + CodeLength(b, j)];
    if Is4(b, j) {
      assert c == [0, 0, 0, 1] && c[1..] == [0, 0, 1] && c[1..][1..] == [0, 1] && c[1..][1..][1..] == [1];
      assert NonZeros([1]) == 1 && NonZeros([0, 1]) == 1 && NonZeros([0, 0, 1]) == 1;
    } else {
      assert c == [0, 0, 1] && c[1..] == [0, 1] && c[1..][1..] == [1];
      assert NonZeros([1]) == 1 && NonZeros([0, 1]) == 1;
    }
  }

  /** A start code and the bytes up to the next one. */
  lemma {:induction false} OneItem(b: seq<byte>, j: nat, k: nat)
    requires j < |b| && IsMark(b, j) && j + CodeLength(b, j) <= k <= |b|
    ensures NonZeros(b[j..]) == 1 + NonZeros(b[j + CodeLength(b, j)..k]) + NonZeros(b[k..])
  {
    hide IsMark, CodeLength, NonZeros;
    var s := j + CodeLength(b, j);
    CodeWeighsOne(b, j);
    NonZerosOfPart(b, j, s);
    NonZerosOfPart(b, s, k);
  }

  lemma {:induction false} SplitWeighs(b: seq<byte>, j: nat)
    requires j < |b| && IsMark(b, j)
    ensures Weight(SplitFrom(b, j).units) + NonZeros(SplitFrom(b, j).carry) <= NonZeros(b[j..])
    ensures SplitFrom(b, j).carry != [] && IsMark(SplitFrom(b, j).carry, 0)
    decreases |b| - j
  {
    hide IsMark, CodeLength, SplitFrom, NonZeros, Weight;
    MarkFits(b, j);
    var s := j + CodeLength(b, j);
    var k := FirstMark(b, s);
    SplitStep(b, j, s, k);
    WeightOfOne(b[s..k]);
    if k < |b| {
      OneItem(b, j, k);
      SplitWeighs(b, k);
      WeightJoins(if k > s then [b[s..k]] else [], SplitFrom(b, k).units);
    } else {
      assert b == b[..j] + b[j..];
      Shifted(b[..j], b[j..], 0);
    }
  }

  lemma {:induction false} ExtractWeighs(b: seq<byte>)
    ensures Weight(Extract(b).units) + NonZeros(Extract(b).carry) <= NonZeros(b)
    ensures FirstMark(b, 0) < |b| ==> Extract(b).carry != [] && IsMark(Extract(b).carry, 0)
  {
    hide IsMark, SplitFrom, NonZeros, Weight;
    WeightOfOne(b);
    var j := FirstMark(b, 0);
    if j < |b| {
      SplitWeighs(b, j);
      NonZerosOfPart(b, 0, j);
      assert b[0..] == b;
    }
  }

  lemma {:induction false} TrimmingKeepsWeight(u: seq<byte>)
    ensures NonZeros(Trimmed(u)) == NonZeros(u)
    decreases |u|
  {
    if u != [] && u[|u| - 1] == 0 {
      var front := u[..|u| - 1];
      TrimmingKeepsWeight(front);
      assert u == front + [0];
      NonZerosJoin(front, [0]);
    }
  }

  lemma {:induction false} TrimmedMore(u: seq<byte>, us: seq<seq<byte>>)
    ensures TrimmedUnits([u] + us) == TrimmedUnits([u]) + TrimmedUnits(us) && TrimmedUnits([] + us) == TrimmedUnits(us)
  {
    hide Trimmed;
    TrimmedOne(u);
    assert ([u] + us)[1..] == us && [] + us == us;
  }

  lemma TrimmedOne(u: seq<byte>)
    ensures TrimmedUnits([u]) == (if Trimmed(u) == [] then [] else [Trimmed(u)]) && TrimmedUnits([]) == []
  {
    hide Trimmed;
  }

  lemma {:induction false} UnitsWeigh(b: seq<byte>, j: nat)
    requires j < |b| && IsMark(b, j)
    ensures Weight(TrimmedUnits(UnitsFrom(b, j))) <= NonZeros(b[j..])
    decreases |b| - j
  {
    hide IsMark, CodeLength, UnitsFrom, NonZeros, Weight, Trimmed, TrimmedUnits;
    MarkFits(b, j);
    var s := j + CodeLength(b, j);
    var k := FirstMark(b, s);
    UnitsStep(b, j, s, k);
    OneItem(b, j, k);
    var u := b[s..k];
    WeightOfOne(Trimmed(u));
    TrimmingKeepsWeight(u);
    TrimmedOne(u);
    var now := if k > s then [u] else [];
    var more := if k == |b| then [] else UnitsFrom(b, k);
    TrimmedMore(u, more);
    WeightJoins(TrimmedUnits(now), TrimmedUnits(more));
    if k < |b| {
      UnitsWeigh(b, k);
    }
  }

  /** The bytes of a slice before its first start code. */
  function Lead(x: seq<byte>): seq<byte> { x[..FirstMark(x, 0)] }

  lemma {:induction false} BufferWeighs(x: seq<byte>)
    ensures NonZeros(Lead(x)) + Weight(NalUnits(x)) <= NonZeros(x)
  {
    hide IsMark, UnitsFrom, NonZeros, Weight, TrimmedUnits;
    var j := FirstMark(x, 0);
    NonZerosOfPart(x, 0, j);
    assert x[0..] == x && x[0..j] == x[..j];
    WeightOfOne(x);
    if j < |x| {
      UnitsWeigh(x, j);
    }
  }

  lemma {:induction false} ZerosWeighNothing(s: seq<byte>)
    requires NonZeros(s) == 0
    ensures forall i | 0 <= i < |s| :: s[i] == 0
  {
    if s != [] {
      ZerosWeighNothing(s[1..]);
      assert s == [s[0]] + s[1..];
    }
  }

  /** A length of at least 1 has a byte other than zero. */
  lemma LengthWeighs(l: seq<byte>)
    requires |l| == 4 && Be32Value(l) >= 1
    ensures NonZeros(l) >= 1
  {
    hide NonZeros;
    if NonZeros(l) == 0 {
      ZerosWeighNothing(l);
    }
  }

  lemma {:induction false} AvccWeighs(b: seq<byte>)
    ensures Weight(AvccUnits(b)) <= NonZeros(b)
    decreases |b|
  {
    hide NonZeros, Weight, Be32Value;
    WeightOfOne(b);
    if |b| >= 4 {
      var n := Signed(Be32Value(b[..4]));
      if 1 <= n && 4 + n <= |b| {
        LengthWeighs(b[..4]);
        AvccWeighs(b[4 + n..]);
        NonZerosOfPart(b, 0, 4);
        NonZerosOfPart(b, 4, 4 + n);
        assert b[0..] == b && b[0..4] == b[..4];
        WeightOfOne(b[4..4 + n]);
        WeightJoins([b[4..4 + n]], AvccUnits(b[4 + n..]));
      }
    }
  }

  /** A carry is empty or starts with a start code. */
  predicate Carried(carry: seq<byte>) { carry == [] || IsMark(carry, 0) }

  lemma {:induction false} CarriedMore(carry: seq<byte>, x: seq<byte>)
    requires Carried(carry) && carry != []
    ensures FirstMark(carry + x, 0) < |carry + x| && NonZeros(carry) > 0
  {
    hide NonZeros;
    MarksStay(carry, x, 0);
    FirstIsLeast(carry + x, 0, 0);
    CodeWeighsOne(carry, 0);
    OneItem(carry, 0, |carry|);
    assert carry[0..] == carry;
  }

  /** One slice yields and keeps no more than there was; a carry never goes away again. */
  lemma {:induction false} PushWeighs(carry: seq<byte>, x: seq<byte>)
    requires Carried(carry)
    ensures Carried(Push(carry, x).carry) && (carry != [] ==> Push(carry, x).carry != [])
    ensures Weight(Push(carry, x).units) + NonZeros(Push(carry, x).carry) <= NonZeros(carry) + NonZeros(x)
    ensures Push(carry, x).carry == [] && !AvccBuffer(x) ==>
      Weight(Push(carry, x).units) + NonZeros(Lead(x)) <= NonZeros(x)
  {
    hide AvccBuffer, IsMark, Extract, NonZeros, Weight, NalUnits, AvccUnits;
    WeightOfOne(x);
    BufferWeighs(x);
    AvccWeighs(x);
    ExtractWeighs(carry + x);
    NonZerosJoin(carry, x);
    if carry != [] {
      CarriedMore(carry, x);
    } else {
      assert [] + x == x;
    }
  }

  /** Any slices, after any others: what comes out and what is carried went in. */
  lemma {:induction false} PushedWeighs(carry: seq<byte>, slices: seq<seq<byte>>)
    requires Carried(carry)
    ensures var all := PushAll(carry, slices);
      && Carried(all.carry) && (carry != [] ==> all.carry != [])
      && Weight(all.units) + NonZeros(all.carry) <= NonZeros(carry) + NonZeros(Joined(slices))
    decreases |slices|
  {
    hide Push, NonZeros, Weight, Carried;
    if slices == [] {
      WeightOfOne([]);
    } else {
      var now := Push(carry, slices[0]);
      PushWeighs(carry, slices[0]);
      PushedWeighs(now.carry, slices[1..]);
      WeightJoins(now.units, PushAll(now.carry, slices[1..]).units);
      NonZerosJoin(slices[0], Joined(slices[1..]));
    }
  }

  // ---- Cuts that lose nothing -------------------------------------------------------------------------------------

  /** Only zeros precede the first start code of the slice, or its end. */
  predicate Aligned(x: seq<byte>) { NonZeros(Lead(x)) == 0 }

  /** If everything that went in comes out, every slice is aligned. */
  lemma {:induction false} CompleteIsAligned(slices: seq<seq<byte>>)
    requires forall x | x in slices :: !AvccBuffer(x)
    requires Weight(PushAll([], slices).units) == NonZeros(Joined(slices))
    ensures forall x | x in slices :: Aligned(x)
    decreases |slices|
  {
    hide AvccBuffer, Push, NonZeros, Weight, Lead;
    if slices != [] {
      var now := Push([], slices[0]);
      var rest := slices[1..];
      PushWeighs([], slices[0]);
      PushedWeighs(now.carry, rest);
      WeightJoins(now.units, PushAll(now.carry, rest).units);
      NonZerosJoin(slices[0], Joined(rest));
      assert NonZeros([]) == 0 by { NothingIsZero(); }
      if now.carry != [] {
        CarriedMore(PushAll(now.carry, rest).carry, []);
      }
      CompleteIsAligned(rest);
    }
  }

  lemma NothingIsZero()
    ensures NonZeros([]) == 0
  {
  }

  lemma {:induction false} AlignedJoins(x: seq<byte>, y: seq<byte>)
    requires Aligned(x) && Aligned(y)
    ensures Aligned(x + y)
  {
    hide NonZeros;
    var j := FirstMark(x, 0);
    if j < |x| {
      FirstStays(x, y, 0);
      assert (x + y)[..j] == x[..j];
    } else {
      var k := FirstMark(y, 0);
      FirstShifted(x, y, 0);
      FirstComesFirst(x + y, |x|);
      var i := FirstMark(x + y, 0);
      var all := x + y[..k];
      assert x[..|x|] == x;
      NonZerosJoin(x, y[..k]);
      assert (x + y)[..i] == all[..i] && all[..i] + all[i..] == all;
      NonZerosJoin(all[..i], all[i..]);
    }
  }

  lemma FirstComesFirst(b: seq<byte>, i: nat)
    requires i <= |b|
    ensures FirstMark(b, 0) <= FirstMark(b, i)
  {
    hide IsMark;
  }

  lemma {:induction false} AllAlignedJoin(slices: seq<seq<byte>>)
    requires forall x | x in slices :: Aligned(x)
    ensures Aligned(Joined(slices))
  {
    hide Aligned;
    if slices == [] {
      NothingIsAligned();
    } else {
      AllAlignedJoin(slices[1..]);
      AlignedJoins(slices[0], Joined(slices[1..]));
    }
  }

  lemma NothingIsAligned()
    ensures Aligned([])
  {
  }

  predicate GoodUnits(us: seq<seq<byte>>) { forall u | u in us :: GoodUnit(u) }

  /** Bytes that start within a start code after its first zero, or within a unit, are not aligned. */
  lemma {:induction false} InsideIsNotAligned(tail: seq<byte>, rest: seq<byte>)
    requires tail != [] && tail[|tail| - 1] != 0 && forall i: nat | i < |tail| :: !IsMark(tail + rest, i)
    ensures !Aligned(tail + rest)
  {
    var y := tail + rest;
    var j := FirstMark(y, 0);
    var last := |tail| - 1;
    assert j >= |tail|;
    var l := Lead(y);
    assert l == l[..last] + [tail[last]] + l[last + 1..];
    NonZerosJoin(l[..last] + [tail[last]], l[last + 1..]);
    NonZerosJoin(l[..last], [tail[last]]);
  }

  lemma MarkLater(s: seq<byte>, n: nat, i: nat)
    requires n <= |s|
    ensures IsMark(s[n..], i) == IsMark(s, n + i)
  {
    hide IsMark;
    Shifted(s[..n], s[n..], i);
    assert s[..n] + s[n..] == s;
  }

  lemma NoMarkInCode(long: bool, b: seq<byte>, i: nat)
    requires (if long then 2 else 1) <= i < |StartCode(long)|
    ensures !IsMark(StartCode(long) + b, i)
  {
  }

  /** The rest of a start code and its unit, once more than the first zero of a long start code is gone. */
  lemma {:induction false} NoMarkInside(long: bool, u: seq<byte>, rest: seq<byte>, n: nat, i: nat)
    requires GoodUnit(u) && (rest == [] || IsMark(rest, 0))
    requires 0 < n <= n + i < |StartCode(long) + u| && !(long && n == 1)
    ensures !IsMark((StartCode(long) + u)[n..] + rest, i)
  {
    hide IsMark, GoodUnit;
    var code, b := StartCode(long), u + rest;
    assert (code + u)[n..] + rest == (code + b)[n..];
    MarkLater(code + b, n, i);
    if n + i >= |code| {
      GoodUnitEndsAt(u, rest, n + i - |code|);
      Shifted(code, b, n + i - |code|);
    } else {
      NoMarkInCode(long, b, n + i);
    }
  }

  function Item(long: bool, u: seq<byte>): seq<byte> { StartCode(long) + u }

  lemma StreamUnfolds(us: seq<seq<byte>>, long: seq<bool>)
    requires us != [] && |us| == |long| && GoodUnits(us)
    ensures ByteStream(us, long) == Item(long[0], us[0]) + ByteStream(us[1..], long[1..]) && GoodUnits(us[1..])
    ensures ByteStream(us[1..], long[1..]) == [] || IsMark(ByteStream(us[1..], long[1..]), 0)
    ensures |us[0]| > 0 && us[0][|us[0]| - 1] != 0
  {
    assert GoodUnit(us[0]);
    hide GoodUnit, IsMark;
    if |us| > 1 {
      UnitsOfStream(us[1..], long[1..]);
    }
  }

  /** A cut inside an item, other than after the first zero of a long start code, shows in what follows. */
  lemma {:induction false} CutInside(long: bool, u: seq<byte>, rest: seq<byte>, n: nat)
    requires GoodUnit(u) && (rest == [] || IsMark(rest, 0))
    requires 0 < n < |Item(long, u)| && !(long && n == 1)
    ensures !Aligned(Item(long, u)[n..] + rest)
  {
    var tail := Item(long, u)[n..];
    forall i: nat | i < |tail| ensures !IsMark(tail + rest, i) {
      NoMarkInside(long, u, rest, n, i);
    }
    hide Aligned, IsMark;
    assert tail[|tail| - 1] == u[|u| - 1];
    InsideIsNotAligned(tail, rest);
  }

  /** A slice of whole items, possibly with a zero that belongs to the next start code, yields their units. */
  lemma {:induction false} OneMoreUnit(long: bool, u: seq<byte>, more: seq<byte>)
    requires GoodUnit(u) && (more == [] || more == [0] || IsMark(more, 0))
    ensures NalUnits(Item(long, u) + more) == [u] + NalUnits(more)
    ensures |Item(long, u) + more| >= 4 && IsMark(Item(long, u) + more, 0)
  {
    var x := Item(long, u) + more;
    StartCodeIsMark(long, u + more);
    assert x == StartCode(long) + (u + more);
    FirstIsLeast(x, 0, 0);
    NotEmpty(u);
    if more == [0] {
      UnitThenZero(long, u);
    } else {
      UnitsOfOne(long, u, more);
      var later := if more == [] then [] else UnitsFrom(more, 0);
      TrimmedMore(u, later);
      TrimmedOne(u);
      if more != [] {
        FirstIsLeast(more, 0, 0);
      }
    }
  }

  lemma {:induction false} UnitThenZero(long: bool, u: seq<byte>)
    requires GoodUnit(u)
    ensures IsMark(Item(long, u) + [0], 0) && NalUnits(Item(long, u) + [0]) == [u] && NalUnits([0]) == []
  {
    var (code, v) := (StartCode(long), u + [0]);
    var x := Item(long, u) + [0];
    assert x == code + v;
    StartCodeIsMark(long, v);
    forall i: nat | i < |v| ensures !IsMark(v, i) {
      if i + 2 < |u| {
        assert !(u[i] == 0 && u[i + 1] == 0 && u[i + 2] <= 1);
      }
    }
    FirstIsLeast(v, 0, |v|);
    FirstShifted(code, v, 0);
    UnitsStep(x, 0, |code|, |x|);
    FirstIsLeast(x, 0, 0);
    assert x[|code|..|x|] == v;
    TrimmedOne(v);
    assert v[..|u|] == u;
    NotEmpty(u);
    FirstIsLeast([0], 0, 1);
  }

  /** What a slice of a good stream yields when the rest is aligned, and the good stream that the rest is. */
  lemma {:induction false} CutAligned(us: seq<seq<byte>>, long: seq<bool>, x: seq<byte>, y: seq<byte>)
    returns (m: nat, later: seq<bool>)
    requires |us| == |long| && GoodUnits(us) && ByteStream(us, long) == x + y && Aligned(y)
    ensures m <= |us| && |later| == |us| - m && y == ByteStream(us[m..], later)
    ensures NalUnits(x) == us[..m] && (x == [] || x == [0] || (|x| >= 4 && IsMark(x, 0)))
    decreases |us|
  {
    hide Aligned, GoodUnit, IsMark, NalUnits, Item, ByteStream;
    m, later := 0, long;
    NoUnits();
    assert us[0..] == us && us[..0] == [];
    if us == [] || x == [] {
      assert [] + y == y;
      return;
    }
    var (u, rest) := (us[0], ByteStream(us[1..], long[1..]));
    StreamUnfolds(us, long);
    assert GoodUnit(u);
    var item := Item(long[0], u);
    if |x| >= |item| {
      var x' := x[|item|..];
      SameSplit(item, rest, x, y);
      m, later := CutAligned(us[1..], long[1..], x', y);
      OneMoreUnit(long[0], u, x');
      assert us[..m + 1] == [u] + us[1..][..m] && us[m + 1..] == us[1..][m..];
      m := m + 1;
    } else {
      SameSplit(x, y, item, rest);
      CutIsAfterZero(long[0], u, rest, |x|);
      ShortCode(us, long);
      later := long[0 := false];
    }
  }

  lemma SameSplit(x: seq<byte>, y: seq<byte>, item: seq<byte>, rest: seq<byte>)
    requires x + y == item + rest && |x| <= |item|
    ensures x == item[..|x|] && y == item[|x|..] + rest && item == x + item[|x|..]
  {
    assert x == (x + y)[..|x|] && y == (x + y)[|x|..];
    assert (item + rest)[..|x|] == item[..|x|] && (item + rest)[|x|..] == item[|x|..] + rest;
  }

  lemma NoUnits()
    ensures NalUnits([]) == [] && NalUnits([0]) == [] && ByteStream([], []) == []
  {
    FirstIsLeast([0], 0, 1);
  }

  lemma CutIsAfterZero(long: bool, u: seq<byte>, rest: seq<byte>, n: nat)
    requires GoodUnit(u) && (rest == [] || IsMark(rest, 0))
    requires 0 < n < |Item(long, u)| && Aligned(Item(long, u)[n..] + rest)
    ensures long && n == 1 && Item(long, u)[..n] == [0]
  {
    hide Aligned, GoodUnit, IsMark;
    if !(long && n == 1) {
      CutInside(long, u, rest, n);
    }
  }

  /** Without its first zero a long start code is a short one. */
  lemma ShortCode(us: seq<seq<byte>>, long: seq<bool>)
    requires us != [] && |us| == |long| && long[0]
    ensures ByteStream(us, long[0 := false])
         == Item(true, us[0])[1..] + ByteStream(us[1..], long[1..])
  {
    assert long[0 := false][1..] == long[1..];
    assert Item(true, us[0])[1..] == StartCode(false) + us[0];
  }

  /** Reading the slice as length-prefixed gives the units of the byte stream, if it is done at all. */
  predicate ReadAlike(x: seq<byte>) { AvccBuffer(x) ==> AvccUnits(x) == NalUnits(x) }

  lemma AlignedPush(x: seq<byte>)
    requires ReadAlike(x) && (x == [] || x == [0] || (|x| >= 4 && IsMark(x, 0)))
    ensures Push([], x) == Split(NalUnits(x), [])
  {
    hide AvccUnits;
    NoUnits();
    if |x| >= 4 {
      FirstIsLeast(x, 0, 0);
    }
  }

  lemma NothingStreams(us: seq<seq<byte>>, long: seq<bool>)
    requires |us| == |long| && ByteStream(us, long) == []
    ensures us == []
  {
  }

  lemma {:induction false} AlignedIsComplete(us: seq<seq<byte>>, long: seq<bool>, slices: seq<seq<byte>>)
    requires |us| == |long| && GoodUnits(us) && Joined(slices) == ByteStream(us, long)
    requires forall x | x in slices :: Aligned(x) && ReadAlike(x)
    ensures PushAll([], slices) == Split(us, [])
    decreases |slices|
  {
    hide Aligned, ReadAlike, Push, NalUnits, ByteStream, GoodUnit;
    if slices == [] {
      NothingStreams(us, long);
    } else {
      var (x, y) := (slices[0], Joined(slices[1..]));
      AllAlignedJoin(slices[1..]);
      var m, later := CutAligned(us, long, x, y);
      AlignedPush(x);
      AlignedIsComplete(us[m..], later, slices[1..]);
      assert us[..m] + us[m..] == us;
    }
  }

  lemma {:induction false} StreamWeighs(us: seq<seq<byte>>, long: seq<bool>)
    requires |us| == |long| && GoodUnits(us)
    ensures NonZeros(ByteStream(us, long)) == Weight(us)
  {
    if us == [] {
    } else {
      StreamUnfolds(us, long);
      var rest := ByteStream(us[1..], long[1..]);
      hide ByteStream, NonZeros, GoodUnit;
      var x := Item(long[0], us[0]) + rest;
      assert x == StartCode(long[0]) + (us[0] + rest);
      StartCodeIsMark(long[0], us[0] + rest);
      CodeWeighsOne(x, 0);
      assert x[..|StartCode(long[0])|] == StartCode(long[0]);
      NonZerosJoin(StartCode(long[0]), us[0] + rest);
      NonZerosJoin(us[0], rest);
      StreamWeighs(us[1..], long[1..]);
    }
  }

  /**
   * A byte stream of good units, cut in any way. If in every slice only zeros precede the first start code, and slices
   * that look length-prefixed are read alike either way, all units come out, in order, and nothing is carried. Unless
   * a slice looks length-prefixed, the units come out only then: no cut may lie within a unit or within 00 00 01.
   */
  lemma {:induction false} IntactCut(us: seq<seq<byte>>, long: seq<bool>, slices: seq<seq<byte>>)
    requires |us| == |long| && GoodUnits(us) && Joined(slices) == ByteStream(us, long)
    ensures (forall x | x in slices :: Aligned(x) && ReadAlike(x)) ==> PushAll([], slices) == Split(us, [])
    ensures (forall x | x in slices :: !AvccBuffer(x)) ==>
      (PushAll([], slices).units == us <==> forall x | x in slices :: Aligned(x))
  {
    hide Aligned, AvccBuffer, ByteStream, PushAll, GoodUnit;
    StreamWeighs(us, long);
    if forall x | x in slices :: Aligned(x) && ReadAlike(x) {
      AlignedIsComplete(us, long, slices);
    }
    if (forall x | x in slices :: !AvccBuffer(x)) && PushAll([], slices).units == us {
      CompleteIsAligned(slices);
    }
  }

  // ---- Slices that look length-prefixed ----------------------------------------------------------------------------

  /** A slice of one unit is understood if and only if it does not look length-prefixed. */
  lemma {:induction false} OneUnitSlice(carry: seq<byte>, long: bool, u: seq<byte>)
    requires GoodUnit(u)
    ensures Push(carry, Item(long, u)).units == [u] <==> !AvccBuffer(Item(long, u))
  {
    hide GoodUnit;
    var x := Item(long, u);
    NotEmpty(u);
    OneMoreUnit(long, u, []);
    assert x + [] == x;
    NoUnits();
    FirstIsLeast(x, 0, 0);
    if AvccBuffer(x) {
      hide IsMark, NalUnits;
      AvccIsShorter(long, u);
    } else {
      hide AvccBuffer, IsMark, NalUnits;
      assert [u] + [] == [u];
    }
  }

  lemma AvccIsShorter(long: bool, u: seq<byte>)
    requires AvccBuffer(Item(long, u))
    ensures AvccUnits(Item(long, u)) == [] || |AvccUnits(Item(long, u))[0]| < |u|
  {
    var x := Item(long, u);
    if long {
      assert x[..4] == [0, 0, 0, 1];
    }
    hide Be32Value;
  }

  /** A short start code and the header byte of the unit can pass for the length of the rest: the header is lost. */
  lemma HeaderReadAsLength(carry: seq<byte>, u: seq<byte>)
    requires u != [] && |u| == 0x101 + u[0] as int && u[1] < 0x80 && 1 <= u[1] % 0x20 <= 12
    ensures AvccBuffer(Item(false, u)) && Push(carry, Item(false, u)).units == [u[1..]]
  {
    var x := Item(false, u);
    var n := |u| - 1;
    assert x[..4] == [0, 0, 1, u[0]] && Be32Value(x[..4]) == n;
    hide Be32Value;
    assert x[4..4 + n] == u[1..] && x[4 + n..] == [];
    assert LooksLikeAvcc([], 1);
    assert AvccUnits([]) == [];
  }

  // ---- A cut within a unit -----------------------------------------------------------------------------------------

  const FIRST: seq<byte> := [0, 0, 0, 1, 0x67, 1]
  const SECOND: seq<byte> := [2, 0, 0, 0, 1, 0x68]

  /** The stream of the units 67 01 02 and 68, cut within the first: its last byte is lost. */
  lemma CutUnitIsTruncated()
    ensures FIRST + SECOND == ByteStream([[0x67, 1, 2], [0x68]], [true, true])
    ensures PushAll([], [FIRST, SECOND]).units == [[0x67, 1], [0x68]]
  {
    TruncatedStream();
    FirstSlice();
    SecondSlice();
    hide Push;
    assert [FIRST, SECOND][1..] == [SECOND] && [SECOND][1..] == [];
    assert PushAll([], [SECOND]).units == [[0x68]];
  }

  lemma TruncatedStream()
    ensures FIRST + SECOND == ByteStream([[0x67, 1, 2], [0x68]], [true, true])
  {
    var us: seq<seq<byte>> := [[0x67, 1, 2], [0x68]];
    assert us[1..] == [[0x68]] && [true, true][1..] == [true];
    assert ByteStream([[0x68]], [true]) == [0, 0, 0, 1, 0x68] + ByteStream([], []);
  }

  lemma FirstSlice()
    ensures Push([], FIRST) == Split([[0x67, 1]], [])
  {
    var u: seq<byte> := [0x67, 1];
    assert FIRST == Item(true, u) && FIRST[4 + 1..] == [1] && FIRST[..4] == [0, 0, 0, 1];
    OneUnitSlice([], true, u);
    FirstIsLeast(FIRST, 0, 0);
  }

  lemma SecondSlice()
    ensures Push([], SECOND) == Split([[0x68]], [])
  {
    assert SECOND[..4] == [2, 0, 0, 0];
    FirstIsLeast(SECOND, 0, 1);
    FirstIsLeast(SECOND, 5, 6);
    UnitsStep(SECOND, 1, 5, 6);
    assert SECOND[5..6] == [0x68];
    TrimmedOne([0x68]);
  }
}
