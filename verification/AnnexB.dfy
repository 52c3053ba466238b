/** H.264 byte streams (annex B of ITU-T H.264): start codes, NAL units and incremental splitting. */
module AnnexB {
  import opened Wrappers
  import opened Protocol
  import opened Cum
  import opened Framing

  predicate Is3(b: seq<byte>, i: nat) {
    i + 2 < |b| && b[i] == 0 && b[i + 1] == 0 && b[i + 2] == 1
  }

  predicate Is4(b: seq<byte>, i: nat) {
    i + 3 < |b| && b[i] == 0 && b[i + 1] == 0 && b[i + 2] == 0 && b[i + 3] == 1
  }

  predicate IsMark(b: seq<byte>, i: nat) {
    Is4(b, i) || Is3(b, i)
  }

  function CodeLength(b: seq<byte>, i: nat): (n: nat)
    ensures n == 3 || n == 4
  {
    if Is4(b, i) then 4 else 3
  }

  /** The first start code at or after `i`, or the length. */
  function FirstMark(b: seq<byte>, i: nat): (j: nat)
    requires i <= |b|
    ensures i <= j <= |b| && (j < |b| ==> IsMark(b, j)) && forall k | i <= k < j :: !IsMark(b, k)
    decreases |b| - i
  {
    if i == |b| || IsMark(b, i) then i else FirstMark(b, i + 1)
  }

  datatype Split = Split(units: seq<seq<byte>>, carry: seq<byte>)

  /** From the start code at `j` on: the units between start codes, and the bytes from the last one. */
  function SplitFrom(b: seq<byte>, j: nat): Split
    requires j < |b| && IsMark(b, j)
    decreases |b| - j
  {
    var s := j + CodeLength(b, j);
    var k := FirstMark(b, s);
    if k == |b| then Split([], b[j..]) else
      var more := SplitFrom(b, k);
      Split((if k > s then [b[s..k]] else []) + more.units, more.carry)
  }

  /** `extractAnnexBNalsFromStream`. */
  function Extract(b: seq<byte>): Split {
    var j := FirstMark(b, 0);
    if j == |b| then Split([], b) else SplitFrom(b, j)
  }

  lemma MarkFits(b: seq<byte>, j: nat)
    requires IsMark(b, j)
    ensures j + CodeLength(b, j) <= |b|
  {
  }

  // ---- Slicing does not matter ------------------------------------------------------------------------------------

  lemma MarksStay(a: seq<byte>, x: seq<byte>, i: nat)
    requires i <= |a|
    ensures IsMark(a, i) ==> IsMark(a + x, i) && CodeLength(a + x, i) == CodeLength(a, i)
  {
  }

  lemma FirstIsLeast(b: seq<byte>, i: nat, j: nat)
    requires i <= j <= |b| && (j < |b| ==> IsMark(b, j)) && forall k | i <= k < j :: !IsMark(b, k)
    ensures FirstMark(b, i) == j
  {
  }

  /** A start code inside `a` is the first one in `a + x` too. */
  lemma FirstStays(a: seq<byte>, x: seq<byte>, i: nat)
    requires i <= |a| && FirstMark(a, i) < |a|
    ensures FirstMark(a + x, i) == FirstMark(a, i)
  {
    var j := FirstMark(a, i);
    MarksStay(a, x, j);
    forall k | i <= k < j ensures !IsMark(a + x, k) {
      assert !IsMark(a, k);
    }
    FirstIsLeast(a + x, i, j);
  }

  /** What precedes position `i` does not matter for what is found from `i` on. */
  lemma Shifted(p: seq<byte>, b: seq<byte>, i: nat)
    ensures IsMark(p + b, |p| + i) == IsMark(b, i)
    ensures IsMark(b, i) ==> CodeLength(p + b, |p| + i) == CodeLength(b, i)
  {
  }

  lemma FirstShifted(p: seq<byte>, b: seq<byte>, i: nat)
    requires i <= |b|
    ensures FirstMark(p + b, |p| + i) == |p| + FirstMark(b, i)
  {
    var j := FirstMark(b, i);
    Shifted(p, b, j);
    forall k | |p| + i <= k < |p| + j ensures !IsMark(p + b, k) {
      Shifted(p, b, k - |p|);
    }
    FirstIsLeast(p + b, |p| + i, |p| + j);
  }

  lemma SplitStep(b: seq<byte>, j: nat, s: nat, k: nat)
    requires j < |b| && IsMark(b, j) && s == j + CodeLength(b, j) && s <= |b| && k == FirstMark(b, s)
    ensures k == |b| ==> SplitFrom(b, j) == Split([], b[j..])
    ensures k < |b| ==>
      SplitFrom(b, j) == Split((if k > s then [b[s..k]] else []) + SplitFrom(b, k).units, SplitFrom(b, k).carry)
  {
  }

  lemma {:induction false} SplitShifted(p: seq<byte>, b: seq<byte>, j: nat)
    requires j < |b| && IsMark(b, j)
    ensures IsMark(p + b, |p| + j) && SplitFrom(p + b, |p| + j) == SplitFrom(b, j)
    decreases |b| - j
  {
    hide IsMark, CodeLength, SplitFrom;
    Shifted(p, b, j);
    MarkFits(b, j);
    var s := j + CodeLength(b, j);
    var k := FirstMark(b, s);
    FirstShifted(p, b, s);
    SplitStep(b, j, s, k);
    SplitStep(p + b, |p| + j, |p| + s, |p| + k);
    assert (p + b)[|p| + j..] == b[j..];
    if k < |b| {
      SplitShifted(p, b, k);
      assert (p + b)[|p| + s..|p| + k] == b[s..k];
    }
  }

  /** Units found so far stay; the rest is found again from the carry. */
  lemma {:induction false} SplitInTwo(a: seq<byte>, x: seq<byte>, j: nat)
    requires j < |a| && IsMark(a, j)
    ensures var first := SplitFrom(a, j);
      && first.carry != [] && IsMark(first.carry + x, 0) && IsMark(a + x, j)
      && var second := SplitFrom(first.carry + x, 0);
      SplitFrom(a + x, j) == Split(first.units + second.units, second.carry)
    decreases |a| - j
  {
    hide IsMark, CodeLength, SplitFrom;
    MarksStay(a, x, j);
    MarkFits(a, j);
    var s := j + CodeLength(a, j);
    var k := FirstMark(a, s);
    SplitStep(a, j, s, k);
    if k == |a| {
      LastMark(a, x, j);
    } else {
      FirstStays(a, x, s);
      SplitStep(a + x, j, s, k);
      SplitInTwo(a, x, k);
      assert (a + x)[s..k] == a[s..k];
      var (more, second) := (SplitFrom(a, k), SplitFrom(SplitFrom(a, k).carry + x, 0));
      var unit := if k > s then [a[s..k]] else [];
      assert unit + (more.units + second.units) == unit + more.units + second.units;
    }
  }

  lemma {:induction false} LastMark(a: seq<byte>, x: seq<byte>, j: nat)
    requires j < |a| && IsMark(a, j) && IsMark(a + x, j)
    ensures IsMark(a[j..] + x, 0) && SplitFrom(a + x, j) == SplitFrom(a[j..] + x, 0)
  {
    hide IsMark, CodeLength;
    var p := a[..j];
    assert a + x == p + (a[j..] + x);
    Shifted(p, a[j..] + x, 0);
    SplitShifted(p, a[j..] + x, 0);
  }

  /** Splitting `a` and then the carry with `x` appended is splitting `a + x`. */
  lemma {:induction false} ExtractInTwo(a: seq<byte>, x: seq<byte>)
    ensures var (first, second) := (Extract(a), Extract(Extract(a).carry + x));
      Extract(a + x) == Split(first.units + second.units, second.carry)
  {
    var j := FirstMark(a, 0);
    if j < |a| {
      FirstStays(a, x, 0);
      SplitInTwo(a, x, j);
      var carry := SplitFrom(a, j).carry;
      FirstIsLeast(carry + x, 0, 0);
    }
  }

  /** Feeding slice after slice, with the carry kept in between. */
  function Feed(carry: seq<byte>, slices: seq<seq<byte>>): Split
    decreases |slices|
  {
    if slices == [] then Split([], carry) else
      var first := Extract(carry + slices[0]);
      var more := Feed(first.carry, slices[1..]);
      Split(first.units + more.units, more.carry)
  }

  /** A carry that splitting leaves: nothing more comes out of it. */
  predicate Settled(carry: seq<byte>) {
    Extract(carry) == Split([], carry)
  }

  lemma {:induction false} CarryIsSettled(b: seq<byte>)
    ensures Settled(Extract(b).carry)
  {
    ExtractInTwo(b, []);
    assert b + [] == b && Extract(b).carry + [] == Extract(b).carry;
    var first, second := Extract(b), Extract(Extract(b).carry);
    assert |first.units + second.units| == |first.units| + |second.units|;
  }

  /** However a byte stream is cut, the units that come out and the final carry are those of the whole stream. */
  lemma {:induction false} SlicingDoesNotMatter(carry: seq<byte>, slices: seq<seq<byte>>)
    requires Settled(carry)
    ensures Feed(carry, slices) == Extract(carry + Joined(slices))
    decreases |slices|
  {
    hide Extract;
    if slices == [] {
      assert carry + [] == carry;
    } else {
      var c := carry + slices[0];
      CarryIsSettled(c);
      SlicingDoesNotMatter(Extract(c).carry, slices[1..]);
      ExtractInTwo(c, Joined(slices[1..]));
      assert carry + Joined(slices) == c + Joined(slices[1..]);
    }
  }

  lemma NothingIsSettled()
    ensures Settled([])
  {
  }

  // ---- The whole-buffer parser ------------------------------------------------------------------------------------

  /** The units of a buffer from the start code at `j` on, trailing zeros and all. */
  function UnitsFrom(b: seq<byte>, j: nat): seq<seq<byte>>
    requires j < |b| && IsMark(b, j)
    decreases |b| - j
  {
    MarkFits(b, j);
    var s := j + CodeLength(b, j);
    var k := FirstMark(b, s);
    (if k > s then [b[s..k]] else []) + if k == |b| then [] else UnitsFrom(b, k)
  }

  /** A unit without its trailing zeros. */
  function Trimmed(u: seq<byte>): seq<byte> {
    if u == [] || u[|u| - 1] != 0 then u else Trimmed(u[..|u| - 1])
  }

  function TrimmedUnits(us: seq<seq<byte>>): seq<seq<byte>> {
    if us == [] then [] else (if Trimmed(us[0]) == [] then [] else [Trimmed(us[0])]) + TrimmedUnits(us[1..])
  }

  /** `annexBToNalUnits`. */
  function NalUnits(b: seq<byte>): seq<seq<byte>> {
    var j := FirstMark(b, 0);
    if j == |b| then [] else TrimmedUnits(UnitsFrom(b, j))
  }

  /** What section 7.4.1 guarantees of a NAL unit: no start code or three zeros inside, and a non-zero last byte. */
  predicate GoodUnit(u: seq<byte>) {
    && u != [] && u[|u| - 1] != 0
    && forall i | 0 <= i && i + 2 < |u| :: !(u[i] == 0 && u[i + 1] == 0 && u[i + 2] <= 1)
  }

  /** Each unit after a start code of four (`true`) or three bytes. */
  function ByteStream(us: seq<seq<byte>>, long: seq<bool>): seq<byte>
    requires |us| == |long|
  {
    if us == [] then [] else StartCode(long[0]) + us[0] + ByteStream(us[1..], long[1..])
  }

  function StartCode(long: bool): seq<byte> {
    if long then [0, 0, 0, 1] else [0, 0, 1]
  }

  lemma GoodUnitEndsAt(u: seq<byte>, rest: seq<byte>, i: nat)
    requires GoodUnit(u) && i < |u|
    requires rest == [] || IsMark(rest, 0)
    ensures !IsMark(u + rest, i)
  {
    var b := u + rest;
    if i + 2 < |u| {
      assert b[i] == u[i] && b[i + 1] == u[i + 1] && b[i + 2] == u[i + 2];
    } else if i + 2 == |u| {
      assert b[i + 1] == u[|u| - 1];
    } else {
      assert b[i] == u[|u| - 1];
    }
  }

  lemma GoodUnitIsFound(u: seq<byte>, rest: seq<byte>)
    requires GoodUnit(u) && (rest == [] || IsMark(rest, 0))
    ensures FirstMark(u + rest, 0) == |u|
  {
    forall i | 0 <= i < |u| ensures !IsMark(u + rest, i) { GoodUnitEndsAt(u, rest, i); }
    if rest != [] { Shifted(u, rest, 0); }
    FirstIsLeast(u + rest, 0, |u|);
  }

  lemma StartCodeIsMark(long: bool, rest: seq<byte>)
    ensures IsMark(StartCode(long) + rest, 0) && CodeLength(StartCode(long) + rest, 0) == |StartCode(long)|
  {
  }

  lemma UnitsStep(b: seq<byte>, j: nat, s: nat, k: nat)
    requires j < |b| && IsMark(b, j) && s == j + CodeLength(b, j) && s <= |b| && k == FirstMark(b, s)
    ensures UnitsFrom(b, j) == (if k > s then [b[s..k]] else []) + if k == |b| then [] else UnitsFrom(b, k)
  {
    hide IsMark, CodeLength;
  }

  lemma {:induction false} UnitsShifted(p: seq<byte>, b: seq<byte>, j: nat)
    requires j < |b| && IsMark(b, j)
    ensures IsMark(p + b, |p| + j) && UnitsFrom(p + b, |p| + j) == UnitsFrom(b, j)
    decreases |b| - j
  {
    hide IsMark, CodeLength, UnitsFrom;
    Shifted(p, b, j);
    MarkFits(b, j);
    var s := j + CodeLength(b, j);
    var k := FirstMark(b, s);
    FirstShifted(p, b, s);
    UnitsStep(b, j, s, k);
    UnitsStep(p + b, |p| + j, |p| + s, |p| + k);
    assert (p + b)[|p| + s..|p| + k] == b[s..k];
    if k < |b| {
      UnitsShifted(p, b, k);
    }
  }

  /** The units of a stream whose first byte is a start code's: the first unit, then those of the rest. */
  lemma {:induction false} UnitsOfOne(long: bool, u: seq<byte>, rest: seq<byte>)
    requires GoodUnit(u) && (rest == [] || IsMark(rest, 0))
    ensures var b := StartCode(long) + u + rest;
      IsMark(b, 0) && UnitsFrom(b, 0) == [u] + if rest == [] then [] else UnitsFrom(rest, 0)
  {
    hide IsMark, CodeLength, GoodUnit;
    var code := StartCode(long);
    var b := code + u + rest;
    assert b == code + (u + rest);
    StartCodeIsMark(long, u + rest);
    GoodUnitIsFound(u, rest);
    FirstShifted(code, u + rest, 0);
    assert b[|code|..|code| + |u|] == u;
    assert u != [] by { NotEmpty(u); }
    if rest != [] {
      assert b == (code + u) + rest;
      UnitsShifted(code + u, rest, 0);
    }
  }

  lemma NotEmpty(u: seq<byte>)
    requires GoodUnit(u)
    ensures u != [] && Trimmed(u) == u
  {
  }

  lemma {:induction false} UnitsOfStream(us: seq<seq<byte>>, long: seq<bool>)
    requires us != [] && |us| == |long| && forall u | u in us :: GoodUnit(u)
    ensures IsMark(ByteStream(us, long), 0) && UnitsFrom(ByteStream(us, long), 0) == us
  {
    hide IsMark, CodeLength, GoodUnit, UnitsFrom;
    if |us| == 1 {
      assert ByteStream(us[1..], long[1..]) == [];
    } else {
      UnitsOfStream(us[1..], long[1..]);
      assert ByteStream(us[1..], long[1..]) != [] by { MarkNeedsBytes(ByteStream(us[1..], long[1..])); }
    }
    UnitsOfOne(long[0], us[0], ByteStream(us[1..], long[1..]));
    assert us == [us[0]] + us[1..];
  }

  lemma MarkNeedsBytes(b: seq<byte>)
    requires IsMark(b, 0)
    ensures b != []
  {
  }

  lemma {:induction false} NothingToTrim(us: seq<seq<byte>>)
    requires forall u | u in us :: GoodUnit(u)
    ensures TrimmedUnits(us) == us
  {
    hide GoodUnit;
    if us != [] {
      NotEmpty(us[0]);
      NothingToTrim(us[1..]);
    }
  }

  /** Good units joined by any mix of start codes are found again. */
  lemma {:induction false} ByteStreamRoundTrip(us: seq<seq<byte>>, long: seq<bool>)
    requires |us| == |long| && forall u | u in us :: GoodUnit(u)
    ensures NalUnits(ByteStream(us, long)) == us
  {
    hide IsMark, GoodUnit, UnitsFrom;
    if us != [] {
      UnitsOfStream(us, long);
      FirstIsLeast(ByteStream(us, long), 0, 0);
      MarkNeedsBytes(ByteStream(us, long));
      NothingToTrim(us);
    }
  }

  /** A good unit is split off what follows it; the last one is kept. */
  lemma {:induction false} SplitOfOne(long: bool, u: seq<byte>, rest: seq<byte>)
    requires GoodUnit(u) && (rest == [] || IsMark(rest, 0))
    ensures var b := StartCode(long) + u + rest;
      && IsMark(b, 0)
      && SplitFrom(b, 0) == if rest == [] then Split([], StartCode(long) + u)
                            else Split([u] + SplitFrom(rest, 0).units, SplitFrom(rest, 0).carry)
  {
    hide IsMark, CodeLength, GoodUnit, SplitFrom, StartCode;
    var code := StartCode(long);
    var b := code + u + rest;
    assert b == code + (u + rest);
    StartCodeIsMark(long, u + rest);
    GoodUnitIsFound(u, rest);
    FirstShifted(code, u + rest, 0);
    NotEmpty(u);
    SplitStep(b, 0, |code|, |code| + |u|);
    assert b[|code|..|code| + |u|] == u;
    if rest != [] {
      assert b == (code + u) + rest;
      SplitShifted(code + u, rest, 0);
    } else {
      assert b[0..] == code + u;
    }
  }

  lemma {:induction false} SplitOfStream(us: seq<seq<byte>>, long: seq<bool>)
    requires us != [] && |us| == |long| && forall u | u in us :: GoodUnit(u)
    ensures IsMark(ByteStream(us, long), 0)
    ensures var n := |us| - 1;
      SplitFrom(ByteStream(us, long), 0) == Split(us[..n], StartCode(long[n]) + us[n])
  {
    hide IsMark, GoodUnit, SplitFrom, StartCode;
    var rest := ByteStream(us[1..], long[1..]);
    if |us| == 1 {
      assert rest == [] && us[..0] == [];
    } else {
      SplitOfStream(us[1..], long[1..]);
      MarkNeedsBytes(rest);
      assert us[..|us| - 1] == [us[0]] + us[1..][..|us| - 2];
    }
    SplitOfOne(long[0], us[0], rest);
  }

  /** Of a stream of good units the splitter gives all but the last one, which it keeps with its start code. */
  lemma {:induction false} StreamIsSplit(us: seq<seq<byte>>, long: seq<bool>)
    requires us != [] && |us| == |long| && forall u | u in us :: GoodUnit(u)
    ensures Extract(ByteStream(us, long)) == Split(us[..|us| - 1], StartCode(long[|us| - 1]) + us[|us| - 1])
  {
    hide IsMark, GoodUnit, SplitFrom, ByteStream;
    SplitOfStream(us, long);
    MarkNeedsBytes(ByteStream(us, long));
    FirstIsLeast(ByteStream(us, long), 0, 0);
  }

  // ---- Length-prefixed units --------------------------------------------------------------------------------------

  /** Each unit after its length as an unsigned 32-bit number. */
  function Avcc(us: seq<seq<byte>>): seq<byte> {
    if us == [] then [] else Be32(|us[0]|) + us[0] + Avcc(us[1..])
  }

  /** `avccToNalUnits`: the length is read as a signed number, and the first bad one ends the list. */
  function AvccUnits(b: seq<byte>): seq<seq<byte>> {
    if |b| < 4 then [] else
      var n := Signed(Be32Value(b[..4]));
      if n < 1 || 4 + n > |b| then [] else [b[4..4 + n]] + AvccUnits(b[4 + n..])
  }

  /** The first unit of a length-prefixed list, and what follows it. */
  lemma {:induction false} AvccFirst(u: seq<byte>, t: seq<byte>)
    ensures var got := AvccUnits(Be32(|u|) + u + t);
      if 1 <= |u| < 0x8000_0000 then got == [u] + AvccUnits(t) else got == [] || |got[0]| != |u|
  {
    hide Be32, Be32Value;
    var b, n := Be32(|u|) + u + t, |u|;
    assert b == Be32(n) + (u + t) && b[..4] == Be32(n);
    Be32ReadsBack(n);
    if 1 <= n < 0x8000_0000 {
      assert b[4..4 + n] == u && b[4 + n..] == t;
    }
  }

  /** The list is found again exactly when every length is positive and below 2^31. */
  lemma {:induction false} AvccRoundTrip(us: seq<seq<byte>>)
    ensures AvccUnits(Avcc(us)) == us <==> forall i | 0 <= i < |us| :: 1 <= |us[i]| < 0x8000_0000
  {
    hide Be32, AvccUnits;
    if us == [] {
      assert AvccUnits([]) == [] by { NoAvccUnits(); }
    } else {
      AvccFirst(us[0], Avcc(us[1..]));
      AvccRoundTrip(us[1..]);
      assert us == [us[0]] + us[1..];
      assert forall i | 1 <= i < |us| :: us[i] == us[1..][i - 1];
      assert forall i | 0 <= i < |us| - 1 :: us[1..][i] == us[i + 1];
    }
  }

  lemma NoAvccUnits()
    ensures AvccUnits([]) == []
  {
  }

  // ---- Emulation prevention ---------------------------------------------------------------------------------------

  /** `removeEmulationPreventionBytes`. */
  function Unprotect(s: seq<byte>): seq<byte> {
    if |s| >= 3 && s[0] == 0 && s[1] == 0 && s[2] == 3 then [0, 0] + Unprotect(s[3..])
    else if s == [] then []
    else [s[0]] + Unprotect(s[1..])
  }

  /** The byte insertion of section 7.3.1, after `zeros` zero bytes have just been written. */
  function Protect(zeros: nat, p: seq<byte>): seq<byte>
    requires zeros <= 2
    decreases |p|
  {
    if p == [] then []
    else if zeros == 2 && p[0] <= 3 then [3, p[0]] + Protect(if p[0] == 0 then 1 else 0, p[1..])
    else [p[0]] + Protect(if p[0] == 0 then zeros + 1 else 0, p[1..])
  }

  /** Section 7.4.1: data that ends in a zero byte gets a final 3. */
  function ProtectAll(p: seq<byte>): seq<byte> {
    Protect(0, p) + if p != [] && p[|p| - 1] == 0 then [3] else []
  }

  /** The zero bytes just written, after one more payload byte. */
  function ZerosThen(zeros: nat, x: byte): (z: nat)
    requires zeros <= 2
    ensures z <= 2
  {
    if x != 0 then 0 else if zeros == 2 then 1 else zeros + 1
  }

  /** The zero bytes just written, after the whole payload. */
  function ZerosAfter(zeros: nat, p: seq<byte>): (z: nat)
    requires zeros <= 2
    ensures z <= 2
  {
    if p == [] then zeros else ZerosThen(ZerosAfter(zeros, p[..|p| - 1]), p[|p| - 1])
  }

  lemma {:induction false} ZerosAfterFirst(zeros: nat, p: seq<byte>)
    requires zeros <= 2 && p != []
    ensures ZerosAfter(zeros, p) == ZerosAfter(ZerosThen(zeros, p[0]), p[1..])
    decreases |p|
  {
    if |p| > 1 {
      var front := p[..|p| - 1];
      ZerosAfterFirst(zeros, front);
      assert p[1..][..|p| - 2] == front[1..];
    } else {
      assert p[..0] == [] && p[1..] == [];
    }
  }

  function TrailingZeros(p: seq<byte>): nat {
    if p == [] || p[|p| - 1] != 0 then 0 else 1 + TrailingZeros(p[..|p| - 1])
  }

  lemma {:induction false} ZerosAreTrailing(p: seq<byte>)
    ensures var n := TrailingZeros(p);
      ZerosAfter(0, p) == if n == 0 then 0 else if n % 2 == 1 then 1 else 2
  {
    if p != [] {
      ZerosAreTrailing(p[..|p| - 1]);
    }
  }

  lemma UnprotectOther(x: byte, t: seq<byte>)
    requires x != 0
    ensures Unprotect([x] + t) == [x] + Unprotect(t)
  {
    assert ([x] + t)[1..] == t;
  }

  lemma UnprotectZeroOther(x: byte, t: seq<byte>)
    requires x != 0
    ensures Unprotect([0, x] + t) == [0, x] + Unprotect(t)
  {
    UnprotectOther(x, t);
    assert ([0, x] + t)[1..] == [x] + t;
    assert [0] + ([x] + Unprotect(t)) == [0, x] + Unprotect(t);
  }

  lemma UnprotectZerosOther(x: byte, t: seq<byte>)
    requires x != 0 && x != 3
    ensures Unprotect([0, 0, x] + t) == [0, 0, x] + Unprotect(t)
  {
    UnprotectZeroOther(x, t);
    assert ([0, 0, x] + t)[1..] == [0, x] + t;
    assert [0] + ([0, x] + Unprotect(t)) == [0, 0, x] + Unprotect(t);
  }

  lemma UnprotectEscaped(t: seq<byte>)
    ensures Unprotect([0, 0, 3] + t) == [0, 0] + Unprotect(t)
  {
    assert ([0, 0, 3] + t)[3..] == t;
  }

  /** What has been written so far and matters: the zeros, then the protected payload, then the end. */
  function Pending(zeros: nat, p: seq<byte>, end: seq<byte>): seq<byte>
    requires zeros <= 2
  {
    Zeros(zeros) + Protect(zeros, p) + end
  }

  lemma ZeroByteLists()
    ensures Zeros(0) == [] && Zeros(1) == [0] && Zeros(2) == [0, 0]
  {
  }

  /** One payload byte further: what removal has settled. */
  function Settles(zeros: nat, x: byte): seq<byte>
    requires zeros <= 2
  {
    if x != 0 then Zeros(zeros) + [x] else if zeros < 2 then [] else [0, 0]
  }

  /** One payload byte further: what insertion has settled. */
  function Emits(zeros: nat, x: byte): seq<byte>
    requires zeros <= 2
  {
    if x == 0 && zeros < 2 then []
    else if x == 0 then [0, 0, 3]
    else if zeros == 2 && x <= 3 then [0, 0, 3, x]
    else Zeros(zeros) + [x]
  }

  lemma {:induction false} OneByteProtected(zeros: nat, p: seq<byte>, end: seq<byte>)
    requires zeros <= 2 && p != []
    ensures Pending(zeros, p, end) == Emits(zeros, p[0]) + Pending(ZerosThen(zeros, p[0]), p[1..], end)
  {
    var x, z := p[0], ZerosThen(zeros, p[0]);
    var later := Protect(z, p[1..]);
    var now := if zeros == 2 && x <= 3 then [3, x] else [x];
    assert Protect(zeros, p) == now + later;
    hide Protect;
    ZeroByteLists();
    assert Zeros(zeros) + now == Emits(zeros, x) + Zeros(z);
    calc {
      Pending(zeros, p, end);
      Zeros(zeros) + (now + later) + end;
      { Regroup(Zeros(zeros), now, later, end); }
      (Zeros(zeros) + now) + (later + end);
      (Emits(zeros, x) + Zeros(z)) + (later + end);
      { Regroup(Emits(zeros, x), Zeros(z), later, end); }
      Emits(zeros, x) + Pending(z, p[1..], end);
    }
  }

  lemma Regroup(a: seq<byte>, b: seq<byte>, c: seq<byte>, d: seq<byte>)
    ensures a + (b + c) + d == (a + b) + (c + d) == a + (b + c + d)
  {
  }

  lemma {:induction false} OneByteUnprotected(zeros: nat, x: byte, t: seq<byte>)
    requires zeros <= 2
    ensures Unprotect(Emits(zeros, x) + t) == Settles(zeros, x) + Unprotect(t)
  {
    hide Unprotect;
    ZeroByteLists();
    var u := Unprotect(t);
    if x == 0 && zeros < 2 {
      assert [] + t == t && [] + u == u;
    } else if x == 0 {
      UnprotectEscaped(t);
    } else if zeros == 2 && x <= 3 {
      UnprotectEscaped([x] + t);
      UnprotectOther(x, t);
      assert [0, 0, 3, x] + t == [0, 0, 3] + ([x] + t);
      assert [0, 0] + ([x] + u) == [0, 0] + [x] + u;
    } else if zeros == 2 {
      UnprotectZerosOther(x, t);
      assert [0, 0] + [x] == [0, 0, x];
    } else if zeros == 1 {
      UnprotectZeroOther(x, t);
      assert [0] + [x] == [0, x];
    } else {
      UnprotectOther(x, t);
      assert [] + [x] == [x];
    }
  }

  /** What removal makes of a final 3: it goes exactly if two zeros have just been written. */
  lemma {:induction false} UnprotectProtect(zeros: nat, p: seq<byte>, end: seq<byte>)
    requires zeros <= 2 && (end == [] || end == [3])
    ensures Unprotect(Pending(zeros, p, end)) == Zeros(zeros) + p + if ZerosAfter(zeros, p) == 2 then [] else end
    decreases |p|
  {
    hide Unprotect, ZerosAfter, Pending;
    if p == [] {
      UnprotectEnd(zeros, end);
      NothingPending(zeros, end);
    } else {
      var z, left := ZerosThen(zeros, p[0]), if ZerosAfter(zeros, p) == 2 then [] else end;
      ZerosAfterFirst(zeros, p);
      UnprotectProtect(z, p[1..], end);
      OneByteProtected(zeros, p, end);
      OneByteUnprotected(zeros, p[0], Pending(z, p[1..], end));
      SettledBytes(zeros, p, left);
    }
  }

  lemma NothingPending(zeros: nat, end: seq<byte>)
    requires zeros <= 2
    ensures Pending(zeros, [], end) == Zeros(zeros) + end && Zeros(zeros) + [] == Zeros(zeros)
    ensures ZerosAfter(zeros, []) == zeros
  {
  }

  lemma SettledBytes(zeros: nat, p: seq<byte>, left: seq<byte>)
    requires zeros <= 2 && p != []
    ensures Settles(zeros, p[0]) + (Zeros(ZerosThen(zeros, p[0])) + p[1..] + left) == Zeros(zeros) + p + left
  {
    ZeroByteLists();
    var (e, z) := (Settles(zeros, p[0]), Zeros(ZerosThen(zeros, p[0])));
    assert e + z == Zeros(zeros) + [p[0]];
    hide Settles, Zeros, ZerosThen;
    assert e + (z + p[1..] + left) == (e + z) + (p[1..] + left);
    assert p == [p[0]] + p[1..];
  }

  lemma {:induction false} UnprotectEnd(zeros: nat, end: seq<byte>)
    requires zeros <= 2 && (end == [] || end == [3])
    ensures Unprotect(Zeros(zeros) + end) == Zeros(zeros) + if zeros == 2 then [] else end
  {
    ZeroByteLists();
    assert Unprotect([]) == [] && Unprotect([0]) == [0] && Unprotect([0, 0]) == [0, 0];
    if end == [3] {
      UnprotectOther(3, []);
      UnprotectZeroOther(3, []);
      UnprotectEscaped([]);
      assert [3] + [] == [3] && [0, 3] + [] == [0, 3] && [0, 0, 3] + [] == [0, 0, 3] && [0, 0] + [] == [0, 0];
      assert [] + [3] == [3] && [0] + [3] == [0, 3] && [0, 0] + [3] == [0, 0, 3];
    } else {
      assert Zeros(zeros) + end == Zeros(zeros);
    }
  }

  /** Removal undoes the insertion of section 7.3.1 for every payload. */
  lemma {:induction false} ProtectRoundTrip(p: seq<byte>)
    ensures Unprotect(Protect(0, p)) == p
  {
    hide Unprotect;
    UnprotectProtect(0, p, []);
    assert Pending(0, p, []) == Protect(0, p);
    assert Zeros(0) + p + [] == p;
  }

  /** With the final 3 of section 7.4.1 it does so exactly if the payload ends in an even number of zeros. */
  lemma {:induction false} ProtectAllRoundTrip(p: seq<byte>)
    ensures Unprotect(ProtectAll(p)) == p <==> TrailingZeros(p) % 2 == 0
  {
    hide Unprotect, Protect;
    var end := if p != [] && p[|p| - 1] == 0 then [3] else [];
    UnprotectProtect(0, p, end);
    ZerosAreTrailing(p);
    assert Pending(0, p, end) == ProtectAll(p);
    assert Zeros(0) + p == p && p + [] == p;
  }

  // ---- Payloads through the byte stream ---------------------------------------------------------------------------

  /** No three bytes that a decoder could take for (the beginning of) a start code. */
  predicate Unmistakable(s: seq<byte>) {
    forall i | 0 <= i && i + 2 < |s| :: !(s[i] == 0 && s[i + 1] == 0 && s[i + 2] <= 2)
  }

  lemma {:induction false} ProtectedIsUnmistakable(zeros: nat, p: seq<byte>, end: seq<byte>)
    requires zeros <= 2 && (end == [] || end == [3])
    ensures Unmistakable(Pending(zeros, p, end))
    decreases |p|
  {
    hide Pending;
    if p == [] {
      NothingPending(zeros, end);
    } else {
      var z := ZerosThen(zeros, p[0]);
      ProtectedIsUnmistakable(z, p[1..], end);
      OneByteProtected(zeros, p, end);
      EmitsIsUnmistakable(zeros, p[0], Pending(z, p[1..], end));
    }
  }

  lemma EmitsIsUnmistakable(zeros: nat, x: byte, t: seq<byte>)
    requires zeros <= 2 && Unmistakable(t)
    ensures Unmistakable(Emits(zeros, x) + t)
  {
    ZeroByteLists();
  }

  /** A NAL unit: its header byte, then the protected payload. */
  function Unit(header: byte, p: seq<byte>): seq<byte> { [header] + ProtectAll(p) }

  lemma {:induction false} ProtectEndsAlike(zeros: nat, p: seq<byte>)
    requires zeros <= 2 && p != []
    ensures var s := Protect(zeros, p); s != [] && s[|s| - 1] == p[|p| - 1]
    decreases |p|
  {
    if |p| > 1 {
      ProtectEndsAlike(ZerosThen(zeros, p[0]), p[1..]);
    }
  }

  /** Every payload, under a non-zero header, makes a unit that survives the byte stream. */
  lemma {:induction false} UnitsAreGood(header: byte, p: seq<byte>)
    requires header != 0
    ensures GoodUnit(Unit(header, p)) && Unit(header, p)[1..] == ProtectAll(p)
  {
    hide Protect, Unprotect;
    var u := Unit(header, p);
    var end := if p != [] && p[|p| - 1] == 0 then [3] else [];
    ProtectedIsUnmistakable(0, p, end);
    assert Pending(0, p, end) == ProtectAll(p);
    if p != [] { ProtectEndsAlike(0, p); }
    if p == [] { assert Protect(0, []) == [] by { ProtectNothing(); } }
    forall i | 0 <= i && i + 2 < |u| ensures !(u[i] == 0 && u[i + 1] == 0 && u[i + 2] <= 1) {
      if i > 0 { assert u[i] == ProtectAll(p)[i - 1]; }
    }
  }

  lemma ProtectNothing()
    ensures Protect(0, []) == []
  {
  }

  // ---- The loops of the source ------------------------------------------------------------------------------------

  lemma UnitsAfterIs(b: seq<byte>, s: nat)
    requires s <= |b|
    ensures var k := FirstMark(b, s);
      UnitsAfter(b, s) == (if k > s then [b[s..k]] else []) + if k == |b| then [] else UnitsFrom(b, k)
  {
  }

  lemma UnitsAppend(b: seq<byte>, start: nat, p: nat, out: seq<seq<byte>>, all: seq<seq<byte>>)
    requires start <= p < |b| && IsMark(b, p) && FirstMark(b, start) == p
    requires out + UnitsAfter(b, start) == all
    ensures p + CodeLength(b, p) <= |b|
    ensures (if p > start then out + [b[start..p]] else out) + UnitsAfter(b, p + CodeLength(b, p)) == all
  {
    hide IsMark, CodeLength, UnitsFrom, UnitsAfter, FirstMark;
    MarkFits(b, p);
    var s := p + CodeLength(b, p);
    UnitsStep(b, p, s, FirstMark(b, s));
    UnitsAfterIs(b, start);
    UnitsAfterIs(b, s);
    assert out + ((if p > start then [b[start..p]] else []) + UnitsFrom(b, p))
        == (if p > start then out + [b[start..p]] else out) + UnitsFrom(b, p);
  }

  /** The units of `b` when the last start code ended at `s`. */
  function UnitsAfter(b: seq<byte>, s: nat): seq<seq<byte>>
    requires s <= |b|
  {
    var k := FirstMark(b, s);
    (if k > s then [b[s..k]] else []) + if k == |b| then [] else UnitsFrom(b, k)
  }

  lemma UnitsAtEnd(b: seq<byte>, start: nat)
    requires start <= |b| && FirstMark(b, start) == |b|
    ensures UnitsAfter(b, start) == if |b| > start then [b[start..]] else []
  {
    assert b[start..|b|] == b[start..];
  }

  lemma UnitsBegin(b: seq<byte>, p: nat)
    requires p < |b| && IsMark(b, p)
    ensures p + CodeLength(b, p) <= |b| && [] + UnitsAfter(b, p + CodeLength(b, p)) == UnitsFrom(b, p)
  {
    hide IsMark, CodeLength;
    MarkFits(b, p);
    UnitsStep(b, p, p + CodeLength(b, p), FirstMark(b, p + CodeLength(b, p)));
  }

  /** The scan of `annexBToNalUnits`; `start` is -1 before the first start code. */
  method ScanUnits(b: seq<byte>) returns (out: seq<seq<byte>>)
    ensures out == var j := FirstMark(b, 0); if j == |b| then [] else UnitsFrom(b, j)
  {
    hide IsMark, CodeLength, UnitsFrom, UnitsAfter;
    out := [];
    var start: int := -1;
    var p := 0;
    ghost var first := FirstMark(b, 0);
    ghost var all := if first == |b| then [] else UnitsFrom(b, first);
    while p < |b|
      invariant 0 <= p <= |b| && -1 <= start <= p
      invariant start == -1 ==> FirstMark(b, p) == first && out == []
      invariant start >= 0 ==> FirstMark(b, p) == FirstMark(b, start) && out + UnitsAfter(b, start) == all
    {
      var is4, is3 := Is4(b, p), Is3(b, p);
      assert IsMark(b, p) <==> is4 || is3 by { MarkCases(b, p); }
      if is4 || is3 {
        var n := if is4 then 4 else 3;
        assert n == CodeLength(b, p) by { MarkCases(b, p); }
        FirstIsLeast(b, p, p);
        if start >= 0 {
          UnitsAppend(b, start, p, out, all);
          if p > start {
            out := out + [b[start..p]];
          }
        } else {
          UnitsBegin(b, p);
        }
        start := p + n;
        p := p + n;
      } else {
        assert FirstMark(b, p) == FirstMark(b, p + 1);
        p := p + 1;
      }
    }
    if start >= 0 { UnitsAtEnd(b, start); }
    assert out + [] == out;
    if start >= 0 && start < |b| {
      out := out + [b[start..]];
    }
  }

  lemma MarkCases(b: seq<byte>, p: nat)
    ensures IsMark(b, p) <==> Is4(b, p) || Is3(b, p)
    ensures CodeLength(b, p) == if Is4(b, p) then 4 else 3
  {
  }

  method TrimZeros(u: seq<byte>) returns (t: seq<byte>)
    ensures t == Trimmed(u)
  {
    var end := |u|;
    assert u[..end] == u;
    while end > 0 && u[end - 1] == 0
      invariant 0 <= end <= |u| && Trimmed(u[..end]) == Trimmed(u)
    {
      assert u[..end][..end - 1] == u[..end - 1];
      end := end - 1;
    }
    t := u[..end];
  }

  method AnnexBToNalUnits(b: seq<byte>) returns (units: seq<seq<byte>>)
    ensures units == NalUnits(b)
  {
    units := [];
    if |b| == 0 { return; }
    var raw := ScanUnits(b);
    units := TrimUnits(raw);
  }

  lemma TrimStep(raw: seq<seq<byte>>, i: nat, units: seq<seq<byte>>)
    requires i < |raw|
    ensures var t := Trimmed(raw[i]);
      units + TrimmedUnits(raw[i..]) == (if t == [] then units else units + [t]) + TrimmedUnits(raw[i + 1..])
  {
    hide Trimmed;
    assert raw[i..][1..] == raw[i + 1..];
    assert units + [] == units;
  }

  lemma NoUnitsLeft(raw: seq<seq<byte>>, units: seq<seq<byte>>)
    ensures units + TrimmedUnits(raw[|raw|..]) == units && [] + TrimmedUnits(raw[0..]) == TrimmedUnits(raw)
  {
    assert raw[0..] == raw && raw[|raw|..] == [];
  }

  method TrimUnits(raw: seq<seq<byte>>) returns (units: seq<seq<byte>>)
    ensures units == TrimmedUnits(raw)
  {
    hide Trimmed, TrimmedUnits;
    units := [];
    var i := 0;
    NoUnitsLeft(raw, []);
    while i < |raw|
      invariant i <= |raw| && units + TrimmedUnits(raw[i..]) == TrimmedUnits(raw)
    {
      TrimStep(raw, i, units);
      var t := TrimZeros(raw[i]);
      if |t| > 0 {
        units := units + [t];
      }
      i := i + 1;
    }
    NoUnitsLeft(raw, units);
  }

  lemma {:induction false} AvccStep(b: seq<byte>, off: nat, units: seq<seq<byte>>)
    requires off + 4 <= |b|
    ensures var n := Signed(Be32Value(b[off..off + 4]));
      units + AvccUnits(b[off..]) ==
        if n < 1 || off + 4 + n > |b| then units
        else units + [b[off + 4..off + 4 + n]] + AvccUnits(b[off + 4 + n..])
  {
    hide Be32Value;
    var t := b[off..];
    assert t[..4] == b[off..off + 4];
    var n := Signed(Be32Value(b[off..off + 4]));
    if n < 1 || off + 4 + n > |b| {
      assert units + [] == units;
    } else {
      assert t[4..4 + n] == b[off + 4..off + 4 + n] && t[4 + n..] == b[off + 4 + n..];
    }
  }

  method AvccToNalUnits(b: seq<byte>) returns (units: seq<seq<byte>>)
    ensures units == AvccUnits(b)
  {
    hide AvccUnits, Be32Value;
    units := [];
    var off := 0;
    assert b[0..] == b && [] + AvccUnits(b) == AvccUnits(b);
    while off + 4 <= |b|
      invariant off <= |b| && units + AvccUnits(b[off..]) == AvccUnits(b)
    {
      AvccStep(b, off, units);
      var n := Signed(Be32Value(b[off..off + 4]));
      off := off + 4;
      if n < 1 || off + n > |b| {
        return;
      }
      units := units + [b[off..off + n]];
      off := off + n;
    }
    ShortAvcc(b[off..], units);
  }

  lemma ShortAvcc(b: seq<byte>, units: seq<seq<byte>>)
    requires |b| < 4
    ensures units + AvccUnits(b) == units
  {
  }

  predicate Escape(u: seq<byte>, i: nat) {
    i + 2 < |u| && u[i] == 0 && u[i + 1] == 0 && u[i + 2] == 3
  }

  lemma {:induction false} UnprotectStep(u: seq<byte>, i: nat, out: seq<byte>)
    requires i < |u|
    ensures out + Unprotect(u[i..]) ==
      if Escape(u, i) then out + [0] + [0] + Unprotect(u[i + 3..]) else out + [u[i]] + Unprotect(u[i + 1..])
  {
    var t := u[i..];
    if Escape(u, i) {
      assert t[3..] == u[i + 3..];
    } else {
      assert t[1..] == u[i + 1..];
    }
  }

  method RemoveEmulationPreventionBytes(u: seq<byte>) returns (out: seq<byte>)
    ensures out == Unprotect(u)
  {
    hide Unprotect;
    out := [];
    var i := 0;
    assert u[0..] == u && [] + Unprotect(u) == Unprotect(u);
    while i < |u|
      invariant i <= |u| && out + Unprotect(u[i..]) == Unprotect(u)
    {
      UnprotectStep(u, i, out);
      if i + 2 < |u| && u[i] == 0 && u[i + 1] == 0 && u[i + 2] == 3 {
        out := out + [0] + [0];
        i := i + 3;
      } else {
        out := out + [u[i]];
        i := i + 1;
      }
    }
    assert u[i..] == [] && Unprotect([]) == [] by { UnprotectNothing(); }
  }

  lemma UnprotectNothing()
    ensures Unprotect([]) == []
  {
  }

  /** The stream is split in two passes: the marks first, then the units between them. */
  method ExtractAnnexBNals(b: seq<byte>) returns (units: seq<seq<byte>>, carry: seq<byte>)
    ensures Split(units, carry) == Extract(b)
  {
    hide IsMark, CodeLength, SplitFrom;
    units := [];
    var marks := FindMarks(b);
    if |marks| == 0 {
      return [], b;
    }
    var i := 0;
    while i + 1 < |marks|
      invariant i < |marks|
      invariant Extract(b) == Split(units + SplitFrom(b, marks[i]).units, SplitFrom(b, marks[i]).carry)
    {
      var n := if Is4(b, marks[i]) then 4 else 3;
      MarkCases(b, marks[i]);
      MarkFits(b, marks[i]);
      var s, e := marks[i] + n, marks[i + 1];
      SplitStep(b, marks[i], s, e);
      assert units + ([b[s..e]] + SplitFrom(b, e).units) == units + [b[s..e]] + SplitFrom(b, e).units;
      assert units + ([] + SplitFrom(b, e).units) == units + SplitFrom(b, e).units;
      if e > s {
        units := units + [b[s..e]];
      }
      i := i + 1;
    }
    var last := marks[i];
    MarkFits(b, last);
    SplitStep(b, last, last + CodeLength(b, last), |b|);
    carry := b[last..];
    assert units + [] == units;
  }

  /** All start codes, each the first one after the end of the one before. */
  ghost predicate AllMarks(b: seq<byte>, marks: seq<nat>, from: nat)
    requires from <= |b|
  {
    && (forall i | 0 <= i < |marks| ::
          marks[i] < |b| && IsMark(b, marks[i]) && marks[i] + CodeLength(b, marks[i]) <= |b|)
    && (marks == [] ==> FirstMark(b, 0) == FirstMark(b, from))
    && (marks != [] ==> FirstMark(b, 0) == marks[0])
    && (forall i | 0 <= i < |marks| - 1 :: FirstMark(b, marks[i] + CodeLength(b, marks[i])) == marks[i + 1])
    && (marks != [] ==>
          var last := marks[|marks| - 1]; FirstMark(b, last + CodeLength(b, last)) == FirstMark(b, from))
  }

  lemma NoMarkHere(b: seq<byte>, marks: seq<nat>, i: nat)
    requires i < |b| && !IsMark(b, i) && AllMarks(b, marks, i)
    ensures AllMarks(b, marks, i + 1)
  {
    hide IsMark, CodeLength;
    assert FirstMark(b, i) == FirstMark(b, i + 1);
  }

  lemma MarkHere(b: seq<byte>, marks: seq<nat>, i: nat)
    requires i < |b| && IsMark(b, i) && AllMarks(b, marks, i)
    ensures i + CodeLength(b, i) <= |b| && AllMarks(b, marks + [i], i + CodeLength(b, i))
  {
    hide IsMark, CodeLength;
    MarkFits(b, i);
    FirstIsLeast(b, i, i);
  }

  method FindMarks(b: seq<byte>) returns (marks: seq<nat>)
    ensures AllMarks(b, marks, |b|)
  {
    hide IsMark, CodeLength, AllMarks;
    marks := [];
    var i := 0;
    NoMarksYet(b);
    while i + 2 < |b|
      invariant i <= |b| && AllMarks(b, marks, i)
    {
      MarkCases(b, i);
      if Is4(b, i) || Is3(b, i) {
        var n := if Is4(b, i) then 4 else 3;
        MarkHere(b, marks, i);
        marks := marks + [i];
        i := i + n;
      } else {
        NoMarkHere(b, marks, i);
        i := i + 1;
      }
    }
    NoMarkNearEnd(b, i);
    SameFirst(b, marks, i);
  }

  lemma NoMarksYet(b: seq<byte>)
    ensures AllMarks(b, [], 0)
  {
  }

  lemma SameFirst(b: seq<byte>, marks: seq<nat>, i: nat)
    requires i <= |b| && AllMarks(b, marks, i) && FirstMark(b, i) == FirstMark(b, |b|)
    ensures AllMarks(b, marks, |b|)
  {
  }

  lemma NoMarkNearEnd(b: seq<byte>, i: nat)
    requires i <= |b| <= i + 2
    ensures FirstMark(b, i) == |b| == FirstMark(b, |b|)
  {
    FirstIsLeast(b, i, |b|);
  }
}
