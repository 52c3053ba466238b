/** The pure part of the CUM runtime: little-endian integers, count and index widths, optional masks. */
module Cum {
  import opened Wrappers
  import opened Protocol
  import opened Bits

  const U32 := 0x1_0000_0000

  // ---- Little-endian integers -------------------------------------------------------------------------------

  /** The `n` low octets of `v`, lowest first. */
  function LittleEndian(v: nat, n: nat): (s: seq<byte>)
    ensures |s| == n
  {
    if n == 0 then [] else [v % 256] + LittleEndian(v / 256, n - 1)
  }

  function LittleEndianValue(s: seq<byte>): (v: nat) {
    if s == [] then 0 else s[0] + 256 * LittleEndianValue(s[1..])
  }

  /** Octet `i` is the `i`-th lowest. */
  lemma {:induction false} LittleEndianOctet(v: nat, n: nat, i: nat)
    requires i < n
    ensures LittleEndian(v, n)[i] == v / Span(i) % 256
  {
    if i > 0 {
      LittleEndianOctet(v / 256, n - 1, i - 1);
      DivideTwice(v, Span(i - 1));
    }
  }

  lemma DivideTwice(v: nat, m: nat)
    requires m > 0
    ensures v / 256 / m == v / (256 * m)
  {
    var w := v / 256;
    assert v == 256 * w + v % 256 && w == m * (w / m) + w % m;
    assert 256 * (m * (w / m)) == 256 * m * (w / m);
    RemainderIs(v, 256 * m, w / m, 256 * (w % m) + v % 256);
  }

  lemma {:induction false} LittleEndianReadsBack(v: nat, n: nat)
    requires v < Span(n)
    ensures LittleEndianValue(LittleEndian(v, n)) == v
  {
    if n > 0 {
      LittleEndianReadsBack(v / 256, n - 1);
      assert LittleEndian(v, n)[1..] == LittleEndian(v / 256, n - 1);
    }
  }

  lemma {:induction false} LittleEndianWritesBack(s: seq<byte>)
    ensures LittleEndianValue(s) < Span(|s|) && LittleEndian(LittleEndianValue(s), |s|) == s
  {
    if s != [] {
      LittleEndianWritesBack(s[1..]);
    }
  }

  lemma {:induction false} LittleEndianAppend(s: seq<byte>, x: byte)
    ensures LittleEndianValue(s + [x]) == LittleEndianValue(s) + Span(|s|) * x
  {
    if s == [] {
      assert s + [x] == [x] && [x][1..] == [];
    } else {
      LittleEndianAppend(s[1..], x);
      assert (s + [x])[1..] == s[1..] + [x];
    }
  }

  lemma RemainderIs(x: int, m: int, k: int, r: int)
    requires 0 <= r < m && x == m * k + r
    ensures x % m == r && x / m == k
  {
    var q := x / m - k;
    assert m * q == r - x % m;
    ProductBounds(m, q);
  }

  lemma ProductBounds(m: nat, q: int)
    ensures q >= 1 ==> m * q >= m
    ensures q <= -1 ==> m * q + m <= 0
  {
    if q >= 1 {
      assert m * q == m + m * (q - 1);
    } else if q <= -1 {
      assert m * q + m == 0 - m * (-q - 1);
    }
  }

  lemma SmallRemainder(v: nat, m: nat)
    requires v < m
    ensures v % m == v
  {
    RemainderIs(v, m, 0, v);
  }

  lemma TruncatedParts(v: nat, m: nat)
    requires m > 0
    ensures (v % (256 * m)) % 256 == v % 256 && (v % (256 * m)) / 256 == (v / 256) % m
  {
    var w := v / 256;
    assert v == 256 * w + v % 256 && w == m * (w / m) + w % m;
    assert 256 * (m * (w / m)) == 256 * m * (w / m);
    RemainderIs(v, 256 * m, w / m, 256 * (w % m) + v % 256);
  }

  /** Only the low octets matter. */
  lemma {:induction false} LittleEndianTruncates(v: nat, n: nat)
    ensures LittleEndian(v % Span(n), n) == LittleEndian(v, n)
  {
    if n > 0 {
      TruncatedParts(v, Span(n - 1));
      LittleEndianTruncates(v / 256, n - 1);
    }
  }

  /** `writeIntegralLE`: the value as an unsigned 32-bit number, in `n` octets. */
  function Integral(v: int, n: nat): (s: seq<byte>)
    ensures |s| == n
  {
    LittleEndian(v % U32, n)
  }

  /** An unsigned integer of `width` octets; the encoder drops what does not fit. */
  function Unsigned(v: int, width: nat): (s: seq<byte>)
    ensures |s| == width
  {
    LittleEndian(v % Span(width), width)
  }

  /** `| 0`: a 32-bit pattern as a signed number. */
  function Signed(u: nat): int {
    if u < 0x8000_0000 then u else u - U32
  }

  lemma SpanValues()
    ensures Span(1) == 0x100 && Span(2) == 0x1_0000 && Span(4) == U32 && Span(8) == U32 * U32
  {
    assert Span(3) == 0x100_0000 && Span(5) == 256 * U32 && Span(6) == 0x1_0000 * U32;
  }

  /** A signed number survives its four octets exactly when it is a 32-bit one. */
  lemma SignedSurvives(v: int)
    ensures Signed(LittleEndianValue(Integral(v, 4))) == v <==> -0x8000_0000 <= v < 0x8000_0000
  {
    SpanValues();
    LittleEndianReadsBack(v % U32, 4);
  }

  /**
   * The generator's own u64 rounds to a double and then keeps 32 bits: it survives exactly below 2^32, however
   * the rounding treats larger numbers.
   */
  lemma LossyU64(v: nat, rounded: nat)
    requires v < U32 * U32 && (v < U32 ==> rounded == v)
    ensures LittleEndianValue(Integral(rounded, 8)) == v <==> v < U32
  {
    SpanValues();
    LittleEndianReadsBack(rounded % U32, 8);
  }

  // ---- Counts and choice indices ----------------------------------------------------------------------------

  function OctetsForCapacity(capacity: nat): (n: nat)
    requires capacity >= 1
  {
    if capacity <= 0x100 then 1 else if capacity <= 0x1_0000 then 2 else if capacity <= U32 then 4 else 8
  }

  function OctetsForArity(alternatives: nat): (n: nat)
    requires alternatives >= 2
  {
    if alternatives < 0x100 then 1 else if alternatives < 0x1_0000 then 2 else if alternatives < U32 then 4 else 8
  }

  /** The count that the reader finds where the writer wrote `count`. */
  function CountReadBack(capacity: nat, count: nat): nat
    requires capacity >= 1
  {
    LittleEndianValue(Integral(count, OctetsForCapacity(capacity)))
  }

  /** A count within capacity survives exactly when it is below the span of its octets, and below 2^32. */
  lemma CountSurvives(capacity: nat, count: nat)
    requires 1 <= capacity && count <= capacity
    ensures CountReadBack(capacity, count) == count <==> count < Span(OctetsForCapacity(capacity)) && count < U32
  {
    hide Span, OctetsForCapacity, LittleEndian, LittleEndianValue;
    WhatIsReadBack(count % U32, OctetsForCapacity(capacity));
  }

  /** Reading `n` octets of `v` gives a number below their span, not above `v`, and equal to `v` if that fits. */
  lemma WhatIsReadBack(v: nat, n: nat)
    ensures var u := LittleEndianValue(LittleEndian(v, n));
      u < Span(n) && u <= v && (v < Span(n) ==> u == v)
  {
    hide Span, LittleEndian, LittleEndianValue;
    LittleEndianTruncates(v, n);
    RemainderBounds(v, Span(n));
    LittleEndianReadsBack(v % Span(n), n);
  }

  lemma RemainderBounds(v: nat, m: nat)
    requires m > 0
    ensures 0 <= v % m < m && v % m <= v && (v < m ==> v % m == v)
  {
    if v < m { SmallRemainder(v, m); }
  }

  /** Every count up to capacity survives exactly for the capacities below 2^32 other than 256 and 65536. */
  lemma AllCountsSurvive(capacity: nat)
    requires 1 <= capacity
    ensures (forall count: nat | count <= capacity :: CountReadBack(capacity, count) == count)
       <==> capacity < U32 && capacity != 0x100 && capacity != 0x1_0000
  {
    SpanValues();
    CountSurvives(capacity, capacity);
    if capacity < U32 && capacity != 0x100 && capacity != 0x1_0000 {
      forall count: nat | count <= capacity ensures CountReadBack(capacity, count) == count {
        CountSurvives(capacity, count);
      }
    }
  }

  // ---- Optional masks -----------------------------------------------------------------------------------------

  function Bit(x: nat, k: nat): (b: int)
    ensures b == 0 || b == 1
  {
    if k == 0 then x % 2 else Bit(x / 2, k - 1)
  }

  lemma {:induction false} ZeroBits(k: nat)
    ensures Bit(0, k) == 0
  {
    if k > 0 { ZeroBits(k - 1); }
  }

  lemma {:induction false} BitwiseBit(op: Operator, x: nat, y: nat, k: nat)
    ensures Bit(Bitwise(op, x, y), k) == OnBit(op, Bit(x, k), Bit(y, k))
  {
    if x == 0 && y == 0 {
      ZeroBits(k);
    } else if k > 0 {
      BitwiseBit(op, x / 2, y / 2, k - 1);
    }
  }

  lemma {:induction false} PowerBits(m: nat, k: nat)
    ensures Bit(Pow2(m), k) == if k == m then 1 else 0
  {
    if m == 0 {
      if k > 0 { ZeroBits(k - 1); }
    } else if k > 0 {
      PowerBits(m - 1, k - 1);
    }
  }

  lemma {:induction false} BitsDetermine(x: nat, y: nat, n: nat)
    requires x < Pow2(n) && y < Pow2(n)
    requires forall k: nat | k < n :: Bit(x, k) == Bit(y, k)
    ensures x == y
  {
    if n > 0 {
      forall k: nat | k < n - 1 ensures Bit(x / 2, k) == Bit(y / 2, k) {
        assert Bit(x, k + 1) == Bit(y, k + 1);
      }
      BitsDetermine(x / 2, y / 2, n - 1);
      assert Bit(x, 0) == Bit(y, 0);
    }
  }

  lemma {:induction false} AndPower(x: nat, m: nat)
    ensures Bitwise(AND, x, Pow2(m)) != 0 <==> Bit(x, m) == 1
  {
    if m == 0 {
      AndZero(x / 2);
    } else {
      AndPower(x / 2, m - 1);
    }
  }

  lemma {:induction false} AndZero(x: nat)
    ensures Bitwise(AND, x, 0) == 0
  {
    if x != 0 { AndZero(x / 2); }
  }

  /** `0x80 >> bit`. */
  function MaskBit(idx: nat): (b: byte) {
    var b := Pow2(7 - idx % 8);
    PowerIsByte(idx);
    b
  }

  lemma PowerIsByte(idx: nat)
    ensures Pow2(7 - idx % 8) < 256
  {
    PowerGrows(7 - idx % 8, 7);
    assert Pow2(3) == 8 && Pow2(7) == 128;
  }

  lemma {:induction false} PowerGrows(a: nat, b: nat)
    requires a <= b
    ensures Pow2(a) <= Pow2(b)
  {
    if a < b { PowerGrows(a, b - 1); }
  }

  predicate CheckOptional(mask: seq<byte>, idx: nat)
    requires idx < 8 * |mask|
  {
    Bitwise(AND, mask[idx / 8], MaskBit(idx)) != 0
  }

  lemma CheckIsBit(mask: seq<byte>, idx: nat)
    requires idx < 8 * |mask|
    ensures CheckOptional(mask, idx) <==> Bit(mask[idx / 8], 7 - idx % 8) == 1
  {
    AndPower(mask[idx / 8], 7 - idx % 8);
  }

  function MaskOctets(k: nat): nat { (k + 7) / 8 }

  /** The number whose binary digits, most significant first, are `bits`. */
  function FromBits(bits: seq<bool>): (x: nat)
    ensures x < Pow2(|bits|)
  {
    if bits == [] then 0 else 2 * FromBits(bits[..|bits| - 1]) + if bits[|bits| - 1] then 1 else 0
  }

  lemma {:induction false} BitOfFromBits(bits: seq<bool>, k: nat)
    requires k < |bits|
    ensures Bit(FromBits(bits), k) == if bits[|bits| - 1 - k] then 1 else 0
  {
    if k > 0 {
      BitOfFromBits(bits[..|bits| - 1], k - 1);
    }
  }

  /** Flag `8 j + i` is bit `7 - i` of octet `j`; spare bits are zero. */
  function Octet(flags: seq<bool>, j: nat): byte {
    Pow2Values();
    FromBits(seq(8, i requires 0 <= i < 8 => 8 * j + i < |flags| && flags[8 * j + i]))
  }

  function Mask(flags: seq<bool>): (m: seq<byte>)
    ensures |m| == MaskOctets(|flags|)
  {
    seq(MaskOctets(|flags|), j requires 0 <= j => Octet(flags, j))
  }

  lemma MaskChecks(flags: seq<bool>, idx: nat)
    requires idx < 8 * |Mask(flags)|
    ensures CheckOptional(Mask(flags), idx) <==> idx < |flags| && flags[idx]
  {
    var j, i := idx / 8, idx % 8;
    var octet := seq(8, i requires 0 <= i < 8 => 8 * j + i < |flags| && flags[8 * j + i]);
    assert octet[i] == (8 * j + i < |flags| && flags[8 * j + i]);
    BitOfFromBits(octet, 7 - i);
    CheckIsBit(Mask(flags), idx);
  }

  /** A mask is determined by what `CheckOptional` finds in it. */
  lemma MaskDetermined(m: seq<byte>, flags: seq<bool>)
    requires |m| == MaskOctets(|flags|)
    requires forall idx: nat | idx < 8 * |m| :: CheckOptional(m, idx) <==> idx < |flags| && flags[idx]
    ensures m == Mask(flags)
  {
    var m' := Mask(flags);
    forall j | 0 <= j < |m| ensures m[j] == m'[j] {
      forall k: nat | k < 8 ensures Bit(m[j], k) == Bit(m'[j], k) {
        var idx := 8 * j + (7 - k);
        assert idx / 8 == j && idx % 8 == 7 - k;
        CheckIsBit(m, idx);
        CheckIsBit(m', idx);
        MaskChecks(flags, idx);
        assert CheckOptional(m, idx) <==> idx < |flags| && flags[idx];
      }
      Pow2Values();
      BitsDetermine(m[j], m'[j], 8);
    }
  }

  /** `setOptional` on one octet sets that flag and no other. */
  lemma SetIsOneFlag(b: byte, idx: nat, other: nat)
    requires idx / 8 == other / 8
    ensures Bit(On8(OR, b, MaskBit(idx)), 7 - other % 8) == if other == idx then 1 else Bit(b, 7 - other % 8)
  {
    BitwiseBit(OR, b, MaskBit(idx), 7 - other % 8);
    PowerBits(7 - idx % 8, 7 - other % 8);
  }
}
