/** Unsigned machine words as integers, with the bitwise operators defined bit by bit. */
module Bits {
  import opened Protocol

  type Word = x: int | 0 <= x < 0x1_0000_0000

  function Pow2(n: nat): (p: nat)
    ensures p > 0
  {
    if n == 0 then 1 else 2 * Pow2(n - 1)
  }

  /** 256 to the `n`: the number of values `n` octets can hold. */
  function Span(n: nat): (p: nat)
    ensures p > 0
  {
    if n == 0 then 1 else 256 * Span(n - 1)
  }

  datatype Operator = AND | OR | XOR

  function OnBit(op: Operator, a: int, b: int): (c: int)
    ensures c == 0 || c == 1
  {
    match op
    case AND => if a == 1 && b == 1 then 1 else 0
    case OR => if a == 1 || b == 1 then 1 else 0
    case XOR => if a != b then 1 else 0
  }

  /** `x op y`, bit by bit. */
  function Bitwise(op: Operator, x: nat, y: nat): nat
    decreases x + y
  {
    if x == 0 && y == 0 then 0 else 2 * Bitwise(op, x / 2, y / 2) + OnBit(op, x % 2, y % 2)
  }

  lemma {:induction false} BitwiseFits(op: Operator, x: nat, y: nat, n: nat)
    requires x < Pow2(n) && y < Pow2(n)
    ensures Bitwise(op, x, y) < Pow2(n)
  {
    if n > 0 {
      BitwiseFits(op, x / 2, y / 2, n - 1);
    }
  }

  lemma Pow2Values()
    ensures Pow2(8) == 0x100 && Pow2(16) == 0x1_0000 && Pow2(24) == 0x100_0000 && Pow2(32) == 0x1_0000_0000
  {
    assert Pow2(4) == 0x10 && Pow2(12) == 0x1000;
    assert Pow2(20) == 0x10_0000 && Pow2(28) == 0x1000_0000;
  }

  function On32(op: Operator, x: Word, y: Word): Word {
    Pow2Values();
    BitwiseFits(op, x, y, 32);
    Bitwise(op, x, y)
  }

  function On8(op: Operator, x: byte, y: byte): byte {
    Pow2Values();
    BitwiseFits(op, x, y, 8);
    Bitwise(op, x, y)
  }

  function Not(x: Word): Word { 0xffff_ffff - x }
  function Add(x: Word, y: Word): Word { (x + y) % 0x1_0000_0000 }
  function Shl(x: Word, n: nat): Word { x * Pow2(n) % 0x1_0000_0000 }
  function Shr(x: Word, n: nat): Word {
    ShiftedIsSmaller(x, n);
    x / Pow2(n)
  }

  lemma {:induction false} ShiftedIsSmaller(x: nat, n: nat)
    ensures 0 <= x / Pow2(n) <= x
  {
    DivisionShrinks(x, Pow2(n));
  }

  lemma DivisionShrinks(x: nat, p: nat)
    requires p > 0
    ensures 0 <= x / p <= x
  {
    var q := x / p;
    assert x == p * q + x % p;
    ProductGrows(p, q);
  }

  lemma ProductGrows(p: nat, q: nat)
    requires p > 0
    ensures p * q >= q
  {
    assert p * q == (p - 1) * q + q;
  }

  /** Or-ing keeps every set bit, and xor sees every difference. */
  lemma {:induction false} ZeroTests(x: nat, y: nat)
    ensures Bitwise(OR, x, y) == 0 <==> x == 0 && y == 0
    ensures Bitwise(XOR, x, y) == 0 <==> x == y
    decreases x + y
  {
    if x != 0 || y != 0 {
      ZeroTests(x / 2, y / 2);
      assert x == 2 * (x / 2) + x % 2 && y == 2 * (y / 2) + y % 2;
    }
  }

  lemma {:induction false} OrZero(x: nat)
    ensures Bitwise(OR, x, 0) == x
  {
    if x != 0 {
      OrZero(x / 2);
    }
  }

  /** Or-ing numbers whose bits do not overlap adds them. */
  lemma {:induction false} OrDisjoint(x: nat, y: nat, k: nat)
    requires y < Pow2(k)
    ensures Bitwise(OR, x * Pow2(k), y) == x * Pow2(k) + y
  {
    if k == 0 {
      OrZero(x);
    } else {
      var half := x * Pow2(k - 1);
      assert x * Pow2(k) == 2 * half;
      OrDisjoint(x, y / 2, k - 1);
    }
  }
}
