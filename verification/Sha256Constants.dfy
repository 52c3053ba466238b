/** The constants of SHA-256: square roots and cube roots of the first primes (sections 4.2.2 and 5.3.3). */
module Sha256Constants {
  import opened Bits
  import opened Sha256Spec

  const TWO_32 := 0x1_0000_0000

  /** `x` is the square root of `p`, scaled by 2^32 and rounded down. */
  predicate IsSquareRoot(p: nat, x: nat) {
    x * x <= p * TWO_32 * TWO_32 < (x + 1) * (x + 1)
  }

  /** `x` is the cube root of `p`, scaled by 2^32 and rounded down. */
  predicate IsCubeRoot(p: nat, x: nat) {
    x * x * x <= p * TWO_32 * TWO_32 * TWO_32 < (x + 1) * (x + 1) * (x + 1)
  }

  /** `w` is the fraction of the root of `p` whose whole part is `whole`. */
  predicate SquareFraction(p: nat, whole: nat, w: Word) { IsSquareRoot(p, whole * TWO_32 + w) }
  predicate CubeFraction(p: nat, whole: nat, w: Word) { IsCubeRoot(p, whole * TWO_32 + w) }

  /** `w` is the fraction of the cube root of `p`. */
  ghost predicate IsFraction(p: nat, w: Word) { exists whole :: CubeFraction(p, whole, w) }

  /** The first 64 primes. */
  const P0: seq<nat> := [2, 3, 5, 7, 11, 13, 17, 19, 23, 29, 31, 37, 41, 43, 47, 53]
  const P1: seq<nat> := [59, 61, 67, 71, 73, 79, 83, 89, 97, 101, 103, 107, 109, 113, 127, 131]
  const P2: seq<nat> := [137, 139, 149, 151, 157, 163, 167, 173, 179, 181, 191, 193, 197, 199, 211, 223]
  const P3: seq<nat> := [227, 229, 233, 239, 241, 251, 257, 263, 269, 271, 277, 281, 283, 293, 307, 311]

  function Primes(): (p: seq<nat>)
    ensures |p| == 64
  {
    P0 + P1 + P2 + P3
  }

  /** The initial hash value: fractions of the square roots of the first eight primes. */
  lemma InitialHashValue()
    ensures SquareFraction(2, 1, H0.a) && SquareFraction(3, 1, H0.b) && SquareFraction(5, 2, H0.c)
    ensures SquareFraction(7, 2, H0.d) && SquareFraction(11, 3, H0.e) && SquareFraction(13, 3, H0.f)
    ensures SquareFraction(17, 4, H0.g) && SquareFraction(19, 4, H0.h)
  {
  }

  lemma Roots0()
    ensures forall i | 0 <= i < 16 :: IsFraction(P0[i], K0()[i])
  {
    assert CubeFraction(2, 1, 0x428a2f98);
    assert CubeFraction(3, 1, 0x71374491);
    assert CubeFraction(5, 1, 0xb5c0fbcf);
    assert CubeFraction(7, 1, 0xe9b5dba5);
    assert CubeFraction(11, 2, 0x3956c25b);
    assert CubeFraction(13, 2, 0x59f111f1);
    assert CubeFraction(17, 2, 0x923f82a4);
    assert CubeFraction(19, 2, 0xab1c5ed5);
    assert CubeFraction(23, 2, 0xd807aa98);
    assert CubeFraction(29, 3, 0x12835b01);
    assert CubeFraction(31, 3, 0x243185be);
    assert CubeFraction(37, 3, 0x550c7dc3);
    assert CubeFraction(41, 3, 0x72be5d74);
    assert CubeFraction(43, 3, 0x80deb1fe);
    assert CubeFraction(47, 3, 0x9bdc06a7);
    assert CubeFraction(53, 3, 0xc19bf174);
  }

  lemma Roots1()
    ensures forall i | 0 <= i < 16 :: IsFraction(P1[i], K1()[i])
  {
    assert CubeFraction(59, 3, 0xe49b69c1);
    assert CubeFraction(61, 3, 0xefbe4786);
    assert CubeFraction(67, 4, 0x0fc19dc6);
    assert CubeFraction(71, 4, 0x240ca1cc);
    assert CubeFraction(73, 4, 0x2de92c6f);
    assert CubeFraction(79, 4, 0x4a7484aa);
    assert CubeFraction(83, 4, 0x5cb0a9dc);
    assert CubeFraction(89, 4, 0x76f988da);
    assert CubeFraction(97, 4, 0x983e5152);
    assert CubeFraction(101, 4, 0xa831c66d);
    assert CubeFraction(103, 4, 0xb00327c8);
    assert CubeFraction(107, 4, 0xbf597fc7);
    assert CubeFraction(109, 4, 0xc6e00bf3);
    assert CubeFraction(113, 4, 0xd5a79147);
    assert CubeFraction(127, 5, 0x06ca6351);
    assert CubeFraction(131, 5, 0x14292967);
  }

  lemma Roots2()
    ensures forall i | 0 <= i < 16 :: IsFraction(P2[i], K2()[i])
  {
    assert CubeFraction(137, 5, 0x27b70a85);
    assert CubeFraction(139, 5, 0x2e1b2138);
    assert CubeFraction(149, 5, 0x4d2c6dfc);
    assert CubeFraction(151, 5, 0x53380d13);
    assert CubeFraction(157, 5, 0x650a7354);
    assert CubeFraction(163, 5, 0x766a0abb);
    assert CubeFraction(167, 5, 0x81c2c92e);
    assert CubeFraction(173, 5, 0x92722c85);
    assert CubeFraction(179, 5, 0xa2bfe8a1);
    assert CubeFraction(181, 5, 0xa81a664b);
    assert CubeFraction(191, 5, 0xc24b8b70);
    assert CubeFraction(193, 5, 0xc76c51a3);
    assert CubeFraction(197, 5, 0xd192e819);
    assert CubeFraction(199, 5, 0xd6990624);
    assert CubeFraction(211, 5, 0xf40e3585);
    assert CubeFraction(223, 6, 0x106aa070);
  }

  lemma Roots3()
    ensures forall i | 0 <= i < 16 :: IsFraction(P3[i], K3()[i])
  {
    assert CubeFraction(227, 6, 0x19a4c116);
    assert CubeFraction(229, 6, 0x1e376c08);
    assert CubeFraction(233, 6, 0x2748774c);
    assert CubeFraction(239, 6, 0x34b0bcb5);
    assert CubeFraction(241, 6, 0x391c0cb3);
    assert CubeFraction(251, 6, 0x4ed8aa4a);
    assert CubeFraction(257, 6, 0x5b9cca4f);
    assert CubeFraction(263, 6, 0x682e6ff3);
    assert CubeFraction(269, 6, 0x748f82ee);
    assert CubeFraction(271, 6, 0x78a5636f);
    assert CubeFraction(277, 6, 0x84c87814);
    assert CubeFraction(281, 6, 0x8cc70208);
    assert CubeFraction(283, 6, 0x90befffa);
    assert CubeFraction(293, 6, 0xa4506ceb);
    assert CubeFraction(307, 6, 0xbef9a3f7);
    assert CubeFraction(311, 6, 0xc67178f2);
  }

  /** The constants of the rounds: fractions of the cube roots of the first 64 primes. */
  lemma RoundConstants(i: nat)
    requires i < 64
    ensures IsFraction(Primes()[i], K()[i])
  {
    hide IsFraction, K0, K1, K2, K3;
    Roots0();
    Roots1();
    Roots2();
    Roots3();
  }
}
