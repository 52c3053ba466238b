/** SHA-256 as FIPS 180-4 defines it, for messages of whole bytes. */
module Sha256Spec {
  import opened Protocol
  import opened Bits
  import opened Framing

  const BLOCK := 64
  const DIGEST := 32
  const ROUNDS := 64

  /** The constants of section 4.2.2. */
  function K0(): (k: seq<Word>)
    ensures |k| == 16
  {
    [0x428a2f98, 0x71374491, 0xb5c0fbcf, 0xe9b5dba5, 0x3956c25b, 0x59f111f1, 0x923f82a4, 0xab1c5ed5,
     0xd807aa98, 0x12835b01, 0x243185be, 0x550c7dc3, 0x72be5d74, 0x80deb1fe, 0x9bdc06a7, 0xc19bf174]
  }

  function K1(): (k: seq<Word>)
    ensures |k| == 16
  {
    [0xe49b69c1, 0xefbe4786, 0x0fc19dc6, 0x240ca1cc, 0x2de92c6f, 0x4a7484aa, 0x5cb0a9dc, 0x76f988da,
     0x983e5152, 0xa831c66d, 0xb00327c8, 0xbf597fc7, 0xc6e00bf3, 0xd5a79147, 0x06ca6351, 0x14292967]
  }

  function K2(): (k: seq<Word>)
    ensures |k| == 16
  {
    [0x27b70a85, 0x2e1b2138, 0x4d2c6dfc, 0x53380d13, 0x650a7354, 0x766a0abb, 0x81c2c92e, 0x92722c85,
     0xa2bfe8a1, 0xa81a664b, 0xc24b8b70, 0xc76c51a3, 0xd192e819, 0xd6990624, 0xf40e3585, 0x106aa070]
  }

  function K3(): (k: seq<Word>)
    ensures |k| == 16
  {
    [0x19a4c116, 0x1e376c08, 0x2748774c, 0x34b0bcb5, 0x391c0cb3, 0x4ed8aa4a, 0x5b9cca4f, 0x682e6ff3,
     0x748f82ee, 0x78a5636f, 0x84c87814, 0x8cc70208, 0x90befffa, 0xa4506ceb, 0xbef9a3f7, 0xc67178f2]
  }

  function K(): (k: seq<Word>)
    ensures |k| == ROUNDS
  {
    K0() + K1() + K2() + K3()
  }

  /** The working variables a .. h, and the hash value H0 .. H7. */
  datatype Vars = Vars(a: Word, b: Word, c: Word, d: Word, e: Word, f: Word, g: Word, h: Word)

  /** The initial hash value of section 5.3.3. */
  const H0 := Vars(0x6a09e667, 0xbb67ae85, 0x3c6ef372, 0xa54ff53a, 0x510e527f, 0x9b05688c, 0x1f83d9ab, 0x5be0cd19)

  function And(x: Word, y: Word): Word { On32(AND, x, y) }
  function Or(x: Word, y: Word): Word { On32(OR, x, y) }
  function Xor(x: Word, y: Word): Word { On32(XOR, x, y) }
  function RotR(x: Word, n: nat): Word
    requires n <= 32
  {
    Or(Shr(x, n), Shl(x, 32 - n))
  }

  // Section 4.1.2
  function Ch(x: Word, y: Word, z: Word): Word { Xor(And(x, y), And(Not(x), z)) }
  function Maj(x: Word, y: Word, z: Word): Word { Xor(Xor(And(x, y), And(x, z)), And(y, z)) }
  function BigSigma0(x: Word): Word { Xor(Xor(RotR(x, 2), RotR(x, 13)), RotR(x, 22)) }
  function BigSigma1(x: Word): Word { Xor(Xor(RotR(x, 6), RotR(x, 11)), RotR(x, 25)) }
  function SmallSigma0(x: Word): Word { Xor(Xor(RotR(x, 7), RotR(x, 18)), Shr(x, 3)) }
  function SmallSigma1(x: Word): Word { Xor(Xor(RotR(x, 17), RotR(x, 19)), Shr(x, 10)) }

  /** Word `t` of a block: its four bytes, most significant first. */
  function WordAt(block: seq<byte>, t: nat): Word
    requires 4 * t + 3 < |block|
  {
    BigEndian(block[4 * t], block[4 * t + 1], block[4 * t + 2], block[4 * t + 3])
  }

  function BigEndian(b0: byte, b1: byte, b2: byte, b3: byte): Word {
    0x100_0000 * b0 + 0x1_0000 * b1 + 0x100 * b2 + b3
  }

  /** The message schedule, step 1 of section 6.2.2. */
  function W(block: seq<byte>, t: nat): Word
    requires |block| == BLOCK && t < ROUNDS
  {
    if t < 16 then WordAt(block, t)
    else NextWord(W(block, t - 2), W(block, t - 7), W(block, t - 15), W(block, t - 16))
  }

  /** Shifting four bytes into place and or-ing them gives the big-endian word. */
  lemma PackedIsBigEndian(b0: byte, b1: byte, b2: byte, b3: byte)
    ensures Or(Or(Or(Shl(b0, 24), Shl(b1, 16)), Shl(b2, 8)), b3) == BigEndian(b0, b1, b2, b3)
  {
    hide Bitwise, Pow2;
    Pow2Values();
    var high := 0x100 * b0 + b1;
    assert Shl(b0, 24) == b0 * Pow2(24) && Shl(b1, 16) == b1 * Pow2(16) && Shl(b2, 8) == b2 * Pow2(8);
    OrDisjoint(b0, b1 * Pow2(16), 24);
    assert Or(Shl(b0, 24), Shl(b1, 16)) == high * Pow2(16);
    OrDisjoint(high, b2 * Pow2(8), 16);
    assert Or(high * Pow2(16), Shl(b2, 8)) == (0x100 * high + b2) * Pow2(8);
    OrDisjoint(0x100 * high + b2, b3, 8);
  }

  function NextWord(w2: Word, w7: Word, w15: Word, w16: Word): Word {
    Add(Add(Add(SmallSigma1(w2), w7), SmallSigma0(w15)), w16)
  }

  /** One turn of step 3. */
  function Round(v: Vars, k: Word, w: Word): Vars {
    var t1, t2 := T1(v, k, w), T2(v);
    Vars(Add(t1, t2), v.a, v.b, v.c, Add(v.d, t1), v.e, v.f, v.g)
  }

  function T1(v: Vars, k: Word, w: Word): Word {
    Add(Add(Add(Add(v.h, BigSigma1(v.e)), Ch(v.e, v.f, v.g)), k), w)
  }


  function T2(v: Vars): Word { Add(BigSigma0(v.a), Maj(v.a, v.b, v.c)) }

  function Schedule(block: seq<byte>): (ws: seq<Word>)
    requires |block| == BLOCK
    ensures |ws| == ROUNDS
  {
    seq(ROUNDS, t requires 0 <= t < ROUNDS => W(block, t))
  }

  /** The working variables after one turn for each word of `ws`, with the constants `k`. */
  function AfterRounds(k: seq<Word>, v: Vars, ws: seq<Word>): Vars
    requires |ws| <= |k|
  {
    if ws == [] then v
    else Round(AfterRounds(k, v, ws[..|ws| - 1]), k[|ws| - 1], ws[|ws| - 1])
  }

  /** Steps 2 to 4: the next intermediate hash value. */
  function Compress(h: Vars, block: seq<byte>): Vars
    requires |block| == BLOCK
  {
    Sum(h, AfterRounds(K(), h, Schedule(block)))
  }

  function Sum(u: Vars, v: Vars): Vars {
    Vars(Add(u.a, v.a), Add(u.b, v.b), Add(u.c, v.c), Add(u.d, v.d),
         Add(u.e, v.e), Add(u.f, v.f), Add(u.g, v.g), Add(u.h, v.h))
  }

  /** The hash value after the first `q` blocks of `data`. */
  function AfterBlocks(data: seq<byte>, q: nat): Vars
    requires BLOCK * q <= |data|
  {
    if q == 0 then H0 else Compress(AfterBlocks(data, q - 1), data[BLOCK * (q - 1)..BLOCK * q])
  }

  /** Byte `j` of the 8-byte big-endian form of `n`. */
  function LengthByte(n: nat, j: nat): byte
    requires j < 8
  {
    (n / Span(7 - j) % 256)
  }

  function LengthBytes(n: nat): (b: seq<byte>)
    ensures |b| == 8
  {
    seq(8, j requires 0 <= j < 8 => LengthByte(n, j))
  }

  /** Number of zero bytes that bring a message of `n` bytes and its 0x80 to 56 modulo 64. */
  function ZeroCount(n: nat): nat { (119 - n % BLOCK) % BLOCK }

  /** The padding of section 5.1.1. */
  function Pad(m: seq<byte>): seq<byte> {
    m + [0x80] + Zeros(ZeroCount(|m|)) + LengthBytes(8 * |m|)
  }

  function WordBytes(w: Word): seq<byte> {
    [w / 0x100_0000, w / 0x1_0000 % 0x100, w / 0x100 % 0x100, w % 0x100]
  }

  function DigestOf(h: Vars): (d: seq<byte>)
    ensures |d| == DIGEST
  {
    WordBytes(h.a) + WordBytes(h.b) + WordBytes(h.c) + WordBytes(h.d)
    + WordBytes(h.e) + WordBytes(h.f) + WordBytes(h.g) + WordBytes(h.h)
  }

  /** SHA-256 of section 6.2. */
  function Sha256(m: seq<byte>): (d: seq<byte>)
    ensures |d| == DIGEST
  {
    HashOf(Pad(m))
  }

  /** The digest after all whole blocks of `data`. */
  function HashOf(data: seq<byte>): (d: seq<byte>)
    ensures |d| == DIGEST
  {
    DigestOf(AfterBlocks(data, |data| / BLOCK))
  }

  /** The zero bytes are as few as section 5.1.1 asks for. */
  lemma ZeroCountIsLeast(n: nat, k: nat)
    ensures (n + 1 + ZeroCount(n)) % BLOCK == 56
    ensures (n + 1 + k) % BLOCK == 56 ==> ZeroCount(n) <= k
  {
  }

  /** What comes after the first `q` blocks does not matter to them. */
  lemma {:induction false} BlocksOfPrefix(data: seq<byte>, more: seq<byte>, q: nat)
    requires BLOCK * q <= |data|
    ensures AfterBlocks(data + more, q) == AfterBlocks(data, q)
  {
    hide Compress;
    if q > 0 {
      BlocksOfPrefix(data, more, q - 1);
      assert (data + more)[BLOCK * (q - 1)..BLOCK * q] == data[BLOCK * (q - 1)..BLOCK * q];
    }
  }
}

/** The streaming implementation: a buffer of 64 bytes, a padding loop and an in-place compression. */
module Sha256 {
  import opened Protocol
  import opened Bits
  import opened Framing
  import opened Sha256Spec

  const U64 := 0x1_0000_0000_0000_0000

  /** The 64-bit count of bits after `n` more bytes. */
  function AddBits(bits: nat, n: nat): nat { (bits + 8 * n) % U64 }

  class Sha256Context {
    var bitLen: nat
    var bufUsed: nat
    var buf: array<byte>
    var h: Vars
    /** All bytes pushed so far. */
    ghost var stream: seq<byte>

    constructor ()
      ensures Valid() && fresh(buf) && stream == [] && bitLen == 0
    {
      bitLen, bufUsed, h := 0, 0, H0;
      buf := new byte[BLOCK](_ => 0);
      stream := [];
    }

    /** Full blocks are in the hash value, the rest waits in the buffer. */
    ghost predicate Valid()
      reads this, buf
    {
      && buf.Length == BLOCK && bufUsed == |stream| % BLOCK
      && h == AfterBlocks(stream, |stream| / BLOCK)
      && buf[..bufUsed] == stream[BLOCK * (|stream| / BLOCK)..]
    }

    method CompressBlock()
      requires buf.Length == BLOCK
      modifies this`h
      ensures h == Compress(old(h), buf[..])
    {
      ghost var block := buf[..];
      var w := new Word[ROUNDS];
      FillSchedule(w);
      assert w[..] == Schedule(block);
      RunRounds(K(), w);
      assert buf[..] == block;
    }

    method FillSchedule(w: array<Word>)
      requires buf.Length == BLOCK && w.Length == ROUNDS
      modifies w
      ensures forall i | 0 <= i < ROUNDS :: w[i] == W(buf[..], i)
    {
      hide Or, Shl, BigEndian, NextWord;
      ghost var block := buf[..];
      var t := 0;
      while t < 16
        invariant t <= 16 && forall i | 0 <= i < t :: w[i] == W(block, i)
      {
        w[t] := Or(Or(Or(Shl(buf[t * 4], 24), Shl(buf[t * 4 + 1], 16)), Shl(buf[t * 4 + 2], 8)), buf[t * 4 + 3]);
        PackedIsBigEndian(buf[t * 4], buf[t * 4 + 1], buf[t * 4 + 2], buf[t * 4 + 3]);
        t := t + 1;
      }
      while t < ROUNDS
        invariant 16 <= t <= ROUNDS && forall i | 0 <= i < t :: w[i] == W(block, i)
      {
        w[t] := NextWord(w[t - 2], w[t - 7], w[t - 15], w[t - 16]);
        t := t + 1;
      }
    }

    /** The eight assignments of one turn, each overwriting a variable the next one still reads elsewhere. */
    static method Turn(v0: Vars, k: Word, w: Word) returns (v: Vars)
      ensures v == Round(v0, k, w)
    {
      v := v0;
      var t1, t2 := T1(v, k, w), T2(v);
      v := v.(h := v.g);
      v := v.(g := v.f);
      v := v.(f := v.e);
      v := v.(e := Add(v.d, t1));
      v := v.(d := v.c);
      v := v.(c := v.b);
      v := v.(b := v.a);
      v := v.(a := Add(t1, t2));
    }

    method RunRounds(k: seq<Word>, w: array<Word>)
      requires |k| == w.Length == ROUNDS
      modifies this`h
      ensures h == Sum(old(h), AfterRounds(k, old(h), w[..]))
    {
      hide Round, Sum;
      var v := h;
      var t := 0;
      while t < ROUNDS
        invariant t <= ROUNDS && h == old(h) && v == AfterRounds(k, h, w[..t])
      {
        v := Turn(v, k[t], w[t]);
        assert w[..t + 1][..t] == w[..t];
        t := t + 1;
      }
      assert w[..t] == w[..];
      h := Sum(h, v);
    }

    /** What the stream looks like to the block structure after one more full buffer or a longer tail. */
    lemma Extended(before: seq<byte>, part: seq<byte>)
      requires |before| % BLOCK + |part| <= BLOCK
      ensures |before + part| % BLOCK == (|before| % BLOCK + |part|) % BLOCK
      ensures |before| % BLOCK + |part| < BLOCK ==> |before + part| / BLOCK == |before| / BLOCK
      ensures |before| % BLOCK + |part| == BLOCK ==>
        |before + part| / BLOCK == |before| / BLOCK + 1 && BLOCK * (|before| / BLOCK + 1) == |before + part|
      ensures AfterBlocks(before + part, |before| / BLOCK) == AfterBlocks(before, |before| / BLOCK)
    {
      hide AfterBlocks;
      BlocksOfPrefix(before, part, |before| / BLOCK);
    }

    lemma TailExtended(s: seq<byte>, part: seq<byte>, from: nat)
      requires from <= |s|
      ensures (s + part)[from..] == s[from..] + part
    {
    }

    method CopyIn(part: seq<byte>)
      requires buf.Length == BLOCK && bufUsed + |part| <= BLOCK
      modifies buf
      ensures buf[..bufUsed + |part|] == old(buf[..bufUsed]) + part
    {
      forall k | 0 <= k < |part| {
        buf[bufUsed + k] := part[k];
      }
      forall k | 0 <= k < bufUsed + |part|
        ensures buf[k] == (old(buf[..bufUsed]) + part)[k]
      {
        if k >= bufUsed { assert buf[bufUsed + (k - bufUsed)] == part[k - bufUsed]; }
      }
    }

    /** Appends `part` to the buffer and compresses the buffer when it is full. */
    method Append(part: seq<byte>)
      requires Valid() && bufUsed + |part| <= BLOCK
      modifies this`bufUsed, this`h, this`stream, buf
      ensures Valid() && stream == old(stream) + part
    {
      hide Compress;
      Extended(stream, part);
      CopyIn(part);
      ghost var q := |stream| / BLOCK;
      TailExtended(stream, part, BLOCK * q);
      stream := stream + part;
      bufUsed := bufUsed + |part|;
      if bufUsed == BLOCK {
        assert buf[..] == stream[BLOCK * q..BLOCK * (q + 1)];
        CompressBlock();
        bufUsed := 0;
      }
    }

    method PushByteNopad(b: byte)
      requires Valid()
      modifies this`bufUsed, this`h, this`stream, buf
      ensures Valid() && stream == old(stream) + [b]
    {
      Append([b]);
    }

    /** Takes in any number of bytes; how a message is cut into calls does not matter. */
    method Consume(data: seq<byte>)
      requires Valid()
      modifies this`bufUsed, this`h, this`stream, this`bitLen, buf
      ensures Valid() && stream == old(stream) + data && bitLen == AddBits(old(bitLen), |data|)
    {
      hide AfterBlocks;
      bitLen := AddBits(bitLen, |data|);
      var i := 0;
      assert stream == old(stream) + data[..0];
      while i < |data|
        invariant Valid() && i <= |data| && stream == old(stream) + data[..i]
        invariant bitLen == AddBits(old(bitLen), |data|)
      {
        var n := if BLOCK - bufUsed < |data| - i then BLOCK - bufUsed else |data| - i;
        Append(data[i..i + n]);
        assert old(stream) + data[..i] + data[i..i + n] == old(stream) + data[..i + n];
        i := i + n;
      }
      assert data[..i] == data;
    }

    /** The padding loop may stop exactly when there are enough zeros. */
    lemma EnoughZeros(n: nat, k: nat, used: nat)
      requires used == (n + 1 + k) % BLOCK && k <= ZeroCount(n)
      ensures used % BLOCK == BLOCK - 8 <==> k == ZeroCount(n)
    {
      hide ZeroCount;
      ZeroCountIsLeast(n, k);
    }

    /** The padding loop of `finish`: zero bytes up to 56 modulo 64. */
    method PushZeros(ghost m: seq<byte>)
      requires Valid() && stream == m + [0x80]
      modifies this`bufUsed, this`h, this`stream, buf
      ensures Valid() && stream == m + [0x80] + Zeros(ZeroCount(|m|))
    {
      hide AfterBlocks;
      ghost var k := 0;
      assert stream == m + [0x80] + Zeros(0);
      while bufUsed % BLOCK != BLOCK - 8
        invariant Valid() && k <= ZeroCount(|m|) && stream == m + [0x80] + Zeros(k)
        decreases ZeroCount(|m|) - k
      {
        EnoughZeros(|m|, k, bufUsed);
        PushByteNopad(0);
        assert m + [0x80] + Zeros(k) + [0] == m + [0x80] + Zeros(k + 1);
        k := k + 1;
      }
      EnoughZeros(|m|, k, bufUsed);
    }

    method PushLength(totalBits: nat)
      requires Valid()
      modifies this`bufUsed, this`h, this`stream, buf
      ensures Valid() && stream == old(stream) + LengthBytes(totalBits)
    {
      hide AfterBlocks;
      ghost var padded := stream;
      var j := 0;
      assert stream == padded + LengthBytes(totalBits)[..0];
      while j < 8
        invariant Valid() && j <= 8 && stream == padded + LengthBytes(totalBits)[..j]
      {
        PushByteNopad(totalBits / Span(7 - j) % 256);
        assert LengthBytes(totalBits)[..j + 1] == LengthBytes(totalBits)[..j] + [LengthByte(totalBits, j)];
        j := j + 1;
      }
      assert LengthBytes(totalBits)[..j] == LengthBytes(totalBits);
    }

    method ReadDigest() returns (digest: seq<byte>)
      requires Valid()
      ensures digest == HashOf(stream)
    {
      hide AfterBlocks, DigestOf;
      digest := DigestOf(h);
    }

    lemma PaddedIsWhole(n: nat, all: nat)
      requires all == n + 1 + ZeroCount(n) + 8
      ensures all % BLOCK == 0
    {
      hide ZeroCount;
      ZeroCountIsLeast(n, 0);
    }

    /** Pads the stream with the length counted so far, and reads off the digest. */
    method Finish() returns (digest: seq<byte>)
      requires Valid()
      modifies this`bufUsed, this`h, this`stream, buf
      ensures Valid() && stream == old(stream) + [0x80] + Zeros(ZeroCount(|old(stream)|)) + LengthBytes(bitLen)
      ensures |stream| % BLOCK == 0 && digest == HashOf(stream)
    {
      hide Valid, HashOf, LengthBytes, Zeros, ZeroCount;
      ghost var m := stream;
      var totalBits := bitLen;
      PushByteNopad(0x80);
      PushZeros(m);
      PushLength(totalBits);
      PaddedIsWhole(|m|, |stream|);
      digest := ReadDigest();
    }
  }

  /** Finishing a context that took in exactly the message `m`. */
  method FinishMessage(ctx: Sha256Context, ghost m: seq<byte>) returns (out: seq<byte>)
    requires ctx.Valid() && ctx.stream == m && ctx.bitLen == 8 * |m|
    modifies ctx, ctx.buf
    ensures out == Sha256Spec.Sha256(m)
  {
    hide Sha256Context.Valid, HashOf, LengthBytes, Zeros, ZeroCount;
    out := ctx.Finish();
  }

  lemma BitsFit(n: nat)
    requires 8 * n < U64
    ensures AddBits(0, n) == 8 * n
  {
  }

  lemma BitsAdd(a: nat, b: nat)
    ensures AddBits(AddBits(0, a), b) == AddBits(0, a + b)
  {
  }

  /** The whole message at once. */
  method Sha256Hash(data: seq<byte>) returns (out: seq<byte>)
    requires 8 * |data| < U64
    ensures out == Sha256Spec.Sha256(data)
  {
    hide Sha256Context.Valid, Sha256Spec.Sha256, AfterBlocks, AddBits;
    var ctx := new Sha256Context();
    BitsFit(0);
    BitsFit(|data|);
    if |data| > 0 {
      ctx.Consume(data);
    }
    assert ctx.stream == data && ctx.bitLen == 8 * |data|;
    out := FinishMessage(ctx, data);
  }

  /** The state is a function of the stream: contexts fed the same bytes in different pieces agree. */
  lemma CutsDoNotMatter(x: Sha256Context, y: Sha256Context)
    requires x.Valid() && y.Valid() && x.stream == y.stream
    ensures x.h == y.h && x.bufUsed == y.bufUsed && x.buf[..x.bufUsed] == y.buf[..y.bufUsed]
  {
  }

  lemma OneMorePiece(pieces: seq<seq<byte>>, i: nat)
    requires i < |pieces|
    ensures Joined(pieces[..i + 1]) == Joined(pieces[..i]) + pieces[i]
  {
    JoinedMore(pieces[..i], pieces[i]);
    assert pieces[..i + 1] == pieces[..i] + [pieces[i]];
  }

  lemma NothingYet(pieces: seq<seq<byte>>)
    ensures Joined(pieces[..0]) == [] && AddBits(0, 0) == 0
  {
  }

  method ConsumeAll(ctx: Sha256Context, pieces: seq<seq<byte>>)
    requires ctx.Valid() && ctx.stream == [] && ctx.bitLen == 0
    modifies ctx`bufUsed, ctx`h, ctx`stream, ctx`bitLen, ctx.buf
    ensures ctx.Valid() && ctx.stream == Joined(pieces) && ctx.bitLen == AddBits(0, |ctx.stream|)
  {
    hide Sha256Context.Valid, AddBits, Joined;
    var i := 0;
    NothingYet(pieces);
    while i < |pieces|
      invariant i <= |pieces| && ctx.Valid()
      invariant ctx.stream == Joined(pieces[..i]) && ctx.bitLen == AddBits(0, |ctx.stream|)
    {
      BitsAdd(|ctx.stream|, |pieces[i]|);
      OneMorePiece(pieces, i);
      ctx.Consume(pieces[i]);
      i := i + 1;
    }
    assert pieces[..i] == pieces;
  }

  /** A message that arrives in pieces has the digest of the joined message. */
  method HashInPieces(pieces: seq<seq<byte>>) returns (out: seq<byte>)
    requires 8 * |Joined(pieces)| < U64
    ensures out == Sha256Spec.Sha256(Joined(pieces))
  {
    hide Sha256Context.Valid, Sha256Spec.Sha256, AddBits, Joined;
    var ctx := new Sha256Context();
    ConsumeAll(ctx, pieces);
    BitsFit(|Joined(pieces)|);
    out := FinishMessage(ctx, Joined(pieces));
  }
}
