/** Byte strings: big-endian fields, zeros and concatenation. */
module Framing {
  import opened Protocol
  import opened Cum

  function Be16(v: nat): (s: seq<byte>)
    ensures |s| == 2
  {
    [(v / 0x100) % 0x100, v % 0x100]
  }

  function Be16Value(s: seq<byte>): nat
    requires |s| == 2
  {
    0x100 * (s[0] as int) + s[1]
  }

  function Be32(v: nat): (s: seq<byte>)
    ensures |s| == 4
  {
    [(v / 0x100_0000) % 0x100, (v / 0x1_0000) % 0x100, (v / 0x100) % 0x100, v % 0x100]
  }

  function Be32Value(s: seq<byte>): (v: nat)
    requires |s| == 4
    ensures v < 0x1_0000_0000
  {
    0x100_0000 * (s[0] as int) + 0x1_0000 * (s[1] as int) + 0x100 * (s[2] as int) + s[3]
  }

  lemma Be16ReadsBack(v: nat)
    ensures Be16Value(Be16(v)) == v % 0x1_0000
  {
  }

  lemma Be32ReadsBack(v: nat)
    ensures Be32Value(Be32(v)) == v % 0x1_0000_0000
  {
    var a := v / 0x100;
    var b := a / 0x100;
    var c := b / 0x100;
    assert v / 0x1_0000 == b && v / 0x100_0000 == c;
    RemainderIs(v, 0x1_0000_0000, c / 0x100,
                0x100_0000 * (c % 0x100) + 0x1_0000 * (b % 0x100) + 0x100 * (a % 0x100) + v % 0x100);
  }

  lemma Be32WritesBack(s: seq<byte>)
    requires |s| == 4
    ensures Be32(Be32Value(s)) == s
  {
    var (a, b) := (0x100 * (s[0] as int) + s[1], 0x1_0000 * (s[0] as int) + 0x100 * (s[1] as int) + s[2]);
    var v := Be32Value(s);
    assert v == 0x100 * b + s[3] && v == 0x1_0000 * a + (0x100 * (s[2] as int) + s[3]);
    assert v / 0x100 == b && v / 0x1_0000 == a && v / 0x100_0000 == s[0] as int;
  }

  function Zeros(k: nat): (z: seq<byte>)
    ensures |z| == k
  {
    seq(k, _ => 0)
  }

  /** All slices, one after the other. */
  function Joined(slices: seq<seq<byte>>): seq<byte> {
    if slices == [] then [] else slices[0] + Joined(slices[1..])
  }

  lemma {:induction false} JoinedMore(slices: seq<seq<byte>>, x: seq<byte>)
    ensures Joined(slices + [x]) == Joined(slices) + x
  {
    if slices == [] {
      assert (slices + [x])[1..] == [];
      assert [] + x == x && x + [] == x;
    } else {
      JoinedMore(slices[1..], x);
      assert (slices + [x])[1..] == slices[1..] + [x];
      assert slices[0] + (Joined(slices[1..]) + x) == slices[0] + Joined(slices[1..]) + x;
    }
  }
}
