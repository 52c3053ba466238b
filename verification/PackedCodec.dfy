/** The codec cursor of the CUM runtime and the generated encoders and decoders, over a byte buffer. */
module PackedCodec {
  import opened Wrappers
  import opened Protocol
  import opened Bits
  import opened Cum
  import opened PackedSchema

  /** `s` with `b` written at `o`. */
  function Overwritten(s: seq<byte>, o: nat, b: seq<byte>): (t: seq<byte>)
    requires o + |b| <= |s|
    ensures |t| == |s|
  {
    s[..o] + b + s[o + |b|..]
  }

  lemma OverwrittenTwice(s: seq<byte>, o: nat, b: seq<byte>, c: seq<byte>)
    requires o + |b| + |c| <= |s|
    ensures Overwritten(Overwritten(s, o, b), o + |b|, c) == Overwritten(s, o, b + c)
  {
  }

  /**
   * A buffer `s` with its cursor at `o` has become `s'` with its cursor at `o'`, and the encoder returned `ok`: it
   * did so exactly when `b` exists and fits, then wrote `b` and nothing else, and in any case left what precedes
   * the old cursor alone.
   */
  ghost predicate Writes(s: seq<byte>, o: nat, s': seq<byte>, o': nat, ok: bool, b: Option<seq<byte>>) {
    && o <= o' <= |s'| == |s|
    && (ok <==> b.Some? && o + |b.value| <= |s|)
    && (ok ==> o' == o + |b.value| && s' == Overwritten(s, o, b.value))
    && (!ok ==> s'[..o] == s[..o])
  }

  lemma WritesBoth(s: seq<byte>, o: nat, s': seq<byte>, o': nat, s'': seq<byte>, o'': nat, ok: bool,
                   b: Option<seq<byte>>, b': Option<seq<byte>>)
    requires Writes(s, o, s', o', true, b) && Writes(s', o', s'', o'', ok, b')
    ensures Writes(s, o, s'', o'', ok, Join(b, b'))
  {
    if ok {
      OverwrittenTwice(s, o, b.value, b'.value);
    } else {
      assert s''[..o] == s''[..o'][..o] && s'[..o] == s[..o];
    }
  }

  lemma CannotWrite(s: seq<byte>, o: nat, b: Option<seq<byte>>)
    requires o <= |s| && (b.Some? ==> o + |b.value| > |s|)
    ensures Writes(s, o, s, o, false, b)
  {
  }

  lemma NothingWritten(s: seq<byte>, o: nat, text: string)
    requires o <= |s|
    ensures Writes(s, o, s, o, true, Some(Codes(text[..0])))
  {
    assert Overwritten(s, o, []) == s && Codes(text[..0]) == [];
  }

  /** Stopping after a part has been written. */
  lemma GaveUp(s: seq<byte>, o: nat, s': seq<byte>, o': nat, b: Option<seq<byte>>)
    requires Writes(s, o, s', o', true, b)
    ensures Writes(s, o, s', o', false, None)
  {
  }

  lemma NothingYet(s: seq<byte>, o: nat, b: Option<seq<byte>>)
    requires o <= |s|
    ensures Writes(s, o, s, o, true, Some([])) && Join(Some([]), b) == b
  {
    assert Overwritten(s, o, []) == s;
    NothingFirst(b);
  }

  lemma NothingFirst(b: Option<seq<byte>>)
    ensures Join(Some([]), b) == b
  {
    assert b.Some? ==> [] + b.value == b.value;
  }

  /** When the first part fails, so does the whole. */
  lemma FailedFirst(s: seq<byte>, o: nat, s': seq<byte>, o': nat, b: Option<seq<byte>>, b': Option<seq<byte>>)
    requires Writes(s, o, s', o', false, b)
    ensures Writes(s, o, s', o', false, Join(b, b'))
  {
  }

  lemma {:induction false} OneMoreItem(e: Schema, items: seq<Value>, i: nat, done: seq<byte>)
    requires WellFormed(e) && i < |items|
    ensures Join(Some(done), EncItems(e, items[i..]))
         == Join(Join(Some(done), Enc(e, items[i])), EncItems(e, items[i + 1..]))
  {
    hide Enc;
    var b, more := Enc(e, items[i]), EncItems(e, items[i + 1..]);
    assert items[i..][1..] == items[i + 1..];
    assert b.Some? && more.Some? ==> done + (b.value + more.value) == done + b.value + more.value;
  }

  lemma PrependNothing<T>(p: Parse<seq<T>>)
    ensures Prepend([], p) == p
  {
    assert p.Parsed? ==> [] + p.value == p.value;
  }

  lemma {:induction false} OneMoreDecoded(e: Schema, count: nat, s: seq<byte>, items: seq<Value>)
    requires WellFormed(e) && count > 0
    ensures Prepend(items, DecItems(e, count, s)) ==
      match Dec(e, s)
      case Failed => Failed
      case Parsed(v, r) => Prepend(items + [v], DecItems(e, count - 1, r))
  {
    hide Dec;
    if Dec(e, s).Parsed? {
      var p := DecItems(e, count - 1, Dec(e, s).rest);
      assert p.Parsed? ==> items + ([Dec(e, s).value] + p.value) == items + [Dec(e, s).value] + p.value;
    }
  }

  lemma LowOctetFirst(done: seq<byte>, v: nat, n: nat)
    requires n > 0
    ensures done + LittleEndian(v, n) == done + [v % 256] + LittleEndian(v / 256, n - 1)
  {
  }

  lemma OneMoreCode(text: string, i: nat)
    requires i < |text| && Latin1(text[..i]) && text[i] as int < 256
    ensures Latin1(text[..i + 1]) && Codes(text[..i + 1]) == Codes(text[..i]) + [text[i] as int]
  {
  }

  function Prepend<T>(done: seq<T>, p: Parse<seq<T>>): Parse<seq<T>> {
    match p
    case Failed => Failed
    case Parsed(more, rest) => Parsed(done + more, rest)
  }

  /** `setOptional`. */
  method SetOptional(mask: array<byte>, idx: nat)
    requires idx < 8 * mask.Length
    modifies mask
    ensures forall j: nat | j < 8 * mask.Length ::
      CheckOptional(mask[..], j) <==> j == idx || CheckOptional(old(mask[..]), j)
  {
    ghost var was := mask[..];
    mask[idx / 8] := On8(OR, mask[idx / 8], MaskBit(idx));
    forall j: nat | j < 8 * mask.Length
      ensures CheckOptional(mask[..], j) <==> j == idx || CheckOptional(was, j)
    {
      CheckIsBit(mask[..], j);
      CheckIsBit(was, j);
      if j / 8 == idx / 8 {
        SetIsOneFlag(was[idx / 8], idx, j);
      }
    }
  }

  method NewMask(octets: nat) returns (mask: array<byte>)
    ensures fresh(mask) && mask.Length == octets
    ensures forall j: nat | j < 8 * octets :: !CheckOptional(mask[..], j)
  {
    mask := new byte[octets](_ => 0);
    forall j: nat | j < 8 * octets ensures !CheckOptional(mask[..], j) {
      CheckIsBit(mask[..], j);
      ZeroBits(7 - j % 8);
    }
  }

  lemma FlagsFrom(cursor: Fields, members: seq<Option<Value>>, i: nat)
    requires !cursor.NoMore? && i + Arity(cursor) == |members|
    ensures Flags(cursor, members[i..])
         == (if cursor.Optional? then [members[i].Some?] else []) + Flags(cursor.tail, members[i + 1..])
  {
    assert members[i..][1..] == members[i + 1..];
  }

  lemma FlagsAtEnd(done: seq<bool>, members: seq<Option<Value>>)
    requires members == []
    ensures done + Flags(NoMore, members) == done
  {
  }

  /** The mask of a sequence value, built flag by flag. */
  method BuildMask(fields: Fields, members: seq<Option<Value>>) returns (mask: array<byte>)
    requires |members| == Arity(fields)
    ensures fresh(mask) && mask[..] == Mask(Flags(fields, members))
  {
    hide CheckOptional, Flags, Mask;
    mask := NewMask(MaskOctets(Optionals(fields)));
    assert members[0..] == members;
    var cursor, i, oid := fields, 0, 0;
    ghost var done: seq<bool> := [];
    assert [] + Flags(cursor, members) == Flags(cursor, members);
    while !cursor.NoMore?
      invariant i + Arity(cursor) == |members| && oid + Optionals(cursor) == Optionals(fields) && |done| == oid
      invariant Flags(fields, members) == done + Flags(cursor, members[i..])
      invariant forall j: nat | j < 8 * mask.Length :: CheckOptional(mask[..], j) <==> j < oid && done[j]
      decreases cursor
    {
      FlagsFrom(cursor, members, i);
      assert done + ([members[i].Some?] + Flags(cursor.tail, members[i + 1..]))
          == done + [members[i].Some?] + Flags(cursor.tail, members[i + 1..]);
      assert done + ([] + Flags(cursor.tail, members[i + 1..])) == done + Flags(cursor.tail, members[i + 1..]);
      if cursor.Optional? {
        if members[i].Some? {
          SetOptional(mask, oid);
        }
        done := done + [members[i].Some?];
        oid := oid + 1;
      }
      cursor, i := cursor.tail, i + 1;
    }
    FlagsAtEnd(done, members[i..]);
    MaskDetermined(mask[..], done);
  }

  class PerCodecCtx {
    const buf: array<byte>
    var off: nat

    constructor (backing: array<byte>, offset: nat)
      requires offset <= backing.Length
      ensures buf == backing && off == offset && Valid()
    {
      buf, off := backing, offset;
    }

    ghost predicate Valid()
      reads this
    {
      off <= buf.Length
    }

    twostate predicate Wrote(ok: bool, b: Option<seq<byte>>)
      reads this, buf
    {
      Valid() && Writes(old(buf[..]), old(off), buf[..], off, ok, b)
    }

    /** A decoder returned `r`: what `p` says, with the cursor at `p`'s rest. */
    ghost predicate Read<T>(r: Option<T>, p: Parse<T>)
      reads this, buf
    {
      && Valid()
      && match p
         case Failed => r.None?
         case Parsed(v, rest) => r == Some(v) && buf[off..] == rest
    }

    // ---- Writing ------------------------------------------------------------------------------------------------

    /** `writeIntegralLE` at the cursor, and the cursor moved. */
    method WriteLittleEndian(value: nat, n: nat) returns (ok: bool)
      requires Valid()
      modifies this`off, buf
      ensures Wrote(ok, Some(LittleEndian(value, n)))
    {
      hide LittleEndian;
      if buf.Length - off < n {
        return false;
      }
      var v, b := value, 0;
      ghost var done: seq<byte> := [];
      assert done + LittleEndian(v, n) == LittleEndian(v, n);
      assert buf[..] == Overwritten(old(buf[..]), off, []);
      while b < n
        invariant b <= n && off == old(off) && |done| == b
        invariant done + LittleEndian(v, n - b) == LittleEndian(value, n)
        invariant buf[..] == Overwritten(old(buf[..]), off, done)
        modifies buf
      {
        OverwrittenTwice(old(buf[..]), off, done, [v % 256]);
        LowOctetFirst(done, v, n - b);
        buf[off + b] := v % 256;
        done := done + [v % 256];
        v, b := v / 256, b + 1;
      }
      assert done == LittleEndian(value, n);
      off := off + n;
      return true;
    }

    method WriteI32(v: int) returns (ok: bool)
      requires Valid()
      modifies this`off, buf
      ensures Wrote(ok, Some(Integral(v, 4)))
    {
      ok := WriteLittleEndian(v % U32, 4);
    }

    method WriteIntegral(v: nat, n: nat) returns (ok: bool)
      requires Valid()
      modifies this`off, buf
      ensures Wrote(ok, Some(Integral(v, n)))
    {
      ok := WriteLittleEndian(v % U32, n);
    }

    method WriteCount(capacity: nat, count: nat) returns (ok: bool)
      requires Valid() && 1 <= capacity
      modifies this`off, buf
      ensures Wrote(ok, if count <= capacity then Some(Integral(count, OctetsForCapacity(capacity))) else None)
    {
      if count > capacity {
        return false;
      }
      ok := WriteLittleEndian(count % U32, OctetsForCapacity(capacity));
    }

    method WriteBytes(src: array<byte>) returns (ok: bool)
      requires Valid() && src != buf
      modifies this`off, buf
      ensures Wrote(ok, Some(src[..]))
    {
      if src.Length > buf.Length - off {
        return false;
      }
      forall i | 0 <= i < src.Length {
        buf[off + i] := src[i];
      }
      assert buf[off..off + src.Length] == src[..];
      assert buf[..] == buf[..off] + buf[off..off + src.Length] + buf[off + src.Length..];
      off := off + src.Length;
      return true;
    }

    /** `this.buf[this.off++] = x`. */
    method PutByte(x: byte)
      requires Valid() && off < buf.Length
      modifies this`off, buf
      ensures Wrote(true, Some([x]))
    {
      buf[off] := x;
      off := off + 1;
    }

    method EncodeCString(text: string) returns (ok: bool)
      requires Valid()
      modifies this`off, buf
      ensures Wrote(ok, if Latin1(text) then Some(Codes(text) + [0]) else None)
    {
      hide Codes, Writes;
      if |text| + 1 > buf.Length - off {
        CannotWrite(buf[..], off, if Latin1(text) then Some(Codes(text) + [0]) else None);
        return false;
      }
      var i := 0;
      NothingWritten(buf[..], off, text);
      while i < |text|
        invariant i <= |text| && off == old(off) + i && Latin1(text[..i])
        invariant Wrote(true, Some(Codes(text[..i])))
        modifies this`off, buf
      {
        ghost var s, o := buf[..], off;
        if text[i] as int > 255 {
          GaveUp(old(buf[..]), old(off), s, o, Some(Codes(text[..i])));
          assert !Latin1(text);
          return false;
        }
        PutByte(text[i] as int);
        OneMoreCode(text, i);
        WritesBoth(old(buf[..]), old(off), s, o, buf[..], off, true, Some(Codes(text[..i])), Some([text[i] as int]));
        i := i + 1;
      }
      assert text[..i] == text;
      ghost var s, o := buf[..], off;
      PutByte(0);
      WritesBoth(old(buf[..]), old(off), s, o, buf[..], off, true, Some(Codes(text)), Some([0]));
      return true;
    }

    // ---- Reading ------------------------------------------------------------------------------------------------

    /** `readIntegralLE` at the cursor, and the cursor moved. */
    method ReadLittleEndian(n: nat) returns (r: Option<nat>)
      requires Valid()
      modifies this`off
      ensures Valid() && (r.Some? <==> old(off) + n <= buf.Length)
      ensures r.Some? ==> r.value == LittleEndianValue(old(buf[off..])[..n]) && off == old(off) + n
    {
      if buf.Length - off < n {
        return None;
      }
      var v: nat, b: nat, weight: nat := 0, 0, 1;
      while b < n
        invariant b <= n && off == old(off) && weight == Span(b) && v == LittleEndianValue(buf[off..off + b])
      {
        assert buf[off..off + b + 1] == buf[off..off + b] + [buf[off + b]];
        LittleEndianAppend(buf[off..off + b], buf[off + b]);
        v := v + weight * buf[off + b];
        b, weight := b + 1, 256 * weight;
      }
      assert buf[off..off + n] == buf[off..][..n];
      off := off + n;
      return Some(v);
    }

    method DecodeCString() returns (r: Option<Value>)
      requires Valid()
      modifies this`off
      ensures Read(r, Dec(Str, old(buf[off..])))
    {
      var end := off;
      while end < buf.Length && buf[end] != 0
        invariant off <= end <= buf.Length
        invariant forall j | off <= j < end :: buf[j] != 0
      {
        end := end + 1;
      }
      ghost var s := buf[off..];
      assert FirstZero(s) == end - off by {
        assert forall j | 0 <= j < end - off :: s[j] == buf[off + j];
        assert end < buf.Length ==> s[end - off] == buf[end];
      }
      if end == buf.Length {
        return None;
      }
      var start := off;
      off := end + 1;
      assert buf[start..end] == s[..end - start] && buf[off..] == s[end - start + 1..];
      return Some(Text(Chars(buf[start..end])));
    }

    // ---- The generated encoders ---------------------------------------------------------------------------------

    /** `encodeUsing_<name>`: a value not of the schema's shape is refused, as anything the codec throws on. */
    method Encode(sch: Schema, v: Value) returns (ok: bool)
      requires Valid() && WellFormed(sch)
      modifies this`off, buf
      ensures Wrote(ok, Enc(sch, v))
      decreases sch, 0
    {
      hide Writes, EncItems, EncFields, Integral;
      match sch
      case UInt(w) =>
        if !v.Num? { CannotWrite(buf[..], off, None); return false; }
        ok := WriteLittleEndian(v.n % Span(w), w);
      case Enum =>
        if !v.Num? { CannotWrite(buf[..], off, None); return false; }
        ok := WriteI32(v.n);
      case Str =>
        if !v.Text? { CannotWrite(buf[..], off, None); return false; }
        ok := EncodeCString(v.s);
      case Dyn(cap, e) =>
        if !v.List? || |v.items| > cap { CannotWrite(buf[..], off, None); return false; }
        ok := EncodeList(cap, e, v.items);
      case Fixed(n, e) =>
        if !v.List? || |v.items| != n { CannotWrite(buf[..], off, None); return false; }
        ok := EncodeList(n, e, v.items);
      case Struct(fields) =>
        if !v.Record? || |v.members| != Arity(fields) { CannotWrite(buf[..], off, None); return false; }
        var mask := BuildMask(fields, v.members);
        ok := WriteBytes(mask);
        ghost var b, b' := Some(Mask(Flags(fields, v.members))), EncFields(fields, v.members);
        ghost var s, o := buf[..], off;
        if !ok { FailedFirst(old(buf[..]), old(off), s, o, b, b'); return; }
        ok := EncodeFields(fields, v.members);
        WritesBoth(old(buf[..]), old(off), s, o, buf[..], off, ok, b, b');
      case Choice(alts) =>
        if !v.Alt? || v.index >= |alts| { CannotWrite(buf[..], off, None); return false; }
        ok := WriteIntegral(v.index, OctetsForArity(|alts|));
        ghost var b, b' := Some(Integral(v.index, OctetsForArity(|alts|))), Enc(alts[v.index], v.chosen);
        ghost var s, o := buf[..], off;
        if !ok { FailedFirst(old(buf[..]), old(off), s, o, b, b'); return; }
        ok := Encode(alts[v.index], v.chosen);
        WritesBoth(old(buf[..]), old(off), s, o, buf[..], off, ok, b, b');
    }

    method EncodeList(cap: nat, e: Schema, items: seq<Value>) returns (ok: bool)
      requires Valid() && 1 <= cap && WellFormed(e) && |items| <= cap
      modifies this`off, buf
      ensures Wrote(ok, Join(Some(Integral(|items|, OctetsForCapacity(cap))), EncItems(e, items)))
      decreases e, 2
    {
      hide Writes, EncItems, Integral;
      ok := WriteCount(cap, |items|);
      ghost var b, b' := Some(Integral(|items|, OctetsForCapacity(cap))), EncItems(e, items);
      ghost var s, o := buf[..], off;
      if !ok { FailedFirst(old(buf[..]), old(off), s, o, b, b'); return; }
      ok := EncodeItems(e, items);
      WritesBoth(old(buf[..]), old(off), s, o, buf[..], off, ok, b, b');
    }

    method EncodeItems(e: Schema, items: seq<Value>) returns (ok: bool)
      requires Valid() && WellFormed(e)
      modifies this`off, buf
      ensures Wrote(ok, EncItems(e, items))
      decreases e, 1
    {
      hide Writes, Enc;
      var i := 0;
      ghost var done: seq<byte> := [];
      assert Overwritten(buf[..], off, []) == buf[..];
      NothingYet(buf[..], off, EncItems(e, items));
      assert items[0..] == items;
      while i < |items|
        invariant i <= |items| && Wrote(true, Some(done))
        invariant EncItems(e, items) == Join(Some(done), EncItems(e, items[i..]))
        modifies this`off, buf
      {
        ghost var s, o := buf[..], off;
        ghost var b, more := Enc(e, items[i]), EncItems(e, items[i + 1..]);
        OneMoreItem(e, items, i, done);
        ok := Encode(e, items[i]);
        WritesBoth(old(buf[..]), old(off), s, o, buf[..], off, ok, Some(done), b);
        if !ok {
          FailedFirst(old(buf[..]), old(off), buf[..], off, Join(Some(done), b), more);
          return;
        }
        done := done + b.value;
        i := i + 1;
      }
      assert done + [] == done;
      return true;
    }

    method EncodeFields(fields: Fields, members: seq<Option<Value>>) returns (ok: bool)
      requires Valid() && WellFormedFields(fields) && |members| == Arity(fields)
      modifies this`off, buf
      ensures Wrote(ok, EncFields(fields, members))
      decreases fields, 0
    {
      hide Writes, Enc;
      if fields.NoMore? {
        NothingYet(buf[..], off, Some([]));
        return true;
      }
      if members[0].None? {
        if fields.Mandatory? { CannotWrite(buf[..], off, None); return false; }
        ok := EncodeFields(fields.tail, members[1..]);
        NothingFirst(EncFields(fields.tail, members[1..]));
        return;
      }
      ok := Encode(fields.head, members[0].value);
      ghost var b, b' := Enc(fields.head, members[0].value), EncFields(fields.tail, members[1..]);
      ghost var s, o := buf[..], off;
      if !ok { FailedFirst(old(buf[..]), old(off), s, o, b, b'); return; }
      ok := EncodeFields(fields.tail, members[1..]);
      WritesBoth(old(buf[..]), old(off), s, o, buf[..], off, ok, b, b');
    }

    // ---- The generated decoders ---------------------------------------------------------------------------------

    method Decode(sch: Schema) returns (r: Option<Value>)
      requires Valid() && WellFormed(sch)
      modifies this`off
      ensures Read(r, Dec(sch, old(buf[off..])))
      decreases sch, 0
    {
      hide DecItems, DecFields, LittleEndianValue;
      ghost var s := buf[off..];
      match sch
      case UInt(w) =>
        var n := ReadLittleEndian(w);
        if n.None? { return None; }
        assert buf[off..] == s[w..];
        return Some(Num(n.value));
      case Enum =>
        var n := ReadLittleEndian(4);
        if n.None? { return None; }
        assert buf[off..] == s[4..];
        return Some(Num(Signed(n.value)));
      case Str => r := DecodeCString();
      case Dyn(cap, e) => r := DecodeList(cap, e);
      case Fixed(n, e) => r := DecodeList(n, e);
      case Struct(fields) =>
        var k := Optionals(fields);
        var m := MaskOctets(k);
        if m > buf.Length - off { return None; }
        var mask := buf[off..off + m];
        assert mask == s[..m];
        off := off + m;
        assert buf[off..] == s[m..];
        var members := DecodeFields(fields, Unmask(mask, k));
        if members.None? { return None; }
        return Some(Record(members.value));
      case Choice(alts) =>
        var o := OctetsForArity(|alts|);
        var i := ReadLittleEndian(o);
        if i.None? || i.value >= |alts| { return None; }
        assert buf[off..] == s[o..];
        var v := Decode(alts[i.value]);
        if v.None? { return None; }
        return Some(Alt(i.value, v.value));
    }

    method DecodeList(cap: nat, e: Schema) returns (r: Option<Value>)
      requires Valid() && 1 <= cap && WellFormed(e)
      modifies this`off
      ensures Read(r, DecList(cap, e, old(buf[off..])))
      decreases e, 2
    {
      hide DecItems, LittleEndianValue;
      ghost var s := buf[off..];
      var o := OctetsForCapacity(cap);
      var count := ReadLittleEndian(o);
      if count.None? || count.value > cap { return None; }
      assert buf[off..] == s[o..];
      var items := DecodeItems(e, count.value);
      if items.None? { return None; }
      return Some(List(items.value));
    }

    method DecodeItems(e: Schema, count: nat) returns (r: Option<seq<Value>>)
      requires Valid() && WellFormed(e)
      modifies this`off
      ensures Read(r, DecItems(e, count, old(buf[off..])))
      decreases e, 1
    {
      hide Dec;
      var items: seq<Value> := [];
      ghost var all := DecItems(e, count, buf[off..]);
      PrependNothing(all);
      var k := 0;
      while k < count
        invariant k <= count && Valid()
        invariant all == Prepend(items, DecItems(e, count - k, buf[off..]))
        modifies this`off
      {
        OneMoreDecoded(e, count - k, buf[off..], items);
        var v := Decode(e);
        if v.None? { return None; }
        items := items + [v.value];
        k := k + 1;
      }
      assert items + [] == items;
      return Some(items);
    }

    method DecodeFields(fields: Fields, flags: seq<bool>) returns (r: Option<seq<Option<Value>>>)
      requires Valid() && WellFormedFields(fields) && |flags| == Optionals(fields)
      modifies this`off
      ensures Read(r, DecFields(fields, flags, old(buf[off..])))
      decreases fields, 0
    {
      hide Dec;
      if fields.NoMore? {
        return Some([]);
      }
      var later := if fields.Optional? then flags[1..] else flags;
      if fields.Optional? && !flags[0] {
        var ms := DecodeFields(fields.tail, later);
        if ms.None? { return None; }
        return Some([None] + ms.value);
      }
      var v := Decode(fields.head);
      if v.None? { return None; }
      var ms := DecodeFields(fields.tail, later);
      if ms.None? { return None; }
      return Some([Some(v.value)] + ms.value);
    }
  }
}
