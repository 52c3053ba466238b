/** The packed codec of every schema: what the generated encoder writes and what the generated decoder accepts. */
module PackedSchema {
  import opened Wrappers
  import opened Protocol
  import opened Bits
  import opened Cum

  datatype Schema =
    | UInt(width: nat)
    | Enum
    | Str
    | Dyn(capacity: nat, elem: Schema)
    | Fixed(length: nat, elem: Schema)
    | Struct(fields: Fields)
    | Choice(alternatives: seq<Schema>)

  /** The fields of a sequence, in order. */
  datatype Fields =
    | NoMore
    | Mandatory(head: Schema, tail: Fields)
    | Optional(head: Schema, tail: Fields)

  datatype Value =
    | Num(n: int)
    | Text(s: string)
    | List(items: seq<Value>)
    | Record(members: seq<Option<Value>>)
    | Alt(index: nat, chosen: Value)

  /** The schemas the generator emits code for; its static arrays hold `u8` only. */
  predicate WellFormed(sch: Schema) {
    match sch
    case UInt(w) => w == 1 || w == 2 || w == 4 || w == 8
    case Enum => true
    case Str => true
    case Dyn(cap, e) => 1 <= cap <= U32 && WellFormed(e)
    case Fixed(n, e) => 1 <= n <= U32 && e == UInt(1)
    case Struct(fields) => WellFormedFields(fields)
    case Choice(alts) => 2 <= |alts| < U32 && forall i | 0 <= i < |alts| :: WellFormed(alts[i])
  }

  predicate WellFormedFields(fields: Fields) {
    fields.NoMore? || (WellFormed(fields.head) && WellFormedFields(fields.tail))
  }

  function Arity(fields: Fields): nat {
    if fields.NoMore? then 0 else 1 + Arity(fields.tail)
  }

  function Optionals(fields: Fields): nat {
    match fields
    case NoMore => 0
    case Mandatory(_, tail) => Optionals(tail)
    case Optional(_, tail) => 1 + Optionals(tail)
  }

  /** Which optional fields are present, in order. */
  function Flags(fields: Fields, members: seq<Option<Value>>): (flags: seq<bool>)
    requires |members| == Arity(fields)
    ensures |flags| == Optionals(fields)
  {
    match fields
    case NoMore => []
    case Mandatory(_, tail) => Flags(tail, members[1..])
    case Optional(_, tail) => [members[0].Some?] + Flags(tail, members[1..])
  }

  // ---- Encoding ---------------------------------------------------------------------------------------------

  function Join(a: Option<seq<byte>>, b: Option<seq<byte>>): Option<seq<byte>> {
    if a.Some? && b.Some? then Some(a.value + b.value) else None
  }

  predicate Latin1(text: string) {
    forall i | 0 <= i < |text| :: text[i] as int < 256
  }

  function Codes(text: string): (s: seq<byte>)
    requires Latin1(text)
    ensures |s| == |text|
  {
    seq(|text|, i requires 0 <= i < |text| => text[i] as int)
  }

  /** What the encoder of `sch` writes for `v`; `None` where it throws. */
  function Enc(sch: Schema, v: Value): Option<seq<byte>>
    requires WellFormed(sch)
    decreases sch, 0
  {
    match sch
    case UInt(w) => if v.Num? then Some(Unsigned(v.n, w)) else None
    case Enum => if v.Num? then Some(Integral(v.n, 4)) else None
    case Str => if v.Text? && Latin1(v.s) then Some(Codes(v.s) + [0]) else None
    case Dyn(cap, e) =>
      if v.List? && |v.items| <= cap
      then Join(Some(Integral(|v.items|, OctetsForCapacity(cap))), EncItems(e, v.items)) else None
    case Fixed(n, e) =>
      if v.List? && |v.items| == n
      then Join(Some(Integral(n, OctetsForCapacity(n))), EncItems(e, v.items)) else None
    case Struct(fields) =>
      if v.Record? && |v.members| == Arity(fields)
      then Join(Some(Mask(Flags(fields, v.members))), EncFields(fields, v.members)) else None
    case Choice(alts) =>
      if v.Alt? && v.index < |alts|
      then Join(Some(Integral(v.index, OctetsForArity(|alts|))), Enc(alts[v.index], v.chosen)) else None
  }

  function EncItems(e: Schema, items: seq<Value>): Option<seq<byte>>
    requires WellFormed(e)
    decreases e, 1 + |items|
  {
    if items == [] then Some([]) else Join(Enc(e, items[0]), EncItems(e, items[1..]))
  }

  function EncFields(fields: Fields, members: seq<Option<Value>>): Option<seq<byte>>
    requires WellFormedFields(fields) && |members| == Arity(fields)
    decreases fields, 0
  {
    match fields
    case NoMore => Some([])
    case Mandatory(head, tail) =>
      if members[0].Some? then Join(Enc(head, members[0].value), EncFields(tail, members[1..])) else None
    case Optional(head, tail) =>
      Join(if members[0].Some? then Enc(head, members[0].value) else Some([]), EncFields(tail, members[1..]))
  }

  // ---- Decoding ---------------------------------------------------------------------------------------------

  datatype Parse<T> = Failed | Parsed(value: T, rest: seq<byte>)

  /** Index of the first zero byte, or the length. */
  function FirstZero(s: seq<byte>): (i: nat)
    ensures i <= |s| && (i < |s| ==> s[i] == 0) && forall j | 0 <= j < i :: s[j] != 0
  {
    if s == [] || s[0] == 0 then 0 else 1 + FirstZero(s[1..])
  }

  function Chars(s: seq<byte>): string {
    seq(|s|, i requires 0 <= i < |s| => s[i] as char)
  }

  function Unmask(mask: seq<byte>, k: nat): (flags: seq<bool>)
    requires |mask| == MaskOctets(k)
    ensures |flags| == k
  {
    seq(k, i requires 0 <= i < k => CheckOptional(mask, i))
  }

  function Dec(sch: Schema, s: seq<byte>): Parse<Value>
    requires WellFormed(sch)
    decreases sch, 0
  {
    match sch
    case UInt(w) => if |s| < w then Failed else Parsed(Num(LittleEndianValue(s[..w])), s[w..])
    case Enum => if |s| < 4 then Failed else Parsed(Num(Signed(LittleEndianValue(s[..4]))), s[4..])
    case Str => var i := FirstZero(s); if i == |s| then Failed else Parsed(Text(Chars(s[..i])), s[i + 1..])
    case Dyn(cap, e) => DecList(cap, e, s)
    case Fixed(n, e) => DecList(n, e, s)
    case Struct(fields) =>
      var k := Optionals(fields);
      var m := MaskOctets(k);
      if |s| < m then Failed else
        (match DecFields(fields, Unmask(s[..m], k), s[m..])
         case Failed => Failed
         case Parsed(members, r) => Parsed(Record(members), r))
    case Choice(alts) =>
      var o := OctetsForArity(|alts|);
      if |s| < o then Failed else
        var i := LittleEndianValue(s[..o]);
        if i >= |alts| then Failed else
          (match Dec(alts[i], s[o..])
           case Failed => Failed
           case Parsed(v, r) => Parsed(Alt(i, v), r))
  }

  /** A count of at most `cap`, then that many elements; the length of a static array is not compared. */
  function DecList(cap: nat, e: Schema, s: seq<byte>): (p: Parse<Value>)
    requires 1 <= cap && WellFormed(e)
    ensures p.Parsed? ==> p.value.List?
    decreases e, 1 + |s|, 1
  {
    var o := OctetsForCapacity(cap);
    if |s| < o then Failed else
      var count := LittleEndianValue(s[..o]);
      if count > cap then Failed else
        match DecItems(e, count, s[o..])
        case Failed => Failed
        case Parsed(items, r) => Parsed(List(items), r)
  }

  function DecItems(e: Schema, count: nat, s: seq<byte>): (p: Parse<seq<Value>>)
    requires WellFormed(e)
    ensures p.Parsed? ==> |p.value| == count
    decreases e, 1, count
  {
    if count == 0 then Parsed([], s) else
      match Dec(e, s)
      case Failed => Failed
      case Parsed(v, r) =>
        match DecItems(e, count - 1, r)
        case Failed => Failed
        case Parsed(vs, r') => Parsed([v] + vs, r')
  }

  function DecFields(fields: Fields, flags: seq<bool>, s: seq<byte>): (p: Parse<seq<Option<Value>>>)
    requires WellFormedFields(fields) && |flags| == Optionals(fields)
    ensures p.Parsed? ==> |p.value| == Arity(fields) && Flags(fields, p.value) == flags
    decreases fields, 0
  {
    if fields.NoMore? then Parsed([], s) else
      var later := if fields.Optional? then flags[1..] else flags;
      if fields.Optional? && !flags[0] then
        (match DecFields(fields.tail, later, s)
         case Failed => Failed
         case Parsed(ms, r) => Parsed([None] + ms, r))
      else
        match Dec(fields.head, s)
        case Failed => Failed
        case Parsed(v, r) =>
          match DecFields(fields.tail, later, r)
          case Failed => Failed
          case Parsed(ms, r') => Parsed([Some(v)] + ms, r')
  }

  // ---- Which values survive ---------------------------------------------------------------------------------

  /** A count that its prefix can tell. */
  predicate TellableCount(capacity: nat, count: nat)
    requires 1 <= capacity
  {
    count < Span(OctetsForCapacity(capacity)) && count < U32
  }

  predicate Faithful(sch: Schema, v: Value)
    requires WellFormed(sch)
    decreases sch, 0
  {
    match sch
    case UInt(w) => v.Num? && 0 <= v.n < Span(w)
    case Enum => v.Num? && -0x8000_0000 <= v.n < 0x8000_0000
    case Str => v.Text? && forall i | 0 <= i < |v.s| :: 0 < v.s[i] as int < 256
    case Dyn(cap, e) =>
      v.List? && TellableCount(cap, |v.items|) && forall i | 0 <= i < |v.items| :: Faithful(e, v.items[i])
    case Fixed(n, e) =>
      v.List? && TellableCount(n, |v.items|) && forall i | 0 <= i < |v.items| :: Faithful(e, v.items[i])
    case Struct(fields) => v.Record? && |v.members| == Arity(fields) && FaithfulFields(fields, v.members)
    case Choice(alts) => v.Alt? && v.index < |alts| && Faithful(alts[v.index], v.chosen)
  }

  predicate FaithfulFields(fields: Fields, members: seq<Option<Value>>)
    requires WellFormedFields(fields) && |members| == Arity(fields)
    decreases fields, 0
  {
    fields.NoMore? ||
    (&& (members[0].Some? ==> Faithful(fields.head, members[0].value))
     && FaithfulFields(fields.tail, members[1..]))
  }

  // ---- The decoder undoes the encoder -------------------------------------------------------------------------

  lemma UnsignedBack(v: nat, w: nat, rest: seq<byte>)
    requires v < Span(w)
    ensures var s := Unsigned(v, w) + rest; LittleEndianValue(s[..w]) == v && s[w..] == rest
  {
    hide Span, LittleEndian;
    assert (Unsigned(v, w) + rest)[..w] == Unsigned(v, w);
    SmallRemainder(v, Span(w));
    LittleEndianReadsBack(v, w);
  }

  lemma IntegralBack(v: nat, w: nat, rest: seq<byte>)
    requires v < Span(w) && v < U32
    ensures var s := Integral(v, w) + rest; LittleEndianValue(s[..w]) == v && s[w..] == rest
  {
    hide Span, LittleEndian;
    SmallRemainder(v, Span(w));
    UnsignedBack(v, w, rest);
  }

  lemma EnumBack(v: int, rest: seq<byte>)
    requires -0x8000_0000 <= v < 0x8000_0000
    ensures Dec(Enum, Integral(v, 4) + rest) == Parsed(Num(v), rest)
  {
    assert (Integral(v, 4) + rest)[..4] == Integral(v, 4);
    SignedSurvives(v);
  }

  lemma StringBack(text: string, rest: seq<byte>)
    requires forall i | 0 <= i < |text| :: 0 < text[i] as int < 256
    ensures Dec(Str, Codes(text) + [0] + rest) == Parsed(Text(text), rest)
  {
    var s := Codes(text) + [0] + rest;
    assert s[|text|] == 0 && forall j | 0 <= j < |text| :: s[j] == text[j] as int;
    assert FirstZero(s) == |text|;
    assert Chars(s[..|text|]) == text;
  }

  lemma UnmaskMask(flags: seq<bool>)
    ensures Unmask(Mask(flags), |flags|) == flags
  {
    forall i | 0 <= i < |flags| ensures Unmask(Mask(flags), |flags|)[i] == flags[i] {
      MaskChecks(flags, i);
    }
  }

  lemma IndexTellable(n: nat, i: nat)
    requires 2 <= n < U32 && i < n
    ensures i < Span(OctetsForArity(n)) && i < U32
  {
    SpanValues();
  }

  lemma {:induction false} ListBack(cap: nat, e: Schema, items: seq<Value>, b: seq<byte>, rest: seq<byte>)
    requires 1 <= cap && WellFormed(e) && |items| <= cap && TellableCount(cap, |items|)
    requires DecItems(e, |items|, b + rest) == Parsed(items, rest)
    ensures DecList(cap, e, Integral(|items|, OctetsForCapacity(cap)) + b + rest) == Parsed(List(items), rest)
  {
    var o := OctetsForCapacity(cap);
    assert Integral(|items|, o) + b + rest == Integral(|items|, o) + (b + rest);
    IntegralBack(|items|, o, b + rest);
  }

  lemma {:induction false} StructBack(fields: Fields, members: seq<Option<Value>>, b: seq<byte>, rest: seq<byte>)
    requires WellFormedFields(fields) && |members| == Arity(fields)
    requires DecFields(fields, Flags(fields, members), b + rest) == Parsed(members, rest)
    ensures Dec(Struct(fields), Mask(Flags(fields, members)) + b + rest) == Parsed(Record(members), rest)
  {
    hide DecFields, Flags;
    var flags := Flags(fields, members);
    UnmaskMask(flags);
    var s := Mask(flags) + b + rest;
    assert s[..|Mask(flags)|] == Mask(flags) && s[|Mask(flags)|..] == b + rest;
  }

  lemma {:induction false} ChoiceBack(alts: seq<Schema>, i: nat, v: Value, b: seq<byte>, rest: seq<byte>)
    requires WellFormed(Choice(alts)) && i < |alts| && Dec(alts[i], b + rest) == Parsed(v, rest)
    ensures Dec(Choice(alts), Integral(i, OctetsForArity(|alts|)) + b + rest) == Parsed(Alt(i, v), rest)
  {
    hide Integral, LittleEndianValue, Span;
    var o := OctetsForArity(|alts|);
    IndexTellable(|alts|, i);
    IntegralBack(i, o, b + rest);
    assert Integral(i, o) + b + rest == Integral(i, o) + (b + rest);
  }

  /** The decoder undoes the encoder on faithful values, and takes exactly the encoder's bytes. */
  lemma {:induction false} RoundTrip(sch: Schema, v: Value, rest: seq<byte>)
    requires WellFormed(sch) && Enc(sch, v).Some? && Faithful(sch, v)
    ensures Dec(sch, Enc(sch, v).value + rest) == Parsed(v, rest)
    decreases sch, 0
  {
    hide Flags, DecItems, DecFields, DecList, EncItems, EncFields, Integral, Mask;
    match sch
    case UInt(w) => UnsignedBack(v.n, w, rest);
    case Enum => EnumBack(v.n, rest);
    case Str => StringBack(v.s, rest);
    case Dyn(cap, e) =>
      RoundTripItems(e, v.items, rest);
      ListBack(cap, e, v.items, EncItems(e, v.items).value, rest);
    case Fixed(n, e) =>
      RoundTripItems(e, v.items, rest);
      ListBack(n, e, v.items, EncItems(e, v.items).value, rest);
    case Struct(fields) =>
      RoundTripFields(fields, v.members, rest);
      StructBack(fields, v.members, EncFields(fields, v.members).value, rest);
    case Choice(alts) =>
      RoundTrip(alts[v.index], v.chosen, rest);
      ChoiceBack(alts, v.index, v.chosen, Enc(alts[v.index], v.chosen).value, rest);
  }

  lemma {:induction false} ItemBack(e: Schema, items: seq<Value>, b: seq<byte>, more: seq<byte>, rest: seq<byte>)
    requires WellFormed(e) && items != []
    requires Dec(e, b + (more + rest)) == Parsed(items[0], more + rest)
    requires DecItems(e, |items| - 1, more + rest) == Parsed(items[1..], rest)
    ensures DecItems(e, |items|, b + more + rest) == Parsed(items, rest)
  {
    hide Dec, WellFormed;
    assert b + more + rest == b + (more + rest);
    assert items == [items[0]] + items[1..];
  }

  lemma {:induction false} RoundTripItems(e: Schema, items: seq<Value>, rest: seq<byte>)
    requires WellFormed(e) && EncItems(e, items).Some?
    requires forall i | 0 <= i < |items| :: Faithful(e, items[i])
    ensures DecItems(e, |items|, EncItems(e, items).value + rest) == Parsed(items, rest)
    decreases e, 1 + |items|
  {
    hide Enc, Dec, Faithful;
    if items == [] {
      assert EncItems(e, items).value + rest == rest;
    } else {
      var b, more := Enc(e, items[0]).value, EncItems(e, items[1..]).value;
      RoundTrip(e, items[0], more + rest);
      RoundTripItems(e, items[1..], rest);
      ItemBack(e, items, b, more, rest);
    }
  }

  lemma {:induction false} FieldBack(fields: Fields, members: seq<Option<Value>>, b: seq<byte>, more: seq<byte>,
                                     rest: seq<byte>)
    requires !fields.NoMore? && WellFormedFields(fields) && |members| == Arity(fields)
    requires DecFields(fields.tail, Flags(fields.tail, members[1..]), more + rest) == Parsed(members[1..], rest)
    requires match members[0]
      case None => fields.Optional? && b == []
      case Some(v) => Dec(fields.head, b + (more + rest)) == Parsed(v, more + rest)
    ensures DecFields(fields, Flags(fields, members), b + more + rest) == Parsed(members, rest)
  {
    hide Dec, WellFormed, Optionals;
    assert b + more + rest == b + (more + rest);
    assert members == [members[0]] + members[1..];
    if fields.Optional? {
      assert Flags(fields, members)[1..] == Flags(fields.tail, members[1..]);
    }
    if members[0].None? {
      assert b + (more + rest) == more + rest;
    }
  }

  lemma {:induction false} RoundTripFields(fields: Fields, members: seq<Option<Value>>, rest: seq<byte>)
    requires WellFormedFields(fields) && |members| == Arity(fields)
    requires EncFields(fields, members).Some? && FaithfulFields(fields, members)
    ensures DecFields(fields, Flags(fields, members), EncFields(fields, members).value + rest) == Parsed(members, rest)
    decreases fields, 0
  {
    hide Enc, Dec, Faithful, WellFormed, Flags;
    if fields.NoMore? {
      assert EncFields(fields, members).value + rest == rest;
    } else {
      var more := EncFields(fields.tail, members[1..]).value;
      RoundTripFields(fields.tail, members[1..], rest);
      if members[0].Some? {
        RoundTrip(fields.head, members[0].value, more + rest);
        FieldBack(fields, members, Enc(fields.head, members[0].value).value, more, rest);
      } else {
        FieldBack(fields, members, [], more, rest);
      }
    }
  }

  // ---- What the decoder returns is faithful ---------------------------------------------------------------------

  lemma {:induction false} DecodedNumber(s: seq<byte>, w: nat)
    requires w <= |s|
    ensures LittleEndianValue(s[..w]) < Span(w) && LittleEndian(LittleEndianValue(s[..w]), w) == s[..w]
  {
    LittleEndianWritesBack(s[..w]);
  }

  lemma DecodedCount(capacity: nat, s: seq<byte>)
    requires 1 <= capacity <= U32 && OctetsForCapacity(capacity) <= |s|
    ensures TellableCount(capacity, LittleEndianValue(s[..OctetsForCapacity(capacity)]))
  {
    SpanValues();
    DecodedNumber(s, OctetsForCapacity(capacity));
  }

  lemma {:induction false} DecodedIsFaithful(sch: Schema, s: seq<byte>)
    requires WellFormed(sch) && Dec(sch, s).Parsed?
    ensures Faithful(sch, Dec(sch, s).value)
    decreases sch, 0
  {
    hide DecItems, DecFields, Span, LittleEndian, LittleEndianValue;
    match sch
    case UInt(w) => DecodedNumber(s, w);
    case Enum => DecodedNumber(s, 4); SpanValues();
    case Str =>
    case Dyn(cap, e) => DecodedListIsFaithful(cap, e, s);
    case Fixed(n, e) => DecodedListIsFaithful(n, e, s);
    case Struct(fields) =>
      var m := MaskOctets(Optionals(fields));
      DecodedFieldsAreFaithful(fields, Unmask(s[..m], Optionals(fields)), s[m..]);
    case Choice(alts) =>
      var o := OctetsForArity(|alts|);
      DecodedIsFaithful(alts[LittleEndianValue(s[..o])], s[o..]);
  }

  lemma {:induction false} DecodedListIsFaithful(cap: nat, e: Schema, s: seq<byte>)
    requires 1 <= cap <= U32 && WellFormed(e) && DecList(cap, e, s).Parsed?
    ensures var v := DecList(cap, e, s).value;
      v.List? && TellableCount(cap, |v.items|) && forall i | 0 <= i < |v.items| :: Faithful(e, v.items[i])
    decreases e, 2
  {
    hide Dec, Faithful, Span;
    var o := OctetsForCapacity(cap);
    DecodedCount(cap, s);
    DecodedItemsAreFaithful(e, LittleEndianValue(s[..o]), s[o..]);
  }

  lemma {:induction false} DecodedItemsAreFaithful(e: Schema, count: nat, s: seq<byte>)
    requires WellFormed(e) && DecItems(e, count, s).Parsed?
    ensures forall i | 0 <= i < count :: Faithful(e, DecItems(e, count, s).value[i])
    decreases e, 1, count
  {
    hide Dec, Faithful;
    if count > 0 {
      DecodedIsFaithful(e, s);
      DecodedItemsAreFaithful(e, count - 1, Dec(e, s).rest);
    }
  }

  lemma {:induction false} DecodedFieldsAreFaithful(fields: Fields, flags: seq<bool>, s: seq<byte>)
    requires WellFormedFields(fields) && |flags| == Optionals(fields) && DecFields(fields, flags, s).Parsed?
    ensures FaithfulFields(fields, DecFields(fields, flags, s).value)
    decreases fields, 0
  {
    hide Dec, Faithful, Flags;
    if !fields.NoMore? {
      var later := if fields.Optional? then flags[1..] else flags;
      if fields.Optional? && !flags[0] {
        DecodedFieldsAreFaithful(fields.tail, later, s);
        assert ([None] + DecFields(fields.tail, later, s).value)[1..] == DecFields(fields.tail, later, s).value;
      } else {
        var (v, r) := (Dec(fields.head, s).value, Dec(fields.head, s).rest);
        DecodedIsFaithful(fields.head, s);
        DecodedFieldsAreFaithful(fields.tail, later, r);
        assert ([Some(v)] + DecFields(fields.tail, later, r).value)[1..] == DecFields(fields.tail, later, r).value;
      }
    }
  }

  /** Exactly the faithful values survive the round trip, whatever follows them. */
  lemma {:induction false} RoundTripExactly(sch: Schema, v: Value, rest: seq<byte>)
    requires WellFormed(sch) && Enc(sch, v).Some?
    ensures Dec(sch, Enc(sch, v).value + rest) == Parsed(v, rest) <==> Faithful(sch, v)
  {
    if Faithful(sch, v) {
      RoundTrip(sch, v, rest);
    } else if Dec(sch, Enc(sch, v).value + rest) == Parsed(v, rest) {
      DecodedIsFaithful(sch, Enc(sch, v).value + rest);
    }
  }

  /** Encodings are injective and none is a proper prefix of another. */
  lemma {:induction false} PrefixFree(sch: Schema, v: Value, v': Value, rest: seq<byte>, rest': seq<byte>)
    requires WellFormed(sch) && Faithful(sch, v) && Faithful(sch, v') && Enc(sch, v).Some? && Enc(sch, v').Some?
    requires Enc(sch, v).value + rest == Enc(sch, v').value + rest'
    ensures v == v' && rest == rest'
  {
    RoundTrip(sch, v, rest);
    RoundTrip(sch, v', rest');
  }

  // ---- The encoder undoes the decoder ---------------------------------------------------------------------------

  predicate SpareClear(mask: seq<byte>, k: nat) {
    forall i: nat | k <= i < 8 * |mask| :: !CheckOptional(mask, i)
  }

  /** What the decoder reads has clear spare mask bits and full static arrays. */
  predicate Tidy(sch: Schema, s: seq<byte>)
    requires WellFormed(sch) && Dec(sch, s).Parsed?
    decreases sch, 0
  {
    match sch
    case UInt(_) => true
    case Enum => true
    case Str => true
    case Dyn(cap, e) => TidyList(cap, e, s)
    case Fixed(n, e) => |Dec(sch, s).value.items| == n && TidyList(n, e, s)
    case Struct(fields) =>
      var k := Optionals(fields);
      var m := MaskOctets(k);
      SpareClear(s[..m], k) && TidyFields(fields, Unmask(s[..m], k), s[m..])
    case Choice(alts) =>
      var o := OctetsForArity(|alts|);
      Tidy(alts[LittleEndianValue(s[..o])], s[o..])
  }

  predicate TidyList(cap: nat, e: Schema, s: seq<byte>)
    requires 1 <= cap && WellFormed(e) && DecList(cap, e, s).Parsed?
    decreases e, 2
  {
    var o := OctetsForCapacity(cap);
    TidyItems(e, LittleEndianValue(s[..o]), s[o..])
  }

  predicate TidyItems(e: Schema, count: nat, s: seq<byte>)
    requires WellFormed(e) && DecItems(e, count, s).Parsed?
    decreases e, 1, count
  {
    count == 0 || (Tidy(e, s) && TidyItems(e, count - 1, Dec(e, s).rest))
  }

  predicate TidyFields(fields: Fields, flags: seq<bool>, s: seq<byte>)
    requires WellFormedFields(fields) && |flags| == Optionals(fields) && DecFields(fields, flags, s).Parsed?
    decreases fields, 0
  {
    fields.NoMore? ||
    (var later := if fields.Optional? then flags[1..] else flags;
     if fields.Optional? && !flags[0] then TidyFields(fields.tail, later, s)
     else Tidy(fields.head, s) && TidyFields(fields.tail, later, Dec(fields.head, s).rest))
  }

  /** `b`, where it exists, is as long as what was read; it is what was read exactly when `tidy`. */
  predicate Rewrites(b: Option<seq<byte>>, s: seq<byte>, r: seq<byte>, tidy: bool) {
    && (b.Some? ==> |b.value| + |r| == |s|)
    && (tidy <==> b.Some? && b.value + r == s)
    && |r| <= |s| && s[|s| - |r|..] == r
  }

  /** Rewriting one part and then the rest is rewriting the whole. */
  lemma RewritesBoth(b: Option<seq<byte>>, b': Option<seq<byte>>, s: seq<byte>, r: seq<byte>, r': seq<byte>,
                     tidy: bool, tidy': bool)
    requires Rewrites(b, s, r, tidy) && Rewrites(b', r, r', tidy')
    ensures Rewrites(Join(b, b'), s, r', tidy && tidy')
  {
    assert s[|s| - |r'|..] == r[|r| - |r'|..];
    if b.Some? && b'.Some? {
      var whole := b.value + b'.value + r';
      assert whole == b.value + (b'.value + r');
      assert whole[..|b.value|] == b.value && whole[|b.value|..] == b'.value + r';
      if whole == s {
        assert s[|b.value|..] == r;
        assert s == s[..|b.value|] + s[|b.value|..];
      }
    }
  }

  lemma IntegralRewrites(s: seq<byte>, w: nat)
    requires w <= |s| && LittleEndianValue(s[..w]) < U32
    ensures Rewrites(Some(Integral(LittleEndianValue(s[..w]), w)), s, s[w..], true)
  {
    hide LittleEndian, LittleEndianValue;
    DecodedNumber(s, w);
    assert s[..w] + s[w..] == s;
  }

  lemma MaskRewrites(s: seq<byte>, k: nat)
    requires MaskOctets(k) <= |s|
    ensures var m := MaskOctets(k);
      Rewrites(Some(Mask(Unmask(s[..m], k))), s, s[m..], SpareClear(s[..m], k))
  {
    var mask := s[..MaskOctets(k)];
    var flags := Unmask(mask, k);
    assert mask + s[|mask|..] == s;
    forall i: nat | i < 8 * |mask| ensures CheckOptional(Mask(flags), i) <==> i < k && CheckOptional(mask, i) {
      MaskChecks(flags, i);
    }
    assert (Mask(flags) + s[|mask|..])[..|mask|] == Mask(flags);
    if SpareClear(mask, k) {
      MaskDetermined(mask, flags);
    }
  }

  lemma ScalarRewrites(sch: Schema, s: seq<byte>)
    requires sch.UInt? || sch.Enum? || sch.Str?
    requires WellFormed(sch) && Dec(sch, s).Parsed?
    ensures Rewrites(Enc(sch, Dec(sch, s).value), s, Dec(sch, s).rest, true)
  {
    hide LittleEndian, LittleEndianValue, Span;
    match sch
    case UInt(w) =>
      DecodedNumber(s, w);
      SmallRemainder(LittleEndianValue(s[..w]), Span(w));
      assert s[..w] + s[w..] == s;
    case Enum =>
      DecodedNumber(s, 4);
      SpanValues();
      assert s[..4] + s[4..] == s;
    case Str =>
      var i := FirstZero(s);
      assert Codes(Chars(s[..i])) == s[..i];
      assert s[..i] + [0] + s[i + 1..] == s;
  }

  /** Bytes that decode re-encode to exactly themselves if and only if they are tidy. */
  lemma {:induction false} Reencode(sch: Schema, s: seq<byte>)
    requires WellFormed(sch) && Dec(sch, s).Parsed?
    ensures Rewrites(Enc(sch, Dec(sch, s).value), s, Dec(sch, s).rest, Tidy(sch, s))
    decreases sch, 0
  {
    hide DecItems, DecFields, EncItems, EncFields, DecList, TidyList, LittleEndian, LittleEndianValue, Integral;
    match sch
    case UInt(_) => ScalarRewrites(sch, s);
    case Enum => ScalarRewrites(sch, s);
    case Str => ScalarRewrites(sch, s);
    case Dyn(cap, e) => ReencodeList(cap, e, s);
    case Fixed(n, e) => ReencodeList(n, e, s);
    case Struct(fields) =>
      var k := Optionals(fields);
      var m := MaskOctets(k);
      var flags := Unmask(s[..m], k);
      ReencodeFields(fields, flags, s[m..]);
      MaskRewrites(s, k);
      var (ms, r) := (DecFields(fields, flags, s[m..]).value, DecFields(fields, flags, s[m..]).rest);
      RewritesBoth(Some(Mask(flags)), EncFields(fields, ms), s, s[m..], r, SpareClear(s[..m], k),
                   TidyFields(fields, flags, s[m..]));
    case Choice(alts) =>
      var o := OctetsForArity(|alts|);
      var i := LittleEndianValue(s[..o]);
      Reencode(alts[i], s[o..]);
      IntegralRewrites(s, o);
      var (v, r) := (Dec(alts[i], s[o..]).value, Dec(alts[i], s[o..]).rest);
      RewritesBoth(Some(Integral(i, o)), Enc(alts[i], v), s, s[o..], r, true, Tidy(alts[i], s[o..]));
  }

  lemma {:induction false} ReencodeList(cap: nat, e: Schema, s: seq<byte>)
    requires 1 <= cap <= U32 && WellFormed(e) && DecList(cap, e, s).Parsed?
    ensures var items := DecList(cap, e, s).value.items;
      && |items| <= cap
      && Rewrites(Join(Some(Integral(|items|, OctetsForCapacity(cap))), EncItems(e, items)), s, DecList(cap, e, s).rest,
                  TidyList(cap, e, s))
    decreases e, 2
  {
    hide DecItems, EncItems, LittleEndian, LittleEndianValue, Rewrites, Integral, Span, Dec, Enc, Tidy;
    var o := OctetsForCapacity(cap);
    var count := LittleEndianValue(s[..o]);
    DecodedCount(cap, s);
    IntegralRewrites(s, o);
    ReencodeItems(e, count, s[o..]);
    var (items, r) := (DecItems(e, count, s[o..]).value, DecItems(e, count, s[o..]).rest);
    RewritesBoth(Some(Integral(count, o)), EncItems(e, items), s, s[o..], r, true, TidyItems(e, count, s[o..]));
  }

  lemma {:induction false} ReencodeItems(e: Schema, count: nat, s: seq<byte>)
    requires WellFormed(e) && DecItems(e, count, s).Parsed?
    ensures var (items, r) := (DecItems(e, count, s).value, DecItems(e, count, s).rest);
      Rewrites(EncItems(e, items), s, r, TidyItems(e, count, s))
    decreases e, 1, count
  {
    hide Dec, Enc, Tidy;
    if count == 0 {
      assert [] + s == s;
    } else {
      hide Rewrites;
      var (v, r) := (Dec(e, s).value, Dec(e, s).rest);
      Reencode(e, s);
      ReencodeItems(e, count - 1, r);
      var (vs, r') := (DecItems(e, count - 1, r).value, DecItems(e, count - 1, r).rest);
      assert ([v] + vs)[1..] == vs;
      RewritesBoth(Enc(e, v), EncItems(e, vs), s, r, r', Tidy(e, s), TidyItems(e, count - 1, r));
    }
  }

  lemma {:induction false} ReencodeFields(fields: Fields, flags: seq<bool>, s: seq<byte>)
    requires WellFormedFields(fields) && |flags| == Optionals(fields) && DecFields(fields, flags, s).Parsed?
    ensures var (ms, r) := (DecFields(fields, flags, s).value, DecFields(fields, flags, s).rest);
      Rewrites(EncFields(fields, ms), s, r, TidyFields(fields, flags, s))
    decreases fields, 0
  {
    hide Dec, Enc, Tidy, Flags;
    if fields.NoMore? {
      assert [] + s == s;
    } else {
      var later := if fields.Optional? then flags[1..] else flags;
      if fields.Optional? && !flags[0] {
        ReencodeFields(fields.tail, later, s);
        var (ms, r) := (DecFields(fields.tail, later, s).value, DecFields(fields.tail, later, s).rest);
        assert ([None] + ms)[1..] == ms;
        assert [] + s == s;
        RewritesBoth(Some([]), EncFields(fields.tail, ms), s, s, r, true, TidyFields(fields.tail, later, s));
      } else {
        hide Rewrites;
        var (v, r) := (Dec(fields.head, s).value, Dec(fields.head, s).rest);
        Reencode(fields.head, s);
        ReencodeFields(fields.tail, later, r);
        var (ms, r') := (DecFields(fields.tail, later, r).value, DecFields(fields.tail, later, r).rest);
        assert ([Some(v)] + ms)[1..] == ms;
        RewritesBoth(Enc(fields.head, v), EncFields(fields.tail, ms), s, r, r', Tidy(fields.head, s),
                     TidyFields(fields.tail, later, r));
      }
    }
  }
}
