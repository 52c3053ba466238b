/** The RTMS wire format: the schema of interface/rtms.cum, and PDUs as values of it. */
module RtmsCodec {
  import opened Wrappers
  import opened Protocol
  import opened Bits
  import opened Cum
  import opened PackedSchema
  import opened PackedCodec

  const U16 := UInt(2)
  const U64 := UInt(8)
  const BYTES := Dyn(MAX_BYTES, UInt(1))
  const SESSION := Fixed(TAG_BYTES, UInt(1))

  function LimitsFields(): Fields { Mandatory(UInt(4), Mandatory(U16, NoMore)) }

  /** The alternatives of `messages`, in order. */
  function BodyFields(index: nat): Fields
    requires index < 12
  {
    match index
    case 0 => NoMore
    case 1 => Mandatory(U16, Mandatory(Enum, Mandatory(Enum, Mandatory(BYTES, Mandatory(SESSION, NoMore)))))
    case 2 => Mandatory(U16, Mandatory(Str, Mandatory(BYTES, Mandatory(BYTES, NoMore))))
    case 3 => Mandatory(U16, Mandatory(Str, Mandatory(Str, Mandatory(Struct(LimitsFields()), NoMore))))
    case 4 => Mandatory(U16, Mandatory(U64, Mandatory(Enum, NoMore)))
    case 5 => Mandatory(U16, Mandatory(Str, Mandatory(Str, NoMore)))
    case 6 => Mandatory(U16, Mandatory(U64, Mandatory(Enum, Optional(Struct(LimitsFields()), NoMore))))
    case 7 => Mandatory(U16, Mandatory(U64, NoMore))
    case 8 => Mandatory(U16, NoMore)
    case 9 => Mandatory(Str, Mandatory(U64, Mandatory(U64, Mandatory(BYTES, NoMore))))
    case 10 => Mandatory(U64, Mandatory(U64, Mandatory(U64, NoMore)))
    case 11 => Mandatory(Enum, Mandatory(Str, NoMore))
  }

  function Messages(): Schema {
    Choice(seq(12, i requires 0 <= i < 12 => Struct(BodyFields(i))))
  }

  function PduFields(): Fields {
    Mandatory(UInt(1), Mandatory(U64, Optional(SESSION, Mandatory(Messages(), NoMore))))
  }

  function Rtms(): Schema { Struct(PduFields()) }

  // ---- PDUs as values ---------------------------------------------------------------------------------------

  function Nums(b: seq<byte>): Value {
    List(seq(|b|, i requires 0 <= i < |b| => Num(b[i])))
  }

  function StatusCode(c: Status): nat {
    match c
    case OK => 0
    case EXIST => 1
    case NOT_FOUND => 2
    case META_MISMATCH => 3
  }

  function ReasonCode(r: Reason): nat {
    match r
    case UNRECOGNIZED_TRANSPORT => 0
    case CHALLENGE_FAILURE => 1
    case SESSION_NOT_AVAILABLE => 2
    case EXPIRATION_REFRESH => 3
    case NOT_JOINED => 4
    case NOT_AUTHENTICATED => 5
    case UNKNOWN_CHANNEL => 6
  }

  /** The only challenge type. */
  const HMAC_SHA256 := 0

  function LimitsMembers(l: Limits): seq<Option<Value>> {
    [Some(Num(l.pktRateLimit)), Some(Num(l.maxPayloadSize))]
  }

  function Index(m: Message): (i: nat)
    ensures i < 12
  {
    match m
    case Heartbeat => 0
    case IdentityRequest(_, _, _, _) => 1
    case IdentityResponse(_, _, _, _) => 2
    case CreateRequest(_, _, _, _) => 3
    case CreateResponse(_, _, _) => 4
    case JoinRequest(_, _, _) => 5
    case JoinResponse(_, _, _, _) => 6
    case LeaveRequest(_, _) => 7
    case LeaveResponse(_) => 8
    case StreamData(_, _, _, _) => 9
    case StreamReport(_, _, _) => 10
    case IgnoredIndication(_, _) => 11
  }

  function Body(m: Message): seq<Option<Value>> {
    match m
    case Heartbeat => []
    case IdentityRequest(r, reason, challenge, tag) =>
      [Some(Num(r)), Some(Num(ReasonCode(reason))), Some(Num(HMAC_SHA256)), Some(Nums(challenge)), Some(Nums(tag))]
    case IdentityResponse(r, username, answer, tag) =>
      [Some(Num(r)), Some(Text(username)), Some(Nums(answer)), Some(Nums(tag))]
    case CreateRequest(r, name, metadata, limits) =>
      [Some(Num(r)), Some(Text(name)), Some(Text(metadata)), Some(Record(LimitsMembers(limits)))]
    case CreateResponse(r, c, code) => [Some(Num(r)), Some(Num(c)), Some(Num(StatusCode(code)))]
    case JoinRequest(r, name, metadata) => [Some(Num(r)), Some(Text(name)), Some(Text(metadata))]
    case JoinResponse(r, c, code, granted) =>
      [Some(Num(r)), Some(Num(c)), Some(Num(StatusCode(code))),
       if granted.Some? then Some(Record(LimitsMembers(granted.value))) else None]
    case LeaveRequest(r, c) => [Some(Num(r)), Some(Num(c))]
    case LeaveResponse(r) => [Some(Num(r))]
    case StreamData(from, member, c, payload) =>
      [Some(Text(from)), Some(Num(member)), Some(Num(c)), Some(Nums(payload))]
    case StreamReport(c, received, dropped) => [Some(Num(c)), Some(Num(received)), Some(Num(dropped))]
    case IgnoredIndication(reason, text) => [Some(Num(ReasonCode(reason))), Some(Text(text))]
  }

  function ToValue(p: Pdu): Value {
    Record([Some(Num(p.version)), Some(Num(p.senderTsUs)),
            if p.session.Some? then Some(Nums(p.session.value)) else None,
            Some(Alt(Index(p.message), Record(Body(p.message))))])
  }

  // ---- Which PDUs the encoder takes, and which survive --------------------------------------------------------

  /** The encoder does not throw: Latin-1 text, at most 2048 bytes, session tags of 16 bytes. */
  predicate EncodableBody(m: Message) {
    match m
    case IdentityRequest(_, _, challenge, tag) => |challenge| <= MAX_BYTES && |tag| == TAG_BYTES
    case IdentityResponse(_, username, answer, tag) => Latin1(username) && |answer| <= MAX_BYTES && |tag| <= MAX_BYTES
    case CreateRequest(_, name, metadata, _) => Latin1(name) && Latin1(metadata)
    case JoinRequest(_, name, metadata) => Latin1(name) && Latin1(metadata)
    case StreamData(from, _, _, payload) => Latin1(from) && |payload| <= MAX_BYTES
    case IgnoredIndication(_, text) => Latin1(text)
    case _ => true
  }

  predicate Encodable(p: Pdu) {
    (p.session.Some? ==> |p.session.value| == TAG_BYTES) && EncodableBody(p.message)
  }

  predicate NoNul(text: string) {
    forall i | 0 <= i < |text| :: 0 < text[i] as int
  }

  predicate LimitsInRange(l: Limits) {
    l.pktRateLimit < 0x1_0000_0000 && l.maxPayloadSize < 0x1_0000
  }

  const MAX_U64 := 0x1_0000_0000 * 0x1_0000_0000

  /** Numbers fit their fields and no text holds a NUL. */
  predicate PlainBody(m: Message) {
    match m
    case Heartbeat => true
    case IdentityRequest(r, _, _, _) => r < 0x1_0000
    case IdentityResponse(r, username, _, _) => r < 0x1_0000 && NoNul(username)
    case CreateRequest(r, name, metadata, limits) =>
      r < 0x1_0000 && NoNul(name) && NoNul(metadata) && LimitsInRange(limits)
    case CreateResponse(r, c, _) => r < 0x1_0000 && c < MAX_U64
    case JoinRequest(r, name, metadata) => r < 0x1_0000 && NoNul(name) && NoNul(metadata)
    case JoinResponse(r, c, _, granted) =>
      r < 0x1_0000 && c < MAX_U64 && (granted.Some? ==> LimitsInRange(granted.value))
    case LeaveRequest(r, c) => r < 0x1_0000 && c < MAX_U64
    case LeaveResponse(r) => r < 0x1_0000
    case StreamData(from, member, c, _) => NoNul(from) && member < MAX_U64 && c < MAX_U64
    case StreamReport(c, received, dropped) => c < MAX_U64 && received < MAX_U64 && dropped < MAX_U64
    case IgnoredIndication(_, text) => NoNul(text)
  }

  predicate Plain(p: Pdu) {
    p.version < 0x100 && p.senderTsUs < MAX_U64 && PlainBody(p.message)
  }

  /** `v` encodes under `sch` exactly when `e`, into `n` bytes, and survives the round trip exactly when `f`. */
  ghost predicate Fits(sch: Schema, v: Value, e: bool, n: nat, f: bool) {
    && WellFormed(sch)
    && (Enc(sch, v).Some? <==> e)
    && (e ==> |Enc(sch, v).value| == n && (Faithful(sch, v) <==> f))
  }

  ghost predicate FitsFields(fields: Fields, members: seq<Option<Value>>, e: bool, n: nat, f: bool) {
    && WellFormedFields(fields) && |members| == Arity(fields)
    && (EncFields(fields, members).Some? <==> e)
    && (e ==> |EncFields(fields, members).value| == n && (FaithfulFields(fields, members) <==> f))
  }

  lemma UIntFits(w: nat, v: nat)
    requires WellFormed(UInt(w))
    ensures Fits(UInt(w), Num(v), true, w, v < Span(w))
  {
  }

  lemma EnumFits(v: nat)
    requires v < 0x8000_0000
    ensures Fits(Enum, Num(v), true, 4, true)
  {
  }

  lemma StrFits(text: string)
    ensures Fits(Str, Text(text), Latin1(text), |text| + 1, NoNul(text))
  {
  }

  lemma {:induction false} ItemsFit(b: seq<byte>)
    ensures EncItems(UInt(1), Nums(b).items) == Some(b)
  {
    if b != [] {
      ItemsFit(b[1..]);
      assert Nums(b).items[1..] == Nums(b[1..]).items;
      assert Unsigned(b[0], 1) == [b[0]] by {
        assert Span(1) == 256 && LittleEndian(b[0], 1) == [b[0] % 256] + LittleEndian(b[0] / 256, 0);
      }
      assert [b[0]] + b[1..] == b;
    }
  }

  lemma BytesFit(b: seq<byte>)
    ensures Fits(BYTES, Nums(b), |b| <= MAX_BYTES, 2 + |b|, true)
  {
    ItemsFit(b);
    SpanValues();
  }

  lemma SessionFits(b: seq<byte>)
    ensures Fits(SESSION, Nums(b), |b| == TAG_BYTES, 1 + |b|, true)
  {
    ItemsFit(b);
    SpanValues();
  }

  lemma {:induction false} MandatoryFits(head: Schema, tail: Fields, ms: seq<Option<Value>>, i: nat,
                                         e: bool, n: nat, f: bool, e': bool, n': nat, f': bool)
    requires i < |ms| && ms[i].Some? && Fits(head, ms[i].value, e, n, f) && FitsFields(tail, ms[i + 1..], e', n', f')
    ensures FitsFields(Mandatory(head, tail), ms[i..], e && e', n + n', f && f')
  {
    hide Enc, Faithful, WellFormed;
    assert ms[i..][1..] == ms[i + 1..];
  }

  lemma {:induction false} OptionalFits(head: Schema, tail: Fields, ms: seq<Option<Value>>, i: nat,
                                        e: bool, n: nat, f: bool, e': bool, n': nat, f': bool)
    requires i < |ms| && WellFormed(head) && FitsFields(tail, ms[i + 1..], e', n', f')
    requires if ms[i].Some? then Fits(head, ms[i].value, e, n, f) else e && n == 0 && f
    ensures FitsFields(Optional(head, tail), ms[i..], e && e', n + n', f && f')
  {
    hide Enc, Faithful, WellFormed;
    assert ms[i..][1..] == ms[i + 1..];
  }

  lemma EndFits(ms: seq<Option<Value>>)
    ensures FitsFields(NoMore, ms[|ms|..], true, 0, true)
  {
  }

  lemma NumberFits(w: nat, v: nat, tail: Fields, ms: seq<Option<Value>>, i: nat, e: bool, n: nat, f: bool)
    returns (n': nat, f': bool)
    requires (w == 1 || w == 2 || w == 4 || w == 8) && i < |ms| && ms[i] == Some(Num(v))
    requires FitsFields(tail, ms[i + 1..], e, n, f)
    ensures n' == w + n && f' == (v < Span(w) && f) && FitsFields(Mandatory(UInt(w), tail), ms[i..], e, n', f')
  {
    hide Span;
    UIntFits(w, v);
    MandatoryFits(UInt(w), tail, ms, i, true, w, v < Span(w), e, n, f);
    n', f' := w + n, v < Span(w) && f;
  }

  lemma CodeFits(v: nat, tail: Fields, ms: seq<Option<Value>>, i: nat, e: bool, n: nat, f: bool) returns (n': nat)
    requires v < 0x8000_0000 && i < |ms| && ms[i] == Some(Num(v)) && FitsFields(tail, ms[i + 1..], e, n, f)
    ensures n' == 4 + n && FitsFields(Mandatory(Enum, tail), ms[i..], e, n', f)
  {
    EnumFits(v);
    MandatoryFits(Enum, tail, ms, i, true, 4, true, e, n, f);
    n' := 4 + n;
  }

  lemma TextFits(text: string, tail: Fields, ms: seq<Option<Value>>, i: nat, e: bool, n: nat, f: bool)
    returns (e': bool, n': nat, f': bool)
    requires i < |ms| && ms[i] == Some(Text(text)) && FitsFields(tail, ms[i + 1..], e, n, f)
    ensures e' == (Latin1(text) && e) && n' == |text| + 1 + n && f' == (NoNul(text) && f)
    ensures FitsFields(Mandatory(Str, tail), ms[i..], e', n', f')
  {
    StrFits(text);
    MandatoryFits(Str, tail, ms, i, Latin1(text), |text| + 1, NoNul(text), e, n, f);
    e', n', f' := Latin1(text) && e, |text| + 1 + n, NoNul(text) && f;
  }

  lemma BytesFieldFits(b: seq<byte>, tail: Fields, ms: seq<Option<Value>>, i: nat, e: bool, n: nat, f: bool)
    returns (e': bool, n': nat)
    requires i < |ms| && ms[i] == Some(Nums(b)) && FitsFields(tail, ms[i + 1..], e, n, f)
    ensures e' == (|b| <= MAX_BYTES && e) && n' == 2 + |b| + n && FitsFields(Mandatory(BYTES, tail), ms[i..], e', n', f)
  {
    BytesFit(b);
    MandatoryFits(BYTES, tail, ms, i, |b| <= MAX_BYTES, 2 + |b|, true, e, n, f);
    e', n' := |b| <= MAX_BYTES && e, 2 + |b| + n;
  }

  lemma {:induction false} StructFits(fields: Fields, members: seq<Option<Value>>, e: bool, n: nat, f: bool)
    requires FitsFields(fields, members, e, n, f)
    ensures Fits(Struct(fields), Record(members), e, MaskOctets(Optionals(fields)) + n, f)
  {
    hide EncFields, FaithfulFields, Flags, Mask;
  }

  lemma LimitsFit(l: Limits)
    ensures Fits(Struct(LimitsFields()), Record(LimitsMembers(l)), true, 6, LimitsInRange(l))
  {
    hide Fits, FitsFields, Span;
    SpanValues();
    var ms := LimitsMembers(l);
    EndFits(ms);
    var n, f := NumberFits(2, l.maxPayloadSize, NoMore, ms, 1, true, 0, true);
    n, f := NumberFits(4, l.pktRateLimit, Mandatory(U16, NoMore), ms, 0, true, n, f);
    assert ms[0..] == ms;
    StructFits(LimitsFields(), ms, true, n, f);
  }

  /** `m` encodes exactly when `EncodableBody`, into `BodySize` bytes, and survives exactly when `PlainBody`. */
  ghost predicate BodyFits(m: Message) {
    Fits(Struct(BodyFields(Index(m))), Record(Body(m)), EncodableBody(m), BodySize(m), PlainBody(m))
  }

  lemma LimitsAreWellFormed()
    ensures WellFormed(Struct(LimitsFields()))
  {
  }

  lemma IdentityRequestFits(m: Message)
    requires m.IdentityRequest?
    ensures BodyFits(m)
  {
    hide Fits, FitsFields, Span, WellFormed;
    SpanValues();
    var ms := Body(m);
    EndFits(ms);
    var e, n: nat, f := true, 0, true;
    SessionFits(m.newSession);
    MandatoryFits(SESSION, NoMore, ms, 4, |m.newSession| == TAG_BYTES, 1 + |m.newSession|, true, e, n, f);
    e, n := |m.newSession| == TAG_BYTES && e, 1 + |m.newSession| + n;
    var t4 := Mandatory(SESSION, NoMore);
    e, n := BytesFieldFits(m.challenge, t4, ms, 3, e, n, f);
    var t3 := Mandatory(BYTES, t4);
    n := CodeFits(HMAC_SHA256, t3, ms, 2, e, n, f);
    var t2 := Mandatory(Enum, t3);
    n := CodeFits(ReasonCode(m.reason), t2, ms, 1, e, n, f);
    var t1 := Mandatory(Enum, t2);
    n, f := NumberFits(2, m.reqId, t1, ms, 0, e, n, f);
    assert ms[0..] == ms;
    StructFits(BodyFields(Index(m)), ms, e, n, f);
  }

  lemma IdentityResponseFits(m: Message)
    requires m.IdentityResponse?
    ensures BodyFits(m)
  {
    hide Fits, FitsFields, Span, WellFormed;
    SpanValues();
    var ms := Body(m);
    EndFits(ms);
    var e, n: nat, f := true, 0, true;
    e, n := BytesFieldFits(m.sessionToUse, NoMore, ms, 3, e, n, f);
    var t3 := Mandatory(BYTES, NoMore);
    e, n := BytesFieldFits(m.answer, t3, ms, 2, e, n, f);
    var t2 := Mandatory(BYTES, t3);
    e, n, f := TextFits(m.username, t2, ms, 1, e, n, f);
    var t1 := Mandatory(Str, t2);
    n, f := NumberFits(2, m.reqId, t1, ms, 0, e, n, f);
    assert ms[0..] == ms;
    StructFits(BodyFields(Index(m)), ms, e, n, f);
  }

  lemma CreateRequestFits(m: Message)
    requires m.CreateRequest?
    ensures BodyFits(m)
  {
    hide Fits, FitsFields, Span, WellFormed;
    SpanValues();
    var ms := Body(m);
    EndFits(ms);
    var e, n: nat, f := true, 0, true;
    LimitsFit(m.limits);
    MandatoryFits(Struct(LimitsFields()), NoMore, ms, 3, true, 6, LimitsInRange(m.limits), e, n, f);
    n, f := 6 + n, LimitsInRange(m.limits) && f;
    var t3 := Mandatory(Struct(LimitsFields()), NoMore);
    e, n, f := TextFits(m.metadata, t3, ms, 2, e, n, f);
    var t2 := Mandatory(Str, t3);
    e, n, f := TextFits(m.channelName, t2, ms, 1, e, n, f);
    var t1 := Mandatory(Str, t2);
    n, f := NumberFits(2, m.reqId, t1, ms, 0, e, n, f);
    assert ms[0..] == ms;
    StructFits(BodyFields(Index(m)), ms, e, n, f);
  }

  lemma CreateResponseFits(m: Message)
    requires m.CreateResponse?
    ensures BodyFits(m)
  {
    hide Fits, FitsFields, Span, WellFormed;
    SpanValues();
    var ms := Body(m);
    EndFits(ms);
    var e, n: nat, f := true, 0, true;
    n := CodeFits(StatusCode(m.code), NoMore, ms, 2, e, n, f);
    var t2 := Mandatory(Enum, NoMore);
    n, f := NumberFits(8, m.channelId, t2, ms, 1, e, n, f);
    var t1 := Mandatory(UInt(8), t2);
    n, f := NumberFits(2, m.reqId, t1, ms, 0, e, n, f);
    assert ms[0..] == ms;
    StructFits(BodyFields(Index(m)), ms, e, n, f);
  }

  lemma JoinRequestFits(m: Message)
    requires m.JoinRequest?
    ensures BodyFits(m)
  {
    hide Fits, FitsFields, Span, WellFormed;
    SpanValues();
    var ms := Body(m);
    EndFits(ms);
    var e, n: nat, f := true, 0, true;
    e, n, f := TextFits(m.metadata, NoMore, ms, 2, e, n, f);
    var t2 := Mandatory(Str, NoMore);
    e, n, f := TextFits(m.channelName, t2, ms, 1, e, n, f);
    var t1 := Mandatory(Str, t2);
    n, f := NumberFits(2, m.reqId, t1, ms, 0, e, n, f);
    assert ms[0..] == ms;
    StructFits(BodyFields(Index(m)), ms, e, n, f);
  }

  lemma JoinResponseFits(m: Message)
    requires m.JoinResponse?
    ensures BodyFits(m)
  {
    hide Fits, FitsFields, Span, WellFormed;
    SpanValues();
    var ms := Body(m);
    EndFits(ms);
    var e, n: nat, f := true, 0, true;
    var size, fine := if m.granted.Some? then 6 else 0, m.granted.Some? ==> LimitsInRange(m.granted.value);
    if m.granted.Some? { LimitsFit(m.granted.value); }
    LimitsAreWellFormed();
    OptionalFits(Struct(LimitsFields()), NoMore, ms, 3, true, size, fine, e, n, f);
    n, f := size + n, fine && f;
    var t3 := Optional(Struct(LimitsFields()), NoMore);
    n := CodeFits(StatusCode(m.code), t3, ms, 2, e, n, f);
    var t2 := Mandatory(Enum, t3);
    n, f := NumberFits(8, m.channelId, t2, ms, 1, e, n, f);
    var t1 := Mandatory(UInt(8), t2);
    n, f := NumberFits(2, m.reqId, t1, ms, 0, e, n, f);
    assert ms[0..] == ms;
    StructFits(BodyFields(Index(m)), ms, e, n, f);
  }

  lemma LeaveRequestFits(m: Message)
    requires m.LeaveRequest?
    ensures BodyFits(m)
  {
    hide Fits, FitsFields, Span, WellFormed;
    SpanValues();
    var ms := Body(m);
    EndFits(ms);
    var e, n: nat, f := true, 0, true;
    n, f := NumberFits(8, m.channelId, NoMore, ms, 1, e, n, f);
    var t1 := Mandatory(UInt(8), NoMore);
    n, f := NumberFits(2, m.reqId, t1, ms, 0, e, n, f);
    assert ms[0..] == ms;
    StructFits(BodyFields(Index(m)), ms, e, n, f);
  }

  lemma LeaveResponseFits(m: Message)
    requires m.LeaveResponse?
    ensures BodyFits(m)
  {
    hide Fits, FitsFields, Span, WellFormed;
    SpanValues();
    var ms := Body(m);
    EndFits(ms);
    var e, n: nat, f := true, 0, true;
    n, f := NumberFits(2, m.reqId, NoMore, ms, 0, e, n, f);
    assert ms[0..] == ms;
    StructFits(BodyFields(Index(m)), ms, e, n, f);
  }

  lemma StreamDataFits(m: Message)
    requires m.StreamData?
    ensures BodyFits(m)
  {
    hide Fits, FitsFields, Span, WellFormed;
    SpanValues();
    var ms := Body(m);
    EndFits(ms);
    var e, n: nat, f := true, 0, true;
    e, n := BytesFieldFits(m.payload, NoMore, ms, 3, e, n, f);
    var t3 := Mandatory(BYTES, NoMore);
    n, f := NumberFits(8, m.channelId, t3, ms, 2, e, n, f);
    var t2 := Mandatory(UInt(8), t3);
    n, f := NumberFits(8, m.fromSession, t2, ms, 1, e, n, f);
    var t1 := Mandatory(UInt(8), t2);
    e, n, f := TextFits(m.fromUsername, t1, ms, 0, e, n, f);
    assert ms[0..] == ms;
    StructFits(BodyFields(Index(m)), ms, e, n, f);
  }

  lemma StreamReportFits(m: Message)
    requires m.StreamReport?
    ensures BodyFits(m)
  {
    hide Fits, FitsFields, Span, WellFormed;
    SpanValues();
    var ms := Body(m);
    EndFits(ms);
    var e, n: nat, f := true, 0, true;
    n, f := NumberFits(8, m.dropped, NoMore, ms, 2, e, n, f);
    var t2 := Mandatory(UInt(8), NoMore);
    n, f := NumberFits(8, m.received, t2, ms, 1, e, n, f);
    var t1 := Mandatory(UInt(8), t2);
    n, f := NumberFits(8, m.channelId, t1, ms, 0, e, n, f);
    assert ms[0..] == ms;
    StructFits(BodyFields(Index(m)), ms, e, n, f);
  }

  lemma IgnoredIndicationFits(m: Message)
    requires m.IgnoredIndication?
    ensures BodyFits(m)
  {
    hide Fits, FitsFields, Span, WellFormed;
    SpanValues();
    var ms := Body(m);
    EndFits(ms);
    var e, n: nat, f := true, 0, true;
    e, n, f := TextFits(m.text, NoMore, ms, 1, e, n, f);
    var t1 := Mandatory(Str, NoMore);
    n := CodeFits(ReasonCode(m.reason), t1, ms, 0, e, n, f);
    assert ms[0..] == ms;
    StructFits(BodyFields(Index(m)), ms, e, n, f);
  }

  lemma BodyAlwaysFits(m: Message)
    ensures BodyFits(m)
  {
    match m
    case Heartbeat =>
    case IdentityRequest(_, _, _, _) => IdentityRequestFits(m);
    case IdentityResponse(_, _, _, _) => IdentityResponseFits(m);
    case CreateRequest(_, _, _, _) => CreateRequestFits(m);
    case CreateResponse(_, _, _) => CreateResponseFits(m);
    case JoinRequest(_, _, _) => JoinRequestFits(m);
    case JoinResponse(_, _, _, _) => JoinResponseFits(m);
    case LeaveRequest(_, _) => LeaveRequestFits(m);
    case LeaveResponse(_) => LeaveResponseFits(m);
    case StreamData(_, _, _, _) => StreamDataFits(m);
    case StreamReport(_, _, _) => StreamReportFits(m);
    case IgnoredIndication(_, _) => IgnoredIndicationFits(m);
  }

  // ---- Whole PDUs ---------------------------------------------------------------------------------------------

  lemma BodiesAreWellFormed(i: nat)
    requires i < 12
    ensures WellFormed(Struct(BodyFields(i)))
  {
  }

  lemma MessagesWellFormed()
    ensures WellFormed(Messages())
  {
    hide BodyFields;
    forall i | 0 <= i < 12 ensures WellFormed(Messages().alternatives[i]) { BodiesAreWellFormed(i); }
  }

  lemma RtmsWellFormed()
    ensures WellFormed(Rtms())
  {
    hide Messages;
    MessagesWellFormed();
  }

  lemma MessageFits(m: Message)
    ensures Fits(Messages(), Alt(Index(m), Record(Body(m))), EncodableBody(m), 1 + BodySize(m), PlainBody(m))
  {
    hide BodyFields, Body, EncodableBody, PlainBody, BodySize;
    MessagesWellFormed();
    BodyAlwaysFits(m);
    assert Messages().alternatives[Index(m)] == Struct(BodyFields(Index(m)));
  }

  lemma PduFits(p: Pdu)
    ensures Fits(Rtms(), ToValue(p), Encodable(p), WireSize(p), Plain(p))
  {
    hide Fits, FitsFields, Span, WellFormed, Messages, Body;
    SpanValues();
    var ms := ToValue(p).members;
    var tag := p.session;
    EndFits(ms);
    MessageFits(p.message);
    var e, n, f := EncodableBody(p.message), 1 + BodySize(p.message), PlainBody(p.message);
    MandatoryFits(Messages(), NoMore, ms, 3, e, n, f, true, 0, true);
    var t3 := Mandatory(Messages(), NoMore);
    var e', n' := tag.Some? ==> |tag.value| == TAG_BYTES, if tag.Some? then 1 + |tag.value| else 0;
    if tag.Some? { SessionFits(tag.value); }
    SessionWellFormed();
    OptionalFits(SESSION, t3, ms, 2, e', n', true, e, n, f);
    e, n := e' && e, n' + n;
    var t2 := Optional(SESSION, t3);
    n, f := NumberFits(8, p.senderTsUs, t2, ms, 1, e, n, f);
    n, f := NumberFits(1, p.version, Mandatory(U64, t2), ms, 0, e, n, f);
    assert ms[0..] == ms;
    StructFits(PduFields(), ms, e, n, f);
  }

  lemma SessionWellFormed()
    ensures WellFormed(SESSION)
  {
  }

  /** `encodeUsing_rtms`. */
  function Encoding(p: Pdu): Option<seq<byte>> {
    RtmsWellFormed();
    Enc(Rtms(), ToValue(p))
  }

  /** `decodeUsing_rtms`. */
  function Decoding(s: seq<byte>): Parse<Value> {
    RtmsWellFormed();
    Dec(Rtms(), s)
  }

  /**
   * The encoder takes exactly the encodable PDUs, and writes `WireSize` bytes; exactly the plain ones among them are
   * decoded back, whatever bytes follow.
   */
  lemma {:induction false} PduRoundTrip(p: Pdu, rest: seq<byte>)
    ensures Encoding(p).Some? <==> Encodable(p)
    ensures Encodable(p) ==> |Encoding(p).value| == WireSize(p)
    ensures Encodable(p) ==> (Decoding(Encoding(p).value + rest) == Parsed(ToValue(p), rest) <==> Plain(p))
  {
    hide Enc, Dec, Encodable, Plain, WireSize, ToValue, Rtms;
    PduFits(p);
    if Encodable(p) {
      RoundTripExactly(Rtms(), ToValue(p), rest);
    }
  }

  lemma NumsInjective(b: seq<byte>, c: seq<byte>)
    requires Nums(b) == Nums(c)
    ensures b == c
  {
    assert forall i | 0 <= i < |b| :: Nums(b).items[i] == Num(b[i]) && Nums(c).items[i] == Num(c[i]);
  }

  lemma BodyInjective(m: Message, m': Message)
    requires Index(m) == Index(m') && Body(m) == Body(m')
    ensures m == m'
  {
    var b, b' := Body(m), Body(m');
    assert forall i | 0 <= i < |b| :: b[i] == b'[i];
    match m
    case IdentityRequest(_, _, challenge, tag) =>
      NumsInjective(challenge, m'.challenge);
      NumsInjective(tag, m'.newSession);
    case IdentityResponse(_, _, answer, tag) =>
      NumsInjective(answer, m'.answer);
      NumsInjective(tag, m'.sessionToUse);
    case StreamData(_, _, _, payload) => NumsInjective(payload, m'.payload);
    case CreateRequest(_, _, _, l) => LimitsInjective(l, m'.limits);
    case JoinResponse(_, _, _, granted) =>
      if granted.Some? && m'.granted.Some? { LimitsInjective(granted.value, m'.granted.value); }
    case _ =>
  }

  lemma LimitsInjective(l: Limits, l': Limits)
    requires LimitsMembers(l) == LimitsMembers(l')
    ensures l == l'
  {
    assert forall i | 0 <= i < 2 :: LimitsMembers(l)[i] == LimitsMembers(l')[i];
  }

  lemma ToValueInjective(p: Pdu, p': Pdu)
    requires ToValue(p) == ToValue(p')
    ensures p == p'
  {
    hide Body, Index, Nums;
    var ms, ms' := ToValue(p).members, ToValue(p').members;
    assert forall i | 0 <= i < 4 :: ms[i] == ms'[i];
    if p.session.Some? && p'.session.Some? { NumsInjective(p.session.value, p'.session.value); }
    BodyInjective(p.message, p'.message);
  }

  /** One datagram cannot be read as two PDUs, nor as one PDU and the beginning of another. */
  lemma {:induction false} PdusArePrefixFree(p: Pdu, p': Pdu, rest: seq<byte>, rest': seq<byte>)
    requires Encodable(p) && Plain(p) && Encodable(p') && Plain(p')
    requires Encoding(p).Some? && Encoding(p').Some? && Encoding(p).value + rest == Encoding(p').value + rest'
    ensures p == p' && rest == rest'
  {
    hide Enc, Dec, Encodable, Plain, WireSize, ToValue, Rtms;
    PduRoundTrip(p, rest);
    PduRoundTrip(p', rest');
    ToValueInjective(p, p');
  }

  /** `encodeUsing_rtms` at any offset of any buffer: it succeeds exactly when the PDU is encodable and fits. */
  method EncodePdu(ctx: PerCodecCtx, p: Pdu) returns (ok: bool)
    requires ctx.Valid()
    modifies ctx`off, ctx.buf
    ensures ctx.Valid() && (ok <==> Encodable(p) && old(ctx.off) + WireSize(p) <= ctx.buf.Length)
    ensures ok ==> ctx.off == old(ctx.off) + WireSize(p)
    ensures ok ==> Encoding(p) == Some(ctx.buf[old(ctx.off)..ctx.off])
    ensures ok ==> ctx.buf[ctx.off..] == old(ctx.buf[..])[ctx.off..]
    ensures ctx.buf[..old(ctx.off)] == old(ctx.buf[..ctx.off])
  {
    hide Enc, Encodable, Plain, WireSize, ToValue, Rtms;
    RtmsWellFormed();
    PduRoundTrip(p, []);
    ok := ctx.Encode(Rtms(), ToValue(p));
    ghost var s, o := old(ctx.buf[..]), old(ctx.off);
    if ok {
      ghost var b := Encoding(p).value;
      ghost var t := Overwritten(s, o, b);
      assert t[..o] == s[..o] && t[o..o + |b|] == b && t[o + |b|..] == s[o + |b|..];
      assert ctx.buf[o..o + |b|] == ctx.buf[..][o..o + |b|] && ctx.buf[o + |b|..] == ctx.buf[..][o + |b|..];
    }
    assert ctx.buf[..o] == ctx.buf[..][..o];
  }

  /** `decodeUsing_rtms` at any offset; by `PduRoundTrip` it gives back a plain PDU and stops right after it. */
  method DecodePdu(ctx: PerCodecCtx) returns (r: Option<Value>)
    requires ctx.Valid()
    modifies ctx`off
    ensures ctx.Read(r, Decoding(old(ctx.buf[ctx.off..])))
  {
    hide Dec, Rtms;
    RtmsWellFormed();
    r := ctx.Decode(Rtms());
  }

  // ---- From bytes to a PDU and back to the same bytes -----------------------------------------------------------

  /** Schemas without masks and static arrays: what they decode is always tidy. */
  predicate MaskFree(sch: Schema) {
    match sch
    case UInt(_) => true
    case Enum => true
    case Str => true
    case Dyn(_, e) => MaskFree(e)
    case Fixed(_, _) => false
    case Struct(fields) => MaskFreeFields(fields)
    case Choice(alts) => forall i | 0 <= i < |alts| :: MaskFree(alts[i])
  }

  predicate MaskFreeFields(fields: Fields) {
    fields.NoMore? || (fields.Mandatory? && MaskFree(fields.head) && MaskFreeFields(fields.tail))
  }

  lemma {:induction false} NoOptionals(fields: Fields)
    requires MaskFreeFields(fields)
    ensures Optionals(fields) == 0
  {
    if !fields.NoMore? { NoOptionals(fields.tail); }
  }

  lemma {:induction false} MaskFreeIsTidy(sch: Schema, s: seq<byte>)
    requires WellFormed(sch) && Dec(sch, s).Parsed? && MaskFree(sch)
    ensures Tidy(sch, s)
    decreases sch, 0
  {
    hide DecItems, LittleEndianValue;
    match sch
    case Dyn(cap, e) =>
      var o := OctetsForCapacity(cap);
      MaskFreeItemsAreTidy(e, LittleEndianValue(s[..o]), s[o..]);
    case Struct(fields) =>
      NoOptionals(fields);
      assert s[..0] == [] && s[0..] == s && Unmask(s[..0], 0) == [];
      MaskFreeFieldsAreTidy(fields, [], s);
    case Choice(alts) =>
      var o := OctetsForArity(|alts|);
      MaskFreeIsTidy(alts[LittleEndianValue(s[..o])], s[o..]);
    case _ =>
  }

  lemma {:induction false} MaskFreeItemsAreTidy(e: Schema, count: nat, s: seq<byte>)
    requires WellFormed(e) && DecItems(e, count, s).Parsed? && MaskFree(e)
    ensures TidyItems(e, count, s)
    decreases e, 1, count
  {
    hide Dec, Tidy, WellFormed, MaskFree;
    if count > 0 {
      MaskFreeIsTidy(e, s);
      MaskFreeItemsAreTidy(e, count - 1, Dec(e, s).rest);
    }
  }

  lemma {:induction false} MaskFreeFieldsAreTidy(fields: Fields, flags: seq<bool>, s: seq<byte>)
    requires WellFormedFields(fields) && |flags| == Optionals(fields) && DecFields(fields, flags, s).Parsed?
    requires MaskFreeFields(fields)
    ensures TidyFields(fields, flags, s)
    decreases fields, 0
  {
    hide Dec, Tidy, WellFormed, MaskFree;
    if !fields.NoMore? {
      MaskFreeIsTidy(fields.head, s);
      MaskFreeFieldsAreTidy(fields.tail, flags, Dec(fields.head, s).rest);
    }
  }

  /** An optional mask of one flag. */
  predicate IsOneFlagMask(b: byte) { b == 0 || b == 0x80 }

  lemma HighBitOnly(f: bool, idx: nat)
    requires idx < 8
    ensures CheckOptional([if f then 0x80 else 0], idx) <==> f && idx == 0
  {
    hide Bitwise, Bit;
    var b: byte := if f then 0x80 else 0;
    CheckIsBit([b], idx);
    if f {
      assert Pow2(3) == 8 && Pow2(7) == 0x80;
      PowerBits(7, 7 - idx);
    } else {
      ZeroBits(7 - idx);
    }
  }

  lemma OneFlagOctet(f: bool)
    ensures Mask([f]) == [if f then 0x80 else 0]
  {
    hide CheckOptional;
    var mask: seq<byte> := [if f then 0x80 else 0];
    forall idx: nat | idx < 8 ensures CheckOptional(mask, idx) <==> idx < 1 && [f][idx] {
      HighBitOnly(f, idx);
    }
    MaskDetermined(mask, [f]);
  }

  lemma OneFlagMask(mask: seq<byte>)
    requires |mask| == 1
    ensures SpareClear(mask, 1) <==> IsOneFlagMask(mask[0])
  {
    if SpareClear(mask, 1) {
      var f := CheckOptional(mask, 0);
      forall idx: nat | idx < 8 ensures CheckOptional(mask, idx) <==> idx < 1 && [f][idx] {}
      MaskDetermined(mask, [f]);
      OneFlagOctet(f);
    }
    if IsOneFlagMask(mask[0]) {
      var g := mask[0] == 0x80;
      OneFlagOctet(g);
      forall i: nat | 1 <= i < 8 ensures !CheckOptional(mask, i) { MaskChecks([g], i); }
    }
  }

  /** A mandatory field without masks does not matter for tidiness. */
  lemma {:induction false} SkipField(head: Schema, tail: Fields, flags: seq<bool>, s: seq<byte>)
    requires WellFormedFields(Mandatory(head, tail)) && MaskFree(head) && |flags| == Optionals(tail)
    requires DecFields(Mandatory(head, tail), flags, s).Parsed?
    ensures Dec(head, s).Parsed? && DecFields(tail, flags, Dec(head, s).rest).Parsed?
    ensures var (p, q) := (DecFields(Mandatory(head, tail), flags, s), DecFields(tail, flags, Dec(head, s).rest));
      && p.value[1..] == q.value && p.rest == q.rest
      && (TidyFields(Mandatory(head, tail), flags, s) <==> TidyFields(tail, flags, Dec(head, s).rest))
  {
    hide Dec, Tidy, WellFormed, MaskFree;
    MaskFreeIsTidy(head, s);
  }

  lemma {:induction false} TidySession(s: seq<byte>)
    requires WellFormed(SESSION) && Dec(SESSION, s).Parsed?
    ensures var v := Dec(SESSION, s).value; v.List? && (Tidy(SESSION, s) <==> |v.items| == TAG_BYTES)
  {
    hide DecItems, TidyItems, LittleEndianValue;
    var o := OctetsForCapacity(TAG_BYTES);
    MaskFreeItemsAreTidy(UInt(1), LittleEndianValue(s[..o]), s[o..]);
  }

  lemma {:induction false} TidyIdentityRequest(s: seq<byte>)
    requires WellFormed(Struct(BodyFields(1))) && Dec(Struct(BodyFields(1)), s).Parsed?
    ensures var ms := Dec(Struct(BodyFields(1)), s).value.members;
      && |ms| == 5 && ms[4].Some? && ms[4].value.List?
      && (Tidy(Struct(BodyFields(1)), s) <==> |ms[4].value.items| == TAG_BYTES)
  {
    hide DecItems, DecList, TidyItems, TidyList, LittleEndianValue;
    var f4 := Mandatory(SESSION, NoMore);
    var f3 := Mandatory(BYTES, f4);
    var f2 := Mandatory(Enum, f3);
    var f1 := Mandatory(Enum, f2);
    assert s[..0] == [] && s[0..] == s && Unmask(s[..0], 0) == [];
    SkipField(U16, f1, [], s);
    var s1 := Dec(U16, s).rest;
    SkipField(Enum, f2, [], s1);
    var s2 := Dec(Enum, s1).rest;
    SkipField(Enum, f3, [], s2);
    var s3 := Dec(Enum, s2).rest;
    SkipField(BYTES, f4, [], s3);
    var s4 := Dec(BYTES, s3).rest;
    TidySession(s4);
    var ms := DecFields(BodyFields(1), [], s).value;
    assert ms[1..][1..][1..][1..] == DecFields(f4, [], s4).value == [Some(Dec(SESSION, s4).value)];
  }

  lemma {:induction false} OneMaskOctet(fields: Fields, s: seq<byte>)
    requires WellFormed(Struct(fields)) && Optionals(fields) == 1 && Dec(Struct(fields), s).Parsed?
    ensures |s| > 0 && DecFields(fields, Unmask(s[..1], 1), s[1..]).Parsed?
    ensures Tidy(Struct(fields), s)
      <==> IsOneFlagMask(s[0]) && TidyFields(fields, Unmask(s[..1], 1), s[1..])
  {
    hide DecFields, TidyFields;
    OneFlagMask(s[..1]);
  }

  function GrantedTail(): Fields { Optional(Struct(LimitsFields()), NoMore) }

  lemma {:induction false} GrantedIsTidy(flags: seq<bool>, t: seq<byte>)
    requires |flags| == 1 && WellFormedFields(GrantedTail()) && DecFields(GrantedTail(), flags, t).Parsed?
    ensures TidyFields(GrantedTail(), flags, t)
  {
    hide Dec, Tidy;
    if flags[0] {
      MaskFreeIsTidy(Struct(LimitsFields()), t);
    }
  }

  lemma {:induction false} TidyJoinResponse(s: seq<byte>)
    requires WellFormed(Struct(BodyFields(6))) && Dec(Struct(BodyFields(6)), s).Parsed?
    ensures |s| > 0 && (Tidy(Struct(BodyFields(6)), s) <==> IsOneFlagMask(s[0]))
  {
    hide Dec, Tidy, DecFields, TidyFields, CheckOptional;
    OneMaskOctet(BodyFields(6), s);
    var f2 := Mandatory(Enum, GrantedTail());
    var flags, t := Unmask(s[..1], 1), s[1..];
    SkipField(U16, Mandatory(U64, f2), flags, t);
    var t1 := Dec(U16, t).rest;
    SkipField(U64, f2, flags, t1);
    var t2 := Dec(U64, t1).rest;
    SkipField(Enum, GrantedTail(), flags, t2);
    GrantedIsTidy(flags, Dec(Enum, t2).rest);
  }

  /** The body of an identity request: its new session is complete. Of a join response: its mask is clean. */
  lemma {:induction false} TidyBody(i: nat, s: seq<byte>)
    requires i < 12 && WellFormed(Struct(BodyFields(i))) && Dec(Struct(BodyFields(i)), s).Parsed?
    ensures var ms := Dec(Struct(BodyFields(i)), s).value.members;
      && (i == 1 ==> |ms| == 5 && ms[4].Some? && ms[4].value.List?)
      && (i == 6 ==> |s| > 0)
      && (Tidy(Struct(BodyFields(i)), s)
          <==> (i == 1 ==> |ms[4].value.items| == TAG_BYTES) && (i == 6 ==> IsOneFlagMask(s[0])))
  {
    if i == 1 {
      TidyIdentityRequest(s);
    } else if i == 6 {
      TidyJoinResponse(s);
    } else {
      hide Dec, Tidy;
      assert MaskFree(Struct(BodyFields(i))) by { BodyMaskFree(i); }
      MaskFreeIsTidy(Struct(BodyFields(i)), s);
    }
  }

  lemma BodyMaskFree(i: nat)
    requires i < 12 && i != 1 && i != 6
    ensures MaskFree(Struct(BodyFields(i)))
  {
  }

  /** `v`, decoded from `s`, has complete sessions, and the masks in `s` are 0x00 or 0x80. */
  predicate Clean(s: seq<byte>, v: Value)
    requires PduShaped(v)
  {
    var tag, m := v.members[2], v.members[3].value;
    var at := 11 + if tag.Some? then 1 + |tag.value.items| else 0;
    && |s| > 0 && IsOneFlagMask(s[0])
    && (tag.Some? ==> |tag.value.items| == TAG_BYTES)
    && (m.index == 1 ==> |m.chosen.members[4].value.items| == TAG_BYTES)
    && (m.index == 6 ==> at < |s| && IsOneFlagMask(s[at]))
  }

  predicate PduShaped(v: Value) {
    && v.Record? && |v.members| == 4
    && (v.members[2].Some? ==> v.members[2].value.List?)
    && v.members[3].Some? && v.members[3].value.Alt? && v.members[3].value.chosen.Record?
    && (v.members[3].value.index == 1 ==>
          var ms := v.members[3].value.chosen.members; |ms| == 5 && ms[4].Some? && ms[4].value.List?)
  }

  lemma {:induction false} OctetsTaken(count: nat, s: seq<byte>)
    requires DecItems(UInt(1), count, s).Parsed?
    ensures count <= |s| && DecItems(UInt(1), count, s).rest == s[count..]
    decreases count
  {
    if count > 0 {
      OctetsTaken(count - 1, s[1..]);
      assert s[1..][count - 1..] == s[count..];
    }
  }

  lemma {:induction false} SessionTaken(s: seq<byte>)
    requires WellFormed(SESSION) && Dec(SESSION, s).Parsed?
    ensures var v := Dec(SESSION, s).value;
      v.List? && 1 + |v.items| <= |s| && Dec(SESSION, s).rest == s[1 + |v.items|..]
  {
    hide DecItems, LittleEndianValue;
    var o := OctetsForCapacity(TAG_BYTES);
    OctetsTaken(LittleEndianValue(s[..o]), s[o..]);
  }

  /** The choice of a PDU: index octet, then the body. */
  lemma {:induction false} TidyMessage(s: seq<byte>)
    requires WellFormed(Messages()) && Dec(Messages(), s).Parsed?
    ensures var v := Dec(Messages(), s).value;
      && v.Alt? && v.index < 12 && v.chosen.Record?
      && (v.index == 1 ==> |v.chosen.members| == 5 && v.chosen.members[4].Some? && v.chosen.members[4].value.List?)
      && (v.index == 6 ==> |s| > 1)
      && (Tidy(Messages(), s) <==>
            && (v.index == 1 ==> |v.chosen.members[4].value.items| == TAG_BYTES)
            && (v.index == 6 ==> IsOneFlagMask(s[1])))
  {
    hide BodyFields, LittleEndianValue, DecFields, TidyFields;
    var i := LittleEndianValue(s[..1]);
    BodiesAreWellFormed(i);
    assert Messages().alternatives[i] == Struct(BodyFields(i));
    TidyBody(i, s[1..]);
  }

  /** Encoding `v` gives the bytes of `s` up to `r`. */
  predicate Reencoded(v: Value, r: seq<byte>, s: seq<byte>) {
    RtmsWellFormed();
    Enc(Rtms(), v).Some? && Enc(Rtms(), v).value + r == s
  }

  /**
   * Any datagram the decoder accepts: re-encoding what was read gives back exactly the bytes that were read, if and
   * only if the datagram is clean.
   */
  lemma {:induction false} AcceptedReencodes(s: seq<byte>)
    requires Decoding(s).Parsed?
    ensures PduShaped(Decoding(s).value)
    ensures Reencoded(Decoding(s).value, Decoding(s).rest, s) <==> Clean(s, Decoding(s).value)
  {
    hide Dec, Enc, Tidy, Rtms, Clean, PduShaped, WellFormed;
    RtmsWellFormed();
    Reencode(Rtms(), s);
    TidyIsClean(s);
  }

  function TailFields(): Fields { Optional(SESSION, Mandatory(Messages(), NoMore)) }

  /** The part of a PDU after version and timestamp: the session, if flagged, then the message. */
  lemma {:induction false} TidyTail(flags: seq<bool>, t: seq<byte>)
    requires |flags| == 1 && WellFormedFields(TailFields()) && DecFields(TailFields(), flags, t).Parsed?
    ensures var p := DecFields(TailFields(), flags, t).value;
      && |p| == 2 && (p[0].Some? <==> flags[0]) && (p[0].Some? ==> p[0].value.List?)
      && var n := if p[0].Some? then 1 + |p[0].value.items| else 0;
      && n <= |t| && Dec(Messages(), t[n..]).Parsed? && p[1] == Some(Dec(Messages(), t[n..]).value)
      && (TidyFields(TailFields(), flags, t)
          <==> (p[0].Some? ==> |p[0].value.items| == TAG_BYTES) && Tidy(Messages(), t[n..]))
  {
    hide DecItems, DecList, TidyItems, TidyList, LittleEndianValue, Messages, Tidy, Dec;
    var f3 := Mandatory(Messages(), NoMore);
    if flags[0] {
      TidySession(t);
      SessionTaken(t);
    } else {
      assert t[0..] == t;
    }
  }

  lemma {:induction false} TidyIsClean(s: seq<byte>)
    requires WellFormed(Rtms()) && Dec(Rtms(), s).Parsed?
    ensures PduShaped(Dec(Rtms(), s).value) && (Tidy(Rtms(), s) <==> Clean(s, Dec(Rtms(), s).value))
  {
    hide DecItems, DecList, TidyItems, TidyList, LittleEndianValue, Messages, DecFields, TidyFields, CheckOptional;
    hide Tidy;
    var flags, t := Unmask(s[..1], 1), s[1..];
    OneMaskOctet(PduFields(), s);
    var p := HeadSkipped(flags, t);
    TidyTail(flags, s[10..]);
    var n := if p[0].Some? then 1 + |p[0].value.items| else 0;
    assert s[10..][n..] == s[10 + n..];
    TidyMessage(s[10 + n..]);
  }

  /** Version and timestamp take nine octets and are always tidy. */
  lemma {:induction false} HeadSkipped(flags: seq<bool>, t: seq<byte>) returns (p: seq<Option<Value>>)
    requires |flags| == 1 && WellFormedFields(PduFields()) && DecFields(PduFields(), flags, t).Parsed?
    ensures |t| >= 9 && DecFields(TailFields(), flags, t[9..]).Parsed?
    ensures p == DecFields(TailFields(), flags, t[9..]).value
    ensures |p| == 2 && DecFields(PduFields(), flags, t).value[2..] == p
    ensures TidyFields(PduFields(), flags, t) <==> TidyFields(TailFields(), flags, t[9..])
  {
    hide DecItems, DecList, TidyItems, TidyList, LittleEndianValue, Messages;
    SkipField(UInt(1), Mandatory(U64, TailFields()), flags, t);
    var t1 := Dec(UInt(1), t).rest;
    SkipField(U64, TailFields(), flags, t1);
    assert Dec(U64, t1).rest == t[9..];
    p := DecFields(TailFields(), flags, t[9..]).value;
    var ms := DecFields(PduFields(), flags, t).value;
    assert ms[1..][1..] == ms[2..];
  }
}
