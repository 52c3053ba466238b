/** The bytes of every RTMS message, in the order of interface/rtms.cum. */
module RtmsLayout {
  import opened Wrappers
  import opened Protocol
  import opened Bits
  import opened Cum
  import opened Framing
  import opened PackedSchema
  import opened RtmsCodec

  // ---- The layout -------------------------------------------------------------------------------------------------

  /** A field of type `string`. */
  function TextOctets(text: string): seq<byte>
    requires Latin1(text)
  {
    Codes(text) + [0]
  }

  /** A field of type `bytes`. */
  function BytesOctets(b: seq<byte>): seq<byte> { LittleEndian(|b|, 2) + b }

  /** A field of type `session`: its length is counted although it is fixed. */
  function SessionOctets(tag: Tag): seq<byte> { [16] + tag }

  function LimitsOctets(l: Limits): seq<byte> { LittleEndian(l.pktRateLimit, 4) + LittleEndian(l.maxPayloadSize, 2) }

  function StatusOctets(c: Status): seq<byte> {
    match c
    case OK => [0, 0, 0, 0]
    case EXIST => [1, 0, 0, 0]
    case NOT_FOUND => [2, 0, 0, 0]
    case META_MISMATCH => [3, 0, 0, 0]
  }

  function ReasonOctets(r: Reason): seq<byte> {
    match r
    case UNRECOGNIZED_TRANSPORT => [0, 0, 0, 0]
    case CHALLENGE_FAILURE => [1, 0, 0, 0]
    case SESSION_NOT_AVAILABLE => [2, 0, 0, 0]
    case EXPIRATION_REFRESH => [3, 0, 0, 0]
    case NOT_JOINED => [4, 0, 0, 0]
    case NOT_AUTHENTICATED => [5, 0, 0, 0]
    case UNKNOWN_CHANNEL => [6, 0, 0, 0]
  }

  /** A message: its number among the alternatives, then its fields. */
  function MessageOctets(m: Message): seq<seq<byte>>
    requires EncodableBody(m)
  {
    match m
    case Heartbeat => [[0]]
    case IdentityRequest(r, reason, challenge, newSession) =>
      [[1], LittleEndian(r, 2), ReasonOctets(reason), [0, 0, 0, 0], BytesOctets(challenge), SessionOctets(newSession)]
    case IdentityResponse(r, username, answer, sessionToUse) =>
      [[2], LittleEndian(r, 2), TextOctets(username), BytesOctets(answer), BytesOctets(sessionToUse)]
    case CreateRequest(r, channelName, metadata, limits) =>
      [[3], LittleEndian(r, 2), TextOctets(channelName), TextOctets(metadata), LimitsOctets(limits)]
    case CreateResponse(r, channelId, code) => [[4], LittleEndian(r, 2), LittleEndian(channelId, 8), StatusOctets(code)]
    case JoinRequest(r, channelName, metadata) =>
      [[5], LittleEndian(r, 2), TextOctets(channelName), TextOctets(metadata)]
    case JoinResponse(r, channelId, code, None) =>
      [[6], [0], LittleEndian(r, 2), LittleEndian(channelId, 8), StatusOctets(code), []]
    case JoinResponse(r, channelId, code, Some(limits)) =>
      [[6], [0x80], LittleEndian(r, 2), LittleEndian(channelId, 8), StatusOctets(code), LimitsOctets(limits)]
    case LeaveRequest(r, channelId) => [[7], LittleEndian(r, 2), LittleEndian(channelId, 8)]
    case LeaveResponse(r) => [[8], LittleEndian(r, 2)]
    case StreamData(fromUsername, fromSession, channelId, payload) =>
      [[9], TextOctets(fromUsername), LittleEndian(fromSession, 8), LittleEndian(channelId, 8), BytesOctets(payload)]
    case StreamReport(channelId, received, dropped) =>
      [[10], LittleEndian(channelId, 8), LittleEndian(received, 8), LittleEndian(dropped, 8)]
    case IgnoredIndication(reason, text) => [[11], ReasonOctets(reason), TextOctets(text)]
  }

  /** A PDU: the optional mask, version, timestamp, the session if there is one, and the message. */
  function PduOctets(p: Pdu): seq<byte>
    requires Encodable(p)
  {
    (if p.session.Some? then [0x80] else [0]) + LittleEndian(p.version, 1) + LittleEndian(p.senderTsUs, 8)
    + (if p.session.Some? then SessionOctets(p.session.value) else []) + Joined(MessageOctets(p.message))
  }

  // ---- Fields ------------------------------------------------------------------------------------------------------

  predicate Gives(sch: Schema, v: Value, b: seq<byte>) { WellFormed(sch) && Enc(sch, v) == Some(b) }

  predicate FieldsGive(fields: Fields, ms: seq<Option<Value>>, parts: seq<seq<byte>>) {
    WellFormedFields(fields) && |ms| == Arity(fields) && EncFields(fields, ms) == Some(Joined(parts))
  }

  lemma {:induction false} MandatoryGives(head: Schema, tail: Fields, ms: seq<Option<Value>>, i: nat, b: seq<byte>,
                                          parts: seq<seq<byte>>)
    requires i < |ms| && ms[i].Some? && Gives(head, ms[i].value, b) && FieldsGive(tail, ms[i + 1..], parts)
    ensures FieldsGive(Mandatory(head, tail), ms[i..], [b] + parts)
  {
    hide Enc, WellFormed;
    assert ms[i..][1..] == ms[i + 1..] && ([b] + parts)[1..] == parts;
  }

  lemma {:induction false} OptionalGives(head: Schema, tail: Fields, ms: seq<Option<Value>>, i: nat, b: seq<byte>,
                                         parts: seq<seq<byte>>)
    requires i < |ms| && WellFormed(head) && FieldsGive(tail, ms[i + 1..], parts)
    requires if ms[i].Some? then Gives(head, ms[i].value, b) else b == []
    ensures FieldsGive(Optional(head, tail), ms[i..], [b] + parts)
  {
    hide Enc, WellFormed;
    assert ms[i..][1..] == ms[i + 1..] && ([b] + parts)[1..] == parts;
  }

  lemma EndGives(ms: seq<Option<Value>>)
    ensures FieldsGive(NoMore, ms[|ms|..], [])
  {
  }

  lemma UIntGives(w: nat, v: nat)
    requires w == 1 || w == 2 || w == 4 || w == 8
    ensures Gives(UInt(w), Num(v), LittleEndian(v, w))
  {
    hide LittleEndian, Span;
    LittleEndianTruncates(v, w);
  }

  lemma ZeroOctets()
    ensures LittleEndian(0, 1) == [0] && LittleEndian(0, 2) == [0, 0] && LittleEndian(0, 3) == [0, 0, 0]
  {
  }

  lemma SmallEnumGives(v: nat)
    requires v < 256
    ensures Gives(Enum, Num(v), [v, 0, 0, 0])
  {
    ZeroOctets();
    assert v % U32 == v && v / 256 == 0 && v % 256 == v;
    assert LittleEndian(v, 4) == [v] + LittleEndian(0, 3) == [v, 0, 0, 0];
  }

  lemma StatusGives(c: Status)
    ensures Gives(Enum, Num(StatusCode(c)), StatusOctets(c))
  {
    hide Gives;
    SmallEnumGives(StatusCode(c));
  }

  lemma ReasonGives(r: Reason)
    ensures Gives(Enum, Num(ReasonCode(r)), ReasonOctets(r))
  {
    hide Gives;
    SmallEnumGives(ReasonCode(r));
  }

  lemma TextGives(text: string)
    requires Latin1(text)
    ensures Gives(Str, Text(text), TextOctets(text))
  {
  }

  lemma BytesGive(b: seq<byte>)
    requires |b| <= MAX_BYTES
    ensures Gives(BYTES, Nums(b), BytesOctets(b))
  {
    hide LittleEndian, EncItems;
    ItemsFit(b);
    assert |b| % U32 == |b|;
  }

  lemma SessionGives(tag: Tag)
    requires |tag| == TAG_BYTES
    ensures Gives(SESSION, Nums(tag), SessionOctets(tag))
  {
    hide EncItems;
    ItemsFit(tag);
    assert LittleEndian(16, 1) == [16] + LittleEndian(0, 0);
    assert Integral(TAG_BYTES, OctetsForCapacity(TAG_BYTES)) == [16];
  }

  lemma JoinedTwo(a: seq<byte>, b: seq<byte>)
    ensures Joined([a, b]) == a + b
  {
    assert [a, b][1..] == [b] && Joined([b][1..]) == [] && Joined([b]) == b + [] == b;
  }

  lemma LimitsGive(l: Limits)
    ensures Gives(Struct(LimitsFields()), Record(LimitsMembers(l)), LimitsOctets(l))
  {
    hide Gives, FieldsGive, LittleEndian;
    var ms := LimitsMembers(l);
    EndGives(ms);
    var t, p := Number(2, l.maxPayloadSize, NoMore, ms, 1, []);
    t, p := Number(4, l.pktRateLimit, t, ms, 0, p);
    assert ms[0..] == ms && p == [LittleEndian(l.pktRateLimit, 4), LittleEndian(l.maxPayloadSize, 2)];
    StructGives(LimitsFields(), ms, p);
    JoinedTwo(LittleEndian(l.pktRateLimit, 4), LittleEndian(l.maxPayloadSize, 2));
  }

  /** A sequence without optional fields has no mask. */
  lemma {:induction false} StructGives(fields: Fields, ms: seq<Option<Value>>, parts: seq<seq<byte>>)
    requires FieldsGive(fields, ms, parts) && Optionals(fields) == 0
    ensures Gives(Struct(fields), Record(ms), Joined(parts))
  {
    hide EncFields, Octet, FieldsGive;
    FieldsMean(fields, ms, parts);
    assert Flags(fields, ms) == [] && Mask([]) == [];
    assert [] + Joined(parts) == Joined(parts);
  }

  /** A sequence with one optional field has a mask of one octet. */
  lemma {:induction false} MaskedStructGives(fields: Fields, ms: seq<Option<Value>>, f: bool, parts: seq<seq<byte>>)
    requires FieldsGive(fields, ms, parts) && |ms| == Arity(fields) && Flags(fields, ms) == [f]
    ensures Gives(Struct(fields), Record(ms), [if f then 0x80 else 0] + Joined(parts))
  {
    hide EncFields, Mask, FieldsGive;
    FieldsMean(fields, ms, parts);
    OneFlagOctet(f);
  }

  lemma FieldsMean(fields: Fields, ms: seq<Option<Value>>, parts: seq<seq<byte>>)
    requires FieldsGive(fields, ms, parts)
    ensures WellFormedFields(fields) && |ms| == Arity(fields) && EncFields(fields, ms) == Some(Joined(parts))
  {
  }

  // ---- One field more ----------------------------------------------------------------------------------------------

  lemma Number(w: nat, v: nat, tail: Fields, ms: seq<Option<Value>>, i: nat, parts: seq<seq<byte>>)
    returns (t: Fields, p: seq<seq<byte>>)
    requires (w == 1 || w == 2 || w == 4 || w == 8) && i < |ms| && ms[i] == Some(Num(v))
    requires FieldsGive(tail, ms[i + 1..], parts)
    ensures t == Mandatory(UInt(w), tail) && p == [LittleEndian(v, w)] + parts && FieldsGive(t, ms[i..], p)
  {
    hide FieldsGive, Gives;
    UIntGives(w, v);
    MandatoryGives(UInt(w), tail, ms, i, LittleEndian(v, w), parts);
    t, p := Mandatory(UInt(w), tail), [LittleEndian(v, w)] + parts;
  }

  lemma TextField(text: string, tail: Fields, ms: seq<Option<Value>>, i: nat, parts: seq<seq<byte>>)
    returns (t: Fields, p: seq<seq<byte>>)
    requires Latin1(text) && i < |ms| && ms[i] == Some(Text(text)) && FieldsGive(tail, ms[i + 1..], parts)
    ensures t == Mandatory(Str, tail) && p == [TextOctets(text)] + parts && FieldsGive(t, ms[i..], p)
  {
    hide FieldsGive, Gives;
    TextGives(text);
    MandatoryGives(Str, tail, ms, i, TextOctets(text), parts);
    t, p := Mandatory(Str, tail), [TextOctets(text)] + parts;
  }

  lemma BytesField(b: seq<byte>, tail: Fields, ms: seq<Option<Value>>, i: nat, parts: seq<seq<byte>>)
    returns (t: Fields, p: seq<seq<byte>>)
    requires |b| <= MAX_BYTES && i < |ms| && ms[i] == Some(Nums(b)) && FieldsGive(tail, ms[i + 1..], parts)
    ensures t == Mandatory(BYTES, tail) && p == [BytesOctets(b)] + parts && FieldsGive(t, ms[i..], p)
  {
    hide FieldsGive, Gives;
    BytesGive(b);
    MandatoryGives(BYTES, tail, ms, i, BytesOctets(b), parts);
    t, p := Mandatory(BYTES, tail), [BytesOctets(b)] + parts;
  }

  // ---- Messages ----------------------------------------------------------------------------------------------------

  /** The fields of `m` are written as its layout says, after the number and the optional mask if there is one. */
  predicate BodyGives(m: Message)
    requires EncodableBody(m)
  {
    var parts := MessageOctets(m);
    FieldsGive(BodyFields(Index(m)), Body(m), if m.JoinResponse? then parts[2..] else parts[1..])
  }

  lemma IdentityRequestGives(m: Message)
    requires m.IdentityRequest? && EncodableBody(m)
    ensures BodyGives(m)
  {
    hide FieldsGive, Gives, LittleEndian, BytesOctets, SessionOctets, ReasonOctets;
    var ms := Body(m);
    EndGives(ms);
    SessionGives(m.newSession);
    MandatoryGives(SESSION, NoMore, ms, 4, SessionOctets(m.newSession), []);
    var t, p := Mandatory(SESSION, NoMore), [SessionOctets(m.newSession)] + [];
    t, p := BytesField(m.challenge, t, ms, 3, p);
    SmallEnumGives(HMAC_SHA256);
    MandatoryGives(Enum, t, ms, 2, [0, 0, 0, 0], p);
    t, p := Mandatory(Enum, t), [[0, 0, 0, 0]] + p;
    ReasonGives(m.reason);
    MandatoryGives(Enum, t, ms, 1, ReasonOctets(m.reason), p);
    t, p := Mandatory(Enum, t), [ReasonOctets(m.reason)] + p;
    t, p := Number(2, m.reqId, t, ms, 0, p);
    assert ms[0..] == ms && p == MessageOctets(m)[1..];
  }

  lemma IdentityResponseGives(m: Message)
    requires m.IdentityResponse? && EncodableBody(m)
    ensures BodyGives(m)
  {
    hide FieldsGive, Gives, LittleEndian, TextOctets, BytesOctets;
    var ms := Body(m);
    EndGives(ms);
    var t, p := BytesField(m.sessionToUse, NoMore, ms, 3, []);
    t, p := BytesField(m.answer, t, ms, 2, p);
    t, p := TextField(m.username, t, ms, 1, p);
    t, p := Number(2, m.reqId, t, ms, 0, p);
    assert ms[0..] == ms && p == MessageOctets(m)[1..];
  }

  lemma RequestsGive(m: Message)
    requires (m.CreateRequest? || m.JoinRequest? || m.LeaveRequest?) && EncodableBody(m)
    ensures BodyGives(m)
  {
    hide FieldsGive, Gives, LittleEndian, TextOctets, LimitsOctets;
    var ms := Body(m);
    EndGives(ms);
    var t, p: seq<seq<byte>> := NoMore, [];
    if m.LeaveRequest? {
      t, p := Number(8, m.channelId, t, ms, 1, p);
    } else {
      if m.CreateRequest? {
        LimitsGive(m.limits);
        MandatoryGives(Struct(LimitsFields()), t, ms, 3, LimitsOctets(m.limits), p);
        t, p := Mandatory(Struct(LimitsFields()), t), [LimitsOctets(m.limits)] + p;
      }
      t, p := TextField(m.metadata, t, ms, 2, p);
      t, p := TextField(m.channelName, t, ms, 1, p);
    }
    t, p := Number(2, m.reqId, t, ms, 0, p);
    assert ms[0..] == ms && p == MessageOctets(m)[1..];
  }

  lemma ResponsesGive(m: Message)
    requires (m.CreateResponse? || m.JoinResponse? || m.LeaveResponse?) && EncodableBody(m)
    ensures BodyGives(m)
  {
    hide FieldsGive, Gives, LittleEndian, StatusOctets, LimitsOctets;
    var ms := Body(m);
    EndGives(ms);
    var t, p: seq<seq<byte>> := NoMore, [];
    if m.JoinResponse? {
      LimitsAreWellFormed();
      var b := if m.granted.Some? then LimitsOctets(m.granted.value) else [];
      if m.granted.Some? { LimitsGive(m.granted.value); }
      OptionalGives(Struct(LimitsFields()), t, ms, 3, b, p);
      t, p := Optional(Struct(LimitsFields()), t), [b] + p;
    }
    if !m.LeaveResponse? {
      StatusGives(m.code);
      MandatoryGives(Enum, t, ms, 2, StatusOctets(m.code), p);
      t, p := Mandatory(Enum, t), [StatusOctets(m.code)] + p;
      t, p := Number(8, m.channelId, t, ms, 1, p);
    }
    t, p := Number(2, m.reqId, t, ms, 0, p);
    assert ms[0..] == ms && p == if m.JoinResponse? then MessageOctets(m)[2..] else MessageOctets(m)[1..];
  }

  lemma StreamDataGives(m: Message)
    requires m.StreamData? && EncodableBody(m)
    ensures BodyGives(m)
  {
    hide FieldsGive, Gives, LittleEndian, TextOctets, BytesOctets;
    var ms := Body(m);
    EndGives(ms);
    var t, p := BytesField(m.payload, NoMore, ms, 3, []);
    t, p := Number(8, m.channelId, t, ms, 2, p);
    t, p := Number(8, m.fromSession, t, ms, 1, p);
    t, p := TextField(m.fromUsername, t, ms, 0, p);
    assert ms[0..] == ms && p == MessageOctets(m)[1..];
  }

  lemma StreamReportGives(m: Message)
    requires m.StreamReport?
    ensures BodyGives(m)
  {
    hide FieldsGive, Gives, LittleEndian;
    var ms := Body(m);
    EndGives(ms);
    var t, p := Number(8, m.dropped, NoMore, ms, 2, []);
    t, p := Number(8, m.received, t, ms, 1, p);
    t, p := Number(8, m.channelId, t, ms, 0, p);
    assert ms[0..] == ms && p == MessageOctets(m)[1..];
  }

  lemma IgnoredIndicationGives(m: Message)
    requires m.IgnoredIndication? && EncodableBody(m)
    ensures BodyGives(m)
  {
    hide FieldsGive, Gives, TextOctets, ReasonOctets;
    var ms := Body(m);
    EndGives(ms);
    var t, p := TextField(m.text, NoMore, ms, 1, []);
    ReasonGives(m.reason);
    MandatoryGives(Enum, t, ms, 0, ReasonOctets(m.reason), p);
    assert ms[0..] == ms && [ReasonOctets(m.reason)] + p == MessageOctets(m)[1..];
  }

  lemma HeartbeatGives()
    ensures BodyGives(Heartbeat)
  {
    EndGives([]);
    assert MessageOctets(Heartbeat)[1..] == [];
  }

  lemma AnyBodyGives(m: Message)
    requires EncodableBody(m)
    ensures BodyGives(m)
  {
    hide BodyGives;
    match m
    case Heartbeat => HeartbeatGives();
    case IdentityRequest(_, _, _, _) => IdentityRequestGives(m);
    case IdentityResponse(_, _, _, _) => IdentityResponseGives(m);
    case CreateRequest(_, _, _, _) => RequestsGive(m);
    case JoinRequest(_, _, _) => RequestsGive(m);
    case LeaveRequest(_, _) => RequestsGive(m);
    case CreateResponse(_, _, _) => ResponsesGive(m);
    case JoinResponse(_, _, _, _) => ResponsesGive(m);
    case LeaveResponse(_) => ResponsesGive(m);
    case StreamData(_, _, _, _) => StreamDataGives(m);
    case StreamReport(_, _, _) => StreamReportGives(m);
    case IgnoredIndication(_, _) => IgnoredIndicationGives(m);
  }

  lemma FlagsSkip(head: Schema, tail: Fields, ms: seq<Option<Value>>)
    requires |ms| == 1 + Arity(tail)
    ensures Flags(Mandatory(head, tail), ms) == Flags(tail, ms[1..])
  {
  }

  lemma FlagsHere(head: Schema, tail: Fields, ms: seq<Option<Value>>)
    requires |ms| == 1 + Arity(tail) && Optionals(tail) == 0
    ensures Flags(Optional(head, tail), ms) == [ms[0].Some?]
  {
  }

  lemma MaskOfBody(m: Message)
    requires |Body(m)| == Arity(BodyFields(Index(m)))
    ensures if m.JoinResponse? then Flags(BodyFields(Index(m)), Body(m)) == [m.granted.Some?]
            else Optionals(BodyFields(Index(m))) == 0
  {
    if m.JoinResponse? {
      var ms := Body(m);
      var t3 := Optional(Struct(LimitsFields()), NoMore);
      var t2 := Mandatory(Enum, t3);
      var t1 := Mandatory(U64, t2);
      assert ms[1..][1..] == ms[2..] && ms[2..][1..] == ms[3..];
      FlagsSkip(U16, t1, ms);
      FlagsSkip(U64, t2, ms[1..]);
      FlagsSkip(Enum, t3, ms[2..]);
      FlagsHere(Struct(LimitsFields()), NoMore, ms[3..]);
    }
  }

  lemma JoinedFirst(parts: seq<seq<byte>>)
    requires parts != []
    ensures Joined(parts) == parts[0] + Joined(parts[1..])
  {
  }

  /** The choice index is one octet, and then come the fields. */
  lemma {:induction false} MessageGives(m: Message)
    requires EncodableBody(m)
    ensures Gives(Messages(), Alt(Index(m), Record(Body(m))), Joined(MessageOctets(m)))
  {
    var parts := MessageOctets(m);
    StructOfBody(m);
    MessagesWellFormed();
    assert Messages().alternatives[Index(m)] == Struct(BodyFields(Index(m)));
    NumberOfMessage(m);
    hide MessageOctets, BodyFields, Body, Messages;
    JoinedFirst(parts);
    ChoiceGives(Messages(), Index(m), Record(Body(m)), Joined(parts[1..]));
  }

  lemma NumberOfMessage(m: Message)
    requires EncodableBody(m)
    ensures MessageOctets(m) != [] && MessageOctets(m)[0] == [Index(m)]
  {
  }

  lemma ChoiceGives(sch: Schema, i: nat, v: Value, b: seq<byte>)
    requires sch.Choice? && |sch.alternatives| == 12 && i < 12 && WellFormed(sch)
    requires Gives(sch.alternatives[i], v, b)
    ensures Gives(sch, Alt(i, v), [i] + b)
  {
    assert LittleEndian(i, 1) == [i] + LittleEndian(0, 0);
    assert Integral(i, OctetsForArity(12)) == [i];
  }

  lemma {:induction false} StructOfBody(m: Message)
    requires EncodableBody(m)
    ensures MessageOctets(m) != []
    ensures Gives(Struct(BodyFields(Index(m))), Record(Body(m)), Joined(MessageOctets(m)[1..]))
  {
    hide Gives, FieldsGive, EncodableBody, LittleEndian, TextOctets, BytesOctets, SessionOctets, StatusOctets,
         ReasonOctets, LimitsOctets, Joined;
    var (fields, parts) := (BodyFields(Index(m)), MessageOctets(m));
    AnyBodyGives(m);
    if m.JoinResponse? {
      FieldsMean(fields, Body(m), parts[2..]);
      MaskOfBody(m);
      MaskedStructGives(fields, Body(m), m.granted.Some?, parts[2..]);
      JoinedFirst(parts[1..]);
      assert parts[1..][1..] == parts[2..];
    } else {
      FieldsMean(fields, Body(m), parts[1..]);
      MaskOfBody(m);
      StructGives(fields, Body(m), parts[1..]);
    }
  }

  // ---- PDUs --------------------------------------------------------------------------------------------------------

  lemma JoinedFour(a: seq<byte>, b: seq<byte>, c: seq<byte>, d: seq<byte>)
    ensures Joined([a, b, c, d]) == a + (b + (c + d))
  {
    JoinedTwo(c, d);
    assert [a, b, c, d][1..] == [b, c, d] && [b, c, d][1..] == [c, d];
  }

  lemma Regrouped(m: seq<byte>, a: seq<byte>, b: seq<byte>, c: seq<byte>, d: seq<byte>)
    ensures m + (a + (b + (c + d))) == m + a + b + c + d
  {
  }

  /** Every encodable PDU is written byte for byte as laid out. */
  lemma {:induction false} EncodingIsLayout(p: Pdu)
    requires Encodable(p)
    ensures Encoding(p) == Some(PduOctets(p))
  {
    hide Gives, FieldsGive, EncodableBody, LittleEndian, SessionOctets, MessageOctets, Joined, Messages, Body, Enc;
    var ms := ToValue(p).members;
    var (tag, message) := (p.session, Joined(MessageOctets(p.message)));
    var session := if tag.Some? then SessionOctets(tag.value) else [];
    EndGives(ms);
    MessageGives(p.message);
    MandatoryGives(Messages(), NoMore, ms, 3, message, []);
    SessionWellFormed();
    if tag.Some? { SessionGives(tag.value); }
    OptionalGives(SESSION, Mandatory(Messages(), NoMore), ms, 2, session, [message] + []);
    var t := Optional(SESSION, Mandatory(Messages(), NoMore));
    var parts := [session] + ([message] + []);
    t, parts := Number(8, p.senderTsUs, t, ms, 1, parts);
    t, parts := Number(1, p.version, t, ms, 0, parts);
    assert ms[0..] == ms;
    var v, s := LittleEndian(p.version, 1), LittleEndian(p.senderTsUs, 8);
    assert parts == [v, s, session, message];
    FlagOfPdu(p);
    MaskedStructGives(PduFields(), ms, tag.Some?, parts);
    JoinedFour(v, s, session, message);
    Regrouped([if tag.Some? then 0x80 else 0], v, s, session, message);
    GivesEncoding(p, PduOctets(p));
  }

  lemma FlagOfPdu(p: Pdu)
    ensures |ToValue(p).members| == Arity(PduFields())
    ensures Flags(PduFields(), ToValue(p).members) == [p.session.Some?]
  {
    hide Messages, Body;
    var ms := ToValue(p).members;
    var t3 := Mandatory(Messages(), NoMore);
    var t2 := Optional(SESSION, t3);
    var t1 := Mandatory(U64, t2);
    assert ms[1..][1..] == ms[2..];
    FlagsSkip(UInt(1), t1, ms);
    FlagsSkip(U64, t2, ms[1..]);
    FlagsHere(SESSION, t3, ms[2..]);
  }

  lemma GivesEncoding(p: Pdu, b: seq<byte>)
    requires Gives(Struct(PduFields()), ToValue(p), b)
    ensures Encoding(p) == Some(b)
  {
  }
}
