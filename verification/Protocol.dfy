/** Option, as the source's `std::optional` and JavaScript's null. */
module Wrappers {
  datatype Option<+T> = None | Some(value: T)
}

/** The RTMS messages of interface/rtms.cum, as both the switch and the clients see them after decoding. */
module Protocol {
  import opened Wrappers

  type byte = x: int | 0 <= x < 256

  /** A `session` value: the secret tag a client names its login with (16 bytes when the switch issues it). */
  type Tag = seq<byte>

  const TAG_BYTES := 16
  const MAX_BYTES := 2048
  const PROTOCOL_VERSION := 1

  datatype Status = OK | EXIST | NOT_FOUND | META_MISMATCH

  datatype Reason =
    | UNRECOGNIZED_TRANSPORT
    | CHALLENGE_FAILURE
    | SESSION_NOT_AVAILABLE
    | EXPIRATION_REFRESH
    | NOT_JOINED
    | NOT_AUTHENTICATED
    | UNKNOWN_CHANNEL

  datatype Limits = Limits(pktRateLimit: nat, maxPayloadSize: nat)

  datatype Message =
    | Heartbeat
    | IdentityRequest(reqId: nat, reason: Reason, challenge: seq<byte>, newSession: Tag)
    | IdentityResponse(reqId: nat, username: string, answer: seq<byte>, sessionToUse: seq<byte>)
    | CreateRequest(reqId: nat, channelName: string, metadata: string, limits: Limits)
    | CreateResponse(reqId: nat, channelId: nat, code: Status)
    | JoinRequest(reqId: nat, channelName: string, metadata: string)
    | JoinResponse(reqId: nat, channelId: nat, code: Status, granted: Option<Limits>)
    | LeaveRequest(reqId: nat, channelId: nat)
    | LeaveResponse(reqId: nat)
    | StreamData(fromUsername: string, fromSession: nat, channelId: nat, payload: seq<byte>)
    | StreamReport(channelId: nat, received: nat, dropped: nat)
    | IgnoredIndication(reason: Reason, text: string)

  datatype Pdu = Pdu(version: nat, senderTsUs: nat, session: Option<Tag>, message: Message)

  /** Packed size of a message body, after the choice index. */
  function BodySize(m: Message): nat {
    match m
    case Heartbeat => 0
    case IdentityRequest(_, _, challenge, newSession) => 2 + 4 + 4 + (2 + |challenge|) + (1 + |newSession|)
    case IdentityResponse(_, username, answer, sessionToUse) =>
      2 + (|username| + 1) + (2 + |answer|) + (2 + |sessionToUse|)
    case CreateRequest(_, name, metadata, _) => 2 + (|name| + 1) + (|metadata| + 1) + 6
    case CreateResponse(_, _, _) => 2 + 8 + 4
    case JoinRequest(_, name, metadata) => 2 + (|name| + 1) + (|metadata| + 1)
    case JoinResponse(_, _, _, granted) => 1 + 2 + 8 + 4 + (if granted.Some? then 6 else 0)
    case LeaveRequest(_, _) => 2 + 8
    case LeaveResponse(_) => 2
    case StreamData(from, _, _, payload) => (|from| + 1) + 8 + 8 + (2 + |payload|)
    case StreamReport(_, _, _) => 24
    case IgnoredIndication(_, text) => 4 + (|text| + 1)
  }

  /** Packed size of a whole PDU; module RtmsCodec proves that this is what the encoder writes. */
  function WireSize(p: Pdu): nat {
    1 + 1 + 8 + (if p.session.Some? then 1 + |p.session.value| else 0) + 1 + BodySize(p.message)
  }
}
