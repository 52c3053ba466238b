/**
 * The switch as a function of values: what one call of `rtms_switch::on_message` (or of
 * `forget_transport_sessions`) does to the four tables and which datagrams leave.
 * Module SwitchObjects proves that the object graph of the source, updated in place, computes exactly this.
 */
module SwitchModel {
  import opened Wrappers
  import opened Protocol

  type Transport = (nat, nat, nat)

  /** The largest datagram `encode_to_wire` can build: its buffer holds `bytes::max_size * 4` octets. */
  const WIRE_CAPACITY := 4 * MAX_BYTES
  const WINDOW_US := 1000000

  /** `verify` stands for `identity_store->verify_identity(challenge, answer, username, allow_guest)`. */
  datatype Config = Config(
    hasStore: bool,
    verify: (seq<byte>, seq<byte>, string, bool) -> bool,
    allowGuest: bool,
    challengeBytes: nat,
    sharedLimits: Limits,
    cooldownMs: nat)

  datatype Session = Session(username: string, transport: Option<Transport>, tag: Tag, member: nat)

  datatype Pending = Pending(challenge: seq<byte>, newSession: Tag, reqId: nat)

  /** A transport context; `session` names the session its shared pointer points to. */
  datatype Client = Client(session: Option<Tag>, pending: Option<Pending>, lastIgnoreUs: int)

  datatype RateWindow = RateWindow(startUs: int, count: nat)

  datatype Channel = Channel(
    id: nat, name: string, metadata: string, limits: Limits, members: set<Tag>, window: RateWindow)

  datatype State = State(
    clients: map<Transport, Client>,
    sessions: map<Tag, Session>,
    channels: map<nat, Channel>,
    names: map<string, nat>,
    nextReqId: nat,
    nextChannelId: nat)

  const EMPTY_CLIENT := Client(None, None, 0)
  const INITIAL := State(map[], map[], map[], map[], 1, 1)

  /** What the random sources would answer during one step. */
  datatype Nonce = Nonce(challenge: seq<byte>, tag: Tag, member: nat)

  datatype Event =
    | Receive(from: Transport, pdu: Pdu, now: nat, nonce: Nonce)
    | Forget(from: Transport)

  /** The datagrams of one step: none, one reply, or one relayed PDU with the transport used for each member. */
  datatype Output =
    | Silent
    | Reply(to: Transport, pdu: Pdu)
    | Relay(pdu: Pdu, recipients: map<Tag, Transport>)

  function Min(a: nat, b: nat): nat { if a < b then a else b }
  function Max(a: nat, b: nat): nat { if a < b then b else a }

  /** Length of a challenge: the configured number clamped to 8 .. bytes::max_size. */
  function ChallengeLength(cfg: Config): nat { Max(8, Min(cfg.challengeBytes, MAX_BYTES)) }

  /** Facts the random generators guarantee: sizes, and a member id that is never zero. */
  predicate GoodNonce(cfg: Config, n: Nonce) {
    |n.challenge| == ChallengeLength(cfg) && |n.tag| == TAG_BYTES && n.member != 0
  }

  predicate GoodEvent(cfg: Config, e: Event) {
    e.Receive? ==> GoodNonce(cfg, e.nonce)
  }

  // ---- Sending ----------------------------------------------------------------------------------------

  function Emit(s: State, t: Transport, pdu: Pdu): Output {
    if t in s.clients && WireSize(pdu) <= WIRE_CAPACITY then Reply(t, pdu) else Silent
  }

  function Answer(s: State, t: Transport, now: nat, m: Message): Output {
    Emit(s, t, Pdu(PROTOCOL_VERSION, now, None, m))
  }

  function ClientAt(s: State, t: Transport): Client {
    if t in s.clients then s.clients[t] else EMPTY_CLIENT
  }

  /** The request id after `r`: a 16-bit counter that skips zero. */
  function NextReqId(r: nat): nat {
    if (r + 1) % 0x1_0000 == 0 then 1 else (r + 1) % 0x1_0000
  }

  function Challenge(cfg: Config, s: State, t: Transport, reason: Reason, now: nat, n: Nonce): (State, Output) {
    var pending := Pending(n.challenge, n.tag, s.nextReqId);
    var s' := s.(nextReqId := NextReqId(s.nextReqId),
                 clients := s.clients[t := ClientAt(s, t).(pending := Some(pending))]);
    (s', Answer(s', t, now, IdentityRequest(pending.reqId, reason, pending.challenge, pending.newSession)))
  }

  function Ignore(cfg: Config, s: State, t: Transport, incoming: Pdu, reason: Reason, now: nat): (State, Output) {
    var client := ClientAt(s, t);
    var cooldownUs := cfg.cooldownMs * 1000;
    if client.lastIgnoreUs > 0 && cooldownUs > 0 && now - client.lastIgnoreUs < cooldownUs then (s, Silent)
    else
      var out := Emit(s, t, Pdu(incoming.version, now, None, IgnoredIndication(reason, "")));
      if out.Silent? || cooldownUs == 0 then (s, out)
      else (s.(clients := s.clients[t := client.(lastIgnoreUs := now)]), out)
  }

  // ---- Sessions and transports ------------------------------------------------------------------------

  /** `session_manager::create_session`: an existing session only changes transport. */
  function CreateSession(sessions: map<Tag, Session>, tag: Tag, t: Transport, username: string, member: nat)
    : map<Tag, Session>
  {
    if tag in sessions then sessions[tag := sessions[tag].(transport := Some(t), tag := tag)]
    else sessions[tag := Session(username, Some(t), tag, if username == "" then 0 else member)]
  }

  function Unbind(clients: map<Transport, Client>, t: Transport, tag: Tag): map<Transport, Client> {
    if t in clients && clients[t].session == Some(tag)
    then clients[t := clients[t].(session := None)] else clients
  }

  function Rebind(s: State, tag: Tag, t: Transport): State
    requires tag in s.sessions
  {
    var session := s.sessions[tag];
    if session.transport == Some(t) then s
    else
      var clients := if session.transport.Some? then Unbind(s.clients, session.transport.value, tag) else s.clients;
      s.(clients := clients, sessions := CreateSession(s.sessions, tag, t, session.username, 0))
  }

  predicate Stale(s: State, tag: Tag) {
    tag !in s.sessions || s.sessions[tag].transport.None?
  }

  function Prune(s: State, c: Channel, tag: Tag): Channel {
    if Stale(s, tag) then c.(members := c.members - {tag}) else c
  }

  predicate Authenticated(s: State, rx: Option<Tag>) {
    rx.Some? && rx.value in s.sessions && s.sessions[rx.value].username != ""
  }

  /** The session a PDU speaks for, once its tag is known to be live. */
  function Speaker(s: State, t: Transport, pdu: Pdu): Option<Tag> {
    if !pdu.message.IdentityResponse? && pdu.session.Some? then pdu.session
    else if t in s.clients then s.clients[t].session
    else None
  }

  // ---- Limits -----------------------------------------------------------------------------------------

  /** The tighter of a requested and a shared cap, where zero means no cap. */
  function Tighter(requested: nat, shared: nat): nat {
    if shared > 0 && (requested == 0 || shared < requested) then shared else requested
  }

  function MergeLimits(cfg: Config, requested: Limits): Limits {
    Limits(Tighter(requested.pktRateLimit, cfg.sharedLimits.pktRateLimit),
           Tighter(requested.maxPayloadSize, cfg.sharedLimits.maxPayloadSize))
  }

  predicate PayloadWithinLimit(n: nat, limit: nat) {
    limit == 0 || n <= limit
  }

  /** The window a packet at `now` is counted in. */
  function CurrentWindow(w: RateWindow, now: nat): RateWindow {
    if w.startUs == 0 || now - w.startUs >= WINDOW_US then RateWindow(now, 0) else w
  }

  function RateAllow(w: RateWindow, limit: nat, now: nat): (bool, RateWindow) {
    if limit == 0 then (true, w)
    else
      var cur := CurrentWindow(w, now);
      if cur.count >= limit then (false, cur) else (true, cur.(count := cur.count + 1))
  }

  // ---- Message handlers -------------------------------------------------------------------------------

  predicate AnswersPending(s: State, t: Transport, m: Message)
    requires m.IdentityResponse?
  {
    t in s.clients && s.clients[t].pending.Some? && s.clients[t].pending.value.reqId == m.reqId
  }

  predicate TagMatches(expected: Tag, got: seq<byte>) {
    |expected| == TAG_BYTES && |got| == TAG_BYTES && expected == got
  }

  /** Drops the transport's old owner: its context forgets the session, and goes away when it has none. */
  function Evict(clients: map<Transport, Client>, former: Transport, tag: Tag): map<Transport, Client> {
    if former in clients then
      var unbound := Unbind(clients, former, tag);
      if unbound[former].session.None? then unbound - {former} else unbound
    else clients
  }

  function HandleIdentity(cfg: Config, s: State, t: Transport, pdu: Pdu, now: nat, n: Nonce): (State, Output)
    requires pdu.message.IdentityResponse?
  {
    var m := pdu.message;
    if m.username == "" then Challenge(cfg, s, t, CHALLENGE_FAILURE, now, n)
    else if !AnswersPending(s, t, m) || !cfg.hasStore then Challenge(cfg, s, t, SESSION_NOT_AVAILABLE, now, n)
    else
      var pending := s.clients[t].pending.value;
      var tag := pending.newSession;
      if !TagMatches(tag, m.sessionToUse) then Challenge(cfg, s, t, CHALLENGE_FAILURE, now, n)
      else if !cfg.verify(pending.challenge, m.answer, m.username, cfg.allowGuest) then
        Challenge(cfg, s, t, CHALLENGE_FAILURE, now, n)
      else if tag in s.sessions && (s.sessions[tag].username == "" || s.sessions[tag].username != m.username) then
        Challenge(cfg, s, t, SESSION_NOT_AVAILABLE, now, n)
      else (LogIn(s, t, tag, m.username, n.member), Silent)
  }

  function LogIn(s: State, t: Transport, tag: Tag, username: string, member: nat): State {
    var former := if tag in s.sessions then s.sessions[tag].transport else None;
    var clients :=
      if former.Some? && former.value != t then Evict(s.clients, former.value, tag) else s.clients;
    var client := if t in clients then clients[t] else EMPTY_CLIENT;
    s.(clients := clients[t := client.(pending := None, session := Some(tag))],
       sessions := CreateSession(s.sessions, tag, t, username, member))
  }

  function HandleHeartbeat(cfg: Config, s: State, t: Transport, pdu: Pdu, now: nat): (State, Output) {
    (s, Emit(s, t, Pdu(pdu.version, now, None, Heartbeat)))
  }

  function HandleCreate(cfg: Config, s: State, t: Transport, sid: Tag, m: Message, now: nat): (State, Output)
    requires m.CreateRequest?
  {
    if m.channelName in s.names then (s, Answer(s, t, now, CreateResponse(m.reqId, 0, EXIST)))
    else
      var cid := s.nextChannelId;
      var c := Channel(cid, m.channelName, m.metadata, MergeLimits(cfg, m.limits), {sid}, RateWindow(0, 0));
      var s' := s.(nextChannelId := cid + 1, channels := s.channels[cid := c],
                   names := s.names[m.channelName := cid]);
      (s', Answer(s', t, now, CreateResponse(m.reqId, cid, OK)))
  }

  function HandleJoin(cfg: Config, s: State, t: Transport, sid: Tag, m: Message, now: nat): (State, Output)
    requires m.JoinRequest?
  {
    if m.channelName !in s.names || s.names[m.channelName] !in s.channels then
      (s, Answer(s, t, now, JoinResponse(m.reqId, 0, NOT_FOUND, None)))
    else JoinInto(s, t, s.names[m.channelName], sid, m, now)
  }

  function JoinInto(s: State, t: Transport, cid: nat, sid: Tag, m: Message, now: nat): (State, Output)
    requires m.JoinRequest? && cid in s.channels
  {
    var c := Prune(s, s.channels[cid], sid);
    if c.metadata != m.metadata then
      (s.(channels := s.channels[cid := c]),
       Answer(s, t, now, JoinResponse(m.reqId, c.id, META_MISMATCH, None)))
    else
      (s.(channels := s.channels[cid := c.(members := c.members + {sid})]),
       Answer(s, t, now, JoinResponse(m.reqId, c.id, OK, Some(c.limits))))
  }

  function HandleLeave(cfg: Config, s: State, t: Transport, sid: Tag, pdu: Pdu, now: nat): (State, Output)
    requires pdu.message.LeaveRequest?
  {
    var cid := pdu.message.channelId;
    if cid !in s.channels || sid !in s.channels[cid].members then Ignore(cfg, s, t, pdu, NOT_JOINED, now)
    else
      var c := s.channels[cid];
      (s.(channels := s.channels[cid := c.(members := c.members - {sid})]),
       Answer(s, t, now, LeaveResponse(pdu.message.reqId)))
  }

  /** The PDU the members get: only the sender's name and member id are filled in. */
  function Stamped(pdu: Pdu, sender: Session): Pdu
    requires pdu.message.StreamData?
  {
    pdu.(message := pdu.message.(fromUsername := sender.username, fromSession := sender.member))
  }

  /** Members a relay would use a transport of: everyone but the sender who is still live. */
  function Audience(s: State, members: set<Tag>, sid: Tag): set<Tag> {
    set m | m in members && m != sid && !Stale(s, m)
  }

  /** Where the relay's datagrams really go: a transport without a context has no sender function. */
  function Recipients(s: State, members: set<Tag>, sid: Tag): map<Tag, Transport> {
    map m | m in Audience(s, members, sid) && s.sessions[m].transport.value in s.clients
      :: s.sessions[m].transport.value
  }

  function HandleStream(cfg: Config, s: State, t: Transport, sid: Tag, pdu: Pdu, now: nat, n: Nonce): (State, Output)
    requires pdu.message.StreamData? && sid in s.sessions
  {
    var sender := s.sessions[sid];
    var cid := pdu.message.channelId;
    if sender.transport.None? then Challenge(cfg, s, t, UNRECOGNIZED_TRANSPORT, now, n)
    else if cid !in s.channels then Ignore(cfg, s, t, pdu, UNKNOWN_CHANNEL, now)
    else
      var c := Prune(s, s.channels[cid], sid);
      var s1 := s.(channels := s.channels[cid := c]);
      if sid !in c.members then Ignore(cfg, s1, t, pdu, NOT_JOINED, now)
      else if !PayloadWithinLimit(|pdu.message.payload|, c.limits.maxPayloadSize) then (s1, Silent)
      else RelayInto(s1, cid, c, sid, sender, pdu, now)
  }

  /** The part of a stream PDU's handling that starts with the limiter. */
  function RelayInto(s: State, cid: nat, c: Channel, sid: Tag, sender: Session, pdu: Pdu, now: nat): (State, Output)
    requires pdu.message.StreamData?
  {
    var (allowed, window) := RateAllow(c.window, c.limits.pktRateLimit, now);
    var c' := c.(window := window);
    var s' := s.(channels := s.channels[cid := c']);
    var relayed := Stamped(pdu, sender);
    if !allowed || WireSize(relayed) > WIRE_CAPACITY then (s', Silent)
    else
      var kept := c'.(members := Kept(s, c.members, c.members, sid));
      (s'.(channels := s'.channels[cid := kept]), Relay(relayed, Recipients(s, c.members, sid)))
  }

  /** Members left once the relay has looked at those in `done`: dead ones other than the sender are gone. */
  function Kept(s: State, all: set<Tag>, done: set<Tag>, sid: Tag): set<Tag> {
    set m | m in all && (m !in done || m == sid || !Stale(s, m))
  }

  /** Dispatch on the message for the session `rx` the PDU speaks for. */
  function Dispatch(cfg: Config, s: State, t: Transport, rx: Option<Tag>, pdu: Pdu, now: nat, n: Nonce)
    : (State, Output)
  {
    var m := pdu.message;
    if m.IdentityResponse? then HandleIdentity(cfg, s, t, pdu, now, n)
    else if !(m.Heartbeat? || m.CreateRequest? || m.JoinRequest? || m.LeaveRequest? || m.StreamData?) then (s, Silent)
    else if !Authenticated(s, rx) then Challenge(cfg, s, t, UNRECOGNIZED_TRANSPORT, now, n)
    else if m.Heartbeat? then HandleHeartbeat(cfg, s, t, pdu, now)
    else if m.CreateRequest? then HandleCreate(cfg, s, t, rx.value, m, now)
    else if m.JoinRequest? then HandleJoin(cfg, s, t, rx.value, m, now)
    else if m.LeaveRequest? then HandleLeave(cfg, s, t, rx.value, pdu, now)
    else HandleStream(cfg, s, t, rx.value, pdu, now, n)
  }

  /** A datagram makes sure its source has a context (and with it a sender function). */
  function Touch(s: State, t: Transport): State {
    s.(clients := s.clients[t := ClientAt(s, t)])
  }

  function OnMessage(cfg: Config, s: State, t: Transport, pdu: Pdu, now: nat, n: Nonce): (State, Output) {
    var rx := Speaker(s, t, pdu);
    if !pdu.message.IdentityResponse? && pdu.session.Some? then
      if pdu.session.value !in s.sessions then Challenge(cfg, s, t, SESSION_NOT_AVAILABLE, now, n)
      else Dispatch(cfg, Rebind(s, pdu.session.value, t), t, rx, pdu, now, n)
    else Dispatch(cfg, s, t, rx, pdu, now, n)
  }

  function RemoveEverywhere(channels: map<nat, Channel>, tag: Tag): map<nat, Channel> {
    map c | c in channels :: channels[c].(members := channels[c].members - {tag})
  }

  /**
   * Destroys the session the context of `t` points to, and the context. With `eager` false the channels keep
   * the dead member, as interface/callflow.md allows; the source's own function is the eager one.
   */
  function ForgetTransport(s: State, t: Transport, eager: bool): State {
    if t !in s.clients || s.clients[t].session.None? then s
    else
      var tag := s.clients[t].session.value;
      s.(channels := if eager then RemoveEverywhere(s.channels, tag) else s.channels,
         sessions := s.sessions - {tag},
         clients := s.clients - {t})
  }

  /** One step of a switch that cleans up at once (`eager`) or lazily. */
  function StepWith(cfg: Config, eager: bool, s: State, e: Event): (State, Output) {
    match e
    case Receive(t, pdu, now, nonce) => OnMessage(cfg, Touch(s, t), t, pdu, now, nonce)
    case Forget(t) => (ForgetTransport(s, t, eager), Silent)
  }

  function Step(cfg: Config, s: State, e: Event): (State, Output) {
    StepWith(cfg, true, s, e)
  }

  // ---- Runs -------------------------------------------------------------------------------------------

  /** The state after a run of events from the empty switch. */
  function After(cfg: Config, run: seq<Event>): State {
    if run == [] then INITIAL else Step(cfg, After(cfg, run[..|run| - 1]), run[|run| - 1]).0
  }

  predicate GoodRun(cfg: Config, run: seq<Event>) {
    forall i :: 0 <= i < |run| ==> GoodEvent(cfg, run[i])
  }

  /** Times only grow, and are positive. */
  predicate GrowingClock(run: seq<Event>) {
    && (forall i | 0 <= i < |run| && run[i].Receive? :: run[i].now > 0)
    && (forall i, j | 0 <= i < j < |run| && run[i].Receive? && run[j].Receive? :: run[i].now <= run[j].now)
  }

  /** No tag drawn for a challenge was drawn before. */
  predicate FreshTags(run: seq<Event>) {
    forall i, j :: 0 <= i < j < |run| && run[i].Receive? && run[j].Receive? ==> run[i].nonce.tag != run[j].nonce.tag
  }
}
