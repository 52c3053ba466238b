/**
 * The switch as the source has it: session and channel objects shared by pointer between the tables, updated in
 * place. Every method is proved to do to the object graph what SwitchModel does to values.
 */
module SwitchObjects {
  import opened Wrappers
  import opened Protocol
  import opened SwitchModel
  import opened SwitchInvariant

  class SessionData {
    var username: string
    var transport: Option<Transport>
    var tag: Tag
    var member: nat

    constructor (username: string, transport: Transport, tag: Tag, member: nat)
      ensures View() == Session(username, Some(transport), tag, member)
    {
      this.username, this.transport, this.tag, this.member := username, Some(transport), tag, member;
    }

    function View(): Session
      reads this
    {
      Session(username, transport, tag, member)
    }
  }

  class SessionManager {
    var sessions: map<Tag, SessionData>

    constructor ()
      ensures Valid() && sessions == map[]
    {
      sessions := map[];
    }

    ghost predicate Valid()
      reads this, sessions.Values
    {
      forall tag | tag in sessions :: sessions[tag].tag == tag
    }

    function View(): map<Tag, Session>
      reads this, sessions.Values
    {
      map tag | tag in sessions :: sessions[tag].View()
    }

    method CreateSession(tag: Tag, t: Transport, username: string, member: nat) returns (data: SessionData)
      requires Valid()
      modifies this, if tag in sessions then {sessions[tag]} else {}
      ensures Valid() && View() == SwitchModel.CreateSession(old(View()), tag, t, username, member)
      ensures tag in sessions && data == sessions[tag]
      ensures tag in old(sessions) ==> sessions == old(sessions)
      ensures tag !in old(sessions) ==> fresh(data) && sessions == old(sessions)[tag := data]
    {
      if tag in sessions {
        data := sessions[tag];
        data.transport := Some(t);
        data.tag := tag;
        return;
      }
      data := new SessionData(username, t, tag, if username == "" then 0 else member);
      sessions := sessions[tag := data];
    }

    method DeleteSession(tag: Tag)
      requires Valid()
      modifies this
      ensures Valid() && sessions == old(sessions) - {tag}
      ensures View() == old(View()) - {tag}
    {
      sessions := sessions - {tag};
    }

    method GetSession(tag: Tag) returns (data: SessionData?)
      ensures if tag in sessions then data == sessions[tag] else data == null
    {
      data := if tag in sessions then sessions[tag] else null;
    }
  }

  class ChannelContext {
    var id: nat
    var name: string
    var metadata: string
    var limits: Limits
    var members: set<Tag>
    var window: RateWindow

    constructor (id: nat, name: string, metadata: string, limits: Limits, creator: Tag)
      ensures View() == Channel(id, name, metadata, limits, {creator}, RateWindow(0, 0))
    {
      this.id, this.name, this.metadata, this.limits := id, name, metadata, limits;
      members, window := {creator}, RateWindow(0, 0);
    }

    function View(): Channel
      reads this
    {
      Channel(id, name, metadata, limits, members, window)
    }

    /** `stream_rate_allow`: moves the window in place and says whether the packet passes. */
    method StreamRateAllow(limit: nat, now: nat) returns (allowed: bool)
      modifies this`window
      ensures (allowed, window) == RateAllow(old(window), limit, now)
    {
      if limit == 0 {
        return true;
      }
      if window.startUs == 0 || now - window.startUs >= WINDOW_US {
        window := RateWindow(now, 0);
      }
      if window.count >= limit {
        return false;
      }
      window := window.(count := window.count + 1);
      return true;
    }
  }

  datatype ClientContext = ClientContext(session: SessionData?, pending: Option<Pending>, lastIgnoreUs: int)

  datatype Datagram = Datagram(to: Transport, pdu: Pdu)

  /** `log` carries out `out`; the datagrams of a relay come in any order, one for each member. */
  ghost predicate Carries(out: Output, log: seq<Datagram>) {
    match out
    case Silent => log == []
    case Reply(to, pdu) => log == [Datagram(to, pdu)]
    case Relay(pdu, recipients) => exists order: seq<Tag> :: RelayLog(pdu, recipients, order, log)
  }

  ghost predicate RelayLog(pdu: Pdu, recipients: map<Tag, Transport>, order: seq<Tag>, log: seq<Datagram>) {
    && (forall i, j | 0 <= i < j < |order| :: order[i] != order[j])
    && (forall m :: m in recipients <==> m in order)
    && |log| == |order|
    && (forall i | 0 <= i < |order| :: order[i] in recipients && log[i] == Datagram(recipients[order[i]], pdu))
  }

  /** A relay under way: `log` holds one datagram for each recipient among the members done so far. */
  ghost predicate Sending(
    pdu: Pdu, recipients: map<Tag, Transport>, done: set<Tag>, order: seq<Tag>, log: seq<Datagram>)
  {
    && (forall i, j | 0 <= i < j < |order| :: order[i] != order[j])
    && (forall m :: m in order <==> m in recipients && m in done)
    && |log| == |order|
    && (forall i | 0 <= i < |order| :: order[i] in recipients && log[i] == Datagram(recipients[order[i]], pdu))
  }

  lemma SendingOne(
    pdu: Pdu, recipients: map<Tag, Transport>, done: set<Tag>, order: seq<Tag>, log: seq<Datagram>, m: Tag)
    requires Sending(pdu, recipients, done, order, log) && m !in done
    ensures m in recipients ==>
      Sending(pdu, recipients, done + {m}, order + [m], log + [Datagram(recipients[m], pdu)])
    ensures m !in recipients ==> Sending(pdu, recipients, done + {m}, order, log)
  {
    assert m !in order;
  }

  /** The tag is out of every channel but those still to do. */
  ghost function RemovePartly(channels: map<nat, Channel>, todo: set<nat>, tag: Tag): map<nat, Channel> {
    map c | c in channels :: if c in todo then channels[c] else channels[c].(members := channels[c].members - {tag})
  }

  lemma RemoveOne(channels: map<nat, Channel>, todo: set<nat>, c: nat, tag: Tag)
    requires c in todo && c in channels
    ensures RemovePartly(channels, todo, tag)[c := channels[c].(members := channels[c].members - {tag})]
         == RemovePartly(channels, todo - {c}, tag)
  {
  }

  lemma AppendAssociates<T>(a: seq<T>, b: seq<T>, c: seq<T>)
    ensures (a + b) + c == a + (b + c)
  {
  }

  lemma KeptOne(s: State, all: set<Tag>, done: set<Tag>, sid: Tag, m: Tag)
    requires m in all && m !in done
    ensures Kept(s, all, done + {m}, sid)
         == Kept(s, all, done, sid) - (if m == sid || !Stale(s, m) then {} else {m})
  {
  }

  ghost predicate Extends(before: seq<Datagram>, after: seq<Datagram>, out: Output) {
    |before| <= |after| && after[..|before|] == before && Carries(out, after[|before|..])
  }

  lemma LastUpdateWins<K, V>(m: map<K, V>, k: K, a: V, b: V)
    ensures m[k := a][k := b] == m[k := b]
  {
  }

  lemma ViewIs(ch: ChannelContext)
    ensures ch.View() == Channel(ch.id, ch.name, ch.metadata, ch.limits, ch.members, ch.window)
  {
  }

  /** A PDU with a session tag is handled for that session at its new transport, or challenged if there is none. */
  lemma TaggedOutcome(cfg: Config, s: State, t: Transport, pdu: Pdu, now: nat, n: Nonce)
    requires !pdu.message.IdentityResponse? && pdu.session.Some?
    ensures var tag := pdu.session.value;
      SwitchModel.OnMessage(cfg, s, t, pdu, now, n) ==
        if tag in s.sessions then Dispatch(cfg, Rebind(s, tag, t), t, Some(tag), pdu, now, n)
        else SwitchModel.Challenge(cfg, s, t, SESSION_NOT_AVAILABLE, now, n)
  {
  }

  /** Who gets a relay and who is kept depends on sessions and transports only. */
  lemma SameAudience(s0: State, s1: State, members: set<Tag>, sid: Tag)
    requires s0.sessions == s1.sessions && s0.clients == s1.clients
    ensures Recipients(s1, members, sid) == Recipients(s0, members, sid)
    ensures Kept(s1, members, members, sid) == Kept(s0, members, members, sid)
  {
  }

  lemma NothingSending(pdu: Pdu, recipients: map<Tag, Transport>)
    ensures Sending(pdu, recipients, {}, [], [])
  {
  }

  /** Whether a member gets the relay and whether it stays, by the sessions and contexts of the moment. */
  lemma RecipientOf(s: State, all: set<Tag>, sid: Tag, m: Tag)
    requires m in all
    ensures var live := m in s.sessions && s.sessions[m].transport.Some?;
      && (Stale(s, m) <==> !live)
      && (m in Recipients(s, all, sid) <==> m != sid && live && s.sessions[m].transport.value in s.clients)
      && (m in Recipients(s, all, sid) ==> Recipients(s, all, sid)[m] == s.sessions[m].transport.value)
  {
  }

  lemma RelayDone(before: seq<Datagram>, s: State, all: set<Tag>, sid: Tag, pdu: Pdu, order: seq<Tag>,
                  log: seq<Datagram>)
    requires Sending(pdu, Recipients(s, all, sid), all, order, log)
    ensures Extends(before, before + log, Relay(pdu, Recipients(s, all, sid)))
  {
    assert (before + log)[|before|..] == log;
    assert RelayLog(pdu, Recipients(s, all, sid), order, log);
  }

  lemma NothingSent(log: seq<Datagram>)
    ensures Extends(log, log, Silent)
  {
    assert log[|log|..] == [];
  }

  class RtmsSwitch {
    const cfg: Config
    const manager: SessionManager
    var clients: map<Transport, ClientContext>
    var nextReqId: nat
    var nextChannelId: nat
    var channelsById: map<nat, ChannelContext>
    var channelsByName: map<string, ChannelContext>
    /** What went to the transports' sender functions so far. */
    var sent: seq<Datagram>

    constructor (cfg: Config)
      ensures Valid() && fresh(Repr()) && this.cfg == cfg && View() == INITIAL && sent == []
    {
      this.cfg := cfg;
      manager := new SessionManager();
      clients, nextReqId, nextChannelId := map[], 1, 1;
      channelsById, channelsByName, sent := map[], map[], [];
    }

    function Repr(): set<object>
      reads this, manager
    {
      {this, manager} + manager.sessions.Values + channelsById.Values
    }

    /** Contexts share the manager's session objects. */
    ghost predicate ContextsLinked()
      reads this`clients, manager, manager.sessions.Values
    {
      && manager.Valid()
      && (forall t | t in clients && clients[t].session != null :: clients[t].session in manager.sessions.Values)
    }

    /** Both channel indexes share the channel objects. */
    ghost predicate ChannelsLinked()
      reads this`channelsById, this`channelsByName, channelsById.Values
    {
      && (forall c | c in channelsById :: channelsById[c].id == c)
      && (forall n | n in channelsByName :: channelsByName[n] in channelsById.Values)
    }

    ghost predicate Linked()
      reads this, manager, manager.sessions.Values, channelsById.Values
    {
      ContextsLinked() && ChannelsLinked()
    }

    function ClientView(c: ClientContext): Client
      reads c.session
    {
      Client(if c.session == null then None else Some(c.session.tag), c.pending, c.lastIgnoreUs)
    }

    ghost function ClientsView(): map<Transport, Client>
      requires ContextsLinked()
      reads this`clients, manager, manager.sessions.Values
    {
      map t | t in clients :: ClientView(clients[t])
    }

    ghost function ChannelsView(): map<nat, Channel>
      reads this`channelsById, channelsById.Values
    {
      map c | c in channelsById :: channelsById[c].View()
    }

    ghost function NamesView(): map<string, nat>
      requires ChannelsLinked()
      reads this`channelsById, this`channelsByName, channelsById.Values
    {
      map n | n in channelsByName :: channelsByName[n].id
    }

    ghost function View(): State
      requires Linked()
      reads this, manager, manager.sessions.Values, channelsById.Values
    {
      State(ClientsView(), manager.View(), ChannelsView(), NamesView(), nextReqId, nextChannelId)
    }

    ghost predicate Valid()
      reads this, manager, manager.sessions.Values, channelsById.Values
    {
      Linked() && Inv(cfg, View())
    }

    // ---- Sending --------------------------------------------------------------------------------------

    method SendEncoded(t: Transport, pdu: Pdu) returns (ok: bool)
      requires Linked()
      modifies this`sent
      ensures Linked() && View() == old(View())
      ensures ok <==> Emit(View(), t, pdu).Reply?
      ensures Extends(old(sent), sent, Emit(View(), t, pdu))
    {
      ok := t in clients && WireSize(pdu) <= WIRE_CAPACITY;
      if ok {
        sent := sent + [Datagram(t, pdu)];
      }
    }

    method SendMessage(t: Transport, now: nat, m: Message)
      requires Linked()
      modifies this`sent
      ensures Linked() && View() == old(View())
      ensures Extends(old(sent), sent, Answer(View(), t, now, m))
    {
      var ok := SendEncoded(t, Pdu(PROTOCOL_VERSION, now, None, m));
    }

    method AllocateServerReqId() returns (r: nat)
      modifies this`nextReqId
      ensures r == old(nextReqId) && nextReqId == NextReqId(old(nextReqId))
    {
      r := nextReqId;
      nextReqId := (nextReqId + 1) % 0x1_0000;
      if nextReqId == 0 {
        nextReqId := 1;
      }
    }

    method SetClient(t: Transport, client: ClientContext)
      requires Linked() && (client.session != null ==> client.session in manager.sessions.Values)
      modifies this`clients
      ensures Linked() && clients == old(clients)[t := client]
      ensures View() == old(View()).(clients := old(View()).clients[t := ClientView(client)])
    {
      clients := clients[t := client];
      assert ClientsView() == old(ClientsView())[t := ClientView(client)];
    }

    method SendIdentityRequest(t: Transport, reason: Reason, now: nat, nonce: Nonce)
      requires Linked()
      modifies this`sent, this`clients, this`nextReqId
      ensures Linked() && View() == Challenge(cfg, old(View()), t, reason, now, nonce).0
      ensures Extends(old(sent), sent, Challenge(cfg, old(View()), t, reason, now, nonce).1)
    {
      hide ChannelsView, ChannelsLinked, NamesView, ChannelContext.View, Extends;
      var reqId := AllocateServerReqId();
      var pending := Pending(nonce.challenge, nonce.tag, reqId);
      var client := if t in clients then clients[t] else ClientContext(null, None, 0);
      SetClient(t, client.(pending := Some(pending)));
      assert View() == Challenge(cfg, old(View()), t, reason, now, nonce).0;
      hide View, Linked;
      SendMessage(t, now, IdentityRequest(reqId, reason, nonce.challenge, nonce.tag));
    }

    method TrySendIgnore(t: Transport, incoming: Pdu, reason: Reason, now: nat) returns (ok: bool)
      requires Linked() && t in clients
      modifies this`sent, this`clients
      ensures Linked() && View() == Ignore(cfg, old(View()), t, incoming, reason, now).0
      ensures Extends(old(sent), sent, Ignore(cfg, old(View()), t, incoming, reason, now).1)
      ensures ok <==> Ignore(cfg, old(View()), t, incoming, reason, now).1.Reply?
    {
      var cooldownUs := cfg.cooldownMs * 1000;
      var client := clients[t];
      assert ClientAt(View(), t) == ClientView(client);
      if client.lastIgnoreUs > 0 && cooldownUs > 0 && now - client.lastIgnoreUs < cooldownUs {
        return false;
      }
      ok := SendEncoded(t, Pdu(incoming.version, now, None, IgnoredIndication(reason, "")));
      if ok && cooldownUs > 0 {
        SetClient(t, client.(lastIgnoreUs := now));
      }
    }

    // ---- Sessions -------------------------------------------------------------------------------------

    /** The manager keeps each object under its own tag, so equal tags mean the same object. */
    lemma Registered(data: SessionData)
      requires manager.Valid() && data in manager.sessions.Values
      ensures data.tag in manager.sessions && manager.sessions[data.tag] == data
    {
    }

    method BindSession(tag: Tag, t: Transport, username: string, member: nat) returns (data: SessionData)
      requires Linked()
      modifies manager, if tag in manager.sessions then {manager.sessions[tag]} else {}
      ensures Linked() && data in manager.sessions.Values && data.tag == tag
      ensures View() == old(View()).(sessions := CreateSession(old(View()).sessions, tag, t, username, member))
      ensures tag in old(manager.sessions) ==> manager.sessions == old(manager.sessions)
      ensures tag !in old(manager.sessions) ==>
        fresh(data) && manager.sessions == old(manager.sessions)[tag := data]
    {
      hide ChannelsView, ChannelsLinked, NamesView, ChannelContext.View, SwitchModel.CreateSession;
      data := manager.CreateSession(tag, t, username, member);
      assert manager.sessions[tag] == data;
      forall u | u in clients && clients[u].session != null ensures clients[u].session in manager.sessions.Values {
        assert old(clients[u].session.tag) in manager.sessions;
        assert manager.sessions[old(clients[u].session.tag)] == clients[u].session;
      }
      assert ClientsView() == old(ClientsView());
    }

    method RebindSessionToTransport(data: SessionData, t: Transport)
      requires Linked() && data in manager.sessions.Values
      modifies this`clients, manager, data
      ensures Linked() && manager.sessions == old(manager.sessions) && data.tag == old(data.tag)
      ensures clients.Keys == old(clients.Keys)
      ensures View() == Rebind(old(View()), old(data.tag), t)
    {
      Registered(data);
      if data.transport == Some(t) {
        return;
      }
      if data.transport.Some? {
        var former := data.transport.value;
        if former in clients && clients[former].session == data {
          SetClient(former, clients[former].(session := null));
        } else if former in clients && clients[former].session != null {
          Registered(clients[former].session);
        }
      }
      var same := BindSession(data.tag, t, data.username, 0);
    }

    method EraseClient(t: Transport)
      requires Linked()
      modifies this`clients
      ensures Linked() && clients == old(clients) - {t}
      ensures View() == old(View()).(clients := old(View()).clients - {t})
    {
      clients := clients - {t};
      assert ClientsView() == old(ClientsView()) - {t};
    }

    /** The former transport's context lets go of the session, and goes away if it has none left. */
    method EvictFormer(former: Transport, tag: Tag)
      requires Linked()
      modifies this`clients
      ensures Linked() && View() == old(View()).(clients := Evict(old(View()).clients, former, tag))
      ensures forall u | u in old(clients) && u != former :: u in clients && clients[u] == old(clients[u])
    {
      if former in clients {
        var data := clients[former].session;
        if data != null && data.tag == tag {
          SetClient(former, clients[former].(session := null));
        }
        if clients[former].session == null {
          EraseClient(former);
        }
      }
    }

    method HandleIdentityResponse(t: Transport, pdu: Pdu, now: nat, nonce: Nonce)
      requires Linked() && t in clients && pdu.message.IdentityResponse?
      modifies this`sent, this`clients, this`nextReqId, manager, manager.sessions.Values
      ensures Linked() && fresh(manager.sessions.Values - old(manager.sessions.Values))
      ensures View() == HandleIdentity(cfg, old(View()), t, pdu, now, nonce).0
      ensures Extends(old(sent), sent, HandleIdentity(cfg, old(View()), t, pdu, now, nonce).1)
    {
      hide SwitchModel.Challenge, LogIn, Extends;
      var m := pdu.message;
      assert ClientAt(View(), t) == ClientView(clients[t]) && View().sessions == manager.View();
      hide View, Linked;
      if m.username == "" {
        SendIdentityRequest(t, CHALLENGE_FAILURE, now, nonce);
        return;
      }
      if clients[t].pending.None? || clients[t].pending.value.reqId != m.reqId {
        SendIdentityRequest(t, SESSION_NOT_AVAILABLE, now, nonce);
        return;
      }
      var pending := clients[t].pending.value;
      if !cfg.hasStore {
        SendIdentityRequest(t, SESSION_NOT_AVAILABLE, now, nonce);
        return;
      }
      if !TagMatches(pending.newSession, m.sessionToUse) {
        SendIdentityRequest(t, CHALLENGE_FAILURE, now, nonce);
        return;
      }
      if !cfg.verify(pending.challenge, m.answer, m.username, cfg.allowGuest) {
        SendIdentityRequest(t, CHALLENGE_FAILURE, now, nonce);
        return;
      }
      var tag := pending.newSession;
      var existing := manager.GetSession(tag);
      if existing != null && (existing.username == "" || existing.username != m.username) {
        SendIdentityRequest(t, SESSION_NOT_AVAILABLE, now, nonce);
        return;
      }
      CompleteLogin(t, existing, tag, m.username, nonce.member);
      NothingSent(old(sent));
    }

    method CompleteLogin(t: Transport, existing: SessionData?, tag: Tag, username: string, member: nat)
      requires Linked() && t in clients
      requires if tag in manager.sessions then existing == manager.sessions[tag] else existing == null
      modifies this`clients, manager, manager.sessions.Values
      ensures Linked() && fresh(manager.sessions.Values - old(manager.sessions.Values))
      ensures View() == LogIn(old(View()), t, tag, username, member)
    {
      hide ChannelsView, ChannelsLinked, NamesView, ChannelContext.View, Evict, CreateSession;
      if existing != null && existing.transport.Some? && existing.transport.value != t {
        EvictFormer(existing.transport.value, tag);
      }
      var data := BindSession(tag, t, username, member);
      SetClient(t, clients[t].(pending := None, session := data));
    }

    // ---- Channels -------------------------------------------------------------------------------------

    method SetMembers(ch: ChannelContext, members: set<Tag>)
      requires Linked() && ch in channelsById.Values
      modifies ch`members
      ensures Linked() && ch.View() == old(ch.View()).(members := members)
      ensures View() == old(View()).(channels := old(View()).channels[ch.id := ch.View()])
    {
      ch.members := members;
      assert ChannelsView() == old(ChannelsView())[ch.id := ch.View()];
      assert NamesView() == old(NamesView());
    }

    method MeterPacket(ch: ChannelContext, now: nat) returns (allowed: bool)
      requires Linked() && ch in channelsById.Values
      modifies ch`window
      ensures Linked() && allowed == RateAllow(old(ch.window), ch.limits.pktRateLimit, now).0
      ensures ch.View() == old(ch.View()).(window := RateAllow(old(ch.window), ch.limits.pktRateLimit, now).1)
      ensures View() == old(View()).(channels := old(View()).channels[ch.id := ch.View()])
    {
      allowed := ch.StreamRateAllow(ch.limits.pktRateLimit, now);
      assert ChannelsView() == old(ChannelsView())[ch.id := ch.View()];
      assert NamesView() == old(NamesView());
    }

    method PruneChannelMemberIfStale(ch: ChannelContext, tag: Tag)
      requires Linked() && ch in channelsById.Values
      modifies ch`members
      ensures Linked() && ch.View() == Prune(old(View()), old(ch.View()), tag)
      ensures View() == old(View()).(channels := old(View()).channels[ch.id := ch.View()])
    {
      var data := manager.GetSession(tag);
      if data == null || data.transport.None? {
        SetMembers(ch, ch.members - {tag});
      } else {
        assert ChannelsView() == ChannelsView()[ch.id := ch.View()];
      }
    }

    method HandleCreateRequest(t: Transport, sid: Tag, m: Message, now: nat)
      requires Linked() && m.CreateRequest? && nextChannelId !in channelsById
      modifies this`sent, this`nextChannelId, this`channelsById, this`channelsByName
      ensures Linked() && fresh(channelsById.Values - old(channelsById.Values))
      ensures View() == HandleCreate(cfg, old(View()), t, sid, m, now).0
      ensures Extends(old(sent), sent, HandleCreate(cfg, old(View()), t, sid, m, now).1)
    {
      var merged := MergeLimits(cfg, m.limits);
      if m.channelName in channelsByName {
        SendMessage(t, now, CreateResponse(m.reqId, 0, EXIST));
        return;
      }
      var cid := AddChannel(m.channelName, m.metadata, merged, sid);
      SendMessage(t, now, CreateResponse(m.reqId, cid, OK));
    }

    method AddChannel(name: string, metadata: string, limits: Limits, creator: Tag) returns (cid: nat)
      requires Linked() && nextChannelId !in channelsById
      modifies this`nextChannelId, this`channelsById, this`channelsByName
      ensures Linked() && cid == old(nextChannelId) && fresh(channelsById.Values - old(channelsById.Values))
      ensures var c := Channel(cid, name, metadata, limits, {creator}, RateWindow(0, 0));
        View() == old(View()).(nextChannelId := cid + 1, channels := old(View()).channels[cid := c],
                               names := old(View()).names[name := cid])
    {
      ghost var s0 := View();
      cid := AllocateChannelId();
      var ch := new ChannelContext(cid, name, metadata, limits, creator);
      ghost var s1 := View();
      assert s1 == s0.(nextChannelId := cid + 1);
      IndexById(ch);
      ghost var s2 := View();
      assert channelsById[cid] == ch && s2 == s1.(channels := s1.channels[cid := ch.View()]);
      IndexByName(ch);
    }

    method AllocateChannelId() returns (cid: nat)
      requires Linked()
      modifies this`nextChannelId
      ensures Linked() && cid == old(nextChannelId) && View() == old(View()).(nextChannelId := cid + 1)
      ensures nextChannelId == cid + 1
    {
      cid := nextChannelId;
      nextChannelId := nextChannelId + 1;
    }

    method IndexById(ch: ChannelContext)
      requires Linked() && ch.id !in channelsById
      modifies this`channelsById
      ensures Linked() && channelsById == old(channelsById)[ch.id := ch]
      ensures View() == old(View()).(channels := old(View()).channels[ch.id := ch.View()])
    {
      channelsById := channelsById[ch.id := ch];
      assert channelsById[ch.id] == ch;
      forall n | n in channelsByName ensures channelsByName[n] in channelsById.Values {
        assert channelsById[channelsByName[n].id] == channelsByName[n];
      }
      assert ChannelsView() == old(ChannelsView())[ch.id := ch.View()];
      assert NamesView() == old(NamesView());
    }

    method IndexByName(ch: ChannelContext)
      requires Linked() && ch in channelsById.Values
      modifies this`channelsByName
      ensures Linked() && View() == old(View()).(names := old(View()).names[ch.name := ch.id])
    {
      hide ChannelsView, ClientsView, ContextsLinked, ChannelContext.View;
      channelsByName := channelsByName[ch.name := ch];
      ghost var before, after := old(NamesView())[ch.name := ch.id], NamesView();
      assert old(NamesView()).Keys == old(channelsByName).Keys;
      assert after.Keys == channelsByName.Keys;
      assert after.Keys == before.Keys;
      assert forall n | n in after :: after[n] == before[n];
    }

    method HandleJoinRequest(t: Transport, sid: Tag, m: Message, now: nat)
      requires Linked() && m.JoinRequest?
      modifies this`sent, channelsById.Values
      ensures Linked() && View() == HandleJoin(cfg, old(View()), t, sid, m, now).0
      ensures Extends(old(sent), sent, HandleJoin(cfg, old(View()), t, sid, m, now).1)
    {
      assert m.channelName in View().names <==> m.channelName in channelsByName;
      if m.channelName !in channelsByName {
        SendMessage(t, now, JoinResponse(m.reqId, 0, NOT_FOUND, None));
        return;
      }
      var ch := channelsByName[m.channelName];
      assert View().names[m.channelName] == ch.id && ch.id in View().channels;
      hide View, Linked, JoinInto;
      JoinChannel(t, ch, sid, m, now);
    }

    method JoinChannel(t: Transport, ch: ChannelContext, sid: Tag, m: Message, now: nat)
      requires Linked() && m.JoinRequest? && ch in channelsById.Values && ch.id in View().channels
      modifies this`sent, ch`members
      ensures Linked() && View() == JoinInto(old(View()), t, ch.id, sid, m, now).0
      ensures Extends(old(sent), sent, JoinInto(old(View()), t, ch.id, sid, m, now).1)
    {
      ghost var s0, cid := View(), ch.id;
      assert s0.channels[cid] == ch.View();
      hide View, Linked, Extends;
      PruneChannelMemberIfStale(ch, sid);
      ghost var c := ch.View();
      assert c == Prune(s0, s0.channels[cid], sid) && c.id == cid;
      hide Prune, ChannelContext.View;
      assert c == Channel(ch.id, ch.name, ch.metadata, ch.limits, ch.members, ch.window) by { ViewIs(ch); }
      LastUpdateWins(s0.channels, cid, c, c.(members := c.members + {sid}));
      if ch.metadata != m.metadata {
        SendMessage(t, now, JoinResponse(m.reqId, ch.id, META_MISMATCH, None));
        return;
      }
      SetMembers(ch, ch.members + {sid});
      SendMessage(t, now, JoinResponse(m.reqId, ch.id, OK, Some(ch.limits)));
    }

    method HandleLeaveRequest(t: Transport, sid: Tag, pdu: Pdu, now: nat)
      requires Linked() && t in clients && pdu.message.LeaveRequest?
      modifies this`sent, this`clients, channelsById.Values
      ensures Linked() && View() == HandleLeave(cfg, old(View()), t, sid, pdu, now).0
      ensures Extends(old(sent), sent, HandleLeave(cfg, old(View()), t, sid, pdu, now).1)
    {
      var cid := pdu.message.channelId;
      if cid !in channelsById || sid !in channelsById[cid].members {
        var ok := TrySendIgnore(t, pdu, NOT_JOINED, now);
        return;
      }
      var ch := channelsById[cid];
      SetMembers(ch, ch.members - {sid});
      SendMessage(t, now, LeaveResponse(pdu.message.reqId));
    }

    // ---- Relay ----------------------------------------------------------------------------------------

    method SendDatagram(t: Transport, pdu: Pdu) returns (ok: bool)
      modifies this`sent
      ensures ok == (t in clients)
      ensures sent == if ok then old(sent) + [Datagram(t, pdu)] else old(sent)
    {
      ok := t in clients;
      if ok {
        sent := sent + [Datagram(t, pdu)];
      }
    }

    /** One turn of the relay loop: skip the sender, erase a dead member, send to a live one. */
    method RelayToMember(ch: ChannelContext, m: Tag, sid: Tag, pdu: Pdu)
      modifies this`sent, ch`members
      ensures var live := m in manager.sessions && manager.sessions[m].transport.Some?;
        && ch.members == (if m == sid || live then old(ch.members) else old(ch.members) - {m})
        && sent == (if m != sid && live && manager.sessions[m].transport.value in clients
                    then old(sent) + [Datagram(manager.sessions[m].transport.value, pdu)] else old(sent))
    {
      if m == sid {
        return;
      }
      var peer := manager.GetSession(m);
      if peer == null || peer.transport.None? {
        ch.members := ch.members - {m};
        return;
      }
      var ok := SendDatagram(peer.transport.value, pdu);
    }

    /** The same turn, seen from the state in which the relay started. */
    method RelayTurn(ch: ChannelContext, m: Tag, sid: Tag, pdu: Pdu, ghost s0: State, ghost all: set<Tag>,
                     ghost done: set<Tag>)
      requires manager.View() == s0.sessions && clients.Keys == s0.clients.Keys
      requires m in all && m !in done && ch.members == Kept(s0, all, done, sid)
      modifies this`sent, ch`members
      ensures ch.members == Kept(s0, all, done + {m}, sid)
      ensures var recipients := Recipients(s0, all, sid);
        sent == if m in recipients then old(sent) + [Datagram(recipients[m], pdu)] else old(sent)
    {
      hide Kept, Recipients, Stale;
      KeptOne(s0, all, done, sid, m);
      RecipientOf(s0, all, sid, m);
      assert m in s0.sessions ==> s0.sessions[m] == manager.sessions[m].View();
      RelayToMember(ch, m, sid, pdu);
    }

    /** Sends to every other live member and erases the dead ones while it goes through the members. */
    method RelayToMembers(ch: ChannelContext, sid: Tag, pdu: Pdu, ghost s0: State)
      requires manager.View() == s0.sessions && clients.Keys == s0.clients.Keys
      modifies this`sent, ch`members
      ensures ch.members == Kept(s0, old(ch.members), old(ch.members), sid)
      ensures Extends(old(sent), sent, Relay(pdu, Recipients(s0, old(ch.members), sid)))
    {
      ghost var all, before := ch.members, sent;
      ghost var recipients := Recipients(s0, all, sid);
      ghost var order, log: seq<Datagram>, done: set<Tag> := [], [], {};
      var todo := ch.members;
      assert before + log == sent && Kept(s0, all, done, sid) == all;
      hide Kept, Extends, Carries, Sending, RelayLog, Recipients, Stale;
      NothingSending(pdu, recipients);
      while todo != {}
        invariant todo <= all && done == all - todo && ch.members == Kept(s0, all, done, sid)
        invariant sent == before + log && Sending(pdu, recipients, done, order, log)
        decreases |todo|
      {
        var m :| m in todo;
        SendingOne(pdu, recipients, done, order, log, m);
        RelayTurn(ch, m, sid, pdu, s0, all, done);
        todo := todo - {m};
        done := done + {m};
        if m in recipients {
          AppendAssociates(before, log, [Datagram(recipients[m], pdu)]);
          order, log := order + [m], log + [Datagram(recipients[m], pdu)];
        }
      }
      assert done == all;
      RelayDone(before, s0, all, sid, pdu, order, log);
    }

    method HandleStreamData(t: Transport, sender: SessionData, pdu: Pdu, now: nat, nonce: Nonce)
      requires Linked() && t in clients && pdu.message.StreamData? && sender in manager.sessions.Values
      modifies this`sent, this`clients, this`nextReqId, channelsById.Values
      ensures Linked() && View() == HandleStream(cfg, old(View()), t, sender.tag, pdu, now, nonce).0
      ensures Extends(old(sent), sent, HandleStream(cfg, old(View()), t, sender.tag, pdu, now, nonce).1)
    {
      Registered(sender);
      assert View().sessions[sender.tag] == sender.View();
      if sender.transport.None? {
        SendIdentityRequest(t, UNRECOGNIZED_TRANSPORT, now, nonce);
        return;
      }
      if pdu.message.channelId !in channelsById {
        var ok := TrySendIgnore(t, pdu, UNKNOWN_CHANNEL, now);
        return;
      }
      StreamIntoChannel(t, sender, channelsById[pdu.message.channelId], pdu, now, nonce);
    }

    method StreamIntoChannel(t: Transport, sender: SessionData, ch: ChannelContext, pdu: Pdu, now: nat, nonce: Nonce)
      requires Linked() && t in clients && pdu.message.StreamData? && sender in manager.sessions.Values
      requires sender.transport.Some? && pdu.message.channelId in channelsById
      requires ch == channelsById[pdu.message.channelId]
      modifies this`sent, this`clients, ch
      ensures Linked() && View() == HandleStream(cfg, old(View()), t, sender.tag, pdu, now, nonce).0
      ensures Extends(old(sent), sent, HandleStream(cfg, old(View()), t, sender.tag, pdu, now, nonce).1)
    {
      hide Extends, RelayInto, Challenge, Ignore;
      ghost var s0, cid, sid := View(), ch.id, sender.tag;
      NothingSent(sent);
      Registered(sender);
      assert s0.sessions[sid] == sender.View() && s0.channels[cid] == ch.View();
      PruneChannelMemberIfStale(ch, sender.tag);
      ghost var c, s1 := ch.View(), View();
      assert c == Prune(s0, s0.channels[cid], sid) && s1 == s0.(channels := s0.channels[cid := c]);
      if sender.tag !in ch.members {
        var ok := TrySendIgnore(t, pdu, NOT_JOINED, now);
        return;
      }
      if !PayloadWithinLimit(|pdu.message.payload|, ch.limits.maxPayloadSize) {
        return;
      }
      MeterAndRelay(t, sender, ch, pdu, now);
    }

    method MeterAndRelay(t: Transport, sender: SessionData, ch: ChannelContext, pdu: Pdu, now: nat)
      requires Linked() && ch in channelsById.Values && pdu.message.StreamData?
      modifies this`sent, ch
      ensures Linked()
      ensures View() == RelayInto(old(View()), ch.id, old(ch.View()), sender.tag, sender.View(), pdu, now).0
      ensures Extends(old(sent), sent,
                RelayInto(old(View()), ch.id, old(ch.View()), sender.tag, sender.View(), pdu, now).1)
    {
      hide Extends, Recipients, Kept, RateAllow;
      NothingSent(sent);
      ghost var s0, sid := View(), sender.tag;
      var allowed := MeterPacket(ch, now);
      ghost var c, s1 := ch.View(), View();
      if !allowed {
        return;
      }
      var relayed := pdu.(message := pdu.message.(fromUsername := sender.username, fromSession := sender.member));
      if WireSize(relayed) > WIRE_CAPACITY {
        return;
      }
      RelayAndPrune(ch, sender.tag, relayed);
      SameAudience(s0, s1, c.members, sid);
    }

    lemma ClientKeys()
      requires Linked()
      ensures View().clients.Keys == clients.Keys && View().sessions == manager.View()
    {
    }

    method RelayAndPrune(ch: ChannelContext, sid: Tag, pdu: Pdu)
      requires Linked() && ch in channelsById.Values
      modifies this`sent, ch`members
      ensures Linked()
      ensures ch.View() == old(ch.View()).(members := Kept(old(View()), old(ch.members), old(ch.members), sid))
      ensures View() == old(View()).(channels := old(View()).channels[ch.id := ch.View()])
      ensures Extends(old(sent), sent, Relay(pdu, Recipients(old(View()), old(ch.members), sid)))
    {
      hide ClientsView, ContextsLinked, Extends, Kept, Recipients;
      ClientKeys();
      RelayToMembers(ch, sid, pdu, View());
      assert ChannelsView() == old(ChannelsView())[ch.id := ch.View()];
      assert NamesView() == old(NamesView());
    }

    // ---- One datagram ---------------------------------------------------------------------------------

    ghost function TagOf(data: SessionData?): Option<Tag>
      reads data
    {
      if data == null then None else Some(data.tag)
    }

    method HandleHeartbeat(t: Transport, pdu: Pdu, now: nat)
      requires Linked()
      modifies this`sent
      ensures Linked() && View() == SwitchModel.HandleHeartbeat(cfg, old(View()), t, pdu, now).0
      ensures Extends(old(sent), sent, SwitchModel.HandleHeartbeat(cfg, old(View()), t, pdu, now).1)
    {
      var ok := SendEncoded(t, Pdu(pdu.version, now, None, Heartbeat));
    }

    /** The visit over the message alternatives, for the session the PDU speaks for. */
    method HandleMessage(t: Transport, rx: SessionData?, pdu: Pdu, now: nat, nonce: Nonce)
      requires Linked() && t in clients && nextChannelId !in channelsById
      requires rx != null ==> rx in manager.sessions.Values
      modifies this, manager, manager.sessions.Values, channelsById.Values
      ensures Linked() && fresh(Repr() - old(Repr()))
      ensures View() == Dispatch(cfg, old(View()), t, old(TagOf(rx)), pdu, now, nonce).0
      ensures Extends(old(sent), sent, Dispatch(cfg, old(View()), t, old(TagOf(rx)), pdu, now, nonce).1)
    {
      if pdu.message.IdentityResponse? {
        HandleIdentityResponse(t, pdu, now, nonce);
        return;
      }
      HandleSessionMessage(t, rx, pdu, now, nonce);
    }

    method HandleSessionMessage(t: Transport, rx: SessionData?, pdu: Pdu, now: nat, nonce: Nonce)
      requires Linked() && t in clients && nextChannelId !in channelsById && !pdu.message.IdentityResponse?
      requires rx != null ==> rx in manager.sessions.Values
      modifies this, channelsById.Values
      ensures Linked() && fresh(channelsById.Values - old(channelsById.Values))
      ensures View() == Dispatch(cfg, old(View()), t, TagOf(rx), pdu, now, nonce).0
      ensures Extends(old(sent), sent, Dispatch(cfg, old(View()), t, TagOf(rx), pdu, now, nonce).1)
    {
      var m := pdu.message;
      if !(m.Heartbeat? || m.CreateRequest? || m.JoinRequest? || m.LeaveRequest? || m.StreamData?) {
        return;
      }
      if rx != null {
        Registered(rx);
        assert View().sessions[rx.tag] == rx.View();
      }
      if rx == null || rx.username == "" {
        SendIdentityRequest(t, UNRECOGNIZED_TRANSPORT, now, nonce);
        return;
      }
      match m
      case Heartbeat => HandleHeartbeat(t, pdu, now);
      case CreateRequest(_, _, _, _) => HandleCreateRequest(t, rx.tag, m, now);
      case JoinRequest(_, _, _) => HandleJoinRequest(t, rx.tag, m, now);
      case LeaveRequest(_, _) => HandleLeaveRequest(t, rx.tag, pdu, now);
      case StreamData(_, _, _, _) => HandleStreamData(t, rx, pdu, now, nonce);
    }

    method OnMessage(t: Transport, pdu: Pdu, now: nat, nonce: Nonce)
      requires Linked() && t in clients && nextChannelId !in channelsById
      modifies this, manager, manager.sessions.Values, channelsById.Values
      ensures Linked() && fresh(Repr() - old(Repr()))
      ensures View() == SwitchModel.OnMessage(cfg, old(View()), t, pdu, now, nonce).0
      ensures Extends(old(sent), sent, SwitchModel.OnMessage(cfg, old(View()), t, pdu, now, nonce).1)
    {
      if !pdu.message.IdentityResponse? && pdu.session.Some? {
        OnTaggedMessage(t, pdu, now, nonce);
      } else {
        assert TagOf(clients[t].session) == Speaker(View(), t, pdu);
        HandleMessage(t, clients[t].session, pdu, now, nonce);
      }
    }

    method OnTaggedMessage(t: Transport, pdu: Pdu, now: nat, nonce: Nonce)
      requires Linked() && t in clients && nextChannelId !in channelsById
      requires !pdu.message.IdentityResponse? && pdu.session.Some?
      modifies this, manager, manager.sessions.Values, channelsById.Values
      ensures Linked() && fresh(Repr() - old(Repr()))
      ensures View() == SwitchModel.OnMessage(cfg, old(View()), t, pdu, now, nonce).0
      ensures Extends(old(sent), sent, SwitchModel.OnMessage(cfg, old(View()), t, pdu, now, nonce).1)
    {
      ghost var s0, tag := View(), pdu.session.value;
      assert s0.sessions == manager.View();
      assert tag in manager.sessions ==>
          manager.sessions[tag].tag == tag && manager.sessions[tag] in manager.sessions.Values;
      TaggedOutcome(cfg, s0, t, pdu, now, nonce);
      hide View, Linked, SwitchModel.OnMessage, SwitchModel.Challenge, Dispatch, Rebind, Extends;
      var rx := manager.GetSession(pdu.session.value);
      if rx == null {
        SendIdentityRequest(t, SESSION_NOT_AVAILABLE, now, nonce);
        return;
      }
      OnSessionMessage(t, rx, pdu, now, nonce);
    }

    method OnSessionMessage(t: Transport, rx: SessionData, pdu: Pdu, now: nat, nonce: Nonce)
      requires Linked() && t in clients && nextChannelId !in channelsById
      requires !pdu.message.IdentityResponse? && rx in manager.sessions.Values
      modifies this, manager, rx, channelsById.Values
      ensures Linked() && manager.sessions == old(manager.sessions)
      ensures fresh(channelsById.Values - old(channelsById.Values))
      ensures var s := Rebind(old(View()), old(rx.tag), t);
        && View() == Dispatch(cfg, s, t, Some(old(rx.tag)), pdu, now, nonce).0
        && Extends(old(sent), sent, Dispatch(cfg, s, t, Some(old(rx.tag)), pdu, now, nonce).1)
    {
      RebindSessionToTransport(rx, t);
      hide View, Linked, Dispatch, Rebind, Extends;
      HandleSessionMessage(t, rx, pdu, now, nonce);
    }

    lemma NextIdIsFree()
      requires Valid()
      ensures nextChannelId !in channelsById
    {
      forall c | c in channelsById ensures c < nextChannelId {
        assert GoodChannel(cfg, View(), c, View().channels[c]);
      }
    }

    method EnsureClient(t: Transport)
      requires Linked()
      modifies this`clients
      ensures Linked() && View() == Touch(old(View()), t) && t in clients
    {
      ghost var s0 := View();
      SetClient(t, if t in clients then clients[t] else ClientContext(null, None, 0));
      assert View() == Touch(s0, t);
    }

    /** A datagram from `t`: its context is created if need be and its sender function set, then it is handled. */
    method Receive(t: Transport, pdu: Pdu, now: nat, nonce: Nonce)
      requires Valid() && GoodNonce(cfg, nonce)
      modifies this, manager, manager.sessions.Values, channelsById.Values
      ensures Valid() && fresh(Repr() - old(Repr()))
      ensures View() == Step(cfg, old(View()), SwitchModel.Receive(t, pdu, now, nonce)).0
      ensures Extends(old(sent), sent, Step(cfg, old(View()), SwitchModel.Receive(t, pdu, now, nonce)).1)
    {
      ghost var s0 := View();
      StepKeeps(cfg, true, s0, SwitchModel.Receive(t, pdu, now, nonce));
      NextIdIsFree();
      EnsureClient(t);
      assert Step(cfg, s0, SwitchModel.Receive(t, pdu, now, nonce))
          == SwitchModel.OnMessage(cfg, View(), t, pdu, now, nonce);
      hide View, Linked, SwitchModel.OnMessage, Touch, Extends, Inv, Step;
      OnMessage(t, pdu, now, nonce);
    }

    // ---- Forgetting a transport -------------------------------------------------------------------------

    method RemoveSessionFromAllChannels(tag: Tag)
      requires Linked()
      modifies channelsById.Values
      ensures Linked() && View() == old(View()).(channels := RemoveEverywhere(old(View()).channels, tag))
    {
      ghost var s0 := View();
      var todo := channelsById.Keys;
      assert s0.channels == RemovePartly(s0.channels, todo, tag);
      while todo != {}
        invariant Linked() && todo <= channelsById.Keys
        invariant View() == s0.(channels := RemovePartly(s0.channels, todo, tag))
        decreases |todo|
      {
        var c :| c in todo;
        var ch := channelsById[c];
        assert View().channels[c] == ch.View() == s0.channels[c];
        SetMembers(ch, ch.members - {tag});
        RemoveOne(s0.channels, todo, c, tag);
        todo := todo - {c};
      }
      assert RemovePartly(s0.channels, {}, tag) == RemoveEverywhere(s0.channels, tag);
    }

    method ForgetTransportSessions(t: Transport)
      requires Valid()
      modifies this`clients, manager, channelsById.Values
      ensures Valid() && View() == Step(cfg, old(View()), Forget(t)).0
    {
      StepKeeps(cfg, true, View(), Forget(t));
      if t !in clients || clients[t].session == null {
        return;
      }
      var tag := clients[t].session.tag;
      RemoveSessionFromAllChannels(tag);
      ghost var s0 := View();
      EraseClient(t);
      forall u | u in clients && clients[u].session != null ensures clients[u].session.tag != tag {
        assert BoundTo(s0, s0.clients[u].session.value, u) && BoundTo(s0, tag, t);
      }
      DropSession(tag);
    }

    /** No context points to the session any more, so the manager may let go of it. */
    method DropSession(tag: Tag)
      requires Linked() && forall u | u in clients && clients[u].session != null :: clients[u].session.tag != tag
      modifies manager
      ensures Linked() && View() == old(View()).(sessions := old(View()).sessions - {tag})
    {
      manager.DeleteSession(tag);
      forall u | u in clients && clients[u].session != null ensures clients[u].session in manager.sessions.Values {
        assert manager.sessions[clients[u].session.tag] == clients[u].session;
      }
      assert ClientsView() == old(ClientsView());
    }
  }
}
