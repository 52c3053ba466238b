/** The login of the switch with the identity store and HMAC put in place of the abstract verifier. */
module SwitchIdentity {
  import opened Wrappers
  import opened Protocol
  import opened SwitchModel
  import opened SwitchInvariant
  import opened SwitchLogin
  import Identity

  /** The configuration checks answers with the identity manager's store. */
  ghost predicate UsesStore(cfg: Config, store: map<string, seq<byte>>) {
    cfg.hasStore
    && forall c, a, u, g :: cfg.verify(c, a, u, g) <==> Identity.RightAnswer(store, c, a, u, g)
  }

  /**
   * What the verifier accepts, case by case: nothing for an empty challenge; from a stranger nothing, or with guests
   * let in only the HMAC under "password"; from a known user only the HMAC under that user's own password.
   */
  lemma VerifierAccepts(cfg: Config, store: map<string, seq<byte>>, challenge: seq<byte>, answer: seq<byte>,
                        username: string, guests: bool)
    requires UsesStore(cfg, store)
    ensures challenge == [] || (username !in store && !guests) ==> !cfg.verify(challenge, answer, username, guests)
    ensures challenge != [] && username !in store && guests ==>
      (cfg.verify(challenge, answer, username, guests)
       <==> answer == Identity.Hmac(Identity.Ascii("password"), challenge))
    ensures challenge != [] && username in store ==>
      (cfg.verify(challenge, answer, username, guests) <==> answer == Identity.Hmac(store[username], challenge))
  {
    hide Identity.Hmac;
    Identity.GuestPasswordIs();
  }

  /** The HMAC under some other key is accepted from a known user exactly if it coincides with that under the user's. */
  lemma OtherKeysFail(cfg: Config, store: map<string, seq<byte>>, challenge: seq<byte>, key: seq<byte>,
                      username: string, guests: bool)
    requires UsesStore(cfg, store) && challenge != [] && username in store
    ensures cfg.verify(challenge, Identity.Hmac(key, challenge), username, guests)
       <==> Identity.Hmac(key, challenge) == Identity.Hmac(store[username], challenge)
  {
    hide Identity.Hmac;
    VerifierAccepts(cfg, store, challenge, Identity.Hmac(key, challenge), username, guests);
  }

  /** With guests off a stranger's response never logs anybody in: it is answered with a new challenge. */
  lemma StrangersStayOut(cfg: Config, store: map<string, seq<byte>>, s: State, e: Event)
    requires UsesStore(cfg, store) && Inv(cfg, s) && !cfg.allowGuest
    requires e.Receive? && e.pdu.message.IdentityResponse? && e.pdu.message.username !in store
    ensures Step(cfg, s, e).0.sessions == s.sessions
    ensures forall t :: ClientAt(Step(cfg, s, e).0, t).session == ClientAt(s, t).session
  {
    hide Step, Inv;
    SoundIsConsistent(cfg, s);
    forall tag ensures !Accepts(cfg, s, e, tag) {
      if Accepts(cfg, s, e, tag) {
        VerifierAccepts(cfg, store, s.clients[e.from].pending.value.challenge, e.pdu.message.answer,
                        e.pdu.message.username, cfg.allowGuest);
      }
    }
    RejectedStep(cfg, s, e);
  }

  /** With guests off, in every run each live session belongs to a user of the store. */
  lemma {:induction false} OnlyKnownUsers(cfg: Config, store: map<string, seq<byte>>, run: seq<Event>)
    requires UsesStore(cfg, store) && GoodRun(cfg, run) && !cfg.allowGuest
    ensures forall tag | tag in After(cfg, run).sessions :: After(cfg, run).sessions[tag].username in store
  {
    hide Step, Inv, UsesStore;
    if run != [] {
      var before, e := run[..|run| - 1], run[|run| - 1];
      OnlyKnownUsers(cfg, store, before);
      RunKeeps(cfg, before);
      var s := After(cfg, before);
      SoundIsConsistent(cfg, s);
      forall tag | tag in After(cfg, run).sessions ensures After(cfg, run).sessions[tag].username in store {
        if tag in s.sessions {
          SessionKeepsIdentity(cfg, s, e, tag);
        } else {
          SessionAppears(cfg, s, e, tag);
          VerifierAccepts(cfg, store, s.clients[e.from].pending.value.challenge, e.pdu.message.answer,
                          e.pdu.message.username, cfg.allowGuest);
        }
      }
    }
  }

  /** A session only ever appears for the HMAC of the pending challenge under the password of its user. */
  lemma OnlyHmacLogsIn(cfg: Config, store: map<string, seq<byte>>, s: State, e: Event, tag: Tag)
    requires UsesStore(cfg, store) && Consistent(cfg, s)
    requires tag !in s.sessions && tag in Step(cfg, s, e).0.sessions
    ensures Answers(cfg, s, e, tag)
    ensures var m := e.pdu.message;
      && Identity.PasswordFor(store, m.username, cfg.allowGuest).Some?
      && m.answer == Identity.Hmac(Identity.PasswordFor(store, m.username, cfg.allowGuest).value,
                                   s.clients[e.from].pending.value.challenge)
  {
    hide Identity.Hmac, SwitchModel.OnMessage;
    SessionAppears(cfg, s, e, tag);
  }

  /** What the browser client sends back for the challenge pending on its transport. */
  function BrowserReply(s: State, t: Transport, username: string, password: seq<byte>): Message
    requires t in s.clients && s.clients[t].pending.Some?
  {
    var pending := s.clients[t].pending.value;
    IdentityResponse(pending.reqId, username, Identity.BrowserAnswer(password, pending.challenge), pending.newSession)
  }

  /** The reply of a known user with a non-empty password completes the login in that step. */
  lemma BrowserLoginCompletes(cfg: Config, store: map<string, seq<byte>>, s: State, e: Event, username: string)
    requires UsesStore(cfg, store) && Consistent(cfg, s)
    requires e.Receive? && e.from in s.clients && s.clients[e.from].pending.Some?
    requires username != "" && username in store && store[username] != []
    requires e.pdu.message == BrowserReply(s, e.from, username, store[username])
    requires s.clients[e.from].pending.value.newSession !in s.sessions
    ensures var tag := s.clients[e.from].pending.value.newSession;
      && tag in Step(cfg, s, e).0.sessions
      && Step(cfg, s, e).0.sessions[tag] == Session(username, Some(e.from), tag, e.nonce.member)
  {
    hide Identity.Hmac, SwitchModel.OnMessage;
    var pending := s.clients[e.from].pending.value;
    assert GoodPending(cfg, pending);
    Identity.BrowserLogsIn(store, pending.challenge, username, cfg.allowGuest);
    SessionAppears(cfg, s, e, pending.newSession);
  }
}
