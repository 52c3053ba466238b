/** Where a session is reached and what it is a member of, read off the history alone. */
module SwitchHistory {
  import opened Wrappers
  import opened Protocol
  import opened SwitchModel
  import opened SwitchInvariant
  import opened SwitchLogin
  import opened SwitchRelay

  // ---- The last speaker wins --------------------------------------------------------------------------

  /** The event logs `tag` in, or carries it in a PDU that is not an identity response. */
  predicate Speaks(cfg: Config, s: State, e: Event, tag: Tag) {
    && e.Receive?
    && (if e.pdu.message.IdentityResponse? then Accepts(cfg, s, e, tag) else e.pdu.session == Some(tag))
  }

  /** Source of the latest event of the run that spoke for `tag`. */
  ghost function LastSpoke(cfg: Config, run: seq<Event>, tag: Tag): Option<Transport> {
    if run == [] then None
    else
      var before, e := run[..|run| - 1], run[|run| - 1];
      if Speaks(cfg, After(cfg, before), e, tag) then Some(e.from) else LastSpoke(cfg, before, tag)
  }

  lemma TransportStep(cfg: Config, s: State, e: Event, tag: Tag)
    requires Consistent(cfg, s) && tag in Step(cfg, s, e).0.sessions
    ensures Speaks(cfg, s, e, tag) ==> Step(cfg, s, e).0.sessions[tag].transport == Some(e.from)
    ensures !Speaks(cfg, s, e, tag) ==>
      tag in s.sessions && Step(cfg, s, e).0.sessions[tag].transport == s.sessions[tag].transport
  {
    if tag !in s.sessions {
      SessionAppears(cfg, s, e, tag);
    }
    if e.Receive? {
      var s1 := Touch(s, e.from);
      var rx := Speaker(s1, e.from, e.pdu);
      if e.pdu.message.IdentityResponse? {
        if other :| Accepts(cfg, s, e, other) {
          AcceptedStep(cfg, s, e, other);
        } else {
          RejectedStep(cfg, s, e);
        }
      } else if e.pdu.session.Some? && e.pdu.session.value in s.sessions {
        DispatchSessions(cfg, Rebind(s1, e.pdu.session.value, e.from), e.from, rx, e.pdu, e.now, e.nonce);
      } else {
        DispatchSessions(cfg, s1, e.from, rx, e.pdu, e.now, e.nonce);
      }
    }
  }

  /** After every run, a live session is reached at the source of the latest event that spoke for it. */
  lemma {:induction false} LastSpeakerWins(cfg: Config, run: seq<Event>, tag: Tag)
    requires GoodRun(cfg, run) && tag in After(cfg, run).sessions
    ensures After(cfg, run).sessions[tag].transport == LastSpoke(cfg, run, tag) != None
  {
    if run != [] {
      var before, e := run[..|run| - 1], run[|run| - 1];
      RunKeeps(cfg, before);
      TransportStep(cfg, After(cfg, before), e, tag);
      if !Speaks(cfg, After(cfg, before), e, tag) {
        LastSpeakerWins(cfg, before, tag);
      }
    }
  }

  // ---- Membership is a fold ---------------------------------------------------------------------------

  /** The switch tells the session `tag` that it created or joined channel `c`. */
  predicate Enters(cfg: Config, s: State, e: Event, tag: Tag, c: nat) {
    && e.Receive? && !e.pdu.message.IdentityResponse? && SpeakerOf(s, e) == Some(tag)
    && Step(cfg, s, e).1.Reply?
    && var reply := Step(cfg, s, e).1.pdu.message;
    && (reply.CreateResponse? || reply.JoinResponse?) && reply.code == OK && reply.channelId == c
  }

  /** The switch confirms to the session `tag` that it left channel `c`. */
  predicate Exits(cfg: Config, s: State, e: Event, tag: Tag, c: nat) {
    && e.Receive? && e.pdu.message.LeaveRequest? && e.pdu.message.channelId == c && SpeakerOf(s, e) == Some(tag)
    && Step(cfg, s, e).1.Reply? && Step(cfg, s, e).1.pdu.message.LeaveResponse?
  }

  predicate Destroyed(s: State, e: Event, tag: Tag) {
    e.Forget? && e.from in s.clients && s.clients[e.from].session == Some(tag)
  }

  predicate InChannel(s: State, tag: Tag, c: nat) {
    c in s.channels && tag in s.channels[c].members
  }

  /** Membership as the history of answers tells it: in since the latest entry, unless it left or was destroyed. */
  ghost function MemberByHistory(cfg: Config, run: seq<Event>, tag: Tag, c: nat): bool {
    if run == [] then false
    else
      var before, e := run[..|run| - 1], run[|run| - 1];
      var s := After(cfg, before);
      if Enters(cfg, s, e, tag, c) then true
      else if Exits(cfg, s, e, tag, c) || Destroyed(s, e, tag) then false
      else MemberByHistory(cfg, before, tag, c)
  }

  predicate EntersBy(out: Output, c: nat) {
    && out.Reply? && (out.pdu.message.CreateResponse? || out.pdu.message.JoinResponse?)
    && out.pdu.message.code == OK && out.pdu.message.channelId == c
  }

  predicate ExitsBy(out: Output) {
    out.Reply? && out.pdu.message.LeaveResponse?
  }

  /** Membership after the handler of `sid` ran: the answer decides for `sid`, nothing changes for others. */
  ghost predicate MembershipFollows(s: State, s': State, out: Output, sid: Tag, m: Message) {
    forall tag, c :: InChannel(s', tag, c) <==>
      if tag == sid && EntersBy(out, c) then true
      else if tag == sid && ExitsBy(out) && m.LeaveRequest? && m.channelId == c then false
      else InChannel(s, tag, c)
  }

  lemma CreateMembership(cfg: Config, s: State, t: Transport, sid: Tag, m: Message, now: nat)
    requires Inv(cfg, s) && sid in s.sessions && t in s.clients && m.CreateRequest?
    ensures MembershipFollows(s, HandleCreate(cfg, s, t, sid, m, now).0, HandleCreate(cfg, s, t, sid, m, now).1, sid, m)
  {
  }

  lemma JoinMembership(cfg: Config, s: State, t: Transport, sid: Tag, m: Message, now: nat)
    requires Inv(cfg, s) && sid in s.sessions && t in s.clients && m.JoinRequest?
    ensures MembershipFollows(s, HandleJoin(cfg, s, t, sid, m, now).0, HandleJoin(cfg, s, t, sid, m, now).1, sid, m)
  {
  }

  lemma LeaveMembership(cfg: Config, s: State, t: Transport, sid: Tag, pdu: Pdu, now: nat)
    requires Inv(cfg, s) && sid in s.sessions && t in s.clients && pdu.message.LeaveRequest?
    ensures MembershipFollows(s, HandleLeave(cfg, s, t, sid, pdu, now).0, HandleLeave(cfg, s, t, sid, pdu, now).1, sid,
              pdu.message)
  {
  }

  lemma StreamMembership(cfg: Config, s: State, t: Transport, sid: Tag, pdu: Pdu, now: nat, n: Nonce)
    requires Inv(cfg, s) && sid in s.sessions && t in s.clients && pdu.message.StreamData?
    ensures MembershipFollows(s, HandleStream(cfg, s, t, sid, pdu, now, n).0,
              HandleStream(cfg, s, t, sid, pdu, now, n).1, sid, pdu.message)
  {
    var cid := pdu.message.channelId;
    if cid in s.channels {
      var c := s.channels[cid];
      assert Prune(s, c, sid) == c;
      assert (set m | m in c.members && (m == sid || !Stale(s, m))) == c.members;
    }
  }

  lemma DispatchMembership(cfg: Config, s: State, t: Transport, rx: Option<Tag>, pdu: Pdu, now: nat, n: Nonce)
    requires Inv(cfg, s) && t in s.clients && !pdu.message.IdentityResponse?
    ensures var (s', out) := Dispatch(cfg, s, t, rx, pdu, now, n);
      if Authenticated(s, rx) then MembershipFollows(s, s', out, rx.value, pdu.message)
      else s'.channels == s.channels && (forall c :: !EntersBy(out, c)) && !ExitsBy(out)
  {
    if Authenticated(s, rx) {
      match pdu.message
      case CreateRequest(_, _, _, _) => CreateMembership(cfg, s, t, rx.value, pdu.message, now);
      case JoinRequest(_, _, _) => JoinMembership(cfg, s, t, rx.value, pdu.message, now);
      case LeaveRequest(_, _) => LeaveMembership(cfg, s, t, rx.value, pdu, now);
      case StreamData(_, _, _, _) => StreamMembership(cfg, s, t, rx.value, pdu, now, n);
      case _ =>
    }
  }

  /** What reaches the handler of a PDU that is not an identity response and names no unknown session. */
  lemma Dispatched(cfg: Config, s: State, e: Event) returns (s2: State)
    requires Inv(cfg, s) && e.Receive? && !e.pdu.message.IdentityResponse?
    requires e.pdu.session.Some? ==> e.pdu.session.value in s.sessions
    ensures Step(cfg, s, e) == Dispatch(cfg, s2, e.from, SpeakerOf(s, e), e.pdu, e.now, e.nonce)
    ensures Inv(cfg, s2) && s2.channels == s.channels && e.from in s2.clients
    ensures s2.sessions.Keys == s.sessions.Keys && s2.names == s.names && s2.nextChannelId == s.nextChannelId
    ensures SpeakerOf(s, e).Some? ==> Authenticated(s2, SpeakerOf(s, e))
    ensures s2.clients[e.from].lastIgnoreUs == ClientAt(s, e.from).lastIgnoreUs
  {
    s2 := Touch(s, e.from);
    if e.pdu.session.Some? {
      RebindKeeps(cfg, s2, e.pdu.session.value, e.from);
      s2 := Rebind(s2, e.pdu.session.value, e.from);
    }
  }

  /** A request by tag does not end a session. */
  lemma TagStays(cfg: Config, s: State, e: Event, tag: Tag)
    requires Inv(cfg, s) && e.Receive? && !e.pdu.message.IdentityResponse? && tag in s.sessions
    requires e.pdu.session.Some? && e.pdu.session.value in s.sessions
    ensures tag in Step(cfg, s, e).0.sessions
  {
    hide Step, Dispatch, Inv;
    var s2 := Dispatched(cfg, s, e);
    DispatchSessions(cfg, s2, e.from, SpeakerOf(s, e), e.pdu, e.now, e.nonce);
  }

  /**
   * The sender's tag travels with what it sends: a relay of a tagged packet carries the tag to every recipient, and
   * whoever then sends a request under that tag becomes the place where the sender is reached.
   */
  lemma RelayedTagMovesSender(cfg: Config, s: State, e: Event, e': Event)
    requires Inv(cfg, s) && GoodEvent(cfg, e) && MayRelay(cfg, s, e) && e.pdu.session.Some?
    requires e'.Receive? && !e'.pdu.message.IdentityResponse? && e'.pdu.session == Step(cfg, s, e).1.pdu.session
    ensures var (tag, after) := (SpeakerOf(s, e).value, Step(cfg, Step(cfg, s, e).0, e').0);
      tag in after.sessions && after.sessions[tag].transport == Some(e'.from)
  {
    hide Step, Inv;
    var tag := SpeakerOf(s, e).value;
    var s' := Step(cfg, s, e).0;
    ExactRelay(cfg, s, e);
    SwitchStaysSound(cfg, s, e);
    TagStays(cfg, s, e, tag);
    TagStays(cfg, s', e', tag);
    SoundIsConsistent(cfg, s');
    TransportStep(cfg, s', e', tag);
  }

  lemma MembershipUntouched(cfg: Config, s: State, e: Event)
    requires Inv(cfg, s)
    requires e.Receive? && (e.pdu.message.IdentityResponse?
      || (e.pdu.session.Some? && e.pdu.session.value !in s.sessions))
    ensures Step(cfg, s, e).0.channels == s.channels
  {
    if e.pdu.message.IdentityResponse? {
      if other :| Accepts(cfg, s, e, other) {
        AcceptedStep(cfg, s, e, other);
      } else {
        RejectedStep(cfg, s, e);
      }
    }
  }

  lemma MembershipStep(cfg: Config, s: State, e: Event, tag: Tag, c: nat)
    requires Inv(cfg, s)
    ensures InChannel(Step(cfg, s, e).0, tag, c) <==>
      if Enters(cfg, s, e, tag, c) then true
      else if Exits(cfg, s, e, tag, c) || Destroyed(s, e, tag) then false
      else InChannel(s, tag, c)
  {
    if e.Forget? {
    } else if e.pdu.message.IdentityResponse? || (e.pdu.session.Some? && e.pdu.session.value !in s.sessions) {
      MembershipUntouched(cfg, s, e);
    } else {
      var s2 := Dispatched(cfg, s, e);
      DispatchMembership(cfg, s2, e.from, SpeakerOf(s, e), e.pdu, e.now, e.nonce);
    }
  }

  /** After every run a tag is in a channel exactly when its answers say so. */
  lemma {:induction false} MembershipIsAFold(cfg: Config, run: seq<Event>, tag: Tag, c: nat)
    requires GoodRun(cfg, run)
    ensures InChannel(After(cfg, run), tag, c) <==> MemberByHistory(cfg, run, tag, c)
  {
    if run != [] {
      var before, e := run[..|run| - 1], run[|run| - 1];
      RunKeeps(cfg, before);
      MembershipIsAFold(cfg, before, tag, c);
      MembershipStep(cfg, After(cfg, before), e, tag, c);
    }
  }
}
