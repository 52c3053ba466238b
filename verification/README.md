# RTMS verification

A Dafny model of the RTMS real-time messaging system, with proofs. RTMS has a switch that relays stream packets
between logged-in sessions through named channels, browser clients, a packed wire codec (CUM) and framings for video.

To verify, run `dafny verify dfyconfig.toml`.

## What is modelled

- **The switch** (`SwitchModel.dfy`): its four tables as values, and one step per received datagram or forgotten
  transport. Clock readings, random challenges, tags and member ids are inputs of a step; freshness of tags is an
  explicit assumption (`FreshTags`) of the results that need it. `SwitchInvariant`, `SwitchLogin`, `SwitchRelay`,
  `SwitchHistory`, `SwitchAnswers`, `RateLimiter` and `LazyCleanup` prove what holds in every step and in every run;
  `SwitchOwners` says for whom an untagged packet speaks, `RateVerdicts` which packets are denied, and `LostRoute` is a
  run that loses a route.
- **The switch as objects** (`SwitchObjects.dfy`): sessions and channels are heap objects shared by pointer between
  the tables and updated in place, as in the C++ code; every method is proved to do to the object graph what
  `SwitchModel` does to values, including the relay loop that erases members while it sends.
- **Clients and the network** (`Client.dfy`, `Network.dfy`, `Deliveries.dfy`, `RequestIds.dfy`): request ids, the
  pending table, the fallback from join to create, and the composition of switch, clients and strangers over a network
  that loses, duplicates and reorders.
- **SHA-256, HMAC and the identity check** (`Bits.dfy`, `Sha256.dfy`, `Sha256Constants.dfy`, `Identity.dfy`,
  `SwitchIdentity.dfy`) against FIPS 180-4 and RFC 2104.
- **The codec** (`Cum.dfy`, `PackedSchema.dfy`, `PackedCodec.dfy`, `RtmsCodec.dfy`, `RtmsLayout.dfy`): the runtime, the
  generated encoder and decoder of every schema as functions and as methods over a byte buffer, and the RTMS schema.
- **Media** (`Framing.dfy`, `H264Fragments.dfy`, `AnnexB.dfy`, `StreamReceiver.dfy`, `CutStreams.dfy`,
  `LengthPrefixed.dfy`, `VideoStreams.dfy`): fragmentation and reassembly, start-code splitting and the receiver in
  front of it, length-prefixed streams and datagrams.
- **Loss accounting** (`LossAccounting.dfy`) of the flow consumer.

`Protocol.dfy` holds the messages. Bytes are integers below 256, and machine words are integers with the wrap-around
written out.

## Where the code does not keep what one would expect

Each of these is a proved statement about the code as it is, with the exact condition where there is one.

- Two logins can share a transport. When that transport is forgotten, the session its context no longer points to
  stays live without a route, and relays do not reach it (`LiveMemberWithoutRoute`; the condition is
  `ForgetKeepsRoutesIff`).
- A relay forwards the session tag its sender used, and a tag is all that a request needs to speak for a session
  (`RelayedTagMovesSender`).
- For a known user with an empty password the browser signs with "password" instead, and is accepted only if the two
  HMACs coincide (`BrowserLogsIn`).
- A client that reuses a request id, after 65535 requests, can take a late answer for a new request
  (`IdReuseMisleads`).
- A collection of exactly 256 or 65536 elements at that capacity gets the count 0 (`AllCountsSurvive`); text with a NUL
  is cut at it (`RoundTripExactly`); the generator's own u64 loses the upper half (`LossyU64`).
- A video unit of more than 65535 fragments is never put together (`FragmentedLoopback`).
- Length-prefixed units of 2^31 bytes or more end the list (`AvccRoundTrip`); a payload that ends in an odd number of
  zeros keeps the final emulation prevention byte (`ProtectAllRoundTrip`).
- A slice of a byte stream that has a start code among its first 33 positions is parsed as a whole buffer, so a cut
  within a unit truncates it: as long as no slice looks length-prefixed, the units of a stream of good units come out
  exactly when no cut lies within a unit or within 00 00 01 (`IntactCut`, `CutUnitIsTruncated`). Slices that are taken
  for parts of a stream lose the units that end before the first start code of one slice (`IntactStream`,
  `CutStartCodeIsLost`).
- A unit after a short start code can look length-prefixed and lose its header byte (`OneUnitSlice`,
  `HeaderReadAsLength`).
- A slice of a length-prefixed blob that happens to look like a datagram never reaches the framing, and the blob is lost
  (`BlobIsLost`; the condition is `BlobsArrive`).
- Stale packets make missing - out_of_order too small by their number (`MissingIsExact`).
- interface/callflow.md says that session destruction may be cleaned up lazily; the code does both, and
  `LazyRefinesEager` shows that no datagram tells the difference.

## Model

| member | source | states |
|---|---|---|
| SwitchInvariant.ChallengeKeeps | switch/src/core/rtms_switch.cpp:336-369 | a new challenge, with its 16-bit request id, keeps the whole invariant |
| SwitchInvariant.RebindKeeps | switch/src/core/rtms_switch.cpp:272-291 | moving a session to another transport keeps the whole invariant, the set of sessions and the channels, and binds the session there |
| SwitchInvariant.LogInKeeps | switch/src/core/rtms_switch.cpp:447-477 | an accepted login, with eviction of the former transport, keeps the invariant even when the transport already belonged to another session |
| SwitchInvariant.IdentityKeeps | switch/src/core/rtms_switch.cpp:400-480 | every outcome of an identity response keeps the invariant |
| SwitchInvariant.CreateKeeps | switch/src/core/rtms_switch.cpp:482-537 | creating a channel keeps names and ids inverse to each other, ids below the next one, and every non-zero shared cap respected |
| SwitchInvariant.JoinKeeps | switch/src/core/rtms_switch.cpp:539-622 | joining keeps the invariant and adds live members only |
| SwitchInvariant.LeaveKeeps | switch/src/core/rtms_switch.cpp:624-671 | leaving keeps the invariant |
| SwitchInvariant.StreamKeeps | switch/src/core/rtms_switch.cpp:673-782 | a stream packet, relayed or refused, keeps the invariant |
| SwitchInvariant.ForgetKeeps | switch/src/core/rtms_switch.cpp:371-382 | forgetting a transport keeps the invariant: no member and no context is left with the deleted session |
| SwitchInvariant.StepKeeps | switch/src/core/rtms_switch.cpp:784-840 | every step, with eager or lazy cleanup, keeps the joint invariant of contexts, sessions, channels, names, pending challenges and limits |
| SwitchInvariant.RunKeeps | switch/src/core/rtms_switch.cpp:784-840 | the joint invariant holds after every run |
| SwitchLogin.AcceptedStep | switch/src/core/rtms_switch.cpp:447-480 | what an accepted identity response does, completely, and that it is not answered |
| SwitchLogin.RejectedStep | switch/src/core/rtms_switch.cpp:400-446 | an identity response that is not accepted only leads to a new challenge |
| SwitchLogin.RejectionReasons | switch/src/core/rtms_switch.cpp:409-458 | which reason the new challenge gives: a failure for a missing name, a wrong tag or a wrong HMAC; unavailable for an unknown challenge, a missing store or a tag in use by another user |
| SwitchLogin.SessionAppears | switch/src/core/rtms_switch.cpp:400-480 | a session appears in a step if and only if the step answers the challenge pending on that very transport with its request id, tag and HMAC; its user, transport and member id are those of the answer |
| SwitchLogin.SessionKeepsIdentity | switch/src/core/session_manager.cpp:18-40 | no step changes username, tag or member id of a session that stays |
| SwitchLogin.TagsStayApart | switch/src/core/rtms_switch.cpp:336-369 | with fresh tags, in every run the pending tags are issued, unused and pairwise different |
| SwitchLogin.AcceptedAtMostOnce | switch/src/core/rtms_switch.cpp:412-446 | with fresh tags one tag, hence one identity response, is accepted at most once in any run, whatever is replayed, from any transport, also after request ids wrap round |
| SwitchLogin.IdentityStep | switch/src/core/session_manager.cpp:18-45 | with fresh tags a used tag that is live after a step was live before it, for the same user |
| SwitchLogin.IdentityIsForever | switch/src/core/session_manager.cpp:18-45 | over a whole run the user and member id of a tag never change, and a destroyed session never returns |
| SwitchRelay.ExactRelay | switch/src/core/rtms_switch.cpp:673-782 | a step relays if and only if the checks pass; then the relayed PDU is the received one with the sender's own name and member id, each other routed member is addressed once at its own transport, the sender and outsiders never, and no payload exceeds a non-zero limit |
| SwitchRelay.OnlyStreamsRelay | switch/src/core/rtms_switch.cpp:784-840 | nothing but a stream packet is ever relayed |
| SwitchRelay.RelayReachesAll | switch/src/core/rtms_switch.cpp:765-781 | when every session has a route, a relay addresses exactly the members other than the sender |
| SwitchRelay.ReceiveKeepsRoutes | switch/src/core/rtms_switch.cpp:784-840 | no datagram takes a route away, given that no accepted tag is already live |
| SwitchRelay.ForgetKeepsRoutesIff | switch/src/core/rtms_switch.cpp:371-382 | forgetting a transport keeps every route if and only if no second session is bound to it |
| SwitchRelay.RunKeepsRoutes | switch/src/core/rtms_switch.cpp:371-382 | with fresh tags and no shared transport forgotten, every session has a route after every run |
| LostRoute.LiveMemberWithoutRoute | switch/src/core/rtms_switch.cpp:371-382 | a concrete run with three logins, two of them on one transport that is then forgotten, a create and a join, after which a live member of the channel is missing among the recipients of a relay |
| SwitchAnswers.StrangersAreChallenged | switch/src/core/rtms_switch.cpp:784-840 | a request without a live session is answered with a challenge, which is then the pending one of that transport, and no session or channel changes |
| SwitchAnswers.MergedIsTightest | switch/src/core/rtms_switch.cpp:215-231 | a merged limit is the tightest of the requested and the shared one, where zero means none |
| SwitchAnswers.CreateAnswered | switch/src/core/rtms_switch.cpp:482-537 | a create is granted if and only if the name is free; then exactly one channel is added, with the requested metadata, the tightest limits and the creator as its only member |
| SwitchAnswers.JoinAnswered | switch/src/core/rtms_switch.cpp:539-622 | a join is granted if and only if a channel of that name exists with that metadata, and only then it adds the speaker; otherwise the code says which of the two is missing |
| SwitchAnswers.LeaveAnswered | switch/src/core/rtms_switch.cpp:624-671 | a member gets its leave confirmed and is none any more; others are due an ignored indication and nothing changes |
| SwitchAnswers.HeartbeatAnswered | switch/src/core/rtms_switch.cpp:384-398 | the heartbeat of a session is echoed to its source, with the version it came with |
| SwitchAnswers.StreamRefusalAnswered | switch/src/core/rtms_switch.cpp:673-733 | a packet that is not relayed is due an ignored indication for an unknown channel or a missing membership, and is dropped in silence for anything else |
| SwitchAnswers.IgnoredWhenDue | switch/src/core/rtms_switch.cpp:183-213 | after every run an ignored indication that is due is sent unless its transport got one less than a cooldown ago |
| SwitchAnswers.ChallengesAreNumbered | switch/src/core/rtms_switch.cpp:336-369 | over a run challenges are numbered in turn, 1 to 65535 and round again, over all transports |
| SwitchAnswers.ChallengeLengthIsClamped | switch/src/core/rtms_switch.cpp:336-345 | a challenge has the configured length, cut to 8 and 2048 |
| SwitchAnswers.IgnoredOncePerCooldown | switch/src/core/rtms_switch.cpp:183-213 | over a run a transport whose context lives on gets at most one ignored indication per cooldown |
| SwitchHistory.TransportStep | switch/src/core/rtms_switch.cpp:272-291 | a step moves a session to the source of the event if and only if the event speaks for it |
| SwitchHistory.LastSpeakerWins | switch/src/core/rtms_switch.cpp:809-832 | after every run a live session is reached at the source of the latest event that logged it in or carried its tag |
| SwitchHistory.RelayedTagMovesSender | switch/src/core/rtms_switch.cpp:765-781 | a relayed packet carries the tag its sender put on it to every recipient, and whoever sends a request under that tag moves the sender's transport to itself |
| SwitchOwners.OwnerStep | switch/src/core/rtms_switch.cpp:272-291 | the session a context points to changes in two ways only: a login accepted there sets it, and an owner that speaks or logs in elsewhere, or a forgotten transport, clears it |
| SwitchOwners.ContextStep | switch/src/core/rtms_switch.cpp:460-480 | a context comes with the first datagram and goes exactly when its owner is forgotten or evicted |
| SwitchOwners.LiveStep | switch/src/core/rtms_switch.cpp:371-382 | a session comes exactly with an accepted login and goes exactly with a forgotten transport that it owns |
| SwitchOwners.OwnerIsAFold | switch/src/core/rtms_switch.cpp:809-832 | after every run the owner of a context is the fold of logins, departures and forgettings over the events |
| SwitchOwners.LatestLoginOwns | switch/src/core/rtms_switch.cpp:809-832 | a tag owns a context after a run if and only if it is that of the latest login there, and has since neither spoken elsewhere nor been forgotten |
| SwitchOwners.LiveIsAFold | switch/src/core/session_manager.cpp:18-45 | after every run the live sessions are exactly those logged in and not forgotten since |
| SwitchOwners.UntaggedSpeaksForOwner | switch/src/core/rtms_switch.cpp:818-832 | after every run an untagged packet speaks for the owner of its transport by that fold |
| SwitchOwners.UntaggedAnswered | switch/src/core/rtms_switch.cpp:784-840 | an untagged request is answered with a challenge exactly when nobody owns its transport; otherwise it is the owner who is echoed, becomes a member, or whose name and member id are relayed |
| SwitchHistory.MembershipStep | switch/src/core/rtms_switch.cpp:482-671 | who is in which channel after a step, read off the answer the switch gave |
| SwitchHistory.MembershipIsAFold | switch/src/core/rtms_switch.cpp:482-671 | after every run a session is in a channel if and only if its latest successful create, join or leave there was not a leave and it was not destroyed since |
| RateLimiter.WindowFacts | switch/src/core/rtms_switch.cpp:242-264 | the window counts at most the limit and does not start after the last call |
| RateLimiter.FewerThanInInterval | switch/src/core/rtms_switch.cpp:242-264 | with a positive non-decreasing clock fewer than (k+1)L packets are admitted in any half-open interval of k seconds |
| RateLimiter.BoundIsSharp | switch/src/core/rtms_switch.cpp:242-264 | for every limit L and every k there is a schedule with exactly (k+1)L - 1 admissions in k seconds if and only if k is at least 1 or L is 1 |
| RateLimiter.WindowInRun | switch/src/core/rtms_switch.cpp:735-745 | inside the switch the window of a channel is what the limiter makes of exactly the packets that passed the earlier checks |
| RateLimiter.SwitchRespectsRate | switch/src/core/rtms_switch.cpp:735-745 | over a whole run of the switch a channel relays fewer than (k+1)L packets in any half-open interval of k seconds |
| RateVerdicts.WindowIsLatest | switch/src/core/rtms_switch.cpp:242-264 | the window starts at the latest call that was admitted as first or a second after the opening before it, and counts the calls admitted since |
| RateVerdicts.DeniedOnlyWhenFull | switch/src/core/rtms_switch.cpp:242-264 | a call is denied if and only if the limit was admitted since the latest opening and that is less than a second ago |
| RateVerdicts.WindowIsFilled | switch/src/core/rtms_switch.cpp:242-264 | of the calls since the latest opening exactly the first L are admitted, and all lie within a second |
| RateVerdicts.RelayedUnlessFull | switch/src/core/rtms_switch.cpp:735-763 | in every run of the switch a packet that passes all other checks is relayed if and only if the latest window of its channel is not full |
| LazyCleanup.TrimStep | interface/callflow.md:93 | one step of the lazily cleaning switch, seen through the eager view, is the step of the eager one with the same datagrams |
| LazyCleanup.LazyIsInStep | switch/src/core/rtms_switch.cpp:293-311 | in every run the members of the eager switch are the live members of the lazy one |
| LazyCleanup.LazyRefinesEager | interface/callflow.md:93 | if tags are never re-issued, lazy and eager cleanup send the same datagrams in every run |
| SwitchObjects.SessionManager.CreateSession | switch/src/core/session_manager.cpp:18-40 | updates a session in place when the tag is known, and otherwise adds a new object, with exactly the fields given |
| SwitchObjects.SessionManager.DeleteSession | switch/src/core/session_manager.cpp:42-45 | erases one tag and nothing else |
| SwitchObjects.ChannelContext.StreamRateAllow | switch/src/core/rtms_switch.cpp:242-264 | the in-place limiter computes the verdict and the window of the specification |
| SwitchObjects.RtmsSwitch.constructor | switch/src/core/rtms_switch.cpp:73-77 | the empty switch satisfies the invariant |
| SwitchObjects.RtmsSwitch.SendEncoded | switch/src/core/rtms_switch.cpp:31-57 | appends the datagram exactly when the transport has a context and the PDU fits the buffer, and says which |
| SwitchObjects.RtmsSwitch.AllocateServerReqId | switch/src/core/rtms_switch.cpp:326-334 | request ids run from 1 to 65535 and round again |
| SwitchObjects.RtmsSwitch.SendIdentityRequest | switch/src/core/rtms_switch.cpp:336-369 | the object graph takes the step of the challenge specification |
| SwitchObjects.RtmsSwitch.TrySendIgnore | switch/src/core/rtms_switch.cpp:183-213 | the ignored indication is sent and its time noted exactly as specified, with the cooldown |
| SwitchObjects.RtmsSwitch.RebindSessionToTransport | switch/src/core/rtms_switch.cpp:272-291 | through the shared session object, only the session's key and the former context change |
| SwitchObjects.RtmsSwitch.HandleIdentityResponse | switch/src/core/rtms_switch.cpp:400-480 | all branches of the login handler equal the specification |
| SwitchObjects.RtmsSwitch.PruneChannelMemberIfStale | switch/src/core/rtms_switch.cpp:293-300 | only a session without object or transport leaves the member set |
| SwitchObjects.RtmsSwitch.HandleCreateRequest | switch/src/core/rtms_switch.cpp:482-537 | one channel object enters both indexes, or the request is refused |
| SwitchObjects.RtmsSwitch.HandleJoinRequest | switch/src/core/rtms_switch.cpp:539-622 | join through the name index equals the specification for every answer code |
| SwitchObjects.RtmsSwitch.HandleLeaveRequest | switch/src/core/rtms_switch.cpp:624-671 | leave equals the specification |
| SwitchObjects.RtmsSwitch.RelayToMembers | switch/src/core/rtms_switch.cpp:765-781 | the loop that erases while it goes through the members sends one datagram per recipient, in some order, and keeps exactly the live members |
| SwitchObjects.RtmsSwitch.HandleStreamData | switch/src/core/rtms_switch.cpp:673-782 | the stream handler equals the specification |
| SwitchObjects.RtmsSwitch.HandleHeartbeat | switch/src/core/rtms_switch.cpp:384-398 | a heartbeat of a session is echoed and changes nothing |
| SwitchObjects.RtmsSwitch.OnMessage | switch/src/core/rtms_switch.cpp:784-840 | the dispatch over session tag and message equals the specification |
| SwitchObjects.RtmsSwitch.Receive | switch/src/core/rtms_switch.cpp:102-142 | one received datagram takes the object graph where the specification step goes, keeps the invariant and logs exactly its datagrams |
| SwitchObjects.RtmsSwitch.RemoveSessionFromAllChannels | switch/src/core/rtms_switch.cpp:302-311 | the loop over the channel objects takes the tag out of all of them and changes nothing else |
| SwitchObjects.RtmsSwitch.ForgetTransportSessions | switch/src/core/rtms_switch.cpp:371-382 | forgetting a transport equals the specification and keeps the invariant |
| RtmsClients.RtmsClient.NextReq | web_sample_v2/RTMSClient.js:156-160 | request ids run from 1 to 65535 and round again |
| RtmsClients.RtmsClient.StartRequest | web_sample_v2/RTMSClient.js:305-318 | a request is remembered under its id and sent if the socket is open |
| RtmsClients.RtmsClient.FallBackToCreate | web_sample_v2/RTMSClient.js:323-352 | a rejected join continues as a create of the same name and metadata under a new id |
| RtmsClients.RtmsClient.TeardownSession | web_sample_v2/RTMSClient.js:273-285 | every pending promise is rejected, handles and session are dropped |
| RtmsClients.RtmsClient.ConnectSocket | web_sample_v2/RTMSClient.js:241-250 | a new connection tears the old one down and starts with a heartbeat without session |
| RtmsClients.RtmsClient.OnRawBinary | web_sample_v2/RTMSClient.js:369-500 | the object reacts to each message as the value specification says |
| RtmsClients.RtmsClient.Settle | web_sample_v2/RTMSClient.js:453-488 | create and join responses settle the pending request of that id, whatever its kind |
| Network.StepKeepsChannel | switch/src/core/rtms_switch.cpp:502-536 | no step of the switch changes the name or metadata of an existing channel |
| Network.StepAnswers | switch/src/core/rtms_switch.cpp:482-671 | an answer goes to the asking transport, repeats its request id, and a positive one names a channel with exactly the requested name and metadata |
| Network.SwitchKeeps | switch/src/core/rtms_switch.cpp:784-840 | a switch step keeps the invariant of the composed system |
| Network.ActKeeps | web_sample_v2/RTMSClient.js:453-488 | whatever a client does, its ids stay in step, and before they wrap round its table and handles stay truthful |
| Network.ClientKeeps | web_sample_v2/RTMSClient.js:305-363 | a client step keeps the invariant of the composed system, for itself and for all others |
| Network.NextKeeps | web_sample_v2/RTMSClient.js:369-500 | every action of switch, clients, network and strangers keeps the invariant |
| Network.HandlesAlwaysMatch | web_sample_v2/RTMSClient.js:305-363 | over a network that loses, duplicates and reorders, every handle of a client that made at most 65535 requests names a channel with that id, name and metadata |
| Network.ChannelsAreForever | switch/src/core/rtms_switch.cpp:502-536 | the channel a handle names keeps its name and metadata in every later state |
| Network.DeliveredJoinIsGranted | web_sample_v2/RTMSClient.js:305-323 | a join of a known session for an existing channel with that metadata, once delivered both ways, ends in a handle with the id, name, metadata and limits of the channel |
| Deliveries.DeliveredCreateIsGranted | web_sample_v2/RTMSClient.js:305-350 | asking for a free name with all datagrams delivered: the join is refused, the fallback creates, and the client ends with a handle of the new channel, which has that name and metadata and its session as only member |
| Deliveries.DeliveredLeaveIsDone | web_sample_v2/RTMSClient.js:215-233 | leaving with both datagrams delivered removes that handle and that membership and no other |
| Deliveries.LostConnectionLeavesNothing | web_sample_v2/RTMSClient.js:265-303 | after any run that ends with closing, reconnecting or a failed login the client has no handle, session or pending request, and its pending joins are rejected |
| Deliveries.WrongPasswordDisconnects | web_sample_v2/RTMSClient.js:400-446 | an answer that does not verify, with all datagrams delivered, ends with the client disconnected and no session made |
| Deliveries.RefusedJoinIsTriedAsCreate | web_sample_v2/RTMSClient.js:305-350 | a join that times out or is refused for any reason is no longer pending and is sent as a create under the next id |
| Deliveries.ResponseSettles | web_sample_v2/RTMSClient.js:453-505 | a response settles the pending request of its id once, with all effects on handles and promises, and changes nothing without one |
| Deliveries.NothingToSay | web_sample_v2/RTMSClient.js:400-446 | nothing is sent on a closed connection, nor an answer without a username |
| RequestIds.AskAgainCounts | web_sample_v2/RTMSClient.js:156-160 | after n requests the next id is 1 + n mod 65535 |
| RequestIds.IdReuseMisleads | web_sample_v2/RTMSClient.js:453-488 | the bound is sharp: for every client with valid credentials, from the start, a run of the composed system exists whose request 65536 is answered by a late answer to request 1, and which ends with a handle that does not match its channel |
| Bits.ZeroTests | switch/src/utils/hmac_sha256.cpp:239-251 | or-ing keeps every set bit and xor sees every difference |
| Bits.OrDisjoint | switch/src/utils/hmac_sha256.cpp:92-97 | or-ing numbers whose bits do not overlap adds them |
| Sha256Spec.PackedIsBigEndian | switch/src/utils/hmac_sha256.cpp:91-98 | the shift-and-or packing of four bytes is their big-endian word |
| Sha256Spec.ZeroCountIsLeast | switch/src/utils/hmac_sha256.cpp:158-162 | the padding zeros of section 5.1.1 of FIPS 180-4 are as few as possible, so the padding loop ends there |
| Sha256Spec.BlocksOfPrefix | switch/src/utils/hmac_sha256.cpp:136-152 | compressed blocks do not depend on what follows |
| Sha256.Sha256Context.FillSchedule | switch/src/utils/hmac_sha256.cpp:89-102 | the in-place schedule is W of section 6.2.2 |
| Sha256.Sha256Context.Turn | switch/src/utils/hmac_sha256.cpp:112-124 | the eight in-place assignments are one round of section 6.2.2 |
| Sha256.Sha256Context.CompressBlock | switch/src/utils/hmac_sha256.cpp:87-134 | the round loop computes the next intermediate hash value of section 6.2.2 |
| Sha256.Sha256Context.Consume | switch/src/utils/hmac_sha256.cpp:136-152 | buffering keeps: whole blocks are compressed, the rest is in the buffer, whatever the cut |
| Sha256.Sha256Context.Finish | switch/src/utils/hmac_sha256.cpp:154-183 | the stream is padded exactly as in section 5.1.1 and the digest read off |
| Sha256.Sha256Hash | switch/src/utils/hmac_sha256.cpp:186-194 | equals SHA-256 of FIPS 180-4 for every message below 2^61 bytes |
| Sha256.CutsDoNotMatter | switch/src/utils/hmac_sha256.cpp:136-152 | two contexts fed the same bytes in different cuts have the same hash value, fill level and buffered bytes |
| Sha256.HashInPieces | switch/src/utils/hmac_sha256.cpp:136-183 | a message consumed in any pieces has the digest of the joined message |
| Sha256Constants.InitialHashValue | switch/src/utils/hmac_sha256.cpp:68-75 | the initial hash value is the fractions of the square roots of the first eight primes |
| Sha256Constants.RoundConstants | switch/src/utils/hmac_sha256.cpp:17-25 | the round constants are the fractions of the cube roots of the first 64 primes |
| Identity.HmacSha256 | switch/src/utils/hmac_sha256.cpp:198-237 | equals HMAC of section 2 of RFC 2104 for empty, short and long keys |
| Identity.KeysAlike | switch/src/utils/hmac_sha256.cpp:198-212 | filling a key of at most a block with zeros does not matter, and a longer key is as good as its digest |
| Identity.DigestEquals | switch/src/utils/hmac_sha256.cpp:239-251 | the accumulating comparison is equality |
| Identity.IdentityManager.Extend | switch/src/core/identity_manager.cpp:15-46 | later rows win and rows without a username are skipped |
| Identity.LastRowWins | switch/src/core/identity_manager.cpp:15-46 | the password of a user is that of the last row with the name |
| Identity.OthersKeepTheirs | switch/src/core/identity_manager.cpp:15-46 | users without a row keep the password they had, and rows without a username give none |
| Identity.IdentityManager.VerifyIdentity | switch/src/core/identity_manager.cpp:64-95 | no empty challenge is accepted; a stranger is refused, or with guests let in accepted exactly with the HMAC under the bytes of "password"; a known user is accepted exactly with the HMAC under that user's password |
| Identity.BrowserLogsIn | web_sample_v2/RTMSClient.js:421-427 | the browser's answer is accepted for a known user if and only if the password is not empty, or its HMAC under the guest password coincides with the HMAC under the empty one |
| SwitchIdentity.OnlyHmacLogsIn | switch/src/core/identity_manager.cpp:64-95 | a session only ever appears for the HMAC of the pending challenge under that user's password |
| SwitchIdentity.VerifierAccepts | switch/src/core/identity_manager.cpp:64-95 | case by case what the verifier of the switch accepts from strangers, guests and known users |
| SwitchIdentity.OtherKeysFail | switch/src/core/identity_manager.cpp:64-95 | the HMAC under another key is accepted from a known user if and only if it coincides with that under the user's own |
| SwitchIdentity.StrangersStayOut | switch/src/core/identity_manager.cpp:77-80 | with guests off no response of a stranger makes or moves a session or changes the owner of a context |
| SwitchIdentity.OnlyKnownUsers | switch/src/core/identity_manager.cpp:77-80 | with guests off, in every run each live session belongs to a user of the store |
| SwitchIdentity.BrowserLoginCompletes | web_sample_v2/RTMSClient.js:415-446 | the browser's reply for a known user with a non-empty password logs in within that step |
| Cum.LittleEndianReadsBack | web_sample_v2/cum/cum.mjs:50-68 | reading undoes writing for numbers that fit |
| Cum.LittleEndianWritesBack | web_sample_v2/cum/cum.mjs:50-68 | writing undoes reading for every byte string |
| Cum.LittleEndianOctet | web_sample_v2/cum/cum.mjs:50-60 | octet i is the value divided by 256 to the i, modulo 256 |
| Cum.SignedSurvives | web_sample_v2/cum/cum.mjs:108-120 | an enum value survives if and only if it is a signed 32-bit number |
| Cum.LossyU64 | web_sample/scripts/cum_ast_to_js.py:162-190 | the generator's own u64 survives if and only if it is below 2^32 |
| Cum.CountSurvives | web_sample_v2/cum/cum.mjs:132-153 | a count survives its prefix if and only if it is below the span of the prefix and below 2^32 |
| Cum.AllCountsSurvive | web_sample_v2/cum/cum.mjs:19-26 | all counts up to a capacity survive if and only if the capacity is below 2^32 and neither 256 nor 65536 |
| Cum.MaskChecks | web_sample_v2/cum/cum.mjs:38-48 | the mask of a list of flags tells each flag back, and its spare bits are clear |
| Cum.MaskDetermined | web_sample_v2/cum/cum.mjs:38-48 | a mask is determined by what checkOptional finds in it |
| Cum.SetIsOneFlag | web_sample_v2/cum/cum.mjs:38-42 | setOptional sets one flag and leaves the others |
| PackedSchema.RoundTrip | web_sample/scripts/cum_ast_to_js.py:213-316 | for every schema: decoding an encoding gives the value back and leaves exactly the bytes after it |
| PackedSchema.DecodedIsFaithful | web_sample/scripts/cum_ast_to_js.py:408-493 | whatever the decoder returns is faithful (numbers in range, text without NUL, counts that their prefix can tell), so it survives the round trip if the encoder takes it at all |
| PackedSchema.RoundTripExactly | web_sample/scripts/cum_ast_to_js.py:213-493 | an encoded value survives if and only if it is faithful: numbers in range, no NUL in text, counts their prefix can tell |
| PackedSchema.PrefixFree | web_sample/scripts/cum_ast_to_js.py:213-493 | encodings of faithful values are injective and prefix-free |
| PackedSchema.Reencode | web_sample/scripts/cum_ast_to_js.py:408-493 | accepted bytes re-encode to exactly themselves if and only if spare mask bits are clear and static arrays full |
| PackedCodec.SetOptional | web_sample_v2/cum/cum.mjs:38-42 | the in-place or sets that flag in the mask array only |
| PackedCodec.BuildMask | web_sample/scripts/cum_ast_to_js.py:408-426 | the mask built flag by flag is the mask of the present optional fields |
| PackedCodec.PerCodecCtx.WriteLittleEndian | web_sample_v2/cum/cum.mjs:50-60 | the byte loop writes the little-endian form at the cursor, or nothing if it does not fit |
| PackedCodec.PerCodecCtx.EncodeCString | web_sample_v2/cum/cum.mjs:155-164 | Latin-1 text and its terminator are written, or the text is refused |
| PackedCodec.PerCodecCtx.ReadLittleEndian | web_sample_v2/cum/cum.mjs:62-68 | the byte loop reads the little-endian number at the cursor |
| PackedCodec.PerCodecCtx.DecodeCString | web_sample_v2/cum/cum.mjs:166-175 | reads up to the first NUL and stops after it |
| PackedCodec.PerCodecCtx.Encode | web_sample/scripts/cum_ast_to_js.py:213-493 | succeeds if and only if the encoding exists and fits, then writes exactly that range of the buffer |
| PackedCodec.PerCodecCtx.Decode | web_sample/scripts/cum_ast_to_js.py:213-493 | reads what the specification decodes and leaves the cursor right after it |
| RtmsCodec.PduFits | web_sample_v2/js/rtms_protocol.mjs:578-590 | which PDUs the encoder takes, into how many bytes, and which of them survive |
| RtmsCodec.PduRoundTrip | web_sample_v2/js/rtms_protocol.mjs:578-603 | encoding succeeds if and only if text is Latin-1, byte strings at most 2048 and tags 16 bytes; it writes the closed-form size; and exactly the PDUs with numbers in range and no NUL are decoded back |
| RtmsLayout.EncodingIsLayout | web_sample_v2/js/rtms_protocol.mjs:230-590 | every encodable PDU is written byte for byte in the order of rtms.cum: mask, version, timestamp, session, the literal number of the message and its fields with literal enumeration numbers |
| RtmsCodec.PdusArePrefixFree | web_sample_v2/js/rtms_protocol.mjs:578-603 | no datagram can be read as two PDUs or as a PDU and the beginning of another |
| RtmsCodec.EncodePdu | web_sample_v2/js/rtms_protocol.mjs:578-590 | at any offset it succeeds exactly when the PDU is encodable and its size fits, and writes that range only |
| RtmsCodec.DecodePdu | web_sample_v2/js/rtms_protocol.mjs:591-603 | at any offset it reads what the specification decodes |
| RtmsCodec.AcceptedReencodes | web_sample_v2/js/rtms_protocol.mjs:591-603 | an accepted datagram re-encodes to exactly the bytes consumed if and only if its masks are 0x00 or 0x80 and its sessions have 16 bytes |
| Framing.Be32ReadsBack | web_sample_v2/app.mjs:990-1005 | a big-endian field is read back modulo its width |
| H264Fragments.SdusFit | web_sample_v2/app.mjs:1568-1605 | every SDU has at most 1250 bytes, so the sender drops nothing |
| H264Fragments.BuildFragmentBody | web_sample_v2/app.mjs:990-1005 | the array filled by index is the header followed by the chunk |
| H264Fragments.Sender.Fanout | web_sample_v2/app.mjs:1568-1605 | a unit is sent as its list of SDUs under one number |
| H264Fragments.Receiver.OnH264Sdu | web_sample_v2/app.mjs:1205-1224 | the receiver object does what the specification says |
| H264Fragments.WholeOrFragment | web_sample_v2/app.mjs:42-45 | bodies that start below 80 hexadecimal or with FF are handed on whole, and fragments never are |
| H264Fragments.MalformedIsDropped | web_sample_v2/app.mjs:1012-1022 | a fragment with an empty chunk or an index not below its count leaves no trace |
| H264Fragments.MissingPartIsDead | web_sample_v2/app.mjs:1030-1034 | whatever bytes arrive, a record with as many parts as its total misses none, so the early return is never taken |
| H264Fragments.TableFollows | web_sample_v2/app.mjs:1021-1028 | after every run the table holds exactly the fragments collected of each incomplete unit |
| H264Fragments.Reassembly | web_sample_v2/app.mjs:1012-1039 | under any order, duplication and interleaving, something is handed on exactly when the last missing fragment arrives, and it is the unit sent under that peer and number |
| H264Fragments.DeliveriesCost | web_sample_v2/app.mjs:1027-1036 | every delivery uses up a full set of arrivals, so without duplicates a unit is delivered at most once |
| H264Fragments.AllArrivedIsDelivered | web_sample_v2/app.mjs:1027-1036 | if every fragment arrives, in any order, the unit is delivered |
| H264Fragments.ReassembledIsBounded | web_sample_v2/app.mjs:990-1039 | no buffer of more than 65535 fragments is ever put together |
| H264Fragments.FragmentedLoopback | web_sample_v2/app.mjs:1568-1605 | a unit sent and received in order arrives if and only if it has at most 65535 * 1240 bytes |
| AnnexB.ExtractInTwo | web_sample/app.mjs:357-391 | splitting a part and then the carry with the rest is splitting the whole, also when a start code is cut |
| AnnexB.SlicingDoesNotMatter | web_sample/app.mjs:625-629 | for every cut of every stream the units and the final carry are those of the whole stream |
| AnnexB.ExtractAnnexBNals | web_sample/app.mjs:357-391 | the two passes over the marks compute the split |
| AnnexB.StreamIsSplit | web_sample/app.mjs:357-391 | of a stream of good units exactly the units but the last come out, and the last is kept with its start code |
| AnnexB.ByteStreamRoundTrip | web_sample_v2/h264_helper.mjs:58-101 | units without 00 00 00 or 00 00 01 and with a last byte other than zero, joined by any mix of start codes, are found again |
| AnnexB.AnnexBToNalUnits | web_sample_v2/h264_helper.mjs:58-101 | the scan and the trimming compute the specification |
| AnnexB.AvccRoundTrip | web_sample/app.mjs:393-409 | a length-prefixed list is found again if and only if every length is positive and below 2^31 |
| AnnexB.AvccToNalUnits | web_sample/app.mjs:393-409 | the loop computes the specification |
| AnnexB.ProtectRoundTrip | web_sample_v2/h264_helper.mjs:103-115 | removal inverts the byte insertion of section 7.3.1 of ITU-T H.264 for every payload |
| AnnexB.ProtectAllRoundTrip | web_sample_v2/h264_helper.mjs:103-115 | with the final 3 of section 7.4.1 it does so if and only if the payload ends in an even number of zeros |
| AnnexB.RemoveEmulationPreventionBytes | web_sample_v2/h264_helper.mjs:103-115 | the loop computes the specification |
| AnnexB.UnitsAreGood | web_sample_v2/h264_helper.mjs:58-115 | every protected payload under a non-zero header is a unit the byte stream round trip accepts |
| StreamReceiver.StreamDecoder.PushSlice | web_sample/app.mjs:613-629 | the receiver in front of the splitter routes each slice as specified |
| StreamReceiver.LooksLikeAvccIff | web_sample/app.mjs:280-298 | a buffer looks length-prefixed if and only if it is a list of one to three units with a usual header |
| StreamReceiver.LooksLikeAnnexBIff | web_sample/app.mjs:247-262 | a buffer looks like a byte stream if and only if a start code begins at one of its first 33 bytes |
| StreamReceiver.PushedStream | web_sample/app.mjs:624-629 | of slices that are all taken for parts of a stream, those before the first with a start code of its own are dropped and the rest is split as one stream |
| StreamReceiver.PushedSlice | web_sample/app.mjs:613-629 | for any slices in any mix: a whole buffer yields its own units and leaves the carry alone, any other slice yields what it adds to the units of the stream seen so far |
| StreamReceiver.IntactStream | web_sample/app.mjs:624-629 | slices that are all taken for parts of a stream yield the units of the joined stream if and only if no unit ends before the first start code that lies within one slice |
| StreamReceiver.CutStartCodeIsLost | web_sample/app.mjs:264-278 | three slices of a stream whose unit is lost because its start code is cut |
| CutStreams.PushedWeighs | web_sample/app.mjs:613-629 | for any slices, from any carry the receiver can hold, the units (each counting one for its start code or length) and the final carry have no more non-zero bytes than went in |
| CutStreams.IntactCut | web_sample/app.mjs:613-629 | a byte stream of good units, cut in any way, yields exactly its units and no carry if in every slice only zeros precede the first start code and slices that look length-prefixed have the same units read so; when no slice looks so, only then |
| CutStreams.CutUnitIsTruncated | web_sample/app.mjs:619-622 | a stream of two units cut within the first one, whose last byte is lost |
| CutStreams.OneUnitSlice | web_sample/app.mjs:613-622 | a slice of one good unit with its start code yields that unit if and only if it does not look length-prefixed |
| CutStreams.HeaderReadAsLength | web_sample/app.mjs:280-298 | every unit of 257 plus header byte many bytes, under a short start code and with a plausible second byte, is taken for a length-prefixed one and loses its header byte |
| LengthPrefixed.Broadcast | web_sample/app.mjs:1131-1148 | the slices are the cut of the framed body at the chunk size; they join to it and none exceeds the size |
| LengthPrefixed.VideoReceiver.IngestSlice | web_sample/app.mjs:679-764 | the receiver object does what the specification says: datagrams are reassembled, other slices framed |
| LengthPrefixed.VideoReceiver.StoreDatagram | web_sample/app.mjs:687-704 | the table of unfinished frames takes one datagram as the specification says, and a completed frame is fed unless it is empty |
| LengthPrefixed.DrainInTwo | web_sample/app.mjs:729-764 | draining in two parts is draining the whole unless the first part goes raw |
| LengthPrefixed.AnyCut | web_sample/app.mjs:717-764 | the framing alone: for every list of frames, every prefix of its wire and every cut, exactly the complete blobs are handed on in order |
| LengthPrefixed.DealtExactly | web_sample/app.mjs:762-764 | what is kept is exactly the incomplete tail and holds no complete frame |
| VideoStreams.DatagramsStandApart | web_sample/app.mjs:686-705 | for any slices the framing sees the slices that are no datagrams and nothing else; without datagrams the framing is all that happens |
| VideoStreams.DatagramReadsBack | web_sample/app.mjs:1151-1191 | the receiver finds the frame id, index, count and body that the sender put into a datagram |
| VideoStreams.IsDatagramIff | web_sample/app.mjs:1169-1184 | which slices look like a datagram, byte by byte |
| VideoStreams.Conserves | web_sample/app.mjs:679-764 | for any slices from any sound state that do not end raw, what is handed on (four bytes more for each blob) and kept is at most what was kept and received, less twelve bytes for each datagram |
| VideoStreams.AnySlicing | web_sample/app.mjs:679-764 | for every list of frames, every prefix of its wire and every cut without a slice that looks like a datagram, exactly the complete blobs are handed on in order and the tail is kept; without control frames only then |
| VideoStreams.BlobsArrive | web_sample/app.mjs:106-111 | blobs of 1 byte to 32 MiB that are no control frames all arrive with nothing left over if and only if no slice looks like a datagram |
| VideoStreams.SentBlobArrives | web_sample/app.mjs:1131-1148 | a blob as the sender cuts it arrives if and only if none of its slices looks like a datagram |
| VideoStreams.BlobIsLost | web_sample/app.mjs:686-705 | at every chunk size from 16 the sender cuts some blob so that a slice looks like a datagram: nothing is handed on and the start of the blob stays in the buffer |
| LengthPrefixed.IllegalLengthGoesRaw | web_sample/app.mjs:729-740 | a length of 0 or above 32 MiB turns the stream raw |
| LengthPrefixed.FormatIsTrimmed | web_sample/app.mjs:749-752 | a declared format loses the white space around it and nothing else |
| LengthPrefixed.WebmGoesRaw | web_sample/app.mjs:749-757 | a control frame that declares WebM turns the stream raw and is not handed on |
| LengthPrefixed.RawPassesThrough | web_sample/app.mjs:708-717 | a raw stream is handed on slice by slice unchanged |
| LossAccounting.FlowConsumer.ConsumePayload | switch/e2e_test_py_check_flow/consumer.py:213-238 | the counters move as specified |
| LossAccounting.NumberReadsBack | switch/e2e_test_py_check_flow/consumer.py:24-26 | the number is read from the header as the producer packs it, most significant byte first |
| LossAccounting.InvalidIff | switch/e2e_test_py_check_flow/consumer.py:213-222 | a packet is invalid if and only if it is shorter than 24 bytes or lacks the magic |
| LossAccounting.Counters | switch/e2e_test_py_check_flow/consumer.py:213-238 | expected_seq is one more than the largest number, missing is the span minus the advancing packets, gaps counts the jumps, duplicates the repeats of the largest, and every packet is counted once |
| LossAccounting.MissingIsExact | switch/e2e_test_py_check_flow/consumer.py:213-238 | missing - out_of_order is the number of the span's numbers that never arrived if and only if no packet is stale |
| LossAccounting.CleanFlow | switch/e2e_test_py_check_flow/consumer.py:213-238 | when no number arrives twice and none is below the first, the loss is exact and duplicates is 0 |

## Left out

- Sockets, queues, reactors, configuration, logging, web pages, players and timers: I/O and platform calls. A timeout is
  the event `GiveUp`, a destroyed session the event `Forget`.
- Cryptographic strength and the random sources: tags are inputs with a stated freshness assumption, and nothing is said
  about forging an HMAC.
- One step reads the clock once; the source reads it several times within one call.
- One step draws one nonce (challenge, tag and member id together), although no step uses all three.
- The channel counter is unbounded here; it has 64 bits in the source.
- The order in which a relay addresses its recipients, which is the iteration order of a hash set.
- Idle timeouts of sessions, stream reports and the anonymous bootstrap: declared, but not called in the switch.
- Network.HandlesAlwaysMatch: one client keeps one transport; names with a NUL or outside Latin-1, and PDUs the codec
  refuses, count as lost, because the composition carries PDUs and not bytes.
- RtmsClients.RtmsClient.OnRawBinary: the HMAC of an identity request is computed at once, while the browser computes it
  asynchronously; statistics and callbacks are left out.
- The `_left` flag of a channel handle, which only suppresses sending.
- PackedSchema.RoundTrip: capacities above 2^32 (an 8-octet count held in a double), optional strings (the generator
  emits calls to functions it does not define), character arrays and `buffer` typedefs.
- PackedCodec.PerCodecCtx.Encode: a value that does not have the shape of its schema is refused, while JavaScript may
  coerce it.
- Enum codes outside the listed ones decode to their number, as in JavaScript; `Protocol` has only the listed ones.
- switch/src/protocol/rtms.hpp and the Python codec: twins of the JavaScript codec; cum/cum.hpp is not part of this model.
- H264Fragments.Receiver.OnH264Sdu: the key of the table is the pair of peer key and number, not their concatenation,
  and only the focused channel is modelled.
- H264Fragments.Sender.Fanout: one channel; the source sends the same SDUs to each.
- StreamReceiver.StreamDecoder.PushSlice: units are listed in order, without their grouping into access units and the
  state of the decoder behind it.
- CutStreams.IntactCut: the converse is for cuts without a slice that looks length-prefixed; `OneUnitSlice` is exact for
  slices of one unit.
- StreamReceiver.IntactStream: slices taken for whole buffers are excluded; their part is `PushedSlice`, and for streams
  of good units `IntactCut`.
- VideoStreams.AnySlicing: for lists with control frames only the one direction; the sender of datagrams, which numbers
  the pieces of a frame like `H264Fragments`, is left out.
- LengthPrefixed.VideoReceiver.IngestSlice: the table of unfinished frames is keyed by the pair of stream and frame id,
  not their concatenation, and here belongs to one stream; a declared format is trimmed of ASCII white space only.
- SwitchObjects.RtmsSwitch.OnMessage: starts from a decoded PDU; the source drops a datagram that does not decode.
- SwitchObjects.RtmsSwitch.Receive: the same, and a datagram without a valid source address is dropped before it.
- Sha256.Sha256Hash: the round functions, their shift distances and the pad bytes of HMAC are transcribed from the
  standards; no digest is computed.
- Sha256.CutsDoNotMatter: the bit count, which `Consume` states, and the unused end of the buffer are not compared.
- Identity.IdentityManager.Extend: takes the username and password cells of the rows; finding the columns of the table
  is left out.
- JSON printers, hexadecimal helpers and endpoint hashing: easy members only.
