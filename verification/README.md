# Landscape: a verified model of its protocols and release machinery

This project models the parts of Landscape whose correctness rests on long
runs, concurrency or crashes, and proves what each of them is for.

**The Terrain protocol** (`Octets`, `Frame`, `Ethernet`, `Crypto`,
`RecordLayer`, `Handshake`, `HonestHandshake`, `HandshakeRuns`,
`HandshakeCompletes`, `ClientHandshake`). A client and a server that share a psk run a sealed
DISCOVER / RESP / AUTH_REQ / AUTH_ACK handshake and then exchange sealed frames
over raw Ethernet. Cryptography is symbolic and ideal: every octet on the wire
is a clear byte, an octet of a ciphertext or an octet of a digest, so lengths,
slices and padding are the program's own. Sealing is an injective constructor
over key, nonce, header and plaintext with the interface of section 2.8 of RFC
8439; the hash is injective in its label, key and nonces; random draws are
arguments, fresh where a run says so. The network may drop, repeat, reorder,
cut, splice and invent frames; all it cannot do is produce ciphertext octets
under a protected key that nobody sealed. There may be insiders, who hold the psk and
seal what they like toward a server. Sequence numbers are the wrapping
32-bit ones of the program, compared as in section 3.2 of RFC 1982.

**The relay** (`Ports`, `Relay`, `RelayRuns`, `RelayMeans`, `RelayLoop`, `Wake`). The client
multiplexes local TCP connections onto one userspace TCP stack: reused handles,
generations, a ring of source ports, byte accounting with backpressure, deferred
closes, and a coalescing wake-up path. `Relay` gives the meaning of every branch
of the loop and of the pump as a function on a world, `RelayRuns` proves what all
runs keep, `RelayMeans` what the branches and the pump get done, and `RelayLoop` is the loop and the pump on mutable objects, proved to
follow those functions step by step. The stack is known by a contract: a socket
accepts a prefix of what it is offered and hands out in order what arrived.

**The publisher** (`Publisher`, `PublisherProgram`, `PublisherResume`, `PublisherTags`, `Archive`). Any number of
publishers act on one object store, interleaved at every request, crashing
anywhere. The store offers the conditional PUTs of sections 13.1.1 and 13.1.2 of
RFC 9110. `Publisher` is the step system with its invariants, `PublisherProgram`
the straight-line program with its retry loop, other publishers acting between
its requests and any request failing or losing its answer. `PublisherResume` says
what a publisher left alone does after any history, `PublisherTags` what the entity
tags are for. `Archive` is the check
of the static archive before anything is uploaded.

**Rollback** (`Disk`, `Rollback`). The rollback of a failed switch is a sequence of
renames, deletions, copies and atomic writes that may stop after any step, even
inside a copy or a recursive removal, and is then run again from the start. Where a
service is managed it writes its data until it is stopped and after it is started.

**Upgrade selection** (`Upgrade`). A paginated search for the release of greatest
precedence (section 11 of SemVer 2.0.0), with the repository's two spellings of
release candidates made one.

Where the code steps through mutable state the model is a class or a method with
loops, specified by a function; what the program is for is then proved about
those functions. Results that turned out to need a condition are stated with that
condition, both ways: strings longer than 65535 bytes do not survive their length
field, order over the record layer ends after exactly 2^31 + 1 sealed frames, a
repeated rollback keeps the failed data exactly when there was any data at first,
and the stable channel never goes back exactly when the store returns entity tags.

## Model

| member | source | states |
|---|---|---|
| Frame.DecodeHeaderAndBody | landscape-terrain-proto/src/protocol/frame.rs:53-80 | a header whose length covers a prefix of what follows decodes to exactly its fields and that prefix, whatever trails it |
| Frame.FrameRoundTrip | landscape-terrain-proto/src/protocol/frame.rs:53-113 | encode then decode returns the frame through any padding, and the payload exactly when it fits 16 bits of length |
| Frame.HeaderRebuilt | landscape-terrain-proto/src/protocol/frame.rs:53-98 | the header rebuilt from decoded fields is the received one if and only if the frame is of the current version |
| Frame.HeaderInjective | landscape-terrain-proto/src/protocol/frame.rs:84-98 | two equal headers have equal type, session, sequence number and length |
| Frame.HeaderLayout | landscape-terrain-proto/src/protocol/frame.rs:84-98 | the header octet by octet, each number with its most significant byte first |
| Frame.DecodedFields | landscape-terrain-proto/src/protocol/frame.rs:53-80 | on any bytes: each error exactly where the program finds it, a frame of another version refused unless it is a VERSION_MISMATCH, and otherwise every field read from its place |
| Octets.BigEndian | landscape-terrain-proto/src/protocol/frame.rs:91-96 | a 32-bit number is written most significant byte first |
| Octets.Utf8Exactly | landscape-terrain-proto/src/protocol/frame.rs:145 | bytes pass as a string if and only if they are the UTF-8 form of Unicode scalar values |
| Frame.GetPutStr | landscape-terrain-proto/src/protocol/frame.rs:130-148 | a string of at most 65535 bytes is read back at any offset, with the offset moved just past it |
| Frame.LongStringLost | landscape-terrain-proto/src/protocol/frame.rs:130-148 | a longer string never is |
| Frame.StrReadExactly | landscape-terrain-proto/src/protocol/frame.rs:136-148 | a string is read from bytes if and only if its length and its UTF-8 bytes stand there in full |
| Frame.DiscoverRoundTrip | landscape-terrain-proto/src/protocol/frame.rs:167-193 | a DISCOVER payload decodes to what was encoded, an empty token to none, exactly when both strings fit |
| Frame.EncodeRespPayload | landscape-terrain-proto/src/protocol/frame.rs:207-215 | the encoder's port loop writes the specified payload |
| Frame.ReadPorts | landscape-terrain-proto/src/protocol/frame.rs:221-225 | the decoder's port loop reads the ports of the rest of the payload and stops less than two bytes from its end |
| Frame.DecodeRespPayload | landscape-terrain-proto/src/protocol/frame.rs:217-234 | the imperative RESP decoder is the specified one, errors included |
| Frame.RespRoundTrip | landscape-terrain-proto/src/protocol/frame.rs:207-234 | a RESP decodes to what was encoded exactly when the device name fits |
| Frame.RespExact | landscape-terrain-proto/src/protocol/frame.rs:217-234 | every payload the RESP decoder accepts is the encoder's output for the decoded value |
| Frame.AuthReqRoundTrip | landscape-terrain-proto/src/protocol/frame.rs:248-266 | an AUTH_REQ decodes to what was encoded exactly when the user name fits |
| Frame.AuthAckExact | landscape-terrain-proto/src/protocol/frame.rs:272-283 | the AUTH_ACK decoder accepts the encoder's outputs and nothing else |
| Frame.AuthNackRoundTrip | landscape-terrain-proto/src/protocol/frame.rs:305-314 | a NACK reason survives, through any padding, exactly when it fits |
| Ethernet.Parse | landscape-terrain-proto/src/transport/mod.rs:106-130 | the tag loop terminates on every input and computes the recursive reading of the tags |
| Ethernet.ParseThroughTags | landscape-terrain-proto/src/transport/mod.rs:106-130 | for any depth of IEEE 802.1Q tags (clause 9) the result is the innermost id, the inner ethertype and exactly the payload |
| Ethernet.TerrainThroughLink | landscape-terrain-proto/src/transport/mod.rs:106-130 | a Terrain frame sent under any tags and padding decodes to the original frame |
| Crypto.NonceInjective | landscape-terrain-proto/src/protocol/crypto.rs:413-418 | under one key set two AEAD nonces are equal exactly when their 32-bit counters are |
| Crypto.SealedFrameDecodes | landscape-terrain-proto/src/protocol/crypto.rs:307-322 | any sealed frame whose length fits its header reaches the peer with every field and octet as sent |
| Crypto.SealPrefixedOpens | landscape-terrain-proto/src/protocol/crypto.rs:333-370 | a frame sealed behind a clear prefix opens to what was sealed, the prefix readable |
| Crypto.SealFrameOpens | landscape-terrain-proto/src/protocol/crypto.rs:307-328 | a sealed handshake frame opens to what was sealed |
| Crypto.SealDiscoverOpens | landscape-terrain-proto/src/protocol/crypto.rs:192-236 | a sealed DISCOVER opens, under the nonce it carries, to what was sealed |
| Crypto.ReplayWindow.Accept | landscape-terrain-proto/src/protocol/crypto.rs:470-479 | accepts and remembers exactly the numbers ahead of the last one by serial-number order; a refused number changes nothing |
| Crypto.WindowOnIndices | landscape-terrain-proto/src/protocol/crypto.rs:470-479 | on true frame indices the window accepts exactly those ahead by less than 2^31 modulo 2^32 |
| Crypto.WindowRefinesCounter | landscape-terrain-proto/src/protocol/crypto.rs:455-479 | for indices less than 2^31 apart the window is an unbounded counter |
| Crypto.ReplayRefusedExactlyWithin | landscape-terrain-proto/src/protocol/crypto.rs:455-479 | an accepted frame is refused exactly while the window is at most 2^31 past it: the bound is tight |
| Crypto.SessionCrypto.SealPayload | landscape-terrain-proto/src/protocol/crypto.rs:509-519 | seals under the current counter and advances it modulo 2^32, as the record specification says |
| Crypto.SessionCrypto.OpenPayload | landscape-terrain-proto/src/protocol/crypto.rs:524-535 | a frame failing authentication never reaches the window; the new state and the result are the specified ones |
| RecordLayer.ReturnedInOrder | landscape-terrain-proto/src/protocol/crypto.rs:509-535 | end to end over any hostile link, with at most 2^31 + 1 frames sealed: what open returned is an in-order, duplicate-free subsequence of the type, session and payload triples given to seal |
| RecordLayer.ReturnedExactlyWhenNewer | landscape-terrain-proto/src/protocol/crypto.rs:524-535 | after any run with at most 2^31 frames sealed, an authentic frame with a payload of at most 65519 bytes is returned exactly when its index exceeds every index returned before, and otherwise changes nothing |
| RecordLayer.ServerOpensClient | landscape-terrain-proto/src/protocol/crypto.rs:509-535 | what a state that transmits C2S seals, one that transmits S2C opens under the same keys, at any fresh number and through any padding |
| RecordLayer.ClientOpensServer | landscape-terrain-proto/src/protocol/crypto.rs:509-535 | and the reverse |
| RecordLayer.SessionKeysApart | landscape-terrain-proto/src/protocol/crypto.rs:381-411 | keys of different directions, sessions, handshakes or of discovery are never the same |
| RecordLayer.OwnFramesRefused | landscape-terrain-proto/src/protocol/crypto.rs:524-535 | a frame a side sealed itself is never opened by that side |
| RecordLayer.ForgeryIgnored | landscape-terrain-proto/src/protocol/crypto.rs:524-535 | a delivery that carries no sealed frame leaves the receiver unchanged |
| RecordLayer.OpenedWasSent | landscape-terrain-proto/src/protocol/crypto.rs:524-535 | whatever opens is a record that was sealed, under an index its sequence number abbreviates |
| RecordLayer.SessionNoncesDistinct | landscape-terrain-proto/src/protocol/crypto.rs:509-519 | nonces of one direction collide exactly when indices agree modulo 2^32, so never among the first 2^32 frames |
| RecordLayer.OrderBoundTight | landscape-terrain-proto/src/protocol/crypto.rs:470-479 | for every larger number of sealed frames there is a run in which a later frame is returned before the first: the bound of the order theorem is exact |
| Handshake.AuthenticAckIffSession | landscape-terrain-proto/src/protocol/session.rs:128-220 | while awaiting the verdict, a session starts on a frame exactly when it is an AUTH_ACK that is authentic from any address |
| Handshake.PlaintextNeverAuthentic | landscape-terrain-proto/src/protocol/session.rs:128-161 | a frame without ciphertext is never authentic and never starts a session |
| Handshake.ReplyDecides | landscape-terrain-proto/src/protocol/session.rs:171-220 | how each reply ends an attempt: an ACK without proof refuses it, a NACK with the sealed reason, else the plaintext one, else none; other types change nothing |
| Handshake.ClientSession.SendDiscover | landscape-terrain-proto/src/protocol/session.rs:80-91 | the new phase and the frame are those of the pure client |
| Handshake.ClientSession.ReceiveResp | landscape-terrain-proto/src/protocol/session.rs:97-126 | phase and AUTH_REQ after any frame in any phase are those of the pure client |
| Handshake.ClientSession.ReceiveAuth | landscape-terrain-proto/src/protocol/session.rs:171-220 | the phase after any frame in any phase is that of the pure client, sealed NACK before plaintext NACK |
| Handshake.VerifyAuthEffects | landscape-terrain-proto/src/protocol/session.rs:357-396 | only an acceptance touches the session and takes the next id; a refusal spends the pending nonce; anything else changes nothing |
| Handshake.SidsCountUp | landscape-terrain-proto/src/protocol/session.rs:307-396 | over any sequence of server calls the ids handed out are 1, 2, 3 and so on modulo 2^32, and the session is that of the last acceptance |
| Handshake.ServerSession.Discover | landscape-terrain-proto/src/protocol/session.rs:307-335 | state and RESP are those of the pure server, the standing nonce kept for a repeated discover id |
| Handshake.ServerSession.TakeNonce | landscape-terrain-proto/src/protocol/session.rs:351-353 | hands the pending nonce out once |
| Handshake.ServerSession.Verify | landscape-terrain-proto/src/protocol/session.rs:357-396 | state and verdict are those of the pure server on every frame |
| HonestHandshake.ExtrasChangeNothing | landscape-terrain-proto/src/protocol/session.rs:296-396 | any number of duplicate DISCOVER captures and unopenable AUTH_REQ frames leave the server as it was |
| HonestHandshake.DuplicateRespIdentical | landscape-terrain-proto/src/protocol/session.rs:301-335 | the RESP to a duplicate is octet for octet the first one |
| HonestHandshake.HonestHandshakeCompletes | landscape-terrain-proto/src/protocol/session.rs:80-396 | for all names, tokens, ports, nonces and paddings that fit, from any server state and with any such extras, both sides end with the same session id and keys and the server knows the user |
| HandshakeRuns.StepKeeps | landscape-terrain-proto/src/protocol/session.rs:80-396 | every step of any party keeps the invariant that the history explains every box ever sealed |
| HandshakeRuns.LockoutKeeps | lkit-cli/src/flare/server.rs:390-412 | a lockout, which takes the pending nonce and seals one NACK under it, keeps that invariant |
| HandshakeRuns.ClientAgreesWithServer | landscape-terrain-proto/src/protocol/session.rs:97-220 | in every run, insiders or not, a client is in a session only if a server accepted, with the same id and keys, an AUTH_REQ with the nonce this client drew under the discover id the server nonce was minted for; without insiders the server also knows the client's user |
| HandshakeRuns.SessionsNotShared | landscape-terrain-proto/src/protocol/session.rs:97-220 | no two clients are ever in sessions with the same keys, insiders or not |
| HandshakeRuns.HandshakeNonceNeverReused | landscape-terrain-proto/src/protocol/session.rs:345-396 | in every run, whatever insiders send, no key and nonce of the handshake seal two different boxes of the program: RESP, AUTH_ACK, the NACK of a wrong proof, the NACK of a lockout, AUTH_REQ and DISCOVER |
| HandshakeRuns.NonceMeetsOneVerdict | landscape-terrain-proto/src/protocol/session.rs:345-396 | over every run, with any AUTH_REQ that opens, right or wrong, each server nonce is spent at most once, by an acceptance, a refusal or a take, and a pending one belongs to one peer and has met none |
| HandshakeRuns.OpenedRequestIsAnswered | landscape-terrain-proto/src/protocol/session.rs:357-396 | whatever opens under a pending nonce spends it; without insiders it is the one AUTH_REQ a client sealed under it, accepted with its own nonce and user |
| HandshakeRuns.VerdictUnder | landscape-terrain-proto/src/protocol/session.rs:357-396 | whoever sealed the AUTH_REQ, the keys and proofs of the verdict are those of the pending nonce |
| HandshakeCompletes.AttemptCompletes | landscape-terrain-proto/src/protocol/session.rs:80-396 | from every state any run can reach, an attempt with fresh draws whose five frames get through ends with the client in a session the server accepted, under the server's next id, on keys no other client has |
| HandshakeCompletes.RequestAccepted | landscape-terrain-proto/src/protocol/session.rs:357-396 | an AUTH_REQ sealed under the pending nonce is accepted by any server state, with that client's nonce and user |
| HandshakeCompletes.WrongProofRefused | landscape-terrain-proto/src/protocol/session.rs:386-392 | an insider can have any pending nonce refused: a wrong proof opens, is rejected and spends the nonce with one NACK |
| ClientHandshake.RecvUntil | landscape-flare/src/client/mod.rs:498-526 | returns the first awaited frame, unless a version mismatch comes first |
| ClientHandshake.Try | landscape-flare/src/client/mod.rs:343-446 | one round of the loop, on the session object, computes the outcome and the frames of one attempt |
| ClientHandshake.Shake | landscape-flare/src/client/mod.rs:336-456 | the retry loop computes the outcome of at most five attempts and all frames they send, and leaves the session it reports |
| ClientHandshake.MismatchEndsWait | landscape-flare/src/client/mod.rs:505-517 | the first VERSION_MISMATCH, of any version, ends a wait in which nothing was awaited before it, with that version |
| ClientHandshake.OtherVersionEndsHandshake | landscape-flare/src/client/mod.rs:353-361 | a mismatch in answer to the DISCOVER of the first attempt that does not lead on ends the handshake with its version |
| ClientHandshake.OtherVersionEndsSecondWait | landscape-flare/src/client/mod.rs:416-423 | so does one in answer to the AUTH_REQ |
| ClientHandshake.SilenceLeadsOn | landscape-flare/src/client/mod.rs:361-367 | an attempt that hears no RESP leads to the next, and after the fifth the client gives up |
| ClientHandshake.DiscoverSent | landscape-flare/src/client/mod.rs:349-351 | every attempt first sends to all a DISCOVER that opens as its id, the client name and the token |
| ClientHandshake.AuthReqSent | landscape-flare/src/client/mod.rs:407 | after an honest RESP an AUTH_REQ goes to its address, and a server waiting under that nonce accepts it with this user and nonce |
| ClientHandshake.SilentSends | landscape-flare/src/client/mod.rs:343-367 | five silent attempts send exactly five DISCOVERs, each with its own id |
| ClientHandshake.SealedNackReported | landscape-flare/src/client/mod.rs:428-445 | a server's sealed NACK, from any address, ends the attempt with its reason |
| ClientHandshake.PlaintextNackReported | landscape-flare/src/client/mod.rs:428-445 | a plaintext lockout NACK from the adopted server's address does the same |
| ClientHandshake.EstablishedIsProven | landscape-flare/src/client/mod.rs:336-456 | a reported session came from one attempt's authentic RESP, whose address and ports are reported, and an AUTH_ACK proving the server for that attempt's nonces |
| ClientHandshake.NoiseIgnored | landscape-flare/src/client/mod.rs:498-526 | a frame that is neither awaited nor a version mismatch changes no wait, wherever it arrives |
| ClientHandshake.ForeignPlaintextIgnored | landscape-flare/src/client/mod.rs:476-491 | a plaintext reply from another address than the adopted server's cannot influence an attempt |
| ClientHandshake.HonestAttemptSucceeds | landscape-flare/src/client/mod.rs:336-456 | an attempt that meets an honest server ends established with its id and keys, the AUTH_ACK from any address, whatever unawaited frames come first |
| Ports.PortAllocator.Allocate | landscape-flare/src/client/session.rs:28-44 | the allocator's loop terminates by ring distance and computes the specified allocation |
| Ports.AllocatedMeans | landscape-flare/src/client/session.rs:24-44 | the allocation is the first unused port in ring order, and fails with the cursor unmoved exactly when all 25536 are used |
| Ports.AllocatedOnNumbers | landscape-flare/src/client/session.rs:24-44 | on plain numbers: the least unused port from the cursor to 65535, else the least from 40000 up, the cursor left one behind it |
| RelayRuns.StepKeeps | landscape-flare/src/client/session.rs:139-285 | every branch of the loop, every pump, and every move of a bridge or of the network keeps the relay invariant |
| RelayRuns.RunKeeps | landscape-flare/src/client/session.rs:139-285 | so every run keeps it |
| RelayMeans.AcceptMeans | landscape-flare/src/client/session.rs:139-180 | while a port is free an accepted connection joins the relay with the next generation, a free port, a fresh bridge and its destination port queued; otherwise nothing changes |
| RelayMeans.GenerationsCount | landscape-flare/src/client/session.rs:152-153 | generations count up from 1, and 2^64 wraps to 1 |
| RelayMeans.TakesFirst | landscape-flare/src/client/session.rs:181 | below 32 MiB the first message is taken, and none at it |
| RelayMeans.TakesData | landscape-flare/src/client/session.rs:185-189 | data for a current connection joins the end of its queue and the count, and nothing else moves |
| RelayMeans.TakesClose | landscape-flare/src/client/session.rs:190-196 | a Close for a current connection is put off while bytes are queued and closes the socket otherwise |
| RelayMeans.DropsStale | landscape-flare/src/client/session.rs:182-184 | a message for an earlier or no use of its handle is dropped |
| RelayMeans.EndedIsClosing | landscape-flare/src/client/session.rs:181-198 | in every run a live connection whose bridge ended has its Close on the channel, or put off, or its socket closed |
| RelayMeans.RemovesForwardExactly | landscape-flare/src/client/forward.rs:53-70 | the sockets of a removed forward are closed and no others |
| RelayRuns.StreamIntact | landscape-flare/src/client/session.rs:151-198 | for every connection generation, accepted bytes, then its queue, then its messages under way, are its destination port followed by its own bridge's data in order, whatever handle it had |
| RelayRuns.ClosedAfterFlush | landscape-flare/src/client/forward.rs:28-31 | a socket closed for a Close message had accepted the whole stream |
| RelayRuns.ReceivedInOrder | landscape-flare/src/client/mod.rs:572-595 | channel messages concatenate to an in-order prefix of what arrived; the end of file is sent once, last, after every received byte |
| RelayRuns.AccountingExact | landscape-flare/src/client/session.rs:139-198 | the backlog counter is the sum of all queued chunks and at most 32 MiB - 1 + 8192 + 2*25536; queues and chunks are never empty and belong to live connections |
| RelayRuns.NothingSaturates | landscape-flare/src/client/mod.rs:551-603 | neither saturating subtraction of the pump ever saturates |
| RelayRuns.PortsNeverShared | landscape-flare/src/client/session.rs:139-167 | live connections never share a source port or a generation |
| RelayRuns.ConnectionsBounded | landscape-flare/src/client/session.rs:139-150 | there are never more than 25536 connections |
| RelayRuns.FlushMovesAll | landscape-flare/src/client/mod.rs:551-566 | after a flush bytes stay queued only for want of room or because the socket is closed |
| RelayRuns.HandOverMovesAll | landscape-flare/src/client/mod.rs:572-582 | received bytes stay behind only if the channel is full or closed |
| RelayRuns.DeferredCloseHappens | landscape-flare/src/client/mod.rs:567-570 | a deferred close happens in the pump that empties the queue, with the stream complete |
| RelayMeans.TurnSettles | landscape-flare/src/client/mod.rs:550-595 | a connection's turn leaves nothing to send, close, hand over or tell that it could have, and finds it over exactly when its socket is dead and its bridge gone or served |
| RelayMeans.PumpSettles | landscape-flare/src/client/mod.rs:548-603 | a whole pump, in any order, reaps exactly the connections that are over and leaves every other one settled |
| RelayLoop.Client.AcceptConnection | landscape-flare/src/client/session.rs:139-180 | the accept branch takes the client to the specified world |
| RelayLoop.Client.ReceiveFromBridges | landscape-flare/src/client/session.rs:181-198 | so does the branch for bridge messages, stale generations dropped and nothing taken at the cap |
| RelayLoop.Client.CloseConnections | landscape-flare/src/client/forward.rs:53-70 | walking the map in any order closes exactly the sockets of the removed forward |
| RelayLoop.Client.FlushQueue | landscape-flare/src/client/mod.rs:551-566 | the send loop, chunk by chunk, moves exactly what the socket accepts off the front of the queue |
| RelayLoop.Client.FillChannel | landscape-flare/src/client/mod.rs:572-582 | the receive loop fills the channel in pieces of 4096 bytes until it is full or nothing is left |
| RelayLoop.Client.PumpConnection | landscape-flare/src/client/mod.rs:550-595 | one connection's turn takes the client to the specified world and says whether it is to be reaped |
| RelayLoop.Client.PumpAll | landscape-flare/src/client/mod.rs:548-603 | the whole pump, over the map in any order and then the reaping, takes the client to the specified world |
| RelayLoop.Client.RemoveSocket | landscape-flare/src/client/mod.rs:596-603 | reaping removes socket, queue, accounting and connection together |
| RelayLoop.Client.Happens | landscape-flare/src/client/session.rs:96-286 | whichever event happens, the object follows the model's step and stays valid |
| Wake.NoLostWakeup | landscape-terrain-proto/src/relay.rs:33-58 | in every run with any producers and cancellations, keys in the set imply a stored permit, a consumer that will drain before it sleeps, or a producer about to notify; no empty list is returned |
| Wake.WorkIsReturned | landscape-terrain-proto/src/relay.rs:48-57 | once producers are done the consumer left alone returns all keys within two steps |
| Wake.CoalescedExactly | landscape-terrain-proto/src/relay.rs:33-58 | between drains the set gains exactly the keys inserted, generations kept apart, through any cancellations |
| Wake.ProgressIsSeen | landscape-terrain-proto/src/relay.rs:68-84 | a channel that freed space or closed unseen has its key under way to the loop, so the loop never sleeps on unseen progress |
| Wake.RelayWake.DrainKeys | landscape-terrain-proto/src/relay.rs:51 | draining empties the set into a list that holds each key once |
| Wake.RelayWake.PollRecv | landscape-terrain-proto/src/relay.rs:49-57 | a poll of recv returns every key once, or sleeps with no permit left and nothing taken |
| Wake.RelayReceiver.Recv | landscape-terrain-proto/src/relay.rs:69-75 | a poll waits on an empty open channel, ends on one whose sender is gone, and otherwise takes the first message and tells its key, once |
| Wake.RelayReceiver.Close | landscape-terrain-proto/src/relay.rs:78-84 | closes the channel and tells its key |
| Publisher.StepKeeps | crates/lkit-publish/src/lib.rs:40-255 | every request of any publisher, answered, lost or the last before a crash, keeps the store's invariant and only adds to the past |
| Publisher.RankByParts | crates/lkit-publish/src/lib.rs:163 | the order of versions: major decides, then minor, then patch, and no two versions are level |
| Publisher.LessByRank | crates/lkit-publish/src/lib.rs:163 | the comparison of the program is that order, on integers |
| Publisher.UndisturbedTurn | crates/lkit-publish/src/lib.rs:160-186 | an undisturbed turn leaves the greater of the two versions in the channel, an older or equal one without a write |
| Publisher.StableNeverDecreases | crates/lkit-publish/src/lib.rs:136-190 | between any two moments of any run the stable version does not go back in that order, or away, and its manifest is stored |
| Publisher.ReleasesImmutableAndComplete | crates/lkit-publish/src/lib.rs:55-92 | a stored manifest has its three assets stored with its hashes and sizes, then and for ever |
| Publisher.PublishedStays | crates/lkit-publish/src/lib.rs:40-97 | after publish(v) returned Ok the stable version is at least v in that order for ever |
| Publisher.ConflictMeansProgress | crates/lkit-publish/src/lib.rs:136-190 | ConcurrentUpdate is returned only after three stable writes by others since the update began, and every rewrite of the channel strictly raises its version |
| PublisherTags.TagsDecide | crates/lkit-publish/src/lib.rs:160-186 | over all runs from an empty store the stable channel never goes back if and only if the store returns entity tags |
| PublisherTags.WithoutTagsStableMayDecrease | crates/lkit-publish/src/lib.rs:178-180 | a run from an empty store without tags, for any assets, in which three publishers leave the channel at 2 after it was at 3 |
| PublisherTags.ReachesChannel | crates/lkit-publish/src/lib.rs:40-94 | an undisturbed publisher whose objects are not in the way reaches the stable channel and touches nothing but its own release |
| PublisherResume.AloneEnds | crates/lkit-publish/src/lib.rs:40-255 | an undisturbed publisher ends within 13 requests with the outcome what is stored has in store for it |
| PublisherResume.AloneDecided | crates/lkit-publish/src/lib.rs:40-97 | after any run a call left alone never meets a conflict; it reports an existing release exactly when the manifest is stored, and succeeds exactly when it is not and every asset is missing or identical |
| PublisherResume.RunOriginated | crates/lkit-publish/src/lib.rs:192-233 | in every run each stored asset came from a publisher of that version |
| PublisherResume.InterruptedCanBeRepeated | crates/lkit-publish/src/lib.rs:40-97 | a publication interrupted anywhere can be repeated to success, as long as everybody who published the version had the same assets |
| PublisherProgram.EnsureRepository | crates/lkit-publish/src/lib.rs:111-134 | the program's requests are steps of the step system and end where it says, whatever happens in between |
| PublisherProgram.UploadAsset | crates/lkit-publish/src/lib.rs:192-233 | likewise for one asset, identical content accepted and different content refused |
| PublisherProgram.UploadManifest | crates/lkit-publish/src/lib.rs:81-92 | likewise for the manifest, an existing one reported as an existing release |
| PublisherProgram.TryUpdate | crates/lkit-publish/src/lib.rs:143-187 | likewise for one turn of the retry loop |
| PublisherProgram.UpdateStable | crates/lkit-publish/src/lib.rs:136-190 | the loop of three turns ends with the outcome of the step system |
| PublisherProgram.Publish | crates/lkit-publish/src/lib.rs:52-97 | so does publish as a whole, from its first request on |
| PublisherProgram.PublishAmongOthers | crates/lkit-publish/src/lib.rs:40-97 | a publisher from an empty store on, with anybody around it: success means stable at least its version from then on, a conflict means three writes by others |
| Archive.ZipPathParts | crates/lkit-repository/src/lib.rs:137-155 | the loop returns the non-empty components, or the error of the first bad one |
| Archive.PartsAreClean | crates/lkit-repository/src/lib.rs:137-155 | whatever the path, its components are plain names |
| Archive.NormalFormStays | crates/lkit-repository/src/lib.rs:137-155 | a normalised path is its own normal form, so normalised paths are equal exactly when their components are |
| Archive.ReadThrough | crates/lkit-publish/src/lib.rs:446-458 | an entry is read through exactly when the running total stays within the limit |
| Archive.LimitIs | crates/lkit-publish/src/lib.rs:385-386 | the limit is twenty times the compressed size, at most one GiB |
| Archive.SpecialExactly | crates/lkit-publish/src/lib.rs:400-407 | the refused modes are those of pipes, character and block devices and sockets, whatever their permission bits |
| Archive.AllowedExactly | crates/lkit-publish/src/lib.rs:394-428 | which entries are refused by themselves |
| Archive.SoundExactly | crates/lkit-publish/src/lib.rs:389-459 | an archive is sound exactly when its entries are allowed, no two with a path share it, and each file fits into what the limit leaves |
| Archive.ValidateStaticArchive | crates/lkit-publish/src/lib.rs:380-466 | an archive passes if and only if each entry is allowed, no two normalise to the same path, index.html is there as a file and the sizes fit |
| Disk.AllChildren | lkit-cli/src/backup/rollback.rs:369-387 | the directory and all its children copied make the whole subtree |
| Disk.FileSystem.CopyTree | lkit-cli/src/backup/rollback.rs:369-387 | copying adds exactly the subtree, in any order of entries; it fails only by a crash, an unsupported entry or a taken name |
| Disk.FileSystem.WriteFileAtomic | lkit-cli/src/backup/rollback.rs:389-402 | afterwards the file has exactly the bytes and mode given and no temporary file is left |
| Disk.FileSystem.RemoveAll | lkit-cli/src/backup/rollback.rs:235-238 | a recursive removal that ends removes everything at that place and nothing elsewhere, and may stop at any entry |
| Rollback.ReleaseContents | lkit-cli/src/backup/rollback.rs:259-286 | the rebuilt release holds exactly the backup's binary, made executable, its static archive and its static tree |
| Rollback.DataContents | lkit-cli/src/backup/rollback.rs:100-106 | the restored data holds exactly the backup's geo tree and its initial configuration, private |
| Rollback.CompleteExactly | lkit-cli/src/backup/lkb/read.rs:163-204 | the backups accepted are those with the three files and two directories and nothing but files and directories |
| Rollback.InitialisedExactly | lkit-cli/src/service/health.rs:150-152 | the initialisation check passes exactly with both files there |
| Rollback.MoveDataAside | lkit-cli/src/backup/rollback.rs:232-244 | completed, the data is aside and a new empty one there; interrupted, nothing but the new data was touched or the move is half done |
| Rollback.MovedAsideTwice | lkit-cli/src/backup/rollback.rs:229-244 | repeating the move keeps failed-data exactly when there was data or failed data at first |
| Rollback.Unpack | lkit-cli/src/backup/lkb/read.rs:134-206 | a completed unpacking leaves exactly the backup's tree and accepts only complete backups |
| Rollback.RebuildRelease | lkit-cli/src/backup/rollback.rs:246-288 | completed, the release is exactly the backup's, whatever was there; nothing else but replaced-release changes |
| Rollback.FillData | lkit-cli/src/backup/rollback.rs:100-106 | completed, the data directory is exactly the backup's |
| Rollback.Machine.RestoreCurrent | lkit-cli/src/backup/rollback.rs:352-361 | the link is the old target or the new one at every moment |
| Rollback.Machine.RestoreFiles | lkit-cli/src/backup/rollback.rs:80-108 | from any safe state, after any earlier interruption: safe wherever it stops; if it ends, release, data and link are exactly the backup's and the failed data is aside |
| Rollback.RestoredNotInitialised | lkit-cli/src/service/health.rs:150-152 | a restored data directory never passes the initialisation check by itself: the started service has to add both files |
| Rollback.Machine.StopFailed | lkit-cli/src/backup/rollback.rs:67-79 | what the failed version wrote until it was stopped is its data; once that is aside it is out of its reach |
| Rollback.Machine.StartAndWatch | lkit-cli/src/backup/rollback.rs:111-142 | passes exactly when the restored version started, is healthy and has initialised its data; a failed check is recorded, a failed start is not; it changes nothing but data |
| Rollback.Machine.Commit | lkit-cli/src/backup/rollback.rs:108-145 | from everything restored on: state and phase are recorded if the service is well; if it is not, the failure is |
| Rollback.Machine.RollbackSwitch | lkit-cli/src/backup/rollback.rs:60-146 | safe however it ends; on success everything was restored, data was exactly the backup's when the service got it (and still is where none is managed), and since then only the service wrote it and initialised it; only a crash, an incomplete backup or an outside that does not cooperate prevents a success |
| Rollback.Attempts | lkit-cli/src/backup/rollback.rs:60-146 | after any number of attempts crashing anywhere, with a service that writes data while it runs: the failed version's data is whole, as it stood when an attempt stopped the service, the link is the old or the new one, other releases are untouched, and RolledBack is recorded only with release, link and state those of the backup and a service started on exactly the backup's data |
| Upgrade.PrecedenceLawful | lkit-cli/src/commands/self.rs:570-573 | precedence is a total preorder |
| Upgrade.PrecedenceIsSemVer | lkit-cli/src/commands/self.rs:570-573 | the comparison is the precedence of section 11 of SemVer 2.0.0: major, minor, patch as numbers, a prerelease below its release, then the first differing identifier |
| Upgrade.FieldsDecide | lkit-cli/src/commands/self.rs:570-573 | prereleases go by their first differing identifier, a proper prefix first |
| Upgrade.IdentifierDecides | lkit-cli/src/commands/self.rs:570-573 | numbers go by value and below text, text lexically |
| Upgrade.TextIsLexical | lkit-cli/src/commands/self.rs:570-573 | text is compared by its first differing character, a proper prefix first |
| Upgrade.NumericByCharacter | lkit-cli/src/commands/self.rs:641-644 | an identifier is numeric exactly when all its characters are decimal digits |
| Upgrade.NumericByValue | lkit-cli/src/commands/self.rs:639-651 | comparing numeric identifiers by length and then bytes is comparing their values, of any size |
| Upgrade.CandidatesByNumber | lkit-cli/src/commands/self.rs:639-651 | release candidates of one version are ordered by their number, whether spelled rcN or rc.N |
| Upgrade.NormalisedOnlyCandidates | lkit-cli/src/commands/self.rs:640-651 | only a prerelease of the form rcN is rewritten, and nothing else of the version |
| Upgrade.OneMore | lkit-cli/src/commands/self.rs:566-577 | looking at one more release keeps the first one of greatest precedence |
| Upgrade.EligibleExactly | lkit-cli/src/commands/self.rs:607-613 | who is eligible: no draft, a canonical version tag, a prerelease only if wanted and only with a digit at its end |
| Upgrade.BestBySemVer | lkit-cli/src/commands/self.rs:566-577 | the best release is preceded by every eligible one before it and precedes none, in the order of SemVer |
| Upgrade.LookAt | lkit-cli/src/commands/self.rs:566-577 | so does a page |
| Upgrade.FetchLatest | lkit-cli/src/commands/self.rs:556-588 | a choice is the first eligible release of greatest precedence over all pages up to the first short one within 100; the errors are exactly a full hundred pages, an unreadable page, and no eligible release |
| Upgrade.PagesOfListing | lkit-cli/src/commands/self.rs:556-564 | the pages of an unchanging listing put together are the listing |
| Upgrade.ChooseFrom | lkit-cli/src/commands/self.rs:556-588 | on a listing of fewer than 10000 releases the choice is its first release of greatest precedence, an error exactly when none is eligible |

## Left out

- ChaCha20-Poly1305, SHA-256, scrypt and the random generator are ideal: no collision, no guess, no forgery; what a run draws is fresh.
- smoltcp, the asynchronous channels and the notifier appear only by their contracts; the shared channel's capacity of 512 and the 64 KiB socket buffers are any capacity at all.
- Timing: keepalives, timeouts, the failure budget, poll deadlines; a wait is the frames that arrive before it ends.
- RelayLoop.Client.PumpAll: leaves out the first and last part of a pump, which seal and send the stack's packets; the record layer is proved by itself.
- RelayLoop.Client.Happens: leaves out the branches that receive link frames, send keepalives, shut down and add forwards, with the list of active forwards and their listeners; what they do to the stack is a move of the network.
- RelayLoop.Client.CloseConnections: leaves out the one-shot close signal; a bridge task may signal a close and return at any moment, so the signal adds no behaviour.
- No claim that received bytes reach the local socket when a connection is reaped: the task behind the channel runs concurrently.
- No claim that closes from a removed forward or a bridge that is gone flush anything: they are abrupt.
- RelayRuns.RunKeeps: counts at most 2^64 - 1 accepted connections, since a generation used twice could receive an old message.
- HandshakeRuns.StepKeeps: is about values, not session objects; the objects are tied to the same functions in Handshake. Plaintext NACKs need no step of their own, since the network can invent them.
- HandshakeRuns.ClientAgreesWithServer: insiders hold the psk and seal anything toward a server, but a server that does not follow the protocol is not among the parties.
- The server's own frame loop beyond what it does to one peer's handshake: interfaces, lockout counting, forgetting peers happens at any moment.
- Publisher.StableNeverDecreases: assumes that every GET returns an entity tag and that it matches only while the object is unchanged; PublisherTags.TagsDecide says that without tags it fails.
- Asset bytes are their hash and size; JSON, object metadata, cache headers, upload endpoints and configuration.
- Collecting local assets and the zstd check; the zip container format, an entry being what the zip library reports.
- Text of versions: a version is its parts, and a tag that is no canonical version has none.
- Rollback without a backup, the `.lkb` container format and its verification: a backup is the tree it unpacks to, and an unsafe or duplicate entry name is not part of this model.
- Rollback.Machine.WriteState: the recorded state is the version in use and its binary; hashes, service definition and time stamps are not modelled.
- Rollback.Unpack: takes the archive as the tree it unpacks to; the container, unsafe names and duplicate entries are not part of this model.
- Rollback.Attempts: what a service writes anywhere but in data, and a version run by hand where no service is managed, are not modelled.
- An I/O error of the file system: where the code reports it the attempt ends as in a crash; the two recursive removals whose error the code ignores (lkit-cli/src/backup/rollback.rs:93 and 256) are taken to succeed.
- Rollback.RebuildRelease: does not say what replaced-release holds, because a repeated attempt overwrites it.
- File permissions other than modes of files, parent directories created on the way, and the process number in temporary names.
- Choosing a release that is not a prerelease or has a pinned version: one request, and the check that it is the one asked for.
- The transaction engine, network interface editing, the terminal and web interfaces, mirror and software commands, logging and error texts.
