# YoAuthorize: a verified model

Two systems are modelled and proved.

**The local licensing protocol.** A client library talks to an authorization service over a Unix
socket. From the bottom up: a self-delimiting frame format (`Frames`) read and written through
partial transfers (`Streams`); symbolic primitives over concrete transcript bytes (`Crypto`);
messages (`Messages`); a numbered, encrypted record layer (`Records`); a signed key exchange with
version negotiation (`Handshakes`); the table of session slots (`Sessions`); the per-connection
server (`Connections`) and the service that runs many of them on one table (`Slots`); the client
library with its heartbeat thread (`Clients`, and `RequestIds` on the ids it sends); and all of it
together over a network that drops, repeats, reorders, alters and invents frames (`Agreement`), with
the completeness half in `Completeness`. `Negotiation` and `Answers` state what each side accepts and
answers in the fields of the messages, and `Timeliness` follows heartbeats over every run. Licenses
are issued by a C++ tool or the Rust service and validated by the authorization service (`Issuance`,
with the types in `Licensing`); `Grants` shows that what can be issued can be granted.
`MachineIdentity` is the identity a license is bound to.

**The remote activation ledger.** Codes, licenses, devices, activations and tokens change by
transactions (`Ledger`); what every run of them keeps is in `LedgerLaws`; `LedgerStore` has the
handlers as they update tables statement by statement and roll back; `Transactions` lets the
statements of many handlers interleave under row locks and proves that the result is a run of
atomic transactions. `ActivationRules` and `LedgerEffects` state what each handler does in the fields
of the rows, and `InterleavedEffects` carries it over to interleavings. Beside it are the rate
limiter (`RateLimit`) and the event socket (`EventCursor`).

Each stateful component appears twice: as a specification function over a value (for example
`Handle` for a connection, `Transact` for an activation), about which the laws are proved, and as
an object or a method with loops, proved to compute that function. `Bytes` holds the big-endian
arithmetic all encodings share, `Sets` a counting fact. `dafny verify dfyconfig.toml` checks the project.

## Assumptions the statements carry

- Cryptography is symbolic: an X25519 secret is the unordered pair of its public keys, and digests,
  HKDF outputs, Ed25519 signatures and ChaCha20-Poly1305 ciphertexts are constructor terms, so equal
  outputs have equal inputs. The network may hold any term it has seen or can make under keys of
  its own; it cannot make a ciphertext under keys derived between honest key pairs, nor a signature
  of the service. What is hashed, signed and authenticated is concrete bytes.
- In `MachineIdentity` the hash is a parameter, and freedom from collisions is assumed only on the
  inputs that the two collections in question hash.
- FlatBuffers is an abstract codec. A protocol buffer carries its envelope and the size its builder
  gave it; a license payload is bytes that a reader turns back into the fields that were written.
  `Grants.GrantIff` assumes a result needs at most 512 bytes besides 12 per feature and the feature
  texts.
- Random numbers, clocks, library failures, socket behaviour and the choices of the network are
  parameters of each step. The list of random session ids a call may draw ends in a failure when
  exhausted; the original would draw on.
- `Agreement` fixes the set of key pairs that honest parties generate, each used once, and one
  service identity, the only signing key its clients trust.
- `Slots` includes the sweep for inactive sessions, which the service never calls. Only after a
  sweep do its laws assume that a fresh session id differs from those still held.
- Activation codes are named by their hash, devices by their machine digest.

## Where the code differs from what one might expect

- The client hello and the finished message share request id 1, so the ids used on a connection are
  not pairwise distinct; `RequestIds.SharedRequestIds` shows that this is the only pair.
- When sealing an authorization answer fails, the connection closes but reports the decision's
  error and not the sealing error; `Connections.CleanCloseIff` says exactly when no error at all is
  reported, and `Connections.FailedSealReportsNothing` is an instance.
- Every unique violation of the activation insert is ACTIVATION_CONFLICT, the primary key's
  included. `LedgerLaws.ConflictIff` shows that the primary key is the only index that ever fires,
  and `LedgerLaws.TakenIdConflicts` gives an input where it does.
- A fixed-window limiter lets through up to twice its limit in one window length. The bound is
  proved for both closed and half-open intervals, and each is shown to be attained.
- Outbox ids are drawn before commits are ordered, so a row can become visible behind an event
  socket's cursor; it is then never delivered. `EventCursor.NoGapIff` gives the exact condition and
  `EventCursor.GapExample` an instance.
- The Rust issuer accepts product ids and features of up to 1024 bytes, which the local protocol
  cannot carry. `Grants.RemoteGrantIff` shows that such a license can be granted exactly when its
  product has at most 255 bytes and no feature more than 128; `Grants.LongProductNotGrantable` and
  `Grants.LongFeatureNotGrantable` are instances of the two failures.

## Model

| member | source | states |
|---|---|---|
| Frames.FrameCodecExact | src/ya_license_protocol/src/frame.cpp:51-103 | decodeFrame succeeds on bytes with a header and payload if and only if the bytes are encodeHeader of that header followed by that payload and the header is in range and announces its size |
| Frames.HeaderInjective | src/ya_license_protocol/src/frame.cpp:51-60 | distinct headers encode differently, so authenticating a header authenticates its fields |
| Frames.DecodeEncoded | src/ya_license_protocol/src/frame.cpp:62-90 | an encoded header decodes, to itself, exactly when version, flags and size are acceptable |
| Frames.HeaderLayout | src/ya_license_protocol/src/frame.cpp:8-60 | the twenty bytes of a header, literally, and the range a receiver accepts |
| Frames.HeaderRefusals | src/ya_license_protocol/src/frame.cpp:62-90 | the error for each first fault of a header |
| Frames.WriteBigEndian | src/ya_license_protocol/src/frame.cpp:11-26 | the shifting loops write the big-endian value in place and touch nothing else |
| Frames.ReadBigEndian | src/ya_license_protocol/src/frame.cpp:28-48 | the accumulating loops read the value back |
| Frames.FillHeader | src/ya_license_protocol/src/frame.cpp:51-60 | the header written field by field into its buffer is the encoding |
| Streams.FramesOfFlatten | src/ya_license_service/src/service.cpp:58-79 | the bytes of any list of valid frames, followed by anything, read back as exactly those frames |
| Streams.FlattenInjective | src/ya_license_service/src/service.cpp:58-79 | two lists of valid frames with the same bytes are the same list |
| Streams.Socket.ReadExact | src/ya_license_transport/src/unix_socket.cpp:285-312 | under every schedule of chunk sizes and interruptions the buffer is filled with the next bytes of the stream, which it consumes; end of file only when too few were sent |
| Streams.Socket.WriteAll | src/ya_license_transport/src/unix_socket.cpp:314-341 | under every schedule all bytes are sent in order; on a fault a prefix of them |
| Streams.Socket.ReadFrame | src/ya_license_service/src/service.cpp:58-79 | takes exactly the frame at the front of the stream, or nothing when there is none or the socket failed |
| Streams.Socket.ReadFrames | src/ya_license_service/src/service.cpp:58-79 | repeated reading gives the frames of the stream whatever the chunking, and never more than a prefix of them on a fault |
| Crypto.TranscriptInjective | src/ya_license_crypto/src/handshake.cpp:42-62 | the encoded transcript determines every field despite the variable-length key id |
| Crypto.BuildTranscript | src/ya_license_crypto/src/handshake.cpp:14-62 | the appending construction gives the transcript bytes, or nothing for an empty or oversized key id |
| Crypto.KeysDetermineTranscript | src/ya_license_crypto/src/handshake.cpp:64-93 | a traffic key identifies the whole transcript and the direction |
| Crypto.FillNonce | src/ya_license_crypto/src/handshake.cpp:95-103 | the loop fills the eight counter bytes with the sequence number |
| Crypto.NonceInjective | src/ya_license_crypto/src/handshake.cpp:95-103 | under one salt, different sequence numbers give different nonces |
| Messages.CopyFeatures | src/ya_license_protocol/src/messages.cpp:101-114 | the copying loop with the length comparison yields the features exactly when count and every length are within limits |
| Messages.MessageRoundTrip | src/ya_license_protocol/src/messages.cpp:129-431 | every encodable message decodes to itself, and through no decoder to anything else |
| Messages.DecodedIsEncodable | src/ya_license_protocol/src/messages.cpp:129-431 | whatever a decoder accepts its encoder could have sent, and no buffer is two messages |
| Messages.WireLimits | src/ya_license_protocol/src/messages.cpp:15-431 | when each message encodes, in numbers |
| Records.OpenSealed | src/ya_license_protocol/src/record.cpp:30-94 | opening undoes sealing when both ends are at the same number |
| Records.OrderedDelivery | src/ya_license_protocol/src/record.cpp:30-94 | for any interleaving of seals with dropped, repeated, reordered, altered or forged deliveries: accepted plaintexts are a prefix of the sealed ones, the next expected frame is always accepted, and no nonce repeats up to the 64-bit bound |
| Records.RecordWriter.Seal | src/ya_license_protocol/src/record.cpp:30-62 | the method computes SealRecord: number, header as associated data, and no advance on failure |
| Records.RecordReader.Open | src/ya_license_protocol/src/record.cpp:71-94 | the method computes OpenRecord: advance only on an authentic frame with the expected number |
| Handshakes.ServerStaysConsistent | src/ya_license_protocol/src/handshake.cpp:166-284 | keys are present exactly while the exchange is under way or done, the signing key exactly before it, only a fresh handshake signs, Failed is absorbing |
| Handshakes.ClientStaysConsistent | src/ya_license_protocol/src/handshake.cpp:31-164 | the same for the client end |
| Handshakes.SelectsLargestCommon | src/ya_license_protocol/src/handshake.cpp:193-198 | the version selected is in both ranges and no larger one is |
| Negotiation.ClientAcceptsIff | src/ya_license_protocol/src/handshake.cpp:80-152 | a client goes on if and only if the hello answers its request in its range, signed by a trusted key over exactly its transcript; then its keys, by label, and record 1 are as stated |
| Negotiation.ClientRefusals | src/ya_license_protocol/src/handshake.cpp:80-122 | the error for each first fault of a server hello |
| Negotiation.ServerAnswersIff | src/ya_license_protocol/src/handshake.cpp:182-250 | a service answers if and only if it is fresh and the ranges overlap; then the signed hello, the keys and the expected hash are as stated |
| Negotiation.ServerFinishesIff | src/ya_license_protocol/src/handshake.cpp:252-272 | a service is established if and only if record 1 carries its own request id, version and transcript hash |
| Handshakes.ClientHandshake.Start | src/ya_license_protocol/src/handshake.cpp:48-78 | the method computes ClientStart |
| Handshakes.ClientHandshake.HandleServerHello | src/ya_license_protocol/src/handshake.cpp:80-152 | the method computes ClientReceiveHello, each refusal in the order of the code |
| Handshakes.ServerHandshake.HandleClientHello | src/ya_license_protocol/src/handshake.cpp:182-250 | the method computes ServerReceiveHello: at most one signature, then keys and the expected transcript hash |
| Handshakes.ServerHandshake.HandleClientFinished | src/ya_license_protocol/src/handshake.cpp:252-272 | the method computes ServerReceiveFinished |
| Agreement.HandshakeAgreement | src/ya_license_protocol/src/handshake.cpp:80-250 | in every run over an arbitrary network, an established client's transcript was signed by exactly one connection, under the client's true version range, at the largest common version, with crosswise equal keys |
| Agreement.GrantAgreement | src/ya_license_sdk/src/client.cpp:136-187 | in every run, a Valid client holds the session that exactly one connection of the trusted service granted it for its product, publishes that license's features and expiry, and the license was unexpired on the service's clock at the grant |
| Completeness.HonestRunReachesValid | src/ya_license_sdk/src/client.cpp:99-190 | for every compatible client and service there is a run from nothing that ends with an active connection and, exactly when the heartbeat interval is positive and below the timeout, a Valid client with its session and the license's features and expiry |
| Completeness.HonestHeartbeatsKeepValid | src/ya_license_sdk/src/client.cpp:247-302 | with any number of heartbeats at moments when the license has not expired, there is a run that leaves the client Valid with the license's features and the connection active |
| Completeness.HonestShutdownReturnsSlot | src/ya_license_sdk/src/client.cpp:192-218 | however long the session, shutdown closes client and connection and returns the slot |
| Timeliness.AckAgreement | src/ya_license_sdk/src/client.cpp:270-302 | in every run over an arbitrary network, a client Valid after an acknowledgement got it from the one connection it shares a transcript with, for the heartbeat it waited for, sent while the license was unexpired on the service's clock |
| Sessions.CreateCounts | src/ya_license_core/src/session.cpp:18-51 | a session is created exactly for a named product and peer with a slot free and a fresh id drawn; it adds one to its product's count and nothing to others, within the limit |
| Sessions.OthersNeverRaiseCounts | src/ya_license_core/src/session.cpp:53-77 | heartbeat, close and expiry never raise any product's count |
| Sessions.TableEffects | src/ya_license_core/src/session.cpp:53-77 | a heartbeat moves its own session's time only; a sweep drops exactly the sessions silent for the timeout |
| Sessions.SessionManager.CreateSession | src/ya_license_core/src/session.cpp:18-51 | the counting loop and the retry loop compute Create |
| Sessions.SessionManager.ExpireInactive | src/ya_license_core/src/session.cpp:69-77 | the erasing loop leaves exactly the sessions that are not stale and reports how many went |
| Connections.HandleKeeps | src/ya_license_service/src/connection.cpp:52-218 | every frame keeps: a session is held exactly when Active, the handshake state matches the phase, phases only move forward, Closed is absorbing |
| Connections.AcceptedInputsInOrder | src/ya_license_service/src/connection.cpp:52-199 | for every frame sequence, a connection still open was fed hello, finished, authorize for the licensed product, then only heartbeats for its own session, as consecutive records |
| Connections.CleanCloseIff | src/ya_license_service/src/connection.cpp:99-211 | in every phase, a frame closes the connection with no error and no answer if and only if it is a close message of an active connection in the agreed version, or a grantable request whose answer cannot be sealed |
| Connections.FailedSealReportsNothing | src/ya_license_service/src/connection.cpp:139-149 | a grantable request under a failing cipher: closed, slot returned, no error reported |
| Connections.CleanRunInOrder | src/ya_license_service/src/connection.cpp:52-211 | every run that ends in a clean close is hello, finished, authorize, heartbeats and then, as the next record, the close message (or is such a request whose answer failed to seal) |
| Connections.StaysClosed | src/ya_license_service/src/connection.cpp:52-56 | once closed a connection stays closed whatever arrives |
| Answers.HeartbeatAnswered | src/ya_license_service/src/connection.cpp:151-190 | a good heartbeat is acknowledged with its request id, as valid (1) if and only if the license has no expiry or it is still to come, staying active with its slot touched, and otherwise as expired (3), closed, its slot returned |
| Answers.StrayHeartbeat | src/ya_license_service/src/connection.cpp:156-168 | a heartbeat in another version, for another session or without its slot closes unanswered and returns the slot |
| Answers.GrantAnswered | src/ya_license_service/src/connection.cpp:99-149 | a request for the licensed product, in time and with a slot free: the slot taken, the answer and the record numbers, exactly |
| Answers.RefusalAnswered | src/ya_license_service/src/connection.cpp:117-149 | any other request is answered with 2007, 2005 or 3003 by its first fault, the connection closed and no slot taken |
| Answers.CloseReasons | src/ya_license_service/src/connection.cpp:52-199 | the error that closes a connection unanswered, by phase and first fault |
| Connections.Connection.HandleFrame | src/ya_license_service/src/connection.cpp:52-78 | the method on the object and the shared table computes Handle |
| Connections.Connection.ReceiveAuthorize | src/ya_license_service/src/connection.cpp:99-149 | the method computes HandleAuthorize, releasing the slot when the answer cannot be encoded or sealed |
| Connections.Connection.ReceiveActive | src/ya_license_service/src/connection.cpp:151-199 | the method computes HandleActive: heartbeats, expiry, close and everything else |
| Connections.Connection.Destroy | src/ya_license_service/src/connection.cpp:50 | destruction gives the slot back |
| Slots.HandleEffect | src/ya_license_service/src/connection.cpp:52-218 | a frame changes the shared table only in the connection's own slot: takes one when it becomes active, touches it, or releases it |
| Slots.NoSlotLeak | src/ya_license_core/src/session.cpp:18-77 | in every run of any number of interleaved connections each table entry is owned by exactly one live active connection, the quota holds, and when all connections are closed or gone the table is empty |
| Slots.Serve | src/ya_license_service/src/service.cpp:147-174 | the loop writes exactly the connection's answers in turn, and whatever the peer does the table ends as it began |
| Clients.EventAdvances | src/ya_license_sdk/src/client.cpp:99-308 | every event of initialize, shutdown or the heartbeat thread keeps the client's invariant and only moves its state forward |
| Answers.InitializeTaken | src/ya_license_sdk/src/client.cpp:99-116 | initialize dials exactly once and exactly with a complete configuration |
| Answers.DialTaken | src/ya_license_sdk/src/client.cpp:118-132 | when the hello goes out, its content, and that any failure gives up with an error |
| Answers.HelloTaken | src/ya_license_sdk/src/client.cpp:140-158 | the finished message, then the request with its content, then the wait; any failure gives up with an error |
| Answers.HelloRefused | src/ya_license_sdk/src/client.cpp:130-140 | a missing, unreadable or unacceptable server hello gives up and sends nothing |
| Answers.ResultPublished | src/ya_license_sdk/src/client.cpp:159-190 | exactly a result for request 2 in the agreed version with error 0, a session and sensible times makes the client Valid, with what it carries; anything else is an error |
| Answers.AckPublished | src/ya_license_sdk/src/client.cpp:247-308 | the awaited acknowledgement publishes Valid, Grace, Expired, Revoked or Error for 1, 2, 3, 4 and the rest, its features exactly when valid; anything else is an error and ends the thread |
| Answers.BeatSent | src/ya_license_sdk/src/client.cpp:256-267 | a beat is the next record, with the session and the next request id |
| Answers.BeatFails | src/ya_license_sdk/src/client.cpp:262-308 | a beat that cannot be sealed or written publishes an error and ends the thread |
| Answers.FarewellSent | src/ya_license_sdk/src/client.cpp:192-218 | shutdown sends the close message when there is a channel and leaves nothing behind |
| Clients.Lifecycle | src/ya_license_sdk/src/client.cpp:99-308 | under every interleaving: features imply Valid, a client that left Valid never returns, nothing changes and nothing is sent after shutdown |
| RequestIds.SharedRequestIds | src/ya_license_sdk/src/client.cpp:99-308 | over every run, two of all the frames a client sends carry the same request id if and only if they are the hello and the finished message, its first two |
| RequestIds.HelloAndFinishedCollide | src/ya_license_sdk/src/client.cpp:124-141 | in every run that gets so far the hello and the finished message both carry request id 1 |
| Completeness.HonestRunSharesAnId | src/ya_license_sdk/src/client.cpp:124-158 | such a run exists for every compatible client and service; its third frame has another id |
| Issuance.SigningInputInjective | src/ya_license_core/src/license.cpp:28-41 | the signed bytes determine version, key id and payload |
| Issuance.DomainsSeparate | src/ya_license_core/src/license.cpp:15 | no license signing input equals a handshake transcript |
| Issuance.AppendSigningInput | src/ya_license_core/src/license.cpp:17-41 | the validator's appends (and the issuer's, which are the same statements) give the signing input |
| Issuance.SigningMessage | remote/backend/crates/license-format/src/lib.rs:130-142 | the Rust construction gives the same bytes for version 1, exactly when the lengths fit |
| Issuance.CheckDefinition | tools/license_generator/issuer.cpp:30-53 | accepts exactly the definitions within the issuer's limits |
| Issuance.IssueLicense | tools/license_generator/issuer.cpp:57-109 | refuses invalid input, reports a signing failure, and otherwise packages the payload with a signature over its signing input |
| Issuance.Generate | remote/backend/crates/license-format/src/lib.rs:144-170 | generates exactly for valid definitions, fitting key ids and packages within 1 MiB |
| Issuance.IssuerLimits | tools/license_generator/issuer.cpp:16-53 | the C++ issuer's limits, in numbers |
| Issuance.RemoteLimits | remote/backend/crates/license-format/src/lib.rs:48-84 | the Rust issuer's limits, in numbers |
| Issuance.ExaminedIff | src/ya_license_core/src/license.cpp:96-166 | any payload is admitted exactly under these conditions on its fields, as these fields |
| Issuance.CollectFeatures | src/ya_license_core/src/license.cpp:156-164 | the loop copies the features, or refuses exactly when one is empty |
| Issuance.IssuedValidates | src/ya_license_core/src/license.cpp:61-167 | a C++-issued license validates to exactly its definition if and only if the package fits, the key is trusted and right, product and bound machine match and the time is in range; otherwise the first failing condition is the error |
| Issuance.GeneratedValidates | remote/backend/crates/license-format/src/lib.rs:48-170 | the same for the Rust issuer, trials included |
| Issuance.GeneratedVerifies | remote/backend/crates/license-format/src/lib.rs:172-200 | verify accepts a generated package under its own key id and key and under no other |
| Issuance.VerifiedIsExamined | remote/backend/crates/authorization-api/src/routes.rs:961-962 | a package the service verified passes every format, key and signature check of a validator that trusts its key |
| Issuance.OnlyIssuedValidate | src/ya_license_core/src/license.cpp:61-167 | if the trusted keys signed only issued definitions, whatever validates is one of them, in force, for this product and machine |
| Grants.GrantIff | src/ya_license_service/src/connection.cpp:99-149 | with a free slot and an unexpired license, an established client's request is granted, and the client decodes the license's own features and expiry, exactly when the features fit the wire; otherwise the slot is returned |
| Grants.GrantComplete | tools/license_generator/issuer.cpp:30-53 | every license of the C++ issuer is grantable, with the features of its definition |
| Grants.GrantableIff | src/ya_license_protocol/src/messages.cpp:246-341 | some request for the licensed product encodes and is granted if and only if the product has at most 255 bytes and the features fit the wire |
| Grants.RemoteGrantIff | remote/backend/crates/license-format/src/lib.rs:48-84 | a Rust-issued license is grantable if and only if its product has at most 255 bytes and no feature more than 128 |
| Grants.LongProductNotGrantable | remote/backend/crates/license-format/src/lib.rs:48-55 | a 300-byte product that the Rust issuer accepts: no request for it encodes |
| Grants.LongFeatureNotGrantable | remote/backend/crates/license-format/src/lib.rs:56-67 | a 200-byte feature that the Rust issuer accepts: the request is refused and its slot returned |
| MachineIdentity.TrimAscii | src/ya_license_core/src/machine_identity.cpp:43-51 | the two loops compute Trim |
| MachineIdentity.TrimParts | src/ya_license_core/src/machine_identity.cpp:43-51 | only leading and trailing spaces are cut, and none remain at the ends |
| MachineIdentity.NormalizeId | src/ya_license_core/src/machine_identity.cpp:53-62 | exactly 32 hex digits, lowered |
| MachineIdentity.NormalizeUuid | src/ya_license_core/src/machine_identity.cpp:64-86 | exactly the hyphenated shape, as its five groups of digits, lowered |
| MachineIdentity.MachineIdExact | src/ya_license_core/src/machine_identity.cpp:53-62 | which texts are machine ids and what their normal form is, character by character |
| MachineIdentity.ProductUuidExact | src/ya_license_core/src/machine_identity.cpp:64-86 | the same for product UUIDs |
| MachineIdentity.ReadComponent | src/ya_license_core/src/machine_identity.cpp:132-162 | the status of a component, and its normal form appended when available |
| MachineIdentity.HexDigest | src/ya_license_core/src/machine_identity.cpp:121-130 | the loop computes Hex |
| MachineIdentity.HexInjective | src/ya_license_core/src/machine_identity.cpp:121-130 | different digests have different hex texts |
| MachineIdentity.TranscriptInjective | src/ya_license_core/src/machine_identity.cpp:109-119 | the identity transcript determines the names and digests in it |
| MachineIdentity.CollectIdentity | src/ya_license_core/src/machine_identity.cpp:166-230 | the method computes Collect: statuses, sufficiency, and the digest of the transcript |
| MachineIdentity.IdentityCanonical | src/ya_license_core/src/machine_identity.cpp:166-230 | two successful collections give the same id if and only if the same components are available with equal normal forms |
| MachineIdentity.IdentityExistsIff | src/ya_license_core/src/machine_identity.cpp:188-201 | an id exists exactly when every required component and at least one is available, unless hashing fails |
| MachineIdentity.TrimIgnoresSpace | src/ya_license_core/src/machine_identity.cpp:43-51 | whitespace put before or after any text changes nothing |
| MachineIdentity.IgnoresCaseAndSpace | src/ya_license_core/src/machine_identity.cpp:26-86 | files that are the same text up to ASCII case, with any whitespace before and after it, give the same statuses, error or id |
| Ledger.ActivateKeeps | remote/backend/crates/authorization-api/src/routes.rs:818-969 | an activation keeps the ledger sound: counts, links, limits, unique bindings and keys, revoked tokens |
| Ledger.UnbindKeeps | remote/backend/crates/authorization-api/src/routes.rs:415-457 | so does unbinding any set of an owner's rows |
| Ledger.CreateCodesKeeps | remote/backend/crates/authorization-api/src/routes.rs:727-781 | so does creating codes, linked or not |
| Ledger.CreateLicenseKeeps | remote/backend/crates/authorization-api/src/routes.rs:626-665 | so does creating a license |
| Ledger.UpdateLicenseKeeps | remote/backend/crates/authorization-api/src/routes.rs:673-706 | so does a status change |
| LedgerEffects.StatusExact | remote/backend/crates/authorization-api/src/routes.rs:673-706 | a status change sets that license's status and nothing else, and queues exactly one event of the right topic for each of its bound rows |
| LedgerEffects.RevocationHolds | remote/backend/crates/authorization-api/src/routes.rs:673-706 | over every run, from a revocation until the next status change every request with a code of that license is refused, as revoked if nothing else is wrong |
| InterleavedEffects.InterleavedRevocation | remote/backend/crates/authorization-api/src/routes.rs:673-706 | the same in every interleaving |
| LedgerEffects.CodesExact | remote/backend/crates/authorization-api/src/routes.rs:727-781 | when codes are created, and each new code's product, link, limit, expiry and flags |
| LedgerEffects.LicenseExact | remote/backend/crates/authorization-api/src/routes.rs:626-665 | when a license is created, and its row |
| ActivationRules.ActivatedIff | remote/backend/crates/authorization-api/src/routes.rs:818-1013 | a request succeeds if and only if, in the fields of the rows, it is well formed and admitted, its code open, its license live and in force at both clocks, and a row serves it: the key's, the device's, or a new one within both limits and with free ids |
| ActivationRules.ActivatedResult | remote/backend/crates/authorization-api/src/routes.rs:863-1013 | the tables after a success, row by row: one live token for the serving row, a new row counted once, nothing else |
| ActivationRules.EarlyRefusals | remote/backend/crates/authorization-api/src/routes.rs:822-862 | the error for each first fault before the license is read |
| ActivationRules.LicenseRefusals | remote/backend/crates/authorization-api/src/routes.rs:879-887 | revoked, not yet valid or expired, by the license's fields |
| ActivationRules.RowRefusals | remote/backend/crates/authorization-api/src/routes.rs:888-963 | the error for each first fault of the key, the binding, the limits and the drawn id |
| ActivationRules.FinalRefusals | remote/backend/crates/authorization-api/src/routes.rs:971-999 | the recheck on the wall clock and the token id |
| ActivationRules.FinishTests | remote/backend/crates/authorization-api/src/routes.rs:971-999 | finish_activation on a bound row: a token exactly when the license is in force on the wall clock and the token id is free, and otherwise the error of the first fault |
| ActivationRules.FinishUnbound | remote/backend/crates/authorization-api/src/routes.rs:982-990 | finish_activation refuses an unbound row |
| Ledger.Conservation | remote/backend/crates/authorization-api/src/routes.rs:863-916 | in a sound ledger a license's codes together count exactly its active devices, within its limit |
| LedgerLaws.EmptySound | remote/backend/crates/authorization-api/migrations/0001_initial.sql:58-127 | the empty tables are sound, so runs can start from them |
| LedgerLaws.ActivationConservation | remote/backend/crates/authorization-api/src/routes.rs:415-967 | in every reachable committed state: each code counts its bound activations within 0 and its limit, its link is set once, per-license sums are the active devices within the limit, at most one binding per license and device, no live token on an unbound activation |
| LedgerLaws.Replay | remote/backend/crates/authorization-api/src/routes.rs:888-898 | a request that repeats a code and key fails with the ledger unchanged, or returns the stored blob and adds exactly one token |
| LedgerLaws.ConflictIff | remote/backend/crates/authorization-api/src/routes.rs:963 | a request is refused with ACTIVATION_CONFLICT if and only if it reaches the insert with an activation id that already exists; the binding and idempotency indexes never fire |
| LedgerLaws.TakenIdConflicts | remote/backend/crates/authorization-api/src/routes.rs:1286-1288 | a sound ledger and a request that draws a taken activation id: the answer is ACTIVATION_CONFLICT |
| LedgerLaws.NeverDeviceLimited | remote/backend/crates/authorization-api/src/routes.rs:863-916 | over a whole run, a code whose auto-created license no other code is given is never refused with DEVICE_LIMIT |
| LedgerStore.Store.Activate | remote/backend/crates/authorization-api/src/routes.rs:818-969 | the handler's statements on the tables commit or roll back to exactly the atomic result, with its answer |
| LedgerStore.Store.FinishActivation | remote/backend/crates/authorization-api/src/routes.rs:971-1013 | rechecks, then one token, or everything undone |
| LedgerStore.Store.UnbindDevice | remote/backend/crates/authorization-api/src/routes.rs:408-457 | a row is unbound if and only if it was bound, to that device, under a license of that user; NOT_FOUND if and only if there is none; the row-by-row loop equals the unbind of the whole set |
| LedgerEffects.UnbindExact | remote/backend/crates/authorization-api/src/routes.rs:415-445 | rows, tokens, counts and events after an unbind, field by field; nobody else's change |
| InterleavedEffects.ReleaseChangesOwned | remote/backend/crates/authorization-api/src/routes.rs:415-445 | in every interleaving an unbind changes exactly the rows it locked, each a bound row of its device under a license of its user |
| LedgerStore.SettlingIsUnbinding | remote/backend/crates/authorization-api/src/routes.rs:427-445 | settling rows one by one in any order equals removing the set at once |
| LedgerStore.Store.CreateBatch | remote/backend/crates/authorization-api/src/routes.rs:727-781 | the insert loop adds all codes or, at the first clash, none |
| Transactions.AdvanceIsAtomic | remote/backend/crates/authorization-api/src/routes.rs:818-1013 | every statement of an activation either reads further facts, or answers what the atomic handler would answer on the rows committed at that moment |
| Transactions.FactsStable | remote/backend/crates/authorization-api/src/routes.rs:853-916 | what an activation has read under its locks stays true across any commit that touches only rows others have locked |
| Transactions.UnbindIsAtomic | remote/backend/crates/authorization-api/src/routes.rs:415-445 | counts and tokens read row by row under lock make the commit the atomic unbind of those rows |
| Transactions.StepSerial | remote/backend/crates/authorization-api/src/routes.rs:408-1013 | every step of any interleaving keeps the lock invariant, changes the ledger as one legal atomic transaction or not at all, and answers as the atomic handler would |
| Transactions.InterleavingIsSerial | remote/backend/crates/authorization-api/src/routes.rs:408-1013 | the committed rows of every interleaving are those of a run of atomic transactions |
| Transactions.InterleavedConservation | remote/backend/crates/authorization-api/src/routes.rs:408-1013 | the whole conservation law at every moment of every interleaving: counts, both limits, links set once, unique bindings, revoked tokens |
| Transactions.InterleavedNeverDeviceLimited | remote/backend/crates/authorization-api/src/routes.rs:863-916 | in every interleaving, a code whose auto-created license no other code is given is never refused with DEVICE_LIMIT |
| Transactions.InterleavedConflictIff | remote/backend/crates/authorization-api/src/routes.rs:963 | in every interleaving, a refusal is ACTIVATION_CONFLICT if and only if the request was at its insert and had drawn the id of a committed activation |
| Transactions.InterleavedReplay | remote/backend/crates/authorization-api/src/routes.rs:888-898 | in every interleaving, granting a repeated code and key returns the stored blob and changes nothing but one new token |
| RateLimit.WindowBound | remote/backend/crates/authorization-api/src/routes.rs:1177-1203 | for any timed requests, at most twice the limit in any closed interval one window long, one fewer in a half-open one |
| RateLimit.WindowBoundAttained | remote/backend/crates/authorization-api/src/routes.rs:1177-1203 | both bounds are reached for every limit |
| RateLimit.LifetimeExact | remote/backend/crates/authorization-api/src/routes.rs:1177-1203 | in one counter lifetime exactly the first requests up to the limit pass |
| RateLimit.LifetimeLength | remote/backend/crates/authorization-api/src/routes.rs:1177-1203 | a lifetime ends exactly one window after the hit that opened it |
| RateLimit.KeysIndependent | remote/backend/crates/authorization-api/src/routes.rs:1205-1210 | a key's counter depends on its own requests only |
| RateLimit.Limiter.Enforce | remote/backend/crates/authorization-api/src/routes.rs:1170-1204 | one call changes one counter as the script does and accepts exactly within the limit |
| EventCursor.DeliveryIncreasing | remote/backend/crates/authorization-api/src/routes.rs:1033-1069 | on one socket delivered ids are strictly increasing, the farewell batch included, whatever becomes visible when |
| EventCursor.NoGapIff | remote/backend/crates/authorization-api/src/routes.rs:1056-1064 | while authorised, what was delivered is a prefix of the matching rows if and only if no row became visible after the cursor had passed its id |
| EventCursor.NoGapInIdOrder | remote/backend/crates/authorization-api/src/routes.rs:1056-1064 | so there is no gap when rows become visible in id order |
| EventCursor.GapExample | remote/backend/crates/authorization-api/src/routes.rs:1056-1064 | a row that appears behind the cursor is missed |
| EventCursor.BatchProgress | remote/backend/crates/authorization-api/src/routes.rs:1056-1064 | with rows in id order, each successful turn extends the prefix by a hundred rows or to the end |
| EventCursor.Farewell | remote/backend/crates/authorization-api/src/routes.rs:1045-1054 | after the parting batch every visible license.revoked and device.unbound row of the activation has been delivered, if at most a hundred were waiting |
| EventCursor.MatchesIff | remote/backend/crates/authorization-api/src/routes.rs:1056 | the rows an activation is told about are its own with one of the four topics, by their texts |
| EventCursor.SentTopics | remote/backend/crates/authorization-api/src/routes.rs:1045-1064 | whatever a turn sends is such a row past the cursor; once unauthorised, only license.revoked and device.unbound |
| EventCursor.LiveIff | remote/backend/crates/authorization-api/src/routes.rs:1036-1066 | when a socket stays live |
| EventCursor.EventSocket.Serve | remote/backend/crates/authorization-api/src/routes.rs:1033-1069 | the loop body with its send loops computes Step |

## Left out

- Clients: the SDK is modelled on values, as a state machine over its events, because two threads share its fields; the mutexes, the condition variable and torn reads between locked sections are not modelled.
- Sessions.SessionManager: its lock is not modelled; each method is one step.
- Transactions: administrative handlers are single steps, guarded by the license row they change; the token insert, the last recheck and the commit of an activation are one step, since every row they read is locked; deadlock victims are aborts; the device row's own lock is not modelled (it only rules out interleavings).
- Transactions: an unbind that runs beside other transactions removes the matching rows it locked; a row bound after its statement began stays.
- Ledger.CreateCodes: code texts, hints and the license's own features are not modelled, nor audit rows; signing is one optional blob.
- RateLimit: the 64-bit limit of Redis integers is not modelled, nor several limiters failing in sequence (their verdict is one flag of the ledger's environment).
- EventCursor: payload bodies, pings and the fifteen-second timer are not modelled beyond whether a send succeeds.
- MachineIdentity: reading the files, with its 4096-byte cap, is not modelled; sorting two components by name is the order in which they are read.
- Issuance: the key id and payload sizes are those of the builders; string encodings are bytes.
- The error message type of the protocol (encodeError, decodeError), which neither end sends in the modelled code.
- Sockets, deadlines, cancellation, peer credentials, configuration and key files.
- Erasing keys from memory, beyond their no longer being used.
- Accounts, login, cookies, mail, listings, OpenAPI, the frontend, the sample and manager applications, deployment, and the legacy utility modules: they would add only easy members.
