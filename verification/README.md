# JeanGrey: a verified model

JeanGrey is a two-party post-quantum messenger. Two devices exchange Hello, KemOffer,
KemResponse, Auth and Ready over a byte stream, derive a session, and then exchange encrypted
messages, acknowledgements and control frames; a node finds peers through signed address
records in a DHT. This project models that core in Dafny and proves what it promises, for
every input, every interleaving or every run.

Verify everything with `dafny verify dfyconfig.toml`.

## How it is built

| module | part of the program |
|---|---|
| `ByteStrings`, `Lists`, `Library` | byte strings; lists without duplicates; the cryptographic and codec libraries as a record of functions |
| `Framing`, `Stream`, `Wire` | the frame codec; the connection handler and one direction of a byte stream; two handlers and the bytes between them |
| `Handshake`, `HandshakeOrder`, `HandshakePair` | the handshake; one side fed anything; two honest sides over FIFO channels |
| `Agreement`, `Reflection`, `KeyBinding` | many handshakes and records with an adversary delivering any frame; a device that meets itself; what the derived keys depend on |
| `Session`, `SessionRuns`, `SessionChecks` | the session; its counters, nonces and what it can ever yield; its refusals and its window |
| `Registry`, `Behaviour` | the session behaviour as functions and as the object |
| `Ledger`, `SessionLifetime`, `Connections`, `Limits` | texts are framed at most once; what ends or replaces a session; what is remembered and reported of connections; what the behaviour does not promise, and exactly when |
| `Conversation`, `EndToEnd`, `Delivery`, `Quiescence` | two whole nodes on one connection |
| `Consistency` | the hypotheses about libraries and honest nodes can be met |
| `Records`, `Addresses`, `Publication` | signed address records; the addresses a node publishes; when its record falls behind |
| `Lookups`, `Rediscovery`, `RecordCache`, `Reconnection` | lookups and cached records: their invariants and bounds, and what they must do |
| `Candidates`, `Attempts`, `Probes` | observed addresses and dial-back, on both sides |

Code that changes fields in place is a class here (`SessionHandler`, `Handshake`, `Session`,
`SessionBehaviour`, `LookupScheduler`, `Reconnector`, `CandidateTable`, `ProbeTable`,
`AddressBook`). Each method is proved to take the object's state to the value a specification
function gives, and the theorems are about those functions, since runs and schedules
quantify over values.

Cryptography is symbolic. `Library` holds the primitives as functions; correctness (a
signature verifies, decapsulation inverts encapsulation, opening inverts sealing, codecs
round-trip) is the predicate `Correct`. Ideal behaviour is a condition on a run: a signature
that verifies under an honest key must have been made (`Agreement`), a ciphertext that opens
must have been sealed (`SessionRuns`), and no two of the transcripts actually hashed, and no two of the HKDF inputs that occur
(`KeyBinding`), collide.
They speak only about what occurs in the run. `Consistency.HonestNodesExist` builds a (toy)
library and two nodes that meet every hypothesis of the end-to-end theorems.

The main theorems are `HandshakePair.HandshakeCompletes`, `Delivery.EndToEndDelivery` with
`Quiescence.DeliveriesBounded`, `Agreement.EstablishedAgrees`,
`SessionRuns.YieldsPrefixOfSealed`, `SessionRuns.NoncesNeverRepeat`,
`Stream.ReaderEmitsQueuedFrames`, `Ledger.NoTextFramedTwice`, `HandshakeOrder.AcceptedOrder`,
`Candidates.ValidatedMeansLastVerdictPositive`, `Attempts.AttemptsAreRefusals`,
`Limits.PanicsExactly`, `SessionLifetime.SessionFate`, `Lookups.QueriesBounded`,
`KeyBinding.SessionIdBindsSecrets`, `Reconnection.LostPeerIsQueriedAgain`,
`Reflection.ReflectionEstablishes`, `Records.VerifiesExactly` and `RecordCache.CacheHoldsVerifiedRecords`.

Where the program and `docs/protocol.md` disagree (a 5-byte header at line 29, random nonces
at line 131, the key schedule at line 158), the model follows the program.

## Model

| member | source | states |
|---|---|---|
| `Framing.Encode` | src/framing.rs:128-140 | The field-by-field encoder produces the 37-byte header followed by the payload. |
| `Framing.CodeOfType` | src/framing.rs:45-58 | A byte that names a message type is the code of that type. |
| `Framing.DecodeEncoding` | src/framing.rs:128-196 | An encoded frame, whatever bytes follow, decodes to itself if and only if it is well formed (no flags, payload within the limit, session fields exactly on session frames); otherwise decoding fails. |
| `Framing.EncodingReason` | src/framing.rs:143-196 | Why an encoded frame is refused: flags, size, or session fields of the wrong kind, in this order. |
| `Framing.HeaderReason` | src/framing.rs:143-160 | Wrong magic, an unknown version and an unknown type are reported exactly when they are the first wrong byte. |
| `Framing.DecodeCanonical` | src/framing.rs:143-196 | A successful decode consumed exactly the encoding of its result, which is well formed. |
| `Framing.DecodeMonotone` | src/framing.rs:143-196 | A frame, or any error but Truncated, survives every extension of the buffer. |
| `Framing.ProperPrefixTruncated` | src/framing.rs:143-168 | Every proper prefix of a well-formed encoding is Truncated. |
| `Framing.TruncatedIsShort` | src/framing.rs:144-168 | A truncated buffer is shorter than the largest frame. |
| `Stream.SessionHandler.constructor` | src/transport.rs:142-155 | A fresh handler has no substream, nothing to write and nothing read. |
| `Stream.SessionHandler.SetSubstream` | src/transport.rs:157-164 | The substream is installed once and announced; a later one is ignored. |
| `Stream.SessionHandler.SendFrames` | src/transport.rs:313-321 | The unsent bytes grow by exactly the concatenated encodings of the frames. |
| `Stream.SessionHandler.PollFlushWrites` | src/transport.rs:168-193 | For every pattern of partial writes, bytes written followed by bytes unsent equal the bytes unsent before; a completed flush leaves none, and a substream that takes any byte is given some. |
| `Stream.SessionHandler.PollReadOnce` | src/transport.rs:199-232 | For every chunking, bytes consumed followed by the buffer equal the old buffer followed by the bytes received; an emitted frame is well formed; a frame already in the buffer is emitted first; it stops reading only when the substream pauses, ends or fails; the buffer stays below the limit plus one chunk and the limit check is unreachable. |
| `Stream.SessionHandler.PollStreams` | src/transport.rs:276-311 | Past the announcements a poll writes first and reads only when nothing is left to write. |
| `Stream.SessionHandler.PollRead` | src/transport.rs:289-311 | A poll that reads hands out the frame the reader emitted, or closes if it broke. |
| `Stream.SessionHandler.Poll` | src/transport.rs:251-311 | No byte is lost or invented in either direction; a ready handler writes whenever the substream takes bytes; it reads if and only if it is ready and nothing is left unsent, and then hands out a complete frame first; each announcement and each event comes exactly when stated, and a closed handler stays idle. |
| `Stream.LinkStepConserves` | src/transport.rs:168-232 | Every queueing, partial write and read keeps: encodings of all queued frames = encodings of all emitted frames + read buffer + wire + unsent. |
| `Stream.NeverMalformed` | src/transport.rs:199-232 | Between two such ends the reader never meets a malformed frame, at any chunk boundary. |
| `Stream.DrainedMeansDelivered` | src/transport.rs:168-232 | When nothing is unsent or in flight and the reader waits, exactly the queued frames were emitted. |
| `Stream.ReaderEmitsQueuedFrames` | src/transport.rs:168-232 | Over every run of a link: the emitted frames are a prefix of the queued ones in order, the bytes are conserved, nothing is malformed, and a drained link has delivered everything. |
| `Wire.Connection.Send` | src/transport.rs:313-321 | Sending on the writer is a queueing step of the link, for every list of well-formed frames. |
| `Wire.Connection.PollWriter` | src/transport.rs:251-293 | A poll of the writer is a writing step of the link, however the substream takes the bytes, and makes progress when it takes any. |
| `Wire.Connection.PollReader` | src/transport.rs:276-311 | A poll of the reader is a reading step of the link, however the bytes are cut; it hands out exactly the frames it emits, and is closed only by its substream. |
| `Wire.ConnectionDelivers` | src/transport.rs:168-232 | Whatever calls were made on the two handlers, the frames received are a prefix of those sent, and all of them once drained. |
| `Handshake.HelloRoundTrip` | src/handshake.rs:381-414 | A Hello payload with a legal name decodes to the key, device id and name it was built from. |
| `Handshake.BuildTranscript` | src/handshake.rs:421-446 | The hashing loop digests the length-tagged payloads of the smaller peer id first, group by group. |
| `Handshake.OnFrame` | src/handshake.rs:188-204 | For every frame, the field-presence invariant under which no unwrap can fail is kept, and a rejected frame leaves the state unchanged. |
| `Handshake.Handshake.constructor` | src/handshake.rs:134-162 | The object starts in the initial state with its own Hello. |
| `Handshake.Handshake.HandleFrame` | src/handshake.rs:188-204 | The object's new state and answer are those of the specification, for every frame. |
| `Handshake.Handshake.HandleHello` | src/handshake.rs:206-232 | Duplicate, malformed and mismatching Hellos are refused without a change. |
| `Handshake.Handshake.AcceptHello` | src/handshake.rs:214-232 | A Hello from an acceptable peer is stored and answered with a fresh KEM key. |
| `Handshake.Handshake.HandleKemOffer` | src/handshake.rs:234-252 | An offer needs a Hello, comes once and is encapsulated to. |
| `Handshake.Handshake.HandleKemResponse` | src/handshake.rs:254-279 | A response needs a Hello, comes once, is decapsulated, and derives the keys only if our own response exists. |
| `Handshake.Handshake.Finish` | src/handshake.rs:282-319 | Transcript, combined secret and keys are derived and the transcript is signed; what they bind is stated in `KeyBinding`. |
| `Handshake.Handshake.HandleAuth` | src/handshake.rs:321-345 | Only a verifying signature over the transcript authenticates the peer. |
| `Handshake.Handshake.HandleReady` | src/handshake.rs:347-377 | Only a matching session id after authentication establishes the session. |
| `HandshakeOrder.FeedTracks` | src/handshake.rs:206-377 | After any frames, the fields tell which prefix of one of two orders was accepted. |
| `HandshakeOrder.AuthVerified` | src/handshake.rs:321-345 | A handshake comes to trust its peer only by verifying an Auth signature over its transcript. |
| `HandshakeOrder.AcceptedOrder` | src/handshake.rs:206-377 | For every frame sequence: no type is accepted twice; Established if and only if the five types were accepted in protocol order; a KemResponse accepted before the KemOffer means no keys are ever derived; and Established means some input was an Auth frame that verifies under the peer's key over the final transcript. |
| `HandshakeOrder.AcceptsExactly` | src/handshake.rs:188-377 | When exactly a frame is accepted: no flags, the first of its type, with what it needs already there, and the right payload; and when a refusal is a duplicate, unexpected, a bad signature or a wrong peer. |
| `HandshakePair.PairAgrees` | src/handshake.rs:421-480 | Two devices with different ids compute the same transcript and keys and take opposite directions. |
| `HandshakePair.HonestStep` | src/handshake.rs:206-377 | Each of the peer's five frames is accepted in turn and answered with the next frame or completion. |
| `HandshakePair.RunReaches` | src/handshake.rs:188-480 | Every schedule of deliveries over two FIFO channels reaches the state given by how many frames each side has received. |
| `HandshakePair.HandshakeCompletes` | src/handshake.rs:188-480 | Every interleaving: no frame is refused, a run can continue if and only if it has fewer than ten deliveries, and after ten nothing is in flight and both sides are established with equal keys, session id and crossed directions. |
| `Agreement.TranscriptInjective` | src/handshake.rs:421-446 | The length-tagged transcript determines all six payloads. |
| `Agreement.OnFrameConsistent` | src/handshake.rs:206-377 | Whatever is injected, the derived fields stay what the stored payloads determine. |
| `Agreement.LabelsDiffer` | src/handshake.rs:40 | A handshake signature is never a signature over an address record. |
| `Agreement.RunKeepsInv` | src/handshake.rs:188-480 | In every run with arbitrary injected frames and published records, every signature made is accounted for and every authenticated peer has signed. |
| `Agreement.EqualInputsMirror` | src/handshake.rs:421-446 | Equal hash inputs of two different devices hold the same six payloads with the roles swapped. |
| `Agreement.MirrorsShareKeys` | src/handshake.rs:453-480 | Mirrored handshakes derive the same session id and keys, in opposite directions. |
| `Agreement.OthersAgree` | src/handshake.rs:282-480 | A handshake Established with the key of an honest device other than itself has a partner at that device with the mirrored payloads, the same session id and complementary keys. |
| `Agreement.SelfSendsOneWay` | src/handshake.rs:475-480 | With its own key for a peer, a handshake and its mirror image send under the same direction, so their keys are complementary if and only if both directions derived the same key. |
| `Agreement.EstablishedAgrees` | src/handshake.rs:206-480 | With arbitrary frames delivered, a handshake Established with an honest device's key has a partner if and only if that key is not its own, or its mirror image derived the same key for both directions. |
| `Reflection.ReflectionEstablishes` | src/handshake.rs:206-377 | The failing input, as a run: a device that expects nobody in particular, fed its own five frames, is Established with itself, and has a partner only if both directions derived the same key. |
| `Reflection.SameIdTranscripts` | src/handshake.rs:421-446 | Two handshakes of one device hash the same bytes if and only if their payloads are the same. |
| `Reflection.SelfConnectionStops` | src/handshake.rs:321-345 | So a device connected to itself is refused at Auth, unless both handshakes made the same payloads. |
| `KeyBinding.SharedKeyBindsSecrets` | src/handshake.rs:453-467 | Two handshakes that share the session id or a key of either direction share the transcript and both KEM secrets, each created by the same one of the two devices. |
| `KeyBinding.DirectionsDiffer` | src/crypto.rs:324-343 | No key of one direction is a key of the other, within a handshake or across two. |
| `KeyBinding.DirectionByOrder` | src/handshake.rs:470-480 | The device with the lower id sends under the a-to-b label, the other under b-to-a. |
| `KeyBinding.SessionDirectionByOrder` | src/session.rs:131-149 | The session of the lower id marks its frames with the low direction, and starts with the handshake's keys and all counters at zero. |
| `KeyBinding.SessionIdBindsSecrets` | src/handshake.rs:282-480 | In every run with arbitrary frames, two handshakes have the same session id if and only if they have the same transcript, the same secret of the lower and the same secret of the higher device. |
| `KeyBinding.PartnerExactly` | src/handshake.rs:206-480 | In every such run, a handshake Established with an honest key has a partner if and only if the key is not its own. |
| `Agreement.AcceptedRecordWasSigned` | src/records.rs:136-229 | A record accepted under an honest key agrees in all eleven signed fields with one its owner signed. |
| `Session.TakePushedAddr` | src/session.rs:419-449 | A pushed address, cut at 512 bytes as a release build does, is read back as whatever its cut text parses to, with exactly the bytes after it. |
| `Session.PlainRoundTrip` | src/session.rs:278-371 | Every payload parses to the event for the part of it that arrives: all of it, except that a dial-back names the address its cut text reads as, and is refused if there is none. |
| `Session.SendableArrives` | src/session.rs:419-425 | Within the length limit every payload arrives unchanged; an address without text is the one that does not. |
| `Session.NonceInjective` | src/session.rs:390-395 | Direction and sequence number are determined by the nonce. |
| `Session.AadInjective` | src/session.rs:375-382 | Session, type, sequence number and message id are determined by the associated data. |
| `Session.Session.constructor` | src/session.rs:131-149 | A session starts with both counters at zero and the directions of the handshake. |
| `Session.Session.EncryptText` | src/session.rs:152-166 | A text that is too large, or a spent counter, is refused and consumes nothing. |
| `Session.Session.EncryptPlain` | src/session.rs:169-230 | An acknowledgement or control frame takes the next number, or the counter is spent. |
| `Session.Session.SealNow` | src/session.rs:233-245 | The frame carries the header fields its associated data binds. |
| `Session.Session.Handle` | src/session.rs:249-276 | The checks in order: session, sequence (with the violation count), counter, type, authentication, plaintext; the window stays bounded. |
| `SessionRuns.DoCounts` | src/session.rs:152-245 | A frame is sealed exactly when the counter is not spent and a text fits; otherwise nothing changes at all. |
| `SessionRuns.RunCounts` | src/session.rs:131-245 | Over every run the outbound counter is the number of frames sealed, and frame i has number i. |
| `SessionRuns.NoncesNeverRepeat` | src/session.rs:131-245 | Over any runs of both ends of a session, no two sealed frames share a nonce, in one direction or across directions; a spent counter stops sealing. |
| `SessionRuns.HandshakeGivesEnds` | src/session.rs:131-149 | Complementary handshake results give two ends of one session. |
| `SessionRuns.OpensNext` | src/session.rs:249-276 | With an ideal AEAD, a frame that opens is the next one the peer sealed. |
| `SessionRuns.YieldsPrefixOfSealed` | src/session.rs:249-276 | With arbitrary frames injected, the events a session ever yields are, one by one and in order, how the first payloads its peer sealed read; within the address length limit they are exactly those payloads. |
| `SessionChecks.RefusalReason` | src/session.rs:249-371 | The reason for every refusal of a frame, and what it does to the number and the violation count. |
| `SessionChecks.ViolationsAdd` | src/session.rs:249-276 | Frames out of order are answered as replays until the fifth, which and whose successors are hostile. |
| `SessionChecks.WindowHoldsLatest` | src/session.rs:390-402 | After any frames taken in order the window holds the numbers and ids of the latest, at most 4096. |
| `Registry.ApplyKeepsValid` | src/transport.rs:600-777 | Every event of the behaviour keeps: handshakes are consistent and no device has both a session and buffered sends. |
| `Registry.SessionMeansNothingBuffered` | src/transport.rs:466-490 | In every run, a device with a session has nothing buffered. |
| `Registry.FlushFramesFitting` | src/transport.rs:760-777 | A flush frames exactly the texts that fit, in send order, with consecutive numbers, until the numbers run out; the others take none. |
| `Registry.InstallFlushes` | src/transport.rs:647-671 | On establishment the buffered texts that fit are framed from number 0 while numbers last, and the buffer is gone. |
| `Registry.ExpireDrops` | src/transport.rs:902-919 | Expiry removes exactly the listed handshakes, touches nothing else, and reports each one. |
| `Ledger.FlushCounts` | src/transport.rs:760-777 | A flush frames no text more often than it was buffered. |
| `Ledger.EventBalance` | src/transport.rs:466-882 | For any id, no event but a send raises the number of texts framed or buffered, and a send raises it by at most one. |
| `Ledger.NoTextFramedTwice` | src/transport.rs:466-924 | In every run, with any frames and connections, the Message frames with an id that were handed out or queued, plus the texts with it still buffered, are at most the sends with it. |
| `Limits.OpensExactly` | src/session.rs:249-276 | A frame opens if and only if it is the next one of the session, is a session frame, decrypts, and parses. |
| `Limits.AckReportedExactly` | src/transport.rs:685-720 | An acknowledgement is reported if and only if the frame is the next one of the session behind its transport peer and opens to a 21-byte Ack plaintext naming it; what this side sealed plays no part, so the promise at src/session.rs:21-23 is not kept. |
| `Limits.UnsolicitedAckSurfaces` | src/session.rs:304-314 | The failing input: an authenticated acknowledgement of any id and number is reported, even to a side that sealed nothing. |
| `Limits.ReportedAcksAreSealedAcks` | src/session.rs:249-314 | In every run with injected frames, the acknowledgements reported are exactly those the peer sealed among the opened payloads, so all of them are owed if and only if the peer sealed only owed ones. |
| `Limits.SendFailsExactly` | src/transport.rs:466-490 | A send reports a failure if and only if there is a session and the text is over the limit or the counter is spent, with the error of the first that holds. |
| `Limits.OversizedTextDisconnects` | src/node.rs:1223-1236 | A text over the limit, sent to a live session, is reported as a failure on which the node disconnects the peer. |
| `Limits.PanicsExactly` | src/transport.rs:466-777 | An event panics if and only if it needs a sequence number when none is left: a control frame, the acknowledgement of a message, or the address report after a flush that used them all. |
| `SessionLifetime.SessionFate` | src/transport.rs:466-882 | Over every event: the session of a device ends if and only if a session frame mapped to the device is refused or the connection it lives on closes; a completed handshake with the device replaces it; otherwise its keys and connection stay. |
| `SessionLifetime.RefusesExactly` | src/session.rs:249-276 | A session refuses a frame if and only if it is not its next frame, does not decrypt, or does not parse; keys never change. |
| `SessionLifetime.OlderConnectionEndsSession` | src/transport.rs:685-694 | Any frame of another session arriving on another connection of the peer ends the current session. |
| `Connections.ConnectionOpens` | src/transport.rs:812-844 | A new connection is announced once, under the device id if known, and the source of an inbound one is kept. |
| `Connections.ConnectionCloses` | src/transport.rs:845-882 | PeerDisconnected is reported exactly when no connection remains; exactly what was kept for the connection is forgotten. |
| `Connections.ConnectDials` | src/transport.rs:495-515 | Connecting dials exactly the given addresses of the transport peer, which is known as the device from then on; with no address nothing happens. |
| `Connections.EstablishmentIsKnown` | src/transport.rs:647-671 | An authenticated device is known in both directions and by the name it signed, its handshake is over, its source is reported once, and the session is announced last. |
| `Connections.HandshakeFrameDecides` | src/transport.rs:634-683 | A refused handshake frame ends exactly that handshake and is reported under the id the peer is known by; an accepted one moves it on and is answered on the same connection; without a handshake nothing happens. |
| `Connections.StreamDecides` | src/transport.rs:607-630 | A substream starts one handshake per connection, expecting the device the transport peer is known as; a closed stream ends exactly that handshake. |
| `Behaviour.SessionBehaviour.constructor` | src/transport.rs:434-447 | A fresh behaviour has empty maps and an empty queue. |
| `Behaviour.SessionBehaviour.Send` | src/transport.rs:466-490 | With a session the text is framed and sent on its connection, or the failure reported; without one it is buffered last. |
| `Behaviour.SessionBehaviour.SendControlFrame` | src/transport.rs:546-576 | With a session the control frame is sealed and queued; without one nothing happens. |
| `Behaviour.SessionBehaviour.ConnectTo` | src/transport.rs:495-515 | A dial is queued and the mapping recorded exactly when there is an address. |
| `Behaviour.SessionBehaviour.RecordTransport` | src/transport.rs:580-583 | Both directions of the mapping are set. |
| `Behaviour.SessionBehaviour.SubstreamReady` | src/transport.rs:607-624 | The first substream of a connection starts a handshake and sends Hello. |
| `Behaviour.SessionBehaviour.StreamClosed` | src/transport.rs:628-630 | A closed stream drops the handshake and nothing else. |
| `Behaviour.SessionBehaviour.FrameReceived` | src/transport.rs:634-683 | Session and handshake frames go to their machines; the whole new registry is stated. |
| `Behaviour.SessionBehaviour.Establish` | src/transport.rs:647-671 | Completion installs the session, flushes, reports the observed address once and announces the session. |
| `Behaviour.SessionBehaviour.Flush` | src/transport.rs:760-777 | The loop over the buffered texts computes the flush of the specification. |
| `Behaviour.SessionBehaviour.SessionFrameReceived` | src/transport.rs:685-758 | An opened frame is surfaced; the first refused one removes the session and reports it. |
| `Behaviour.SessionBehaviour.Surface` | src/transport.rs:696-747 | A message is acknowledged with its id and number before it is reported; what is reported of each payload is stated by `Conversation.EventTells`. |
| `Behaviour.SessionBehaviour.ConnectionEstablished` | src/transport.rs:812-844 | The peer is connected, its observed source kept, the event queued. |
| `Behaviour.SessionBehaviour.ConnectionClosed` | src/transport.rs:845-882 | Only the session living on that connection is removed. |
| `Behaviour.SessionBehaviour.Poll` | src/transport.rs:897-924 | Exactly the handshakes older than 30 s are dropped, each is reported, and the oldest output is handed out. |
| `Conversation.OpensHonestFrame` | src/session.rs:249-371 | The peer's frame number n opens at a receiver expecting n to exactly the payload sealed. |
| `Conversation.ReceiveTalks` | src/transport.rs:685-758 | Receiving the peer's next frame keeps the account of texts, acks, frames and events, adding one ack per message. |
| `Conversation.EstablishTalks` | src/transport.rs:647-777 | Establishing starts that account with the texts that were waiting and the address report. |
| `Conversation.EventTells` | src/transport.rs:696-747 | Each payload is reported with its own fields and the device it came from: text, id and time; acknowledged id and number; ip and port; address; address and reachability. |
| `EndToEnd.RunKeeps` | src/transport.rs:466-777 | Every schedule of starts, sends and deliveries by two honest nodes keeps the invariant of both sides, and no call panics. |
| `Delivery.EndToEndDelivery` | src/transport.rs:466-777 | For every finite schedule: no failure is reported; no session frame reaches a side before its session; everything one side sealed, control frames included, surfaces on the other once, in order and field by field; the texts told are a prefix of those that fit and the acks a prefix of those owed with matching ids and numbers; at rest all of it has arrived. |
| `Delivery.FramesWellFormed` | src/transport.rs:634-777 | Every frame either node queues is one the codec carries unchanged, given a non-zero session id. |
| `Quiescence.ReceiveLowersWeight` | src/transport.rs:634-777 | Every delivery strictly lowers an explicit weight of the frames and texts left. |
| `Quiescence.DeliveriesBounded` | src/transport.rs:634-777 | After any schedule, deliveries alone stop within that weight. |
| `Quiescence.NotQuiescentCanDeliver` | src/transport.rs:634-777 | Until the two started nodes are at rest, some delivery is possible and succeeds. |
| `Records.AppendFields` | src/records.rs:58-83 | The appending loop yields the length-prefixed fields in order. |
| `Records.BuildSignedBytes` | src/records.rs:58-83 | The buffer equals the canonical signed bytes of the record. |
| `Records.SignedBytesInjective` | src/records.rs:58-83 | The signed bytes determine all eleven fields, including the uncounted list of addresses at the end. |
| `Records.SignAddrRecord` | src/records.rs:99-120 | A record holds the first eight addresses and a signature over its canonical bytes. |
| `Records.CheckAddrs` | src/records.rs:188-214 | The loop returns the parsed addresses or the first error, in the order of the checks. |
| `Records.VerifyAddrRecord` | src/records.rs:136-229 | The verdict is that of the specification, error by error. |
| `Records.VerifiedShape` | src/records.rs:136-229 | A verified record is keyed by the expected id and has one to eight distinct direct TCP addresses. |
| `Records.VerifiesExactly` | src/records.rs:136-229 | When exactly any record at all verifies, as one condition per check, and that the result carries the record's own fields. |
| `Records.ParsesExactly` | src/records.rs:188-214 | The address list is accepted if and only if every text is an acceptable address and no two are the same. |
| `Records.TimeChecksMeanFresh` | src/records.rs:149-154 | The time checks mean freshness exactly when the sum issued_at + ttl + skew fits in 64 bits; otherwise exactly when the wrapped sum also reaches now. |
| `Records.ParsePrinted` | src/records.rs:188-214 | Printed addresses pass the loop exactly when they are distinct direct TCP addresses. |
| `Records.SignedContentsVerify` | src/records.rs:99-229 | At any times, overflowing or not, a record a device signs verifies, and to the same contents, if and only if it passes the two comparisons and its contents are good; past its expiry it is refused as expired. |
| `Records.OwnRecordVerifies` | src/records.rs:99-229 | With no overflow, a record a device signs verifies if and only if it is fresh, the name has 1 to 64 bytes and its first eight addresses are distinct direct TCP. |
| `Records.OverflowingTtlRefused` | src/records.rs:149-154 | A signed record inside its window that verification refuses as expired, because its expiry sum overflows, and accepts with a shorter time to live. |
| `Records.RelayedAddressRefused` | src/records.rs:204-209 | A record with a relayed address among its first eight never verifies. |
| `Addresses.FilterLocalAddrs` | src/node.rs:284-310 | The loop keeps exactly the addresses whose first IP is local or loopback, and relayed ones without an IP, in order, once each. |
| `Addresses.Merge` | src/node.rs:589-593 | Validated addresses not already present are appended in order. |
| `Addresses.AddressBook.NoteListenAddr` | src/node.rs:532-538 | A new listen address is added once; the list stays duplicate-free. |
| `Addresses.AddressBook.NoteListenAddrGone` | src/node.rs:542-546 | An expired listen address is removed and nothing else. |
| `Addresses.AddressBook.Refresh` | src/node.rs:551-582 | A rescan adds the listeners and keeps what is local; the record is signed anew exactly when something was dropped, and a failed scan changes nothing. |
| `Addresses.AddressBook.Publish` | src/node.rs:585-616 | The listen addresses and then the validated ones are signed, exactly when there is one. |
| `Addresses.PublishedRecordVerifies` | src/node.rs:585-616 | The published record verifies at exactly the times from issued_at - 30 to issued_at + 150, to the first eight of the current addresses followed by the validated ones. |
| `Addresses.EmptySetKeepsOldRecord` | src/node.rs:594-596 | An emptied address set leaves the old record in place, still verifying to the old addresses. |
| `Addresses.StillLocalExactly` | src/node.rs:284-310 | An address counts as local if and only if its first IP is loopback or one of the host's, or it has none and is relayed. |
| `Publication.ListChangesSilently` | src/node.rs:921-1060 | The validated list changes without being published if and only if maintenance drops a listed address whose revalidation timed out. |
| `Publication.RecordStaysUpToDate` | src/node.rs:585-616 | A record that named the first eight addresses still does after an event if and only if they are the same or were published and there is one. |
| `Publication.TimeoutLeavesRecordBehind` | src/node.rs:1021-1038 | After such a drop the record still advertises the address, unless the node listens on it or it was past the eighth. |
| `Lookups.LookupScheduler.StartLookup` | src/node.rs:632-641 | A lookup issues one query with a full budget. |
| `Lookups.LookupScheduler.Rediscover` | src/node.rs:709-730 | A retry is queued exactly when no lookup or retry for the peer exists. |
| `Lookups.LookupScheduler.QueryProgressed` | src/node.rs:1126-1181 | Found ends the chain, missing queues a retry while the budget lasts. |
| `Lookups.LookupScheduler.ReissueDue` | src/node.rs:1339-1363 | The loop releases the due retries at the front of the queue. |
| `Lookups.ReissuePotential` | src/node.rs:1339-1363 | The potential drops by exactly one per re-issued query. |
| `Lookups.AnswerPotential` | src/node.rs:1126-1181 | No answer raises the potential, and a retry keeps it. |
| `Lookups.QueriesBounded` | src/node.rs:632-1363 | In every run, re-issued queries plus the remaining potential are at most the initial potential plus what new lookups grant; attempts stay in 1..10. |
| `Lookups.ApplyChains` | src/node.rs:709-730 | Only a new lookup adds a chain for a peer already being looked up; rediscovery then changes nothing. |
| `Lookups.ChainsBounded` | src/node.rs:632-730 | In every run, the chains for a peer are at most the lookups started for it, plus one. |
| `Lookups.ReissueOnTime` | src/node.rs:1339-1363 | No retry is released before its time, although the queue mixes delays. |
| `Lookups.TickReleasesOldRetries` | src/node.rs:1164-1169 | After a tick, every queued retry was enqueued less than the reconnect delay ago. |
| `Rediscovery.RediscoveryStarts` | src/node.rs:709-730 | A rediscovery leaves the peer with a chain: exactly one if it had none, with all ten queries ahead and due after exactly the delay; otherwise nothing changes. |
| `Rediscovery.LookupStarts` | src/node.rs:632-641 | A lookup sends one query at once and has nine left. |
| `Rediscovery.AnswerDecides` | src/node.rs:1126-1181 | A miss with queries left keeps the chain, one second out and one query shorter; any other answer ends exactly that chain; other chains are not affected. |
| `Rediscovery.TickReleasesDuePrefix` | src/node.rs:1339-1363 | A tick releases exactly the longest prefix of the queue that is due. |
| `Rediscovery.ReleasedAreQueried` | src/node.rs:1339-1363 | Each released retry becomes a query for its peer with its attempts. |
| `Rediscovery.QueriedByTick` | src/node.rs:709-1363 | In every run, a rediscovered peer is queried again by the first tick at least RECONNECT_DELAY later, unless a query was outstanding. |
| `Rediscovery.ShortDelayHeldBack` | src/node.rs:1339-1363 | The bound cannot be the entry's own delay: a one-second retry is held back by an earlier three-second one. |
| `RecordCache.Reconnector.Dial` | src/node.rs:688-696 | A peer that is not being dialed is guarded, and its dial is queued when there is an address. |
| `RecordCache.Reconnector.RecordVerified` | src/node.rs:1096-1124 | A record not older than the cached one replaces it and is dialed when there is neither a session nor a dial. |
| `RecordCache.Reconnector.InvalidateCandidates` | src/node.rs:1065-1092 | The failed addresses leave the cached record; an empty record leaves the cache. |
| `RecordCache.Reconnector.QueryProgressed` | src/node.rs:1126-1181 | A record found by one of our lookups is verified and, if it verifies, cached; anything else only moves the lookup on. |
| `RecordCache.Reconnector.PeerDisconnected` | src/node.rs:736-754 | For a peer that had a session and is cached, a re-dial of its addresses is queued unless it is connected or being dialed, and a rediscovery is scheduled. |
| `RecordCache.Reconnector.SessionEstablished` | src/node.rs:1198-1199 | The dial guard is released. |
| `RecordCache.Reconnector.ConnectionClosed` | src/node.rs:1661-1663 | The dial guard of the device is released. |
| `RecordCache.Reconnector.DialFailed` | src/node.rs:1697-1756 | The guard is released; addresses that failed are invalidated and a rediscovery scheduled; a wrong peer id drops the record. |
| `RecordCache.Reconnector.FireRedials` | src/node.rs:1320-1337 | The loop fires the due re-dials at the front of the queue. |
| `RecordCache.CacheHoldsVerifiedRecords` | src/node.rs:688-1337 | At every step of every run: each cached record is keyed by its own id and holds a non-empty duplicate-free subset of the addresses of a record that verified, issue times do not decrease between removals, re-dials are non-empty, and the guard is set only with a dial queued. |
| `RecordCache.LookupsAreARun` | src/node.rs:736-1363 | Whatever the cache and the dials do, the lookups of the node are a run of the lookup scheduler. |
| `RecordCache.NodeQueriesBounded` | src/node.rs:632-1363 | So its query budget and its bound on chains per peer hold of the node, rediscoveries after a lost peer or a failed dial included. |
| `RecordCache.NodeTickReleases` | src/node.rs:736-1363 | In every run of the node in time order, after a tick every queued retry was queued less than the reconnect delay ago. |
| `RecordCache.FirePopsExactlyDue` | src/node.rs:1320-1337 | Exactly the due re-dials are popped. |
| `RecordCache.RunSorted` | src/node.rs:736-754 | In every run in time order the re-dial queue is sorted by due time. |
| `Reconnection.VerifiedAnswerDecides` | src/node.rs:1096-1124 | For every verified answer to one of our lookups: the cache then holds that record if and only if none with a strictly later issue time was cached; if so, and the device is neither being dialed nor in a session, exactly one dial to its transport peer and addresses is added; nothing else changes. |
| `Reconnection.LostPeerDecides` | src/node.rs:736-754 | A lost peer that is cached is looked up again after three seconds and, unless covered, its addresses are queued for a dial after two; any other is let go. |
| `Reconnection.FailedDialDecides` | src/node.rs:1697-1756 | Exactly the failed addresses leave the cached record, which goes when none is left or the peer id was wrong; the guard is released; a rediscovery is queued when addresses failed. |
| `Reconnection.SessionThenLoss` | src/node.rs:1198-1304 | A session releases the guard, and a cached peer that then loses it is looked up and queued for a dial. |
| `Reconnection.ClosedThenVerified` | src/node.rs:1661-1663 | A closed connection releases the guard, so the next record that verifies is dialed. |
| `Reconnection.DueDialDecides` | src/node.rs:1320-1337 | A due re-dial dials its peer once, unless the peer has a session or is being dialed. |
| `Reconnection.DueArePursued` | src/node.rs:1320-1337 | After a tick the peer of every re-dial that was due has a session or is being dialed. |
| `Reconnection.LostPeerIsQueriedAgain` | src/node.rs:736-1363 | In every run of the node, a cached peer that lost its session, or to which a dial failed, is queried again by the first tick three seconds or more later, unless a query was outstanding. |
| `Candidates.CandidateTable.AskDialBack` | src/node.rs:790-819 | The request goes to the recorded prober or an eligible peer, who is recorded. |
| `Candidates.CandidateTable.Observed` | src/node.rs:823-889 | An observed public address becomes a candidate unless it is known or exhausted. |
| `Candidates.CandidateTable.DialBackResolved` | src/node.rs:921-962 | Only the recorded prober's verdict counts; it validates or rejects. |
| `Candidates.CandidateTable.Maintenance` | src/node.rs:990-1060 | Timed-out candidates are rejected, and validations that are due go back to pending and are asked again. |
| `Candidates.StepKeeps` | src/node.rs:790-1060 | Every event keeps the table and the validated list in step with the last verdict. |
| `Candidates.ValidatedMeansLastVerdictPositive` | src/node.rs:790-1060 | In every run an address is in the validated list if and only if its last verdict was a positive from the prober then recorded; the list has no duplicates, holds every Validated and no Rejected address, and revalidation keeps membership. |
| `Candidates.CandidateExactly` | src/node.rs:756-889 | An observed IP becomes the candidate "IP and listen port" if and only if the node listens, and the IP is declared external or is neither local nor already listened on. |
| `Candidates.CandidateIsAdvertisable` | src/node.rs:756-889 | A candidate is a direct TCP address of that IP, and never one known to be local unless declared external. |
| `Attempts.AttemptsForgotten` | src/node.rs:860-888 | Observing a rejected address again and failing again records one attempt, whatever was counted before. |
| `Attempts.NoLimitOnAttempts` | src/node.rs:860-949 | For every n there is a run of the table in which one address is asked about n times, refused every time, and may be asked about again: the limit of three is not kept. |
| `Attempts.StepOn` | src/node.rs:790-1060 | One event, seen from one address: its state, its prober and the requests about it change exactly as stated; a request is sent if and only if a validation starts (an admissible observation, or a stale validation at maintenance) and somebody can be asked. |
| `Attempts.MaintenanceDecides` | src/node.rs:990-1060 | At maintenance a validation 15 s old fails, a success five minutes old is asked about again, and everything younger stays as it is. |
| `Attempts.AttemptsAreRefusals` | src/node.rs:823-1060 | In every run the recorded attempts are the refusals since the last start or success, so an address is given up exactly after three in a row, and the requests sent are exactly the validations started with somebody to ask. |
| `Attempts.ExhaustedUntilPositive` | src/node.rs:860-948 | A given-up address stays so, unasked and with the same prober, as long as and only as long as its prober has not answered positively. |
| `Attempts.ExhaustedIsRevived` | src/node.rs:921-1060 | After a positive answer and one revalidation interval it is asked again, and the next refusal counts as the first. |
| `Probes.ProbeTable.DialBackRequested` | src/node.rs:893-917 | A request is accepted and dialed exactly when the peer has no pending probe. |
| `Probes.ProbeTable.SessionEstablished` | src/node.rs:1202-1214 | A pending probe of the peer is answered positively, once. |
| `Probes.ProbeTable.PeerDisconnected` | src/node.rs:1297 | The pending probe of the peer is dropped. |
| `Probes.ProbeTable.ReportFailures` | src/node.rs:966-1011 | Each listed probe is answered negatively and removed. |
| `Probes.StepBalances` | src/node.rs:893-1214 | Each event moves a probe between the five counts without creating or losing one. |
| `Probes.ProbesBalance` | src/node.rs:893-1297 | In every run, for each peer, accepted requests = positive results + negative results + drops on disconnect + probes pending, at most one pending. |
| `Probes.ReportsAnswerRequests` | src/node.rs:893-1214 | In every run each result is about the address last accepted from that peer, is positive exactly when the peer's session came up, and is negative only after a failed dial of that address or 30 s. |
| `Probes.TickLeavesYoungProbes` | src/node.rs:990-1011 | After a tick exactly the probes younger than 30 s remain, untouched. |

## Left out

- The cryptographic libraries (`src/crypto.rs`, `src/identity.rs`): only their sizes and correctness appear. What decapsulation does with a foreign ciphertext (section 6.3 of FIPS 203) is never needed, and library failures other than a wrong size are not modelled.
- Text, base64, base58, JSON, UTF-8 and multiaddr codecs: functions with a round trip.
- The libp2p swarm, Kademlia, identify, AutoNAT, relay and DCUtR, async wakers and select loops: each poll outcome and each event is an input.
- `src/cli.rs`, `src/main.rs`, `src/storage.rs`, logging, the lookup replies, bootstrap dialing, peer paths and NAT status: input and output, or display bookkeeping with only single-branch facts.
- Clocks and randomness: one reading and one draw per call, given as parameters. The publish and scan intervals are not modelled.
- Hash-map iteration order: the order in which maintenance visits entries is a parameter, so the results hold for every order.
- Build modes: sums of u64 and the violation counter wrap, as in a release build; a debug build would stop there.
- Several connections to one device in the end-to-end theorems: the program does not keep the property there (`SessionLifetime.OlderConnectionEndsSession`). A device connected to itself: its handshakes do not complete (`Reflection.SelfConnectionStops`).
- `Delivery.EndToEndDelivery`: at most 2^32 - 1 steps, because a spent counter panics (`Limits.PanicsExactly` says exactly when); a text over the limit is sent only before the session exists, because afterwards it makes the node disconnect (`Limits.OversizedTextDisconnects`); a dial-back for an address with no text, or one longer than 512 bytes, is not sent, because what arrives of it may be refused (`Session.PlainRoundTrip`), which ends the session.
- `Delivery.FramesWellFormed`: needs a non-zero session id, because decoding refuses the zero id (src/framing.rs:184).
- `Ledger.NoTextFramedTwice`: states at most, not exactly, because a text over the limit or met by a spent counter is dropped.
- `Behaviour.SessionBehaviour`: a handshake or session held in the maps is its value, so aliasing between map entries is not captured.
