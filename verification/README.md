# A verified model of the JT/T 808 server

The repository is a server for GPS trackers that speak JT/T 808 over TCP, and a simulator of
one such tracker, the P901. This project models what the two agree on and what the server
keeps, and proves it: the frame codec, the message decoders and the simulator's encoders,
the state of sessions, registry and token store under every interleaving, and finally the
simulator and the server talking to each other through the bytes they exchange.

`dafny verify dfyconfig.toml` checks everything.

## How it is built

- `bytes`, `bcd`, `wire`: bytes, packed-decimal phones, and the wire format as functions.
  `wire_theorems` says what the reader accepts and how reader and writer undo each other
  (JT/T 808-2013, sections 4.4.1 to 4.4.4; the code uses that header, with a phone of six bytes);
  `corruption` which changes of a byte on the wire go unnoticed; `layout` says in plain numbers what is where.
- `codec`: reader and writer as they run, byte by byte on streams, proved equal to `wire`.
- `location`, `device_bodies`, `location_theorems`, `registration`, `batch`: the bodies of sections
  8.5, 8.18 and 8.49 and the simulator's builders. Coordinates and speeds are exact real numbers.
- `world`: what the server's goroutines share, the atomic operations on it, and each handler as
  the list of operations it performs. `runs`: the transition system. One goroutine for each
  connection performs one operation at a time; acceptance, timers, the two halves of a delayed
  close, queued Redis updates, token expiry and pruning are actions that may come in between at
  any point. A run is any sequence of actions; those that are not enabled are skipped.
- `closing`, `discipline`, `delivery`, `tokens`, `registry_safety`, `mirror`: invariants of all runs; `reconnect`: a run that
  loses the mirror and regains it.
- `sequential`, `verdicts`, `accounts`, `replies`: what one goroutine does when it is not interrupted, that this is a
  special case of a run, and what each dispatch amounts to, for its session, for everything else, and in the
  bytes its peer reads.
- `sessions`, `server`: Session, Registry and the handlers as classes that change their fields in
  place; every method's effect on the whole shared state is the corresponding function of `world`.
- `device`: the simulator's client. `exchange`, `conversation`: client and server composed.

An answer from outside (does the write succeed, does Redis answer, what does the device table
say, what time is it) is a value of type `Env`, chosen anew for each operation of a run.

## Where the code is not what one might expect

- Closing ranks above Authenticated, so frames still in the buffer of a closing session pass the
  gate, and a registration or an authentication takes a session out of Closing again.
  `Runs.GateIsExact` is stated accordingly.
- A failing token lookup admits the device. `Tokens.AdmissionIsJustified` says so; only with a
  working store does `Tokens.TokenBinding` hold.
- `docs/jt808.md:127` promises result 3 for unknown messages; the code answers 0, and so does the model.
- `README.md:47` of the repository says unapproved devices are rejected; the code lets pending ones in and rejects only
  blocked ones and those whose lookup fails. The model follows the code.
- A registration under a second phone on one connection leaves the first registry entry behind when the
  connection ends, until another session of that phone registers (`Verdicts.RenamingLeavesEntry`);
  registry safety therefore assumes one phone for each connection. What the registry holds without that
  assumption is `RegistrySafety.RegistryIsRecord`.
- A session whose connection was closed by a timer stays registered until its goroutine unregisters it.
- The Redis online set follows the registry until a heartbeat comes from a phone that is not registered or
  an unregistration meets another session under its phone (`Mirror.MirrorIsExact`). A reconnecting device
  thus drops out of the online set although registered, until its next heartbeat (`Reconnect.ReconnectRun`).
- A single byte changed on the wire is not always noticed: an escape pair `7d 01` that becomes `7c 01` keeps
  the checksum (`Corruption.ChangedByteAccepted` has all such changes).
- A batch publishes under the session's phone alone, even an empty one, while a single report
  falls back on the phone of its frame; a batch does not count SOS alarms
  (`Batch.BatchRefinesSingles`, `Batch.AlarmsCountSingly`).
- The client never compares sequence numbers, and takes a general response of fewer than five bytes for
  an acknowledgement (`Exchange.DialogueIsExact`); that the server's do match is `Exchange.AnswerEchoes`.
- The length field of a frame is masked to ten bits and ignored by the reader, so bodies of any
  length make the round trip.

## Model

| member | source | states |
|---|---|---|
| Bcd.EncodeBCD | pkg/protocol/frame.go:212-228 | the six bytes are those of the field function, for any text: the masks let an out-of-range character spill into its neighbour |
| Bcd.DecodeBCD | pkg/protocol/frame.go:195-210 | one character for each nibble but 0xf, in order |
| Bcd.DecodeOfEncode | pkg/protocol/frame.go:195-228 | the first twelve characters of a phone come back if and only if they lie in '0'..'>' |
| Bcd.EncodeOfDecode | pkg/protocol/frame.go:195-228 | re-encoding what was decoded is idempotent, keeps the phone, and is the identity if and only if no 0xf nibble precedes another nibble |
| Layout.PhoneByte | pkg/protocol/frame.go:195-210 | one byte of the field: characters 0x30 plus the high and the low nibble, none for 15 |
| Layout.PhoneField | pkg/protocol/frame.go:212-228 | a phone in '0'..'>' is packed two to a byte, the first one high, filled up with 15, in numbers |
| Layout.AnyPhoneField | pkg/protocol/frame.go:212-228 | any text: an even character keeps four bits, an odd one adds all its eight, so a large one spills into its neighbour |
| Layout.PhoneArrivesExactly | pkg/protocol/frame.go:195-228 | the first twelve characters arrive unchanged if and only if each lies in 0x30..0x3e |
| Codec.XorChecksum | pkg/protocol/frame.go:187-193 | the loop computes the exclusive-or of all bytes |
| Codec.ReadFrame | pkg/protocol/frame.go:48-127 | the byte-at-a-time reader returns the outcome of the reading function and leaves exactly the unread bytes, error cases included |
| Codec.SkipToFlag | pkg/protocol/frame.go:51-60 | stops right after the first flag, or at the end of the input |
| Codec.CollectRaw | pkg/protocol/frame.go:62-87 | unescapes up to the closing flag, or reports which of the three interior errors ended it and how far it got |
| Codec.ParsePayload | pkg/protocol/frame.go:101-126 | the header fields, including a fragment header cut short, which reads as zeros and swallows the rest |
| Codec.WriteFrame | pkg/protocol/frame.go:129-164 | appends to the connection the enclosed frame, or nothing when the write fails |
| Layout.FrameToBytes | pkg/protocol/frame.go:131-160 | the unescaped bytes of a written frame in numbers: id, length modulo 1024, phone, sequence number, body, checksum |
| Layout.FrameFromBytes | pkg/protocol/frame.go:101-126 | the fields of a frame that is read in numbers, the package numbers and the body of fragments of every length included |
| Layout.EveryOutcome | pkg/protocol/frame.go:48-99 | which error, or none, and how many bytes consumed, for every shape of a stream |
| Layout.EveryStream | pkg/protocol/frame.go:48-99 | every stream has no flag or is of one of these shapes |
| Layout.EscapeRules | pkg/protocol/frame.go:144-160 | 7e becomes 7d 02, 7d becomes 7d 01, every other byte stays |
| Layout.BigEndian | pkg/protocol/frame.go:101-137 | integers have their high byte first |
| WireTheorems.CollectEscaped | pkg/protocol/frame.go:62-87 | unescaping undoes escaping, whatever follows the closing flag |
| WireTheorems.CollectedIsEscaped | pkg/protocol/frame.go:62-87 | every interior that closes is the escape of what was collected: with the row above, a bijection |
| WireTheorems.EscapeInjective | pkg/protocol/frame.go:144-159 | different bytes are escaped differently |
| WireTheorems.AcceptedLanguage | pkg/protocol/frame.go:48-126 | reading succeeds if and only if the stream is flag-free garbage, a flag, an escaped payload of at least 12 bytes with its checksum, a flag, and anything |
| WireTheorems.FramingIsUnique | pkg/protocol/frame.go:48-126 | that decomposition is unique |
| WireTheorems.ReadIgnoresRest | pkg/protocol/frame.go:48-126 | outcome and bytes consumed, of failures too, do not depend on what follows, if and only if the failure is not that the input ended |
| WireTheorems.ReadWritten | pkg/protocol/frame.go:48-164 | a written message behind flag-free garbage is read as itself, in exactly its bytes, as a non-fragment |
| WireTheorems.StreamRoundTrip | pkg/protocol/frame.go:51-164 | any list of messages, any body lengths, any flag-free garbage between: repeated reading gives the list, then a clean end of input |
| WireTheorems.PhoneArrives | pkg/protocol/frame.go:195-228 | a phone of at most twelve packable characters arrives unchanged |
| WireTheorems.ReverseRoundTrip | pkg/protocol/frame.go:62-160 | writing what was read reproduces the bytes if and only if the attributes hold the masked length alone and the fillers of the phone come last |
| WireTheorems.CorruptionAccepted | pkg/protocol/frame.go:94-99 | a corruption that keeps the length is accepted if and only if the exclusive-or of all byte differences is zero |
| WireTheorems.SingleByteChangeRejected | pkg/protocol/frame.go:94-99 | changing any one byte of payload or checksum gives a checksum mismatch |
| WireTheorems.WireChangeRejected | pkg/protocol/frame.go:62-99 | on the wire, replacing a literal by a literal or one escape pair by the other gives a checksum mismatch |
| Corruption.ChangedByteAccepted | pkg/protocol/frame.go:48-99 | the exact set of accepted one-byte changes on the wire, flags and escapes made or destroyed included, for any garbage before and any frames behind |
| Corruption.EveryByteHasASpot | pkg/protocol/frame.go:144-160 | every byte of a written frame is one of the places that set speaks of |
| WireTheorems.LateJoin | pkg/protocol/frame.go:51-92 | a reader that joins inside a frame gets 'too short' if another frame follows, else end of input, and never a frame |
| Location.DecodeLocation | pkg/protocol/decoder.go:12-73 | the decoder that moves a cursor returns the decoding function's result for every body |
| Location.DecodeExtras | pkg/protocol/decoder.go:57-70 | the item loop fills the last-wins map of the longest run of complete items |
| Location.ParseBCDTimestamp | pkg/protocol/decoder.go:136-147 | the ISO text of the six bytes, nibbles unchecked |
| LocationTheorems.ReportFromBytes | pkg/protocol/decoder.go:20-55 | every body of 28 bytes or more, in numbers: alarm and status words, the four flag bits, signs, coordinates, altitude, speed, direction |
| LocationTheorems.TimeFromBytes | pkg/protocol/decoder.go:136-147 | the twenty characters of the time, from bytes 22 to 27 |
| LocationTheorems.ShortReport | pkg/protocol/decoder.go:13-15 | a body is refused if and only if it has fewer than 28 bytes |
| LocationTheorems.ItemsOfEncoded | pkg/protocol/decoder.go:57-70 | any items and any malformed or short tail: exactly the items are decoded |
| LocationTheorems.ItemsSplit | pkg/protocol/decoder.go:57-70 | every byte sequence is the items decoded from it and a tail where no complete item starts |
| LocationTheorems.ItemsLongest | pkg/protocol/decoder.go:57-70 | any items a sequence starts with are a prefix of the decoded ones |
| LocationTheorems.LastWinsMeaning | pkg/protocol/decoder.go:59-69 | the map holds exactly the ids that occur, each with its last value |
| LocationTheorems.DecodeEncoded | pkg/protocol/decoder.go:12-73 | fixed part, items, tail: decoded to that fixed part and the last-wins map |
| DeviceBodies.BuildLocationBody | device/p901/main.go:331-362 | the builder's appends produce the prescribed layout |
| LocationTheorems.TimestampTrip | pkg/protocol/decoder.go:136-147 | the time arrives intact if and only if the year is in 2000..2099 |
| LocationTheorems.DegreesTrip | pkg/protocol/decoder.go:27-37 | a coordinate comes back truncated towards zero, off by less than 1e-6, sign kept or zero |
| LocationTheorems.ReportTrip | device/p901/main.go:331-362 | decoding the simulator's report recovers flags, altitude, truncated heading, time, both extras, position within 1e-6 and speed within 0.1 |
| LocationTheorems.BatteryPercent | device/p901/main.go:354-356 | the battery byte is the charge in whole percent, kept within 0 and 100 |
| Registration.DecodeRegistration | pkg/protocol/decoder.go:87-134 | the field-by-field decoder returns the decoding function's result for every body |
| Registration.NullTrimmed | pkg/protocol/decoder.go:158-160 | the text without its trailing NULs and spaces |
| Registration.TrimCuts | pkg/protocol/decoder.go:158-160 | what is cut off is NULs and spaces, and what is kept does not end in one |
| Registration.TrimIgnoresPadding | pkg/protocol/decoder.go:158-160 | a text padded with any mix of NULs and spaces reads like the bare text |
| Registration.RegistrationFromBytes | pkg/protocol/decoder.go:87-134 | where each field lies for bodies of up to 16, 17 to 23, 24 to 36, and 37 bytes or more |
| Registration.StandardTrip | pkg/protocol/decoder.go:75-134 | a standard body decodes to its fields, for every plate length, if and only if they fit and do not end in NUL or space |
| Registration.CompactTrip | pkg/protocol/decoder.go:75-134 | a compact body does so if and only if, besides, its plate has at most eleven bytes |
| Registration.ThresholdIsBest | pkg/protocol/decoder.go:82-110 | any detector that recognises all standard bodies mistakes every compact body with a plate of twelve bytes or more |
| Registration.SimulatorTrip | device/p901/main.go:315-329 | the simulator's registration body is a standard body that always decodes, and to its own fields if and only if they fit |
| DeviceBodies.BuildRegBody | device/p901/main.go:315-329 | the builder's appends produce the prescribed layout |
| Registration.SimulatorBytes | device/p901/main.go:315-329 | the 41 bytes of the simulator's registration, one by one |
| Batch.BatchTrip | server/internal/handler/handler.go:262-284 | a batch body decodes to its items whatever follows them |
| Batch.BatchCut | server/internal/handler/handler.go:262-284 | the first of the items, as many as declared; all complete ones when the batch is cut short |
| Batch.HeadlessBatch | server/internal/handler/handler.go:262-264 | a body without a whole three-byte head holds no items |
| Batch.ItemBytes | server/internal/handler/handler.go:269-275 | an item is its length, high byte first, and itself |
| Batch.BatchSplit | server/internal/handler/handler.go:266-275 | on any body the decoded items lie end to end, number at most the declared count, and fewer only if no complete item follows |
| Batch.PublishItemsDelivers | server/internal/handler/handler.go:276-284 | reports plus errors equals items; what is published is the multiset of those that decode |
| Batch.BatchRefinesSingles | server/internal/handler/handler.go:222-284 | one batch delivers what the single reports deliver if and only if the session has a phone, or there are no reports, or none decodes and their frames name a phone: a batch does not fall back on the phone of its frame |
| Batch.AlarmsCountSingly | server/internal/handler/handler.go:246-253 | a batch never counts an SOS alarm, a single report counts its own |
| Verdicts.DispatchDeserves | server/internal/handler/handler.go:43-287 | every dispatch of any frame in any state: its session, the tokens, pending closes, registry and the bytes written are those the frame deserves; one reply with its result code |
| Accounts.DispatchIsBooked | server/internal/handler/handler.go:43-287 | every dispatch: the sessions it displaces, the other sessions unchanged, the queued updates, all counters, the fixes published, the timers |
| Accounts.DispatchIsDetermined | server/internal/handler/handler.go:43-287 | this and the row above fix the whole state: whatever meets both is the state after the dispatch |
| Replies.AuthenticationAnswer | server/internal/handler/handler.go:182-211 | read back from the wire: 8001 with result 0 and the session admitted if the token is right or cannot be looked up, result 1 and a close ordered if not; the client goes on exactly in the first case |
| Replies.RegistrationAnswer | server/internal/handler/handler.go:120-170 | read back from the wire: 8001 with result 2 for a short body, 8100 with result 4 and a close ordered for a device that is blocked or cannot be looked up, 8100 with result 0 and the stored token else; the client goes on exactly in the last case |
| Replies.OtherAnswer | server/internal/handler/handler.go:46-104 | every other message but 0001, in every state: 8001 with its number, its id and result 0, and nothing else about the session changes |
| Replies.NoAnswer | server/internal/handler/handler.go:72-73 | 0001 is not answered; without a connection nothing is written |
| Replies.DispatchInNumbers | server/internal/handler/handler.go:43-118 | which messages, by number, count as heartbeat, admission, violation or unknown, and which queue an update |
| Replies.ReportInNumbers | server/internal/handler/handler.go:222-256 | what a single report counts and publishes, from its bytes |
| Replies.ExpiredIsRefused | server/internal/session/registry.go:97-110 | after its token expired, no authentication of a phone is admitted while the store answers |
| Layout.TokenText | pkg/protocol/decoder.go:149-156 | a token is the phone, an underscore and the second in decimal |
| Verdicts.RenamingLeavesEntry | server/internal/handler/handler.go:158-166 | after a re-registration, leaving keeps the old registry entry if and only if the phone differs |
| Sequential.ReceivedIsDispatched | server/internal/handler/handler.go:43-106 | in the transition system, an uninterrupted goroutine brings about exactly the state of a dispatch |
| Sequential.Uninterrupted | server/internal/handler/handler.go:43-287 | left alone, a goroutine always finishes its operations, with the state RunOps gives |
| Sequential.ServeIsReadAll | server/internal/server/tcp.go:103-125 | a connection dispatches the readable frames in order, then leaves |
| Sequential.WrittenIsServed | server/internal/server/tcp.go:103-125 | messages written by the peer, with garbage between, are dispatched one by one and nothing else |
| Sequential.LateJoinEndsConnection | server/internal/server/tcp.go:103-125 | a stream that starts inside a frame ends the connection with nothing dispatched |
| Closing.LeavingCloses | server/internal/server/tcp.go:84-101 | leaving closes the socket, stops the timer, removes the session's own entry and queues the removal, and nothing else |
| Closing.ServeCloses | server/internal/server/tcp.go:83-126 | a connection served to its end is closed and has no timer |
| Runs.GateIsExact | server/internal/handler/handler.go:46-59 | in every run, a frame passes the gate if and only if its type is allowed before authentication or the session's last state-setting event was an admission or a close |
| Closing.EveryConnectionStands | server/internal/server/tcp.go:84-101 | in every run: ordered closes are pending or begun, begun ones under way or ended; a connection is open, and its timer armed, exactly under the conditions its past gives |
| Closing.GoneIsClosed | server/internal/server/tcp.go:84-101 | in every run, a goroutine that has finished leaves a closed connection and no timer |
| Closing.StartsFresh | server/internal/session/session.go:38-46 | a connection starts without phone, IMEI and token, unauthenticated, counter zero, nothing written, timer armed |
| Closing.SilenceIsClosed | server/internal/server/tcp.go:94-100 | the run of a connection that stays silent: its timer fires, the close is ordered, begins and ends |
| Discipline.OneReplyEach | server/internal/handler/handler.go:43-287 | in every run, one send attempt for each frame but 0x0001, in order, echoing its sequence number and id; the k-th send has sequence k mod 2^16 for unbounded k |
| Discipline.IdleHasAnswered | server/internal/handler/handler.go:43-287 | a goroutine between frames has answered all of them |
| Delivery.PeerReads | server/internal/session/session.go:56-67 | in every run, what can be read from a session's wire is exactly the replies delivered on it, in order, then a clean end |
| Delivery.RepliesAreRead | server/internal/session/session.go:56-67 | in every run, the reply to request k, if delivered, is read in its place, with sequence number k + 1 mod 2^16 and echoing the request |
| Tokens.AdmissionIsJustified | server/internal/handler/handler.go:182-204 | in every run, each admission follows the lookup of the token of the frame in hand, found valid or failing on a store error; validity is that of the last unexpired store |
| Tokens.TokenBinding | server/internal/handler/handler.go:190-204 | without store errors, each admission presented the token then held for the frame's phone |
| Tokens.TokenInjective | pkg/protocol/decoder.go:149-156 | a token determines its phone and its second |
| Tokens.ReaderYieldsPackable | pkg/protocol/frame.go:195-210 | phones of frames that were read consist of '0'..'>', which excludes the separator |
| Tokens.TokenServesOnePhone | server/internal/handler/handler.go:161-204 | in every run, a token stored for one phone is never found valid for another |
| RegistrySafety.RegistryIsSafe | server/internal/session/registry.go:36-71 | in every run where each connection keeps one non-empty phone, each registered session is registered under its own phone, was admitted and has not unregistered; and each session that has joined, has not left and has an open connection is the one registered for its phone |
| RegistrySafety.OnePresentPerPhone | server/internal/session/registry.go:36-43 | so two present sessions of one phone are the same |
| RegistrySafety.RegistryIsRecord | server/internal/session/registry.go:36-71 | in every run, with any phones: the registry maps a phone to the session that was the last to join under it and has not left under it since, and holds nothing else |
| RegistrySafety.HolderMeans | server/internal/session/registry.go:36-71 | that session, said of the record as a whole |
| RegistrySafety.UnregisterSparesSuccessor | server/internal/session/registry.go:63-71 | in every run, a late unregistration leaves every phone held by another session registered to it |
| RegistrySafety.UnregisterClearsSession | server/internal/session/registry.go:63-71 | it clears all entries of its own session if and only if there are none but that under its present phone |
| Mirror.OnlineMirrorsRegistry | server/internal/session/registry.go:36-95 | sessions of one phone that do not overlap, no failures, reordering, close timers or pruning: the online set is the set of registered phones once the queue is drained |
| Mirror.MirrorIsExact | server/internal/session/registry.go:36-95 | in every run with one phone for each connection and updates performed in order: the drained online set is the set of registered phones throughout if and only if no heartbeat comes from an unregistered phone and no unregistration meets another session |
| Mirror.HeartbeatRepairs | server/internal/session/registry.go:83-95 | in any state, a heartbeat restores the mirror if and only if its phone was all that was missing |
| Reconnect.ReconnectRun | server/internal/session/registry.go:36-95 | for every phone a run from the start after which the device is registered and will not be online, and its continuation by a heartbeat, after which it will |
| Reconnect.ReconnectShows | server/internal/session/registry.go:36-95 | the same with all queued updates performed: not online, and online |
| Mirror.QueueDrains | server/internal/session/registry.go:45-60 | after any run the queue can be performed, and the online set is then the drained one |
| Mirror.PruneDrains | server/internal/session/registry.go:128-131 | in any run, a pruning takes a phone off what will be online if and only if no update of it is queued |
| Mirror.BeatMirror | server/internal/session/registry.go:83-95 | a heartbeat keeps the mirror if and only if the phone is registered |
| Mirror.UnregisterMirror | server/internal/session/registry.go:63-81 | an unregistration keeps it if and only if it does not meet another session under its phone |
| Mirror.RegisterMirror | server/internal/session/registry.go:36-61 | a registration always keeps it |
| Mirror.ReconnectBreaksMirror | server/internal/session/registry.go:68-80 | a reconnecting device followed by the late unregistration of its old session is registered but not online |
| Sessions.BuildPlatformACK | pkg/protocol/frame.go:166-175 | the five bytes of a general response |
| Sessions.BuildRegistrationACK | pkg/protocol/frame.go:177-185 | sequence number, result, token |
| Sessions.Session.Send | server/internal/session/session.go:56-62 | counts, numbers and writes; a failing write uses up its number |
| Sessions.Session.Close | server/internal/session/session.go:90-93 | the state becomes closing and the connection closed, nothing else changes |
| Sessions.Registry.Register | server/internal/session/registry.go:36-61 | the whole new registry, the one session closed by displacement, the queued update |
| Sessions.Registry.Unregister | server/internal/session/registry.go:63-81 | removes the entry only if it is this very session; queues the removal regardless |
| Sessions.Registry.StoreAuthToken | server/internal/session/registry.go:97-99 | the token store after a write that may fail |
| Sessions.Registry.ValidateAuthToken | server/internal/session/registry.go:101-110 | valid if and only if the lookup works and finds that very token |
| Server.Server.HandleRegistration | server/internal/handler/handler.go:120-180 | the whole shared state afterwards is that of the registration operations run in order |
| Server.Server.HandleAuthentication | server/internal/handler/handler.go:182-220 | likewise for authentication, with its two branches and the failing lookup |
| Server.Server.HandleHeartbeat | server/internal/handler/handler.go:108-118 | likewise for heartbeats |
| Server.Server.HandleLocation | server/internal/handler/handler.go:222-256 | likewise for a report, including its early returns |
| Server.Server.HandleBatchLocation | server/internal/handler/handler.go:258-287 | likewise for a batch: the offset loop publishes the items of the batch |
| Server.Server.Dispatch | server/internal/handler/handler.go:43-106 | the shared objects afterwards are those of Dispatch on values, for every session and frame |
| Server.Server.HandleConn | server/internal/server/tcp.go:83-126 | from accept to close, the objects afterwards are those of serving the input: frames until the first error, then timer, unregistration, close in this order; the connection is closed and has no timer |
| Device.ReadACK | device/p901/main.go:290-311 | the verdict on an acknowledgement, and the bytes it consumed |
| Device.RunDevice | device/p901/main.go:183-269 | what the client writes and how it ends, for any input bytes and any failing write, is what the story function says; 16-bit sequence wrap included |
| Exchange.DialogueIsExact | device/p901/main.go:195-311 | on any input bytes, from a server or not, and with any of its writes failing, the client gets through all its orders if and only if none of them fails and the frames it reads satisfy it one by one |
| Exchange.StoryIsExact | device/p901/main.go:183-269 | on any input and with any failing writes: which requests the client makes, with what token, and where and why it stops |
| Exchange.RequestsInNumbers | device/p901/main.go:195-267 | the ids, sequence numbers and bodies of all its requests |
| Exchange.SatisfactionInNumbers | device/p901/main.go:205-225 | which frames it takes for an answer, by their bytes |
| Exchange.AnswerEchoes | device/p901/main.go:290-311 | the k-th answer, read from the wire, carries the sequence number of the k-th request, and its message id if it is a general response, across the 16-bit wrap |
| Exchange.DeviceGoesOn | device/p901/main.go:195-267 | on the first k answers the client makes exactly k + 1 requests and stands waiting, or is done, without an error |
| Exchange.RequestSettles | server/internal/handler/handler.go:43-256 | handling request k takes the session from the state of k answers to that of k + 1 |
| Conversation.EndToEnd | device/p901/main.go:195-267 | in every interleaving in which the server's frames are read from the client's bytes and the client's input is the server's bytes, the client never takes an error branch, and is never more than one request ahead |
| Conversation.OtherRunOnTrack | server/internal/session/registry.go:36-43 | operations of other connections, on other phones, cannot disturb the device's session or token |
| Conversation.NextExchange | server/internal/handler/handler.go:43-256 | as long as the client has requests left, the next one arrives and can be served |
| Conversation.WholeConversation | device/p901/main.go:195-267 | for every list of reports and heartbeats the whole session can be completed |
| Conversation.DigitsAreHeard | pkg/protocol/frame.go:195-228 | a non-empty IMEI of characters 0x30..0x3e, digits among them, meets the premise on the phone: its first twelve are heard |

## Left out

- Redis, MySQL, Prometheus and HTTP clients, configuration, logging: Redis is a map with an oracle for errors and expiry, `CheckOrCreate` an oracle with four answers.
- `PublishEvent`, `RecordHeartbeat`, the forwarder's percentages and alarm names, message labels of counters, `ConnectionsTotal` and `ConnectionsActive`: effects outside the modelled state.
- Time stamps (`Touch`, `TouchLocation`, `ConnectedAt`) and what depends on them: a read timeout is a failing read at any moment, pruning removes any set of phones.
- Order of publication: locations leave on separate goroutines, so published fixes are a multiset.
- Codec.WriteFrame: does not model a write that delivers part of its bytes, because after it the connection is in error.
- Sessions.Registry.StoreAuthToken: does not model a write that reports an error and yet took effect in Redis, because the store is an oracle that either stores or fails.
- Sections under a lock are single operations; the transition system interleaves between operations, not inside them. The read of `old.conn` and the store of the closing state by displacement are one step.
- Server.Server.HandleConn: does not model other goroutines running in between, because the transition system does; the classes run one goroutine.
- Bcd.EncodeBCD: does not model Go's iteration by runes, because phones that reach it are bytes of digits or ASCII text; characters are bytes.
- LocationTheorems.DegreesTrip: does not model float64 rounding; it speaks of exact quotients.
- LocationTheorems.ReportTrip: does not model float64 rounding, because rounding is not the point of the layout; values are real numbers in the range of the wire fields.
- Conversation.EndToEnd: does not model dialling, deadlines and a second connection of the same device, because it is about one connection on which no deadline passes and whose phone no one else uses; the simulator's random walk is any sequence of states.
- Fragment reassembly, encryption and the version bit of 2019, which the code does not implement.
