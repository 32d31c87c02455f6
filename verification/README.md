# bt-daemon: verified models

Dafny models of the protocol codecs and the in-memory coordinators of bt-daemon, with proofs of
what they promise on every input and in every interleaving. `dafny verify dfyconfig.toml` checks
all of it.

## How the models are built

Code that computes a value is modelled by functions. Code that changes state is a class with the
source's fields; each method is one lock-held section and is proved equal to a function on the
state's value (`View`, `State`, `Current`). For the coordinators, a `System` adds what surrounds
the locked state (workers, readers, timers, reservations, a clock), `Next` performs one action of
one party, and `Run` any sequence of actions. An action that is not enabled changes nothing, so a
theorem about every sequence is a theorem about every interleaving. Time is a natural number of
milliseconds that never runs back; each locked section reads the clock once.

| file | models |
|---|---|
| `wire.dfy`, `words.dfy` | bytes and their bits, 64-bit words and their numbers, decoding results |
| `framing.dfy` | `src/framing.rs`: byte stuffing and the frame splitter |
| `sony.dfy`, `maestro.dfy`, `fast_pair_frames.dfy` | the three vendors' frames on top of it, and their streams |
| `protobuf.dfy` | varints, fields and the pw_rpc packet |
| `crc32.dfy` | the algebra of a bit-serial checksum register, and CRC-32 as an instance |
| `operation.dfy` | device operations with their workers and reapers |
| `discovery.dfy` | switching discovery on and off, half-way failures included |
| `scan.dfy` | scan leases on shared adapters |
| `links.dfy`, `fast_pair_links.dfy`, `pacing.dfy` | connection attempts, fencing, back-off and readers of both kinds of channel |
| `commands.dfy`, `cleanup.dfy` | reservations of authenticated commands, and what the end of a stream does to them |
| `identity_writer.dfy` | the writer thread, its slot, its wake-up channel and flush barriers |
| `signals.dfy` | epochs, fences and ageing of signal-strength readings |
| `published.dfy` | watermarks across epochs |
| `limits.dfy` | the helper's sliding-window limits |
| `audio.dfy`, `sorting.dfy` | order-independent finalisation, stable sorting |
| `collections.dfy`, `wrappers.dfy` | set sizes and distinct sequences, options |

A varint is read on a 64-bit word, shifted by the amounts of the source; that or-ing a shifted group adds it
follows from the digits of the word. The CRC result is proved from the algebra of the register: division by the polynomial is linear and
injective, so up to four bytes are absorbed as one long shift of a word. A body and its trailer are
intact exactly when together they leave one fixed residue, which is why a burst across both is caught
as well.

## Where the code keeps less than one might expect

For each of these the exact condition is proved for all inputs or all runs, and a concrete run shows
that the case is reachable.

- A scan start may switch discovery on and then fail in the snapshot that follows (`src/bluez.rs:538`);
  the coordinator records no lease, so the adapter stays on without one (`Scans.RefusedLeaksIff`).
- A snapshot read before BlueZ reports discovery grants a lease that does not list all adapters switched on
  (`Scans.GrantedKeepsIff`), or none: then the start is rolled back, which stops adapters that other clients
  have leased (`Scans.RolledBackKeepsIff`).
- A lease whose timer has failed to stop its adapters publishes a second outcome when it is then stopped
  explicitly: exactly then, by `Scans.SecondOutcomeIff`.
- Reports about the availability of the low-energy Fast Pair stream carry no attempt number, so one left
  over from the previous session counts against the new one (`FastPairLinks.BlockedIff`,
  `FastPairLinks.LateReportBlocksIff`).
- Acknowledgements of authenticated commands are matched by peer, group and code, so a late one can answer
  the next command under the same key (`PendingCommands.AcknowledgementReachesIff` with
  `PendingCommands.StillWaitsIff`).
- A Fast Pair stream releases its link before it cancels its pending commands and forgets what its peer has
  reported, so its cleanup can cancel a command of the stream that has replaced it, or take its session nonce
  (`StreamCleanup.SparesReplacementIff`, `StreamCleanup.ForgetTakesNonceIff`).
- A Fast Pair header that declares too long a payload takes the frames of the same push along
  (`FastPairFrames.DeliveryIndependentIff`).
- A reader that misses two epochs of a published state cannot order its reads
  (`PublishedState.LaterReadRecognised`, `PublishedState.ReadsTwoEpochsApart`).

## Model

| member | source | states |
|---|---|---|
| `Framing.Escape` | src/framing.rs:51-68 | the escaped frame is the opening marker, the stuffed body and the closing marker |
| `Framing.Unescape` | src/framing.rs:70-81 | the loop computes the string the escapes stand for, and refuses exactly a string that ends inside an escape pair |
| `Framing.UnstuffStuff` | src/framing.rs:51-81 | unescaping inverts escaping for every body, for any stuffing whose escaped bytes avoid the markers |
| `Framing.StuffHidesMarkers` | src/framing.rs:57-66 | no marker survives escaping (transparency, section 4.2 of RFC 1662), and no body is emptied or more than doubled |
| `Framing.DelimitedFrames.Push` | src/framing.rs:90-118 | one push has the effect of the per-byte transition on body, open flag and reported frames |
| `Framing.RunAppend` | src/framing.rs:90-118 | pushing a + b is pushing a and then b |
| `Framing.ChunkingIrrelevant` | src/framing.rs:90-118 | frames and final state depend on the stream only, not on its chunks |
| `Framing.ReachableIffBounded` | src/framing.rs:83-118 | the reachable states are exactly: closed with an empty body, or open with at most 4095 bytes and no closing marker |
| `Framing.ContentThenEnd` | src/framing.rs:100-108 | an open empty splitter turns content and an end marker into one decoded frame |
| `Framing.OversizeReportedOnce` | src/framing.rs:48-49 | a body of 4096 bytes or more is reported as one error, and its own end marker leaves the splitter idle |
| `Framing.NoiseIgnored` | src/framing.rs:100 | bytes outside a frame change nothing |
| `Framing.FlagsIdle` | src/framing.rs:101-108 | with equal markers any number of further flags yields nothing (section 3.1 of RFC 1662) |
| `Framing.Resynchronises` | src/framing.rs:100-115 | after any input, one end marker makes the next well-formed frame the last output, for equal and distinct markers |
| `Framing.PiecesDecode` | src/framing.rs:90-118 | a stream of well-formed frames with quiet gaps and shared flags yields exactly their decodings, in order |
| `Framing.StreamDecodes` | src/framing.rs:90-118 | the same from a fresh splitter, after leading noise, for any chunking |
| `Sony.ComputeChecksum` | src/sony/protocol.rs:48-50 | the fold is the wrapping byte sum |
| `Sony.Encode` | src/sony/protocol.rs:36-46 | kind, sequence, big-endian length, payload and checksum, escaped; refused from 2^32 bytes on |
| `Sony.StuffingTransparent` | src/sony/protocol.rs:43-45 | clearing and setting bit four is a transparent stuffing for the three special bytes |
| `Sony.ParseIffBody` | src/sony/protocol.rs:55-72 | a body is accepted as a frame if and only if it is that frame’s encoding |
| `Sony.DecodeIffBody` | src/sony/protocol.rs:52-73 | escaped bytes decode to a frame if and only if they stand for its body |
| `Sony.ChecksumDetects` | src/sony/protocol.rs:48-50 | strings that differ in exactly one byte have different checksums |
| `Sony.AlteredByteRejected` | src/sony/protocol.rs:52-73 | a valid body with one byte altered anywhere is refused: as a length mismatch in the length field, as a checksum mismatch elsewhere |
| `Sony.FrameDecoder.Push` | src/sony/protocol.rs:79-83 | the decoder is the splitter with the Sony markers and decoding |
| `Sony.StreamRoundTrip` | src/sony/protocol.rs:36-83 | frames that fit 4095 escaped bytes, with any noise free of 0x3e around them and any chunking, are received exactly and in order |
| `FastPairFrames.Encode` | src/fast_pair.rs:255-265 | group, code, 16-bit big-endian length and payload; refused from 65536 bytes on |
| `FastPairFrames.FrameDecoder.Push` | src/fast_pair.rs:335-359 | one push returns the frames of residue plus bytes and keeps the rest, or fails and empties the buffer on an oversize header |
| `FastPairFrames.ParseReencodes` | src/fast_pair.rs:335-359 | frames re-encoded plus the residue are all bytes parsed; the residue holds no complete frame and is under 4100 bytes |
| `FastPairFrames.ParseIff` | src/fast_pair.rs:339-358 | the frames and the residue are the only such decomposition of the bytes |
| `FastPairFrames.ChunkingIrrelevant` | src/fast_pair.rs:335-359 | pushing chunk by chunk fails exactly if the whole stream does, and otherwise gives the same frames and residue |
| `FastPairFrames.NothingLost` | src/fast_pair.rs:335-359 | as long as no push fails, frames returned and residue account for every byte pushed |
| `FastPairFrames.StreamRoundTrip` | src/fast_pair.rs:255-360 | encoded frames arrive unchanged, in order and without residue under every chunking |
| `FastPairFrames.DeliverIsPushAll` | src/fast_pair.rs:335-359 | the frames delivered push by push are those of the whole stream so far, until a push fails |
| `FastPairFrames.DeliveredComeFirst` | src/fast_pair.rs:335-359 | whatever the cuts, and even if a push fails, what has been delivered are the first complete frames of the stream |
| `FastPairFrames.DeliveryIndependentIff` | src/fast_pair.rs:339-345 | what is delivered until a push fails is the same for all cuts if and only if the stream has no oversize header at a frame boundary, or none with complete frames ahead of it |
| `FastPairFrames.OversizeDropsEarlierFrames` | src/fast_pair.rs:342-345 | for every frame and oversize header: pushed together they fail, pushed one after the other the frame arrives |
| `Protobuf.SplitGroup` | src/maestro/protocol.rs:231-235 | masking separates the seven value bits of a byte from its continuation bit |
| `Protobuf.ReadVarint` | src/maestro/protocol.rs:228-242 | the loop on a 64-bit word, or-ing in each shifted group, computes the varint reading defined group by group, with the errors of the source |
| `Protobuf.PutGroup` | src/maestro/protocol.rs:232 | or-ing a shifted group into the word of the earlier ones gives the word of the sum |
| `Protobuf.OrAddsGroup` | src/maestro/protocol.rs:232-241 | or-ing a group above all earlier ones adds its value at its position, without carries or loss in 64 bits |
| `Words64.ShiftBy` | src/maestro/protocol.rs:230-241 | shifting by each of the ten amounts 0, 7, ... 63 of the source is shifting by seven as often, which is what or-ing is related to sums through |
| `Protobuf.VarintIff` | src/maestro/protocol.rs:228-242 | reading succeeds exactly on at most ten groups ending at the first clear continuation bit, returns their sum, below 2^64, and the bytes after them |
| `Protobuf.PutVarint` | src/maestro/protocol.rs:244-250 | the loop appends the base-128 form of the value |
| `Protobuf.VarintRoundTrip` | src/maestro/protocol.rs:228-250 | reading inverts writing for every 64-bit value and leaves any suffix untouched |
| `Protobuf.ParseFields` | src/maestro/protocol.rs:193-218 | the loop collects the fields defined by repeated reading, or the first error; the remaining bytes shrink |
| `Protobuf.FirstShortens` | src/maestro/protocol.rs:195-216 | each field consumes at least one byte |
| `Protobuf.FieldsAppend` | src/maestro/protocol.rs:193-218 | once a parses, the fields of a + b are those of a followed by those of b, or the error of b |
| `Protobuf.EncodePacket` | src/maestro/protocol.rs:253-279 | the packet’s nonzero and nonempty fields in field order |
| `Protobuf.DecodePacket` | src/maestro/protocol.rs:281-300 | the loop assigns known fields of the right type, ignores others, and fails on a value over 32 bits |
| `Protobuf.PacketRoundTrip` | src/maestro/protocol.rs:253-300 | decoding inverts encoding for every packet |
| `ShiftRegister.Compute` | src/maestro/protocol.rs:303-313 | the nested fold computes the shift-register checksum |
| `ShiftRegister.FoldIsShift` | src/maestro/protocol.rs:303-313 | absorbing up to four bytes is one long shift of the word they form |
| `ShiftRegister.BurstDetected` | src/maestro/protocol.rs:303-313 | any register with the listed laws separates messages that differ within four consecutive bytes |
| `Crc32.ComputeCrc` | src/maestro/protocol.rs:303-313 | the CRC-32 of the message (appendix C.3 of RFC 1662) |
| `Crc32.DivideInjective` | src/maestro/protocol.rs:305-311 | one shift-and-xor step is injective on 32 bits |
| `Crc32.CrcLaws` | src/maestro/protocol.rs:303-313 | the reflected CRC-32 register satisfies all laws of the shift register |
| `FrameCheck.BurstChangesCrc` | src/maestro/protocol.rs:303-313 | strings that differ only within four consecutive bytes have different checksums |
| `FrameCheck.TrailerRoundTrip` | src/maestro/protocol.rs:328 | the little-endian trailer carries the checksum |
| `FrameCheck.TrailerMatchesIff` | src/maestro/protocol.rs:337-341 | a trailer matches its message exactly when both together leave one fixed residue |
| `FrameCheck.BurstBreaksTrailer` | src/maestro/protocol.rs:337-341 | no change within four consecutive bytes of an intact body, in content, trailer or across both, leaves it intact |
| `Maestro.StuffingTransparent` | src/maestro/protocol.rs:330 | exclusive-or with 0x20 is a transparent stuffing for flag and escape |
| `Maestro.PutAddress` | src/maestro/protocol.rs:316-322 | the loop appends seven bits per byte, shifted left, with bit zero on the last byte only |
| `Maestro.AddressRoundTrip` | src/maestro/protocol.rs:316-347 | reading stops at the last address byte whatever follows, and the bytes determine the address |
| `Maestro.EncodeFrame` | src/maestro/protocol.rs:324-331 | address, control byte, data and CRC trailer, escaped between flags |
| `Maestro.DecodeFrame` | src/maestro/protocol.rs:333-354 | the checks of the source in their order, each with its own error |
| `Maestro.ParseIff` | src/maestro/protocol.rs:333-354 | a packet is received if and only if an intact body of at least six bytes carries it behind an address and the control byte |
| `Maestro.FrameRoundTrip` | src/maestro/protocol.rs:324-354 | decoding inverts encoding for every address and packet |
| `Maestro.AlterationRejected` | src/maestro/protocol.rs:333-341 | any change confined to four consecutive bytes of an intact body is reported as a checksum mismatch |
| `Maestro.FrameDecoder.Push` | src/maestro/protocol.rs:360-364 | the decoder is the splitter with the HDLC flag and Maestro decoding |
| `Maestro.StreamRoundTrip` | src/maestro/protocol.rs:253-364 | packets that fit 4095 escaped bytes are received exactly and in order, after any flag-free noise, with flags shared or repeated, in any chunking |
| `Maestro.ConcatenationRoundTrip` | src/maestro/protocol.rs:324-364 | the same for the plain concatenation of encoded frames |
| `Operations.OperationCoordinator.Start` | src/daemon/operation.rs:187-232 | refusals in the source’s order; an accepted operation enters with revision 1 and is not published |
| `Operations.OperationCoordinator.PublishStarted` | src/daemon/operation.rs:320-328 | publishes the next revision of an active operation and says whether there was one |
| `Operations.OperationCoordinator.ReportProgress` | src/daemon/operation.rs:336-346 | publishes progress only while active, not claimed, and below the reserved last revision |
| `Operations.OperationCoordinator.Finish` | src/daemon/operation.rs:314-317 | claims, retains and publishes the outcome with its snapshot or error in one step, or does nothing |
| `Operations.OperationCoordinator.RetainTerminal` | src/daemon/operation.rs:289-294 | the newest 64 outcomes are kept and the event is sent |
| `Operations.OperationCoordinator.Cancel` | src/daemon/operation.rs:240-251 | claims the handle of the caller’s own operation once, and changes nothing else |
| `Operations.OperationCoordinator.Reap` | src/daemon/operation.rs:258-266 | publishes the cancellation unless another outcome came first |
| `Operations.OperationCoordinator.GetStatus` | src/daemon/operation.rs:161-175 | the caller’s active operation, or else its retained outcome |
| `Operations.NextKeeps` | src/daemon/operation.rs:178-347 | every action of every thread keeps the invariant: distinct devices, exact revisions, one outcome, retained outcomes are the latest ones |
| `Operations.RunGood` | src/daemon/operation.rs:178-347 | the invariant holds after every run |
| `Operations.RevisionsIncrease` | src/daemon/operation.rs:66-90 | published revisions of one operation strictly increase, stay within 2^53 - 1, and nothing follows an outcome |
| `Operations.ExactlyOneOutcome` | src/daemon/operation.rs:289-318 | an accepted operation is active without an outcome, or has published exactly one |
| `Operations.LeavesWithOutcome` | src/daemon/operation.rs:105-106 | an operation ceases to be active only in the step that retains and sends its outcome, and its worker has then stopped |
| `Operations.DeviceHeldUntilStopped` | src/daemon/operation.rs:191-200 | while a worker has not stopped, cancelled or not, its device is refused as busy and nothing changes |
| `Operations.CancelledWasRequested` | src/daemon/operation.rs:248-266 | an operation ends as cancelled only after a cancellation has taken its handle |
| `Operations.StartedIsFound` | src/daemon/operation.rs:303-305 | a worker that passes its start signal always finds its operation |
| `Operations.CanAlwaysEnd` | src/daemon/operation.rs:252-270 | an active operation can always still reach its outcome through its worker or its reaper |
| `Operations.ClaimedReportsNothing` | src/daemon/operation.rs:339-341 | once a cancellation has taken the handle, no progress is published |
| `Operations.CancelClaims` | src/daemon/operation.rs:240-251 | a cancellation claims its own operation, publishes nothing by itself and leaves other owners alone |
| `Operations.OwnerLossClaims` | src/daemon/operation.rs:274-287 | in every run after the loss of an owner, each of its operations whose cancellation has run anywhere is claimed or gone, and stays so, whatever else happens in between |
| `Operations.OutcomeCarriesResult` | src/daemon/operation.rs:78-90 | what is published carries a snapshot if and only if the operation completed, and an error if and only if it failed |
| `Operations.LimitsHold` | src/daemon/operation.rs:116-119 | if the operation table admits only where there is room, at most 256 operations are active and at most 64 of one owner, after every run |
| `Operations.StatusExact` | src/daemon/operation.rs:156-176 | a status read answers exactly the owner, with the latest event or the receipt, and only while active or retained |
| `Scans.SelectScans` | src/daemon/scan.rs:313-337 | the loop finds exactly the matching leases and, in ascending order, exactly the adapters that no other lease holds |
| `Scans.ListingUnique` | src/daemon/scan.rs:335 | the order of the stop attempts, and so the error reported, is determined by the set of adapters |
| `Scans.StopAdapters` | src/daemon/scan.rs:378-392 | every adapter is attempted; the reply is the earliest error, else the final snapshot, or a fresh one if there was nothing to stop |
| `Discovery.Backend.StartDiscovery` | src/bluez.rs:461-478 | a running adapter is left alone, another one is started or fails |
| `Discovery.Backend.DiscoverPowered` | src/bluez.rs:819-841 | the walk over the adapters, stopping at the first failure, with the adapters it has started |
| `Discovery.Backend.StartGlobal` | src/bluez.rs:810-847 | a failed walk is undone |
| `Discovery.Backend.StartOne` | src/bluez.rs:426-437 | one adapter is looked up, must be powered, and is started |
| `Discovery.Backend.SwitchOn` | src/bluez.rs:529-539 | discovery is switched on, and only then is the snapshot read |
| `Discovery.WalkedIff` | src/bluez.rs:819-841 | the walk fails if and only if some adapter cannot be read or started; otherwise it has added exactly the powered ones |
| `Discovery.SwitchedIff` | src/bluez.rs:529-539 | a start that succeeds adds exactly the matching powered adapters, one that fails changes nothing |
| `Scans.ScanCoordinator.Start` | src/daemon/scan.rs:134-188 | a new lease on the reported adapters, or none, with a rollback if nothing was reported |
| `Scans.ScanCoordinator.StopSelected` | src/daemon/scan.rs:264-308 | on success all selected leases end and their surplus adapters stop; on failure all leases stay |
| `Scans.ScanCoordinator.Expire` | src/daemon/scan.rs:205-227 | one attempt of the timer: the lease ends on success, and only the first attempt publishes |
| `Scans.OthersSpared` | src/daemon/scan.rs:311-337 | a stop, whatever fails, switches off no adapter that a lease outside the selection holds |
| `Scans.StartKeeps` | src/daemon/scan.rs:134-188 | an exactly reported start keeps both promises |
| `Scans.RunGood` | src/daemon/scan.rs:120-392 | after every run whose starts read truthful snapshots, or lose one with nothing unleased newly on, adapters still discovering are leased, and leases no failed stop has selected have all adapters discovering |
| `Scans.DiscoveringIsHeld` | src/daemon/scan.rs:313-337 | as long as no stop has failed, exactly the leased adapters are discovering |
| `Scans.CallIs` | src/bluez.rs:529-539 | what a start amounts to, for all answers: nothing, adapters left on by a failed snapshot, or adapters reported |
| `Scans.DependableIsExact` | src/bluez.rs:529-539 | a start whose snapshot is truthful, or fails with nothing unleased newly on, is reported exactly |
| `Scans.RefusedLeaksIff` | src/bluez.rs:529-539 | a failed start leaves an adapter on without a lease if and only if every step up to the snapshot succeeded, the snapshot failed, and a newly started adapter is unleased |
| `Scans.GrantedKeepsIff` | src/daemon/scan.rs:146-186 | after a start whose snapshot shows a matching adapter, both promises hold if and only if all adapters newly switched on are shown or leased and all matching ones shown are on |
| `Scans.GrantedStartLeaks` | src/bluez.rs:529-539 | a run of one start whose snapshot does not show the first of two adapters yet |
| `Scans.RolledBackKeepsIff` | src/daemon/scan.rs:147-163 | after a start whose snapshot shows no matching adapter, both promises hold if and only if a working rollback stops no adapter of an intact lease, and a failing one leaves on only what is leased |
| `Scans.RollbackStopsLeased` | src/daemon/scan.rs:146-163 | a run of two starts in which the rollback of the second switches off what the first has leased, although no stop has failed |
| `Scans.RefusedStartLeaks` | src/bluez.rs:529-539 | that case is reachable by the first scan of all |
| `Scans.RunOutcomes` | src/daemon/scan.rs:191-308 | every lease that is over has published one outcome, or first its timer’s failure and then the explicit stop |
| `Scans.SecondOutcomeIff` | src/daemon/scan.rs:218-306 | an explicit stop publishes a second outcome for a lease if and only if its timer has published its failure before |
| `Scans.TimerEndsOnce` | src/daemon/scan.rs:214-226 | a lease ended by its timer has published exactly one outcome |
| `Scans.TwoOutcomesOccur` | src/daemon/scan.rs:216-223 | the case with two outcomes is reachable |
| `VendorLinks.Links.Begin` | src/vendor_channel.rs:76-106 | a stale attempt is given up with back-off; an attempt is granted if neither connected, connecting nor backing off |
| `VendorLinks.Links.Accept` | src/vendor_channel.rs:108-115 | a stream is accepted once per connected peer and ends any pending attempt |
| `VendorLinks.Links.ConnectFailed` | src/vendor_channel.rs:117-133 | only the current attempt’s failure counts; the busy budget comes before the back-off |
| `VendorLinks.Links.Ended` | src/vendor_channel.rs:135-142 | the end of a stream backs off, after forgetting the failures of a stream that lived a minute |
| `VendorLinks.Links.Reset` | src/vendor_channel.rs:144-148 | forgets failures and the pending attempt, but not an accepted stream |
| `VendorLinks.BackOffBounds` | src/vendor_channel.rs:158-163 | every back-off lies between 15 and 300 seconds |
| `VendorLinks.NextKeeps` | src/vendor_channel.rs:76-148 | each event keeps: readers match connected peers one to one, a pending attempt is the last one granted, busy retries stay within six |
| `VendorLinks.RunGood` | src/vendor_channel.rs:76-148 | the invariant holds after every interleaving |
| `VendorLinks.AtMostOneReader` | src/vendor_channel.rs:222-269 | a peer has at most one live reader, exactly while connected, and then no pending attempt |
| `VendorLinks.LateResultIgnored` | src/vendor_channel.rs:117-124 | the result of an attempt that is over, superseded or of another peer leaves the state unchanged |
| `VendorLinks.AttemptRateBounded` | src/vendor_channel.rs:76-163 | without a reset or a stream of 60 s, at most 7 + T/15 attempts are granted in T seconds of any run |
| `FastPairRetry.RetryPolicy.NextDeadline` | src/fast_pair/retry.rs:48-50 | the earliest deadline of all peers |
| `FastPairRetry.RetryPolicy.ClearDueDeadlines` | src/fast_pair/retry.rs:51-56 | the loop clears exactly the deadlines that are due |
| `FastPairRetry.RetryPolicy.NoteConnectionFailed` | src/fast_pair/retry.rs:57-67 | the next quick retry, or a back-off once the busy budget is used up |
| `FastPairRetry.RetryPolicy.NoteFailed` | src/fast_pair/retry.rs:29-35 | one more failure and a jittered deadline |
| `FastPairRetry.RetryPolicy.NotePsmUnknown` | src/fast_pair/retry.rs:81-85 | three reports without an answer make the low-energy stream unavailable |
| `FastPairRetry.DelayBounds` | src/fast_pair/retry.rs:29-35 | the deadline lies between the base delay and a fifth more, and within 15 to 360 seconds |
| `FastPairRetry.QuickTotalBounded` | src/fast_pair/retry.rs:8-10 | all quick retries together take at most 4.75 seconds |
| `FastPairRetry.ClearDueChangesNothing` | src/fast_pair/retry.rs:42-56 | clearing changes no later answer about readiness and leaves only future deadlines |
| `FastPairLinks.ConnectionState.Begin` | src/fast_pair.rs:396-419 | a stale attempt is given up with back-off; an attempt is granted if there is no link, the peer is ready and the transport allowed |
| `FastPairLinks.ConnectionState.NoteConnectionChange` | src/fast_pair.rs:425-432 | a new session: failures are forgotten and a pending attempt is retired, a live stream stays |
| `FastPairLinks.ConnectionState.MarkConnected` | src/fast_pair.rs:448-456 | at most one stream per peer; its deadline is cleared |
| `FastPairLinks.ConnectionState.ConnectCompleted` | src/fast_pair.rs:434-436 | a stream counts only for the current attempt |
| `FastPairLinks.ConnectionState.Ended` | src/fast_pair.rs:438-446 | the end of a stream removes link and writer and backs off |
| `FastPairLinks.ConnectionState.NoteAttemptFailed` | src/fast_pair.rs:458-463 | a failure counts only for the current attempt |
| `FastPairLinks.RunGood` | src/fast_pair.rs:395-464 | the invariant holds after every interleaving |
| `FastPairLinks.AtMostOneReader` | src/fast_pair.rs:1302-1346 | a peer has at most one live reader, then no pending attempt, and a writer only beside a reader |
| `FastPairLinks.LateResultIgnored` | src/fast_pair.rs:421-463 | a completion or failure of any attempt but the pending one leaves the state unchanged, for runs of at most 2^64 attempts |
| `FastPairLinks.AttemptRateBounded` | src/fast_pair.rs:396-463 | without a connection change or a stream of 60 s, at most 7 + T/15 attempts are granted in T seconds of any run |
| `FastPairLinks.BlockedIff` | src/fast_pair/retry.rs:76-91 | after every run, the low-energy transport is blocked if and only if, since the last connection change or long stream, one unavailable or three unknown reports were processed |
| `FastPairLinks.L2capGrantedIff` | src/fast_pair.rs:403-408 | a low-energy attempt is granted if and only if a classic one would be and the session is not blocked by such reports |
| `FastPairLinks.LateReportBlocksIff` | src/fast_pair.rs:1497-1517 | a report of an earlier session newly blocks the present one if and only if that is open and the report says unavailable or is the third unknown one |
| `FastPairLinks.LatePsmReportBlocksNewSession` | src/fast_pair.rs:1497-1517 | a run in which that happens |
| `PendingCommands.Commands.Reserve` | src/fast_pair/commands.rs:66-85 | a free key gets the next generation; a pending key or an exhausted counter is refused without a change |
| `PendingCommands.Commands.Resolve` | src/fast_pair/commands.rs:87-96 | removes the entry under the key and names the reservation answered |
| `PendingCommands.Commands.Disconnect` | src/fast_pair/commands.rs:98-103 | removes exactly the entries of the peer |
| `PendingCommands.Commands.Drop` | src/fast_pair/commands.rs:113-127 | removes the entry only if it has the reservation’s own generation |
| `PendingCommands.RunGood` | src/fast_pair/commands.rs:66-128 | entries and waiting receivers correspond one to one, each entry behind a held reservation of its own generation |
| `PendingCommands.GenerationsNeverRepeat` | src/fast_pair/commands.rs:71-74 | every grant has a generation above all earlier ones, also at the end of the 64-bit range |
| `PendingCommands.DropTouchesOnlyItsOwn` | src/fast_pair/commands.rs:113-127 | dropping a reservation frees its own slot and no other |
| `PendingCommands.ResolveAnswersThePending` | src/fast_pair/commands.rs:87-96 | an acknowledgement answers the one pending command under its key and no other |
| `PendingCommands.NoWaiterForgotten` | src/fast_pair/commands.rs:50-61 | a waiting owner can be reached by an acknowledgement and by a disconnect |
| `PendingCommands.StillWaitsIff` | src/fast_pair/commands.rs:66-128 | a reservation waits if and only if since its grant there was no acknowledgement under its key, no disconnect of its peer, no clearing and no drop of its own |
| `PendingCommands.AcknowledgementReachesIff` | src/fast_pair/commands.rs:87-96 | an acknowledgement meant for a reservation reaches it if and only if it still waits, and another one if and only if that waits under the same key |
| `PendingCommands.LateAcknowledgementAnswersNewer` | src/fast_pair/commands.rs:87-96 | a run, for every key, in which a late acknowledgement answers the next command |
| `StreamCleanup.CommandsFollowHistory` | src/fast_pair.rs:1630-1639 | in every interleaving of links, commands and cleanups, the pending commands follow from their own history |
| `StreamCleanup.CleanupCancelsIff` | src/fast_pair.rs:1630-1633 | the cleanup of an ended stream cancels a command if and only if it is of the peer and still unsettled |
| `StreamCleanup.SparesReplacementIff` | src/fast_pair.rs:1630-1633 | it leaves the commands of a replacement stream alone if and only if none reserved since the link was released is still pending |
| `StreamCleanup.OldCommandsEnd` | src/fast_pair.rs:1630-1633 | no command of the ended stream waits after its cleanup |
| `StreamCleanup.ReplacementHit` | src/fast_pair.rs:1630-1633 | a run, for every key, in which a command of the live replacement stream is cancelled |
| `StreamCleanup.NonceInForceIff` | src/fast_pair.rs:1593-1608 | after every run, a session nonce is in force if and only if it is the latest report about the peer and no cleanup has forgotten the peer since |
| `StreamCleanup.ForgetTakesNonceIff` | src/fast_pair.rs:1630-1635 | forgetting leaves the peer without a nonce and other peers alone; it takes one from a replacement stream if and only if a nonce was reported since the link was released and nothing noted about the peer after it |
| `StreamCleanup.ReplacementNonceTaken` | src/fast_pair.rs:1630-1635 | a run, for every peer, in which the live replacement stream loses its nonce to the old cleanup |
| `IdentityWriter.Writer.Fill` | src/identity/persistence.rs:37 | the newest state replaces any older one in the slot |
| `IdentityWriter.Writer.TrySend` | src/identity/persistence.rs:38-40 | a wake-up is queued unless the channel is full |
| `IdentityWriter.Writer.Receive` | src/identity/persistence.rs:61-87 | one message is taken off the channel, a flush joins the barriers |
| `IdentityWriter.Writer.Take` | src/identity/persistence.rs:63 | the slot is emptied into the write to come |
| `IdentityWriter.Writer.Persist` | src/identity/persistence.rs:64-66 | the result of the last write is remembered |
| `IdentityWriter.Writer.Reply` | src/identity/persistence.rs:67-69 | a barrier is answered with the result of the last write |
| `IdentityWriter.NextKeepsSlot` | src/identity/persistence.rs:36-71 | every step keeps: the slot holds the newest state or that one has been taken, and a filled slot has somebody to look into it |
| `IdentityWriter.RunGood` | src/identity/persistence.rs:25-112 | the whole invariant holds after every interleaving |
| `IdentityWriter.NoLostWakeUp` | src/identity/persistence.rs:36-71 | while a state is pending, a message is queued, the writer is between receive and take, or a scheduler is about to wake it |
| `IdentityWriter.NothingLeftBehind` | src/identity/persistence.rs:104-111 | once the thread has ended, nothing is pending, the last state was attempted and every flush answered |
| `IdentityWriter.FlushCovers` | src/identity/persistence.rs:42-53 | a flush that succeeds follows a successful write at least as new as every state scheduled before it was sent |
| `IdentityWriter.NoDeadlock` | src/identity/persistence.rs:42-89 | a pending state or a sent flush always leaves the writer or a scheduler a step to take |
| `IdentityWriter.FlusherGetsRoom` | src/identity/persistence.rs:42-48 | a flush waits only while the channel is full, which the writer can then empty |
| `IdentityWriter.CanAlwaysSettle` | src/identity/persistence.rs:25-112 | every run can be continued, by pending wake-ups and sends and the writer alone, until the last state scheduled was attempted and every flush begun is answered |
| `LinkSignals.Signals.GetReading` | src/bluez/link_signal.rs:52-60 | the cached sample within 300 s, live under the three conditions of the source |
| `LinkSignals.Signals.Invalidate` | src/bluez/link_signal.rs:62-75 | fences the device or adapter and marks the entries it covers as failed and due |
| `LinkSignals.Signals.Suspend` | src/bluez/link_signal.rs:77-83 | retires all tokens and marks every entry as failed and due |
| `LinkSignals.Signals.BeginPoll` | src/bluez/link_signal.rs:85-92 | a new token, and no fences |
| `LinkSignals.Signals.Accept` | src/bluez/link_signal.rs:109-132 | enters a reading with a current token; a failed one keeps the sample |
| `LinkSignals.Signals.Age` | src/bluez/link_signal.rs:150-160 | drops samples and entries past the cache time |
| `LinkSignals.TokenCurrentIff` | src/bluez/link_signal.rs:85-98 | a token is current if and only if no later poll, no suspension and no covering invalidation has happened since |
| `LinkSignals.AcceptedIff` | src/bluez/link_signal.rs:109-132 | an offered reading is entered exactly under that condition; otherwise nothing changes |
| `LinkSignals.LiveIff` | src/bluez/link_signal.rs:52-60 | a reading is live if and only if connected and its last reading entered was a success within 12 s with no suspension or covering invalidation since |
| `LinkSignals.DisturbedIsDue` | src/bluez/link_signal.rs:100-107 | after an invalidation or a suspension the next poll may ask at once |
| `PublishedState.Publisher.Update` | src/daemon/published.rs:46-65 | nothing for an equal value, otherwise the next revision or a new epoch with its lineage |
| `PublishedState.WatermarkIdentifies` | src/daemon/published.rs:8-14 | equal watermarks mean the same published state, and revisions stay within 1 to 2^53 - 1 |
| `PublishedState.UnchangedKeepsWatermark` | src/daemon/published.rs:47-64 | the watermark changes if and only if the value does |
| `PublishedState.LaterReadRecognised` | src/daemon/published.rs:52-61 | the later of two reads is recognised if and only if the state has changed and at most one epoch has ended between them; never the other way round |
| `PublishedState.ReadsTwoEpochsApart` | src/daemon/published.rs:52-61 | every run can be continued until neither of two reads of different states is recognised as newer |
| `RequestLimits.Limits.Retain` | src/rssi_helper.rs:173-174 | exactly the arrivals still in the window stay, in order |
| `RequestLimits.Limits.Admit` | src/rssi_helper.rs:171-180 | admits if fewer than sixteen arrivals are left in the window |
| `RequestLimits.Limits.AdmitTarget` | src/rssi_helper.rs:181-190 | admits a target not kept if fewer than sixty-four are |
| `RequestLimits.RequestRateBounded` | src/rssi_helper.rs:171-180 | every half-open second of any run holds at most sixteen admitted requests |
| `RequestLimits.RefusedOnlyAtTheLimit` | src/rssi_helper.rs:171-180 | a request is refused if and only if sixteen were admitted in the second before it |
| `RequestLimits.TargetRefusedIff` | src/rssi_helper.rs:181-190 | a target is refused if and only if it, or sixty-four targets, were admitted within the last two seconds |
| `RequestLimits.SameTargetApart` | src/rssi_helper.rs:181-190 | two admissions of one target are at least two seconds apart |
| `RequestLimits.TargetRateBounded` | src/rssi_helper.rs:181-190 | every half-open interval of two seconds holds at most sixty-four target admissions |
| `AudioDevices.AudioDevice.UpdateProfile` | src/audio.rs:1132-1147 | sets the active profile or lists a profile whose index is new, so indexes stay distinct |
| `AudioDevices.AudioDevice.Finalize` | src/audio.rs:1174-1207 | sorts profiles, marks defaults, sorts endpoints, picks sink and source, and refines the active profile |
| `AudioDevices.CommonCodecIff` | src/audio.rs:1210-1215 | a codec is common if and only if some endpoint names it and no endpoint names another |
| `AudioDevices.FinalizedTwice` | src/audio.rs:1174-1207 | finalising a second time changes nothing |
| `AudioDevices.FinalizedOrderIndependent` | src/audio.rs:1174-1207 | with distinct indexes and ids, the finalised device is the same for every order of profiles and endpoints |
| `AudioDevices.SinkIsBest` | src/audio.rs:1193-1198 | no endpoint of the same kind comes before the one published as sink or source |
| `AudioDevices.FinalizeDevices` | src/audio.rs:1157-1171 | each device takes and partitions its nodes, is finalised, and the list is sorted |
| `AudioDevices.PreparedOrderIndependent` | src/audio.rs:1162-1168 | apart from its internal endpoints, a device does not depend on the order of its node table |
| `AudioDevices.ListOrderIndependent` | src/audio.rs:1157-1171 | clients see the same list whatever the order of devices, profiles and nodes |
| `Sorting.SortOrderIndependent` | src/audio.rs:1175-1192 | sorting by an order that separates the elements does not depend on the input order |
| `Sorting.SortedUnchanged` | src/audio.rs:1175-1192 | a stable sort leaves a sorted sequence alone |

## Left out

- D-Bus, BlueZ, PipeWire, rfkill, sockets, files and the OBEX daemon: foreign effects. A call that can fail appears as a step with a free outcome.
- Cryptography (`src/fast_pair.rs:268-327`): library primitives.
- The protocol registry, JSON envelopes, logging, the client, settings and key stores, codec and icon tables, feature flags: finite or single-branch facts.
- `announced_channel`, `subscription_update` and the battery readings of Maestro, noise-control payloads of Sony: field tables on top of the packet and frame layers.
- Liveness of executors and real clocks: theorems about progress say that a step is enabled, not that it is taken.
- Shutdown of the channel managers, which aborts every reader and clears the state.
- What a Fast Pair peer reports besides its session nonce; a cleanup forgets its battery, model and capabilities in the same way.
- Powering adapters off, hot-plugging, discovery streams that end by themselves and other clients that start discovery; `discovering` is what this program keeps on. An adapter's key stands for its name.
- Lengths are natural numbers: `usize` is taken as 64 bits wide, so `usize::try_from` of a varint never fails.
- Scans.RunGood: assumes that a snapshot read after a start is truthful, and that a start which loses its snapshot has nothing unleased newly on, because the source keeps less otherwise; the exact conditions for each kind of start are separate members.
- Scans.ScanCoordinator.Start: the sequence number is a natural number, the 64-bit counter is not modelled as wrapping.
- Scans.SelectScans: the order of the selected leases is left open, as the hash map leaves it open.
- Operations.OperationCoordinator.Start: the limits are applied by a library that is not part of this model, so both its answers are free inputs; `Operations.LimitsHold` says what follows if it keeps them. Request ids are fresh.
- Operations.OperationCoordinator.RetainTerminal: the retention time appears only as an expiry of any number of the oldest outcomes at any moment.
- Protobuf.ParseFields: consumes a sequence instead of advancing a borrowed slice, and calls the reading function that `Protobuf.ReadVarint` is proved to compute.
- FastPairLinks.LateResultIgnored: limited to runs of at most 2^64 attempts, because the attempt counter wraps.
- LinkSignals.TokenCurrentIff: assumes fewer than 2^64 polls and suspensions since the token was given out, because the epoch wraps.
- LinkSignals.Signals.Accept: the wall-clock time of a sample is part of the sample offered.
- PublishedState.Publisher.Update: a fresh epoch is an input that has never been used before.
- IdentityWriter.Writer.Persist: the file write is a free outcome, and states are represented by the order in which they fill the slot.
- AudioDevices.FinalizeDevices: the list of devices is a sequence of values; each is finalised in a record of its own.
- AudioDevices.ListOrderIndependent: lower-casing is any function from strings to strings; internal endpoints are left out of the comparison because the source never sorts them.
- FastPairRetry.RetryPolicy.NoteFailed: the random byte of the jitter is an input.
