# Gatherlink packet path

Gatherlink carries UDP services over several network paths at once. This project models the part of it that touches
packets (numbering, choosing frames, fragmenting and batching them, sealing them under one-time counters, and at the
other end authenticating, reassembling, deduplicating, reordering and emitting them) together with the control
payloads the two ends exchange, and proves what that code keeps over whole runs.

Where the source updates objects in place the model has classes with methods and loops; each is proved against a
function of its inputs, and the theorems are about those functions. Where the source only computes, the model has
functions. `dafny verify dfyconfig.toml` checks everything. Nothing here executes the original program.

## What is modelled, and what was found

| modules | subject |
|---|---|
| `Bytes`, `FrameCodec` | wire integers, v1 and v2 frames, batch payloads, the in-place decoder |
| `Replay`, `Envelope`, `SessionRun` | replay ring, sealing and opening, a whole session as a state machine |
| `Plans`, `Planning`, `Fragmentation`, `FrameFit`, `BurstPrediction`, `Delivery` | from local datagrams to frames and back |
| `Security`, `Transmit`, `Transmitter`, `Wire`, `Reporting` | sending frame by frame, and in groups with reserved counters and worker threads; what is then on the wire and in the reports |
| `Dedupe`, `Tracker`, `Reorder`, `Overstay`, `GapFill` | duplicates, gaps, and holding back what arrives early |
| `Receive`, `HeldReceive`, `PendingEmissions`, `ReceiveSummary` | the receiving end, in its detailed and its production form |
| `ReceiveAccount`, `InOrderReceive`, `LearnedRemotes` | what the receiver's state stands for over whole runs, and the order in which it sends |
| `EndToEnd`, `AnyOrder`, `AnyOrderPlan` | from datagrams at one end to emissions at the other, in order and in any order |
| `AnyOrderHeld`, `HeldPlan` | the same for runs of production calls with reorder holds |
| `MixedCopies`, `UnevenFanout` | copies of one datagram fragmented for different paths |
| `SharedIds`, `CrossedPeers` | datagrams of two senders under one datagram id |
| `Drain`, `DrainCalls`, `DrainTotals` | the round robin over path sockets |
| `Records`, `Fields`, `Control`, `ControlLayout`, `ControlPayload`, `PythonControl`, `CrossLanguage`, `PythonEncoding` | control payloads in Rust, in Python, and between them |
| `ServiceIds` | automatic numbering of services |

The cipher is a parameter: a pair of function values that open exactly what they sealed (`Envelope.Ideal`). Clocks,
socket contents, UTF-8 validity, the scheduler's path choices and the iteration order of hash maps are parameters too.

Where the code does not do what one would expect, the model follows the code and a lemma names the case:

- A batch whose sequences pass 2^64 - 1 is renumbered by the receiver: the planner skips 0, the receiver does not
  (`Delivery.SequenceWrapIsMisread`; `Delivery.PlanCoalesceDeliver` gives the exact condition).
- The one-at-a-time transmit sends a packet and then reports failure when the only known address is the one learned
  for the service's session; the grouped form succeeds (`Transmit.SentThenRefused`). It also measures frames in
  their v1 form where the grouped form measures what the security mode sends, one byte less;
  `Transmitter.CoreTransmitter.TransmitPlannedFramesSummary` states exactly when the two forms agree.
- Fanout gives all copies of a datagram one datagram id, and each copy is fragmented for its own path. Fragments of
  copies cut at different sizes meet in one buffer: some orders of arrival end in an error, and some emit a payload
  that was never sent (`UnevenFanout.MixedFragmentsEmitGarbled`, and from a fresh start
  `UnevenFanout.RampComesOutGarbled`). Mixing is harmless if and only if the copies are cut at the same places
  (`MixedCopies.MixIsFaithfulExactly`).
- Reassembly buffers are keyed by the datagram id alone, and every sender counts its ids from 1. Fragments of two peers
  of a hub meet in one buffer and bytes of one come out as a payload of the other (`CrossedPeers.PeersCross`,
  `CrossedPeers.FirstDatagramsCross`). The two are kept apart if and only if their ids differ or they need no
  reassembly (`SharedIds.SeparateExactly`).
- On a path that does not take whole packets, a draining one say, the planner's length prediction restarts while the
  coalescer goes on merging (`BurstPrediction.DrainingPathDefeatsPrediction`; `BurstPrediction.PredictionIsExact` says
  exactly when the two lengths agree).
- Expiry looks at the lowest held sequence, so an older entry behind it can outstay its hold
  (`Overstay.OverdueEntryMayStay`; `Overstay.KeptExactly` says which entries a release keeps).
- A gap that spans the sequence wrap opens the reorder buffer at sequence 0 instead of the sequence expected
  (`GapFill.OpensAtExpected` says exactly when it opens where it should).
- A peer numbers the payloads of all its services in one sequence, but gaps are waited for service by service: a gap
  that another service's payload fills stays open until the hold is over (`GapFill.OtherServiceFillsNoGap`, for every
  two services of a peer; with one service everything comes out in order, `InOrderReceive.ShuffledIsSentInOrder`).
- A relay hop's counter wraps without an error, so its nonces come back after 2^64 sends and never before
  (`Transmit.RelayCounterReused`).
- When a frame fails, the production receive call loses the emissions it had pending, at most 63, although it goes on
  treating their payloads as seen (`PendingEmissions.ErrorLosesPending`;
  `ReceiveSummary.Receiver.ReceiveAvailableFromPathsSummary` says exactly which are lost).
- A handler failure ends a drain call with the cursor behind the last productive socket. If the socket under the cursor
  fails in every call, no other socket is visited at all (`DrainCalls.FailingSocketStarvesOthers`); a failing call hands
  fairness on exactly when the sockets it left out have room to wait (`DrainCalls.CallHandsOnPromise`).
- An optional number that is present and zero passes some control constructors but does not survive the wire
  (`Control.ZeroLatencyIsRefused`; `Control.MessageRoundTrip` gives the exact condition).
- Two control messages have different layouts in Rust and Python: Python refuses every payload that holds one
  (`CrossLanguage.PythonReadsRust`). In the other direction Rust refuses whole payloads that Python writes, for those two
  and for its two latency kinds, and for a capacity or latency report with nothing in it
  (`PythonEncoding.RustReadsPython`).
- Python's encoder writes clock exchanges that its own decoder refuses, with the whole payload, and zero metrics that
  come back as absent (`PythonEncoding.HalfResponseIsRefused`, `PythonEncoding.ZeroMetricIsLost`;
  `PythonEncoding.SurvivesExactly` gives the exact condition).
- The last user service id is never given out automatically, so the stated maximum number of services cannot be
  reached with automatic ids alone (`ServiceIds.LastIdIsNeverAutomatic`).

## Model

| member | source | states |
|---|---|---|
| `FrameCodec.DecodeV2OfEncode` | crates/protocol/src/frame.rs:200-323 | decoding an encoded frame gives it back if and only if the frame constructors could have built it |
| `FrameCodec.EncodeOfDecodeV2` | crates/protocol/src/frame.rs:238-323 | every accepted byte string is the encoding of the well-formed frame it decodes to |
| `FrameCodec.V1IsVersionByteThenV2` | crates/protocol/src/frame.rs:263-323 | on a version byte followed by any bytes v1 accepts exactly what v2 accepts of the rest, as the same frame |
| `FrameCodec.V1Bijection` | crates/protocol/src/frame.rs:193-291 | both round trips for v1; anything accepted starts with the version byte |
| `FrameCodec.LayoutAsDocumented` | docs/protocol/protocol.md:18-79 | the bytes of a frame, offset by offset: version 1, the kind and fragment bits, big-endian service, path, sequence and fragment fields, then the payload |
| `FrameCodec.WriteV1` | crates/protocol/src/frame.rs:217-236 | writing by offset into a sized buffer yields the v1 bytes |
| `FrameCodec.WriteV2` | crates/protocol/src/frame.rs:238-256 | the same for v2 |
| `FrameCodec.DecodeV2Owned` | crates/protocol/src/frame.rs:324-348 | the decoder that shifts the payload down inside its own buffer agrees with the copying one on every input, errors included |
| `FrameCodec.EncodeBatchPayload` | crates/protocol/src/frame.rs:378-404 | succeeds exactly for non-empty batches within the item, count and total limits, and then writes count and length-prefixed items |
| `FrameCodec.DecodeBatchPayload` | crates/protocol/src/frame.rs:406-436 | the cursor loop computes the recursive parse, with its errors |
| `FrameCodec.BatchRoundTrip` | crates/protocol/src/frame.rs:378-436 | decode of encode is the batch; encode of any accepted input of legal length is that input |
| `Replay.ReplayWindow.constructor` | crates/crypto/src/replay.rs:31-40 | an empty window of the clamped width |
| `Replay.ReplayWindow.Accept` | crates/crypto/src/replay.rs:42-64 | the ring answers as the whole history of accepted counters would: first ever, above the highest, or less than a window behind and never accepted |
| `Replay.ReplayWindow.MarkSeen` | crates/crypto/src/replay.rs:72-83 | one slot changes, the one the counter maps to |
| `Replay.MarkKeepsRing` | crates/crypto/src/replay.rs:72-83 | overwriting a slot forgets only a counter at least a window behind, so the ring stays exact |
| `Replay.NoCounterAcceptedTwice` | crates/crypto/src/replay.rs:42-64 | for every run of offers the accepted counters are all different and were all offered |
| `Replay.RecentNewCounterNeverRefused` | crates/crypto/src/replay.rs:42-64 | along every run, a counter not yet accepted and less than a window behind is accepted when offered |
| `Envelope.OpenOfEncrypt` | crates/crypto/src/envelope.rs:212-285 | opening a sealed packet gives back index, counter and plaintext |
| `Envelope.EncryptOfOpen` | crates/crypto/src/envelope.rs:260-285 | whatever opens is, byte for byte, the packet sealed from its contents |
| `Envelope.NoncePerCounter` | crates/crypto/src/nonce.rs:12-16 | four zero bytes and the big-endian counter; two nonces are equal if and only if their counters are |
| `Envelope.PacketAsDocumented` | crates/crypto/src/envelope.rs:223-253 | the packet, offset by offset, and exactly what the cipher is given: key, nonce of the counter on the wire, domain and header, plaintext |
| `Envelope.EachUsesConsecutiveCounters` | crates/crypto/src/envelope.rs:104-129 | sealing one by one succeeds exactly while counters remain and uses consecutive ones |
| `Envelope.ReservationMatchesEach` | crates/crypto/src/envelope.rs:131-143 | reserving a range and sealing by offset, in any order, gives the packets, the counter and the failures of sealing one by one |
| `Envelope.OpenInPlace` | crates/crypto/src/envelope.rs:287-319 | opens inside the caller's buffer: the plaintext replaces the ciphertext, header and tag stay, a refused packet is untouched |
| `Envelope.TransportKeys.EncryptFrame` | crates/crypto/src/envelope.rs:104-129 | one counter is used up per success and none on failure |
| `Envelope.TransportKeys.ReserveSendCounters` | crates/crypto/src/envelope.rs:131-143 | hands out a range and moves the counter past it, or fails and moves nothing |
| `Envelope.TransportKeys.DecryptPacket` | crates/crypto/src/envelope.rs:146-161 | succeeds if and only if the packet authenticates, names this session and is fresh; only an authentic packet of this session reaches the window |
| `Envelope.TransportKeys.DecryptPacketInPlace` | crates/crypto/src/envelope.rs:163-173 | the same decision and window, with the plaintext left between header and tag |
| `SessionRun.StepKeepsInvariant` | crates/crypto/src/envelope.rs:104-199 | sending, reserving, protecting in any interleaving, duplicating, dropping, injecting and receiving each keep the session invariant |
| `SessionRun.WholeRunSafety` | crates/crypto/src/envelope.rs:104-199 | in every run no counter is used twice and no two packets are sealed under one nonce, no counter is delivered twice, and each delivery is the very frame of the one send under its counter |
| `SessionRun.GenuineFreshPacketIsDelivered` | crates/dataplane/src/security.rs:159-188 | in every run a sent packet that arrives is delivered if and only if its counter is fresh |
| `Fragmentation.ConcatOfChunks` | crates/dataplane/src/fragmentation.rs:13-43 | the chunks of a payload joined in order are the payload |
| `Fragmentation.FragmentDatagram` | crates/dataplane/src/fragmentation.rs:13-43 | fails exactly when not marked, too long or too many fragments; otherwise one frame per chunk with its index, count and length |
| `Fragmentation.PushFragment` | crates/dataplane/src/fragmentation.rs:108-132 | a buffer stores a chunk once, counts filled slots, and yields the joined payload exactly when all are filled and the length agrees |
| `Fragmentation.FragmentReassembly.PushFrameOrPayload` | crates/dataplane/src/fragmentation.rs:75-89 | whole frames pass through, a finished buffer is removed, an error leaves the buffer |
| `Fragmentation.BuffersTrackOutstanding` | crates/dataplane/src/fragmentation.rs:75-132 | after any arrivals each datagram's buffer holds exactly the fragments seen since it was last completed |
| `Fragmentation.ReassemblyOfAnyArrivals` | crates/dataplane/src/fragmentation.rs:75-132 | for any order, repeats and interleaving, an arrival returns its datagram's payload exactly when it completes the set, never an error, and touches no other id's buffer |
| `Fragmentation.PayloadAtFirstFullSet` | crates/dataplane/src/fragmentation.rs:75-132 | until then the payload comes out at the first arrival after which every fragment has been seen |
| `Planning.CorePlanner.NextSequenceFor` | crates/dataplane/src/engine.rs:1958-1963 | returns a scope's sequence and advances that scope's alone, from the maximum to 1 |
| `Planning.CorePlanner.PlanDatagrams` | crates/dataplane/src/engine.rs:1825-1914 | the loop over datagrams computes the step-by-step plan and leaves the counters of its last step, also when no path is available |
| `Planning.PlannedNeighboursFollow` | crates/dataplane/src/engine.rs:1825-1914 | neighbouring entries on one path and scope carry consecutive sequences, fanout included |
| `Planning.CoalescePlannedFrames` | crates/dataplane/src/engine.rs:2228-2284 | the peeking loop builds the frames of the recursive grouping, and fails exactly when that does |
| `Planning.JoinNeighbours` | crates/dataplane/src/engine.rs:2246-2262 | the inner loop takes neighbours of one path and scope while they fit the MTU |
| `Planning.BuildFrame` | crates/dataplane/src/engine.rs:2264-2280 | a batch frame for several entries, a data frame for one |
| `Delivery.DeliverCoalesced` | crates/dataplane/src/engine.rs:640-741 | the receiver unbatches and reassembles coalesced frames to one item per planned entry and leaves its buffers as they were |
| `Delivery.ReadBackAsPlanned` | crates/dataplane/src/engine.rs:698-700 | those items are the planned ones if and only if no frame's sequences pass the maximum |
| `Delivery.SmallSequencesDoNotWrap` | crates/dataplane/src/engine.rs:1958-1963 | below the maximum sequence that condition always holds |
| `Delivery.PlanCoalesceDeliver` | crates/dataplane/src/engine.rs:1825-1914 | plan, coalesce, encode, decode, reassemble: for every list of datagrams and choice of paths the receiver ends with the planned path, sequence and payload of each entry in order, if and only if no frame wraps |
| `Delivery.SequenceWrapIsMisread` | crates/dataplane/src/engine.rs:698-700 | two one-byte datagrams planned from the maximum sequence: they are numbered maximum and 1, share one frame, and the receiver of its bytes reads maximum and 0 |
| `FrameFit.CoalescedFramesFit` | crates/dataplane/src/engine.rs:2228-2284 | if every entry fits its path whole or is to be fragmented, building never fails and every encoded frame is at most its path's MTU |
| `FrameFit.PlannedFramesFit` | crates/dataplane/src/engine.rs:1855-1864 | every plan that succeeds meets that condition, if the paths chosen for a datagram all carry it whole or the first does not |
| `BurstPrediction.GroupsSnoc` | crates/dataplane/src/engine.rs:2228-2284 | one more planned entry either extends the coalescer's last frame or starts a new one; nothing earlier changes |
| `BurstPrediction.CoalesceBuildsGroups` | crates/dataplane/src/engine.rs:2228-2284 | the coalescer's output is the frames of those groups in order |
| `BurstPrediction.GroupLenIsFrameLen` | crates/dataplane/src/engine.rs:2337-2343 | the tracked batch length is the encoded length of the batch frame |
| `BurstPrediction.PredictionSimulatesCoalescer` | crates/dataplane/src/engine.rs:1865-1956 | for unscoped single-path bursts, after every datagram: where the planner stays on the path its running length is the coalescer's open frame's, elsewhere that of the last datagram alone; with reuse allowed a datagram lands in the open frame exactly when the planner said it could, if and only if the path is active or the datagram lands elsewhere |
| `BurstPrediction.PredictionIsExact` | crates/dataplane/src/engine.rs:1865-1956 | the planner's length is the open frame's if and only if the planner stays on the path or the frame holds one datagram |
| `BurstPrediction.DrainingPathDefeatsPrediction` | crates/dataplane/src/engine.rs:2345-2349 | two datagrams on a draining path: merged into one frame, predicted as separate |
| `BurstPrediction.EachAnswerServesARun` | crates/dataplane/src/engine.rs:1914-1956 | in a burst of datagrams no two of which fit one frame, each answer of the scheduler serves exactly one run of the permitted length before it is asked again |
| `Security.KeyedRun` | crates/dataplane/src/security.rs:110-136 | protecting frames one by one under one session uses consecutive counters and fails exactly when they run out |
| `Security.ReservedBatchMatchesEach` | crates/dataplane/src/security.rs:201-235 | a reserved batch gives, by index and in any order, the packets, end state and failures of protecting one by one, in all three security modes |
| `Security.ProtectUsesChosen` | crates/dataplane/src/security.rs:125-135 | with several sessions a frame is sealed under the session asked for, without a wish the service's own, without that the default, with its key, index and next counter; no other session moves; a missing one drops the frame |
| `Security.ReserveUsesChosen` | crates/dataplane/src/security.rs:210-220 | the same choice for a reserved range |
| `Security.OtherwiseProtected` | crates/dataplane/src/security.rs:116-130 | the other cases: nothing chosen drops, one session serves every frame, no security sends the plain layout |
| `Security.MeasuresWhatGoesOut` | crates/dataplane/src/security.rs:191-199 | the length checked against the MTU is that of the packet, less the envelope of 29 bytes where there is one |
| `Security.EachUnderItsOwnSession` | crates/dataplane/src/security.rs:110-136 | over any run of frames for any mixture of sessions, each packet is sealed under its own session with the counter its earlier frames leave, and every session has moved on by its own frames alone |
| `Transmit.GroupPlans` | crates/dataplane/src/engine.rs:1605-1644 | succeeds exactly when every frame fits its path and has a target, and otherwise says why the first one does not; the groups concatenate to the plans, each shares path, target and session, and neighbours differ in one of them |
| `Transmit.ProtectItemChunk` | crates/dataplane/src/engine.rs:2531-2551 | one worker's share: the packets of its items, or failure exactly when one of them fails |
| `Transmit.SplitIntoChunks` | crates/dataplane/src/engine.rs:2498-2510 | the shares joined in order are the items |
| `Transmit.ProtectPreparedFrameItems` | crates/dataplane/src/engine.rs:2479-2529 | for every number of workers the packets are those of protecting the items in order |
| `Transmit.OneByOneDelivers` | crates/dataplane/src/engine.rs:1540-1596 | sending frame by frame succeeds if and only if every frame fits, is routed, protectable and reportable, and then has sealed and sent them in order |
| `Transmit.SentThenRefused` | crates/dataplane/src/engine.rs:1557-1568 | a packet goes out and the call still fails when only a session-learned address was known |
| `Transmit.RelayCountersRunOn` | crates/dataplane/src/sockets.rs:64-70 | over any run of sends, each datagram of a path with a relay is sealed under the start counter plus the sends of that path before it, and no other path's relay moves |
| `Transmit.RelayCounterReused` | crates/dataplane/src/sockets.rs:64-70 | two sends of a path meet one counter, and one nonce, if and only if a multiple of 2^64 sends of that path lie between them |
| `Wire.EachPlanGoesOut` | crates/dataplane/src/engine.rs:1707-1734 | every plan of a delivered run is on the wire once, in order: protected for its own session, wrapped for its path's relay, sent to the address learned for its peer or else the path's remote |
| `Wire.FirstScopeNames` | crates/dataplane/src/engine.rs:1545-1556 | the session a frame asks for is the first any of its datagrams came with |
| `Wire.EveryDatagramIsReported` | crates/dataplane/src/engine.rs:1556-1592 | the outcomes tell of every datagram once, in order: its source, length and sequence, path, target, frames and companions |
| `Wire.OneByOneGoesOut` | crates/dataplane/src/engine.rs:1540-1596 | so a run without an error has put every plan on the wire and reported every datagram |
| `Reporting.NextDatagramIsAppended` | crates/dataplane/src/engine.rs:1825-1914 | planning a datagram appends its copies, with its own payload, source, peer and next sequence, marked when there are several, all under one datagram id or none, and moves no other peer's sequence |
| `Reporting.ScopedGoesWhereTold` | crates/dataplane/src/engine.rs:1840-1850 | a datagram for a peer goes exactly where the scheduler says and leaves no path to stay on |
| `Reporting.FramesCarryTheirEntries` | crates/dataplane/src/engine.rs:2228-2284 | however entries are merged or cut, the frames carry each entry's source, peer, sequence and length in order, once or once per fragment |
| `Reporting.OnePeerPerFrame` | crates/dataplane/src/engine.rs:2246-2262 | datagrams of different peers never share a frame, so each is sealed for its own |
| `Transmit.TotalsMatchOutcomes` | crates/dataplane/src/engine.rs:1677-1705 | the grouped form's two totals are the number and the bytes of the outcomes it does not build |
| `Transmitter.CoreTransmitter.TrySendPathFrame` | crates/dataplane/src/engine.rs:1707-1734 | protects, wraps for the relay and sends one frame, in that order, keeping the counter use of a failed step |
| `Transmitter.CoreTransmitter.TransmitPlannedFrames` | crates/dataplane/src/engine.rs:1540-1596 | the one-at-a-time loop: state, outcomes and first error of the step-by-step form |
| `Transmitter.CoreTransmitter.ReserveGroups` | crates/dataplane/src/engine.rs:1646-1653 | ranges reserved group by group stand for exactly the packets of protecting all frames one by one; when one cannot be reserved, exactly the counters of the groups before it stay taken |
| `Transmitter.CoreTransmitter.ProtectGroups` | crates/dataplane/src/engine.rs:2461-2477 | workers produce those packets |
| `Transmitter.CoreTransmitter.SendGroups` | crates/dataplane/src/engine.rs:1656-1675 | the sockets are handed the groups' packets in order, each wrapped with its socket's own relay counter, up to the first group whose path has no socket |
| `Transmitter.CoreTransmitter.TransmitPlannedFramesSummary` | crates/dataplane/src/engine.rs:1598-1675 | succeeds exactly when every frame can be delivered; with matching remotes it hands the sockets the same packets in the same order, and ends in the same state with the same totals, as sending one at a time; after a failure, the first reason in order (grouping, counters, sockets), that exactly the counters of the groups before the first that gets none are taken, and that exactly the frames before the first path without a socket are sent, none unless all counters were taken |
| `Dedupe.DedupeWindow.ObserveInScope` | crates/dataplane/src/dedupe.rs:38-56 | first-seen if and only if the key is not among the last `capacity` first-seen keys of the whole run; set and queue stay equal, duplicate-free and within capacity |
| `Dedupe.RememberIsRecent` | crates/dataplane/src/dedupe.rs:38-56 | push and evict keep the queue equal to the latest `capacity` of the history |
| `Dedupe.RepeatsAreFarApart` | crates/dataplane/src/dedupe.rs:38-56 | in every run two first-seen answers for one key have at least `capacity` other first-seen answers between them |
| `Tracker.GlobalSequenceTracker.ObserveNext` | crates/protocol/src/control.rs:644-679 | the branches on equal, forward and backward distance, wrap included |
| `Tracker.ObserveMovesFront` | crates/protocol/src/control.rs:644-679 | on unwrapped positions a gap report is how far the front jumped, and late means it did not move |
| `Tracker.ReportsAddUp` | crates/protocol/src/control.rs:644-679 | for every run of distinct positions, missing minus late is the open holes less the arrivals from before the start, and equals the open holes if and only if there were none of those |
| `Tracker.AccountIsExact` | crates/protocol/src/control.rs:644-679 | for distinct sequences less than 2^63 ahead of the first, missing minus late counts exactly the sequences still absent |
| `Reorder.ReleaseReady` | crates/dataplane/src/engine.rs:1080-1117 | the release loop ends and computes the recursive release |
| `Reorder.ReleaseConserves` | crates/dataplane/src/engine.rs:1080-1117 | each held entry comes out once or stays |
| `Reorder.ReleaseSettles` | crates/dataplane/src/engine.rs:1080-1117 | afterwards the next sequence is not held, at most 8192 entries remain, and the lowest has waited less than the hold |
| `Reorder.ReleaseInOrder` | crates/dataplane/src/engine.rs:1080-1117 | with nothing held below the next sequence the output is strictly increasing and below everything kept |
| `Reorder.RemoteReorder.DrainReorderReady` | crates/dataplane/src/engine.rs:1080-1117 | releases one key's buffer and forgets it once empty |
| `Reorder.RemoteReorder.DrainExpiredReorderReady` | crates/dataplane/src/engine.rs:1066-1078 | does so only once the lowest entry has waited its own path's hold |
| `Reorder.RemoteReorder.QueueWithReorder` | crates/dataplane/src/engine.rs:970-1040 | bypasses, stores or discards an arrival and returns what is released, in the buffers' new state |
| `Reorder.RunConserves` | crates/dataplane/src/engine.rs:970-1117 | over every run of arrivals and sweeps, what was taken in for a key is what was handed on plus what is held, each once |
| `Reorder.RunKeepsBuffersOk` | crates/dataplane/src/engine.rs:970-1117 | between events no buffer is empty, over the limit or holding its own next sequence |
| `Overstay.KeptExactly` | crates/dataplane/src/engine.rs:1080-1117 | of the entries left once the run from the next sequence is gone, a release keeps exactly those at or behind one that has waited less than the hold and is not over the limit |
| `Overstay.StaysBehindYoungHead` | crates/dataplane/src/engine.rs:1097-1117 | without pressure, a held entry stays, overdue or not, if and only if a run of held sequences at or below it, other than the one due next, has a head that has waited less than the hold |
| `Overstay.SweepKeepsExactly` | crates/dataplane/src/engine.rs:1066-1078 | a sweep keeps exactly the entries at or behind one that is young by the hold of the lowest entry's path |
| `Overstay.OverdueEntryMayStay` | crates/dataplane/src/engine.rs:1103-1110 | a run of three arrivals after which an entry has waited twice its hold and is still held |
| `GapFill.OpensAtExpected` | crates/dataplane/src/engine.rs:1009-1018 | a buffer opened by a gap waits for the sequence the tracker expected if and only if sequences did not wrap in the gap; then nothing is held below it |
| `GapFill.ShuffledComesOutInOrder` | crates/dataplane/src/engine.rs:970-1117 | from no buffer and a tracker expecting `e`: payloads from `e` on, in any order and between other keys' events, none outstaying its hold, are handed on as `e`, `e + 1`, .. up to the first missing one, and exactly those behind it are held |
| `GapFill.GapFillsInOrder` | crates/dataplane/src/engine.rs:970-1117 | so once `e` to `last` have all arrived they have been handed on in sequence and the buffer is gone |
| `GapFill.OtherServiceFillsNoGap` | crates/dataplane/src/engine.rs:995-1018 | for any two services of a peer and any hold: sequences 1 and 3 of one, then 2 of the other, leave 3 held although all have arrived |
| `Receive.PastSeq` | crates/dataplane/src/engine.rs:1186-1221 | delaying one run of effects past another changes nothing when each pair is of different services or only counts |
| `HeldReceive.UnservedBatch` | crates/dataplane/src/engine.rs:862-968 | a batch of a disabled service, or of an unknown one on a path without a hold, is refused and forgotten; with a hold the unknown service's payloads are remembered before the refusal |
| `HeldReceive.WithoutHoldsIsDetailed` | crates/dataplane/src/engine.rs:640-741 | without holds, and with served services behind user batches, reordering keeps nothing back and every arrival is received as the detailed form receives it |
| `HeldReceive.CallWithoutHoldsIsDetailed` | crates/dataplane/src/engine.rs:744-763 | so a whole call from empty reorder buffers is the detailed call |
| `PendingEmissions.CountersPassPending` | crates/dataplane/src/engine.rs:1223-1255 | counters recorded now or after the pending emissions end the same |
| `PendingEmissions.OtherServicePassesPending` | crates/dataplane/src/engine.rs:1156-1161 | an emission of another service may overtake the pending ones |
| `PendingEmissions.SettledDiffers` | crates/dataplane/src/engine.rs:1186-1221 | the output is what it stands for if and only if nothing is pending |
| `PendingEmissions.ErrorLosesPending` | crates/dataplane/src/engine.rs:744-763 | a fresh payload of a served service followed in one call by one of an unknown service: the call fails, the first payload is the one emission lost, and its key is still remembered |
| `ReceiveSummary.Receiver.EmitRemotePayload` | crates/dataplane/src/engine.rs:1740-1784 | emits to the fixed, learned or peer-sourced target and counts it, or refuses an unknown or disabled service with no effect |
| `ReceiveSummary.Receiver.ReceiveAvailableFromPaths` | crates/dataplane/src/engine.rs:640-741 | the detailed loop: state, output, outcomes and first error of the arrival-by-arrival form |
| `ReceiveSummary.Receiver.ObserveUserPayloadFirstSeen` | crates/dataplane/src/engine.rs:1223-1255 | duplicate or news, with the window, tracker and counters that follow |
| `ReceiveAccount.ObserveReports` | crates/dataplane/src/metrics.rs:406-408 | the tracker's report on a sequence is its distance ahead of the furthest position seen, or late exactly when behind it |
| `ReceiveAccount.UserObserved` | crates/dataplane/src/engine.rs:1223-1255 | a user payload is news exactly when not among the last remembered, its report is the one against its own peer's furthest position, and window, trackers and counters stand for the longer history |
| `ReceiveAccount.ReservedObserved` | crates/dataplane/src/engine.rs:312-334 | a payload for Gatherlink is queued once behind the earlier ones and counts in its peer's account |
| `ReceiveAccount.ReceivedStandsForPayloads` | crates/dataplane/src/engine.rs:640-741 | over any arrivals the state stands for the payloads they brought: events in order, first sights, each peer's account by its own sequences alone, the counters of paths, control and drops added up; and the outcomes are the first sights of served services, in order |
| `ReceiveAccount.HeldStandsForPayloads` | crates/dataplane/src/engine.rs:744-904 | the same for the production receiver; its reorder buffers are those of the first sights, each with the report of its own peer's account, and each service's socket has sent what they handed on, in that order, with the service's counters added up from sends and duplicates |
| `InOrderReceive.CallsStandFor` | crates/dataplane/src/engine.rs:744-763 | the same over any run of calls with their sweeps |
| `InOrderReceive.HeldExactly` | crates/dataplane/src/engine.rs:981-1024 | a first sight with nothing of its service and peer held is kept back if and only if its path has a hold and it is ahead of the sequence its peer was expected to send; otherwise it is sent at once |
| `InOrderReceive.ShuffledIsSentInOrder` | crates/dataplane/src/engine.rs:744-1117 | in any run of calls a peer's payloads for its one service, shuffled but none outstaying its hold, leave the service's socket as `e`, `e + 1`, .. from the sequence its tracker expected up to the first missing one |
| `InOrderReceive.EverySendIsAddressed` | crates/dataplane/src/engine.rs:1752-1775 | whatever a service sends goes to its target, or to the learned source where it learns one, and through a peer's own socket exactly where the service is peer-scoped |
| `LearnedRemotes.LearnedIsLast` | crates/dataplane/src/engine.rs:656-660 | after any arrivals the return address of a peer on a path is the source of its last authentic packet there |
| `LearnedRemotes.HeldLearnedIsLast` | crates/dataplane/src/engine.rs:781-785 | the same for the production receiver |
| `ReceiveSummary.Receiver.FlushRemoteEmitBatch` | crates/dataplane/src/engine.rs:1186-1221 | the output becomes what it stood for, the batch is empty, the totals grow by it |
| `ReceiveSummary.Receiver.QueueRemotePayloadSummary` | crates/dataplane/src/engine.rs:1127-1184 | what the output stands for gains exactly this payload, last, whether it was queued, flushed or sent at once; at most 63 wait |
| `ReceiveSummary.Receiver.QueueReady` | crates/dataplane/src/engine.rs:1026-1038 | released entries are queued in order, up to the first refusal |
| `ReceiveSummary.Receiver.ReceiveUserPayload` | crates/dataplane/src/engine.rs:804-817 | one user payload: observed, reordered, and the releases queued, as the unbatched form emits them |
| `ReceiveSummary.Receiver.TryEmitRemoteBatchWithoutReorder` | crates/dataplane/src/engine.rs:906-968 | observing a whole batch first and emitting the news together equals delivering its payloads one by one |
| `ReceiveSummary.Receiver.EmitRemoteBatchPayloadsSummary` | crates/dataplane/src/engine.rs:862-904 | fast path or payload by payload, a user batch ends as the unbatched form ends |
| `ReceiveSummary.Receiver.ProcessReceivedPathFrameSummary` | crates/dataplane/src/engine.rs:765-860 | one packet of any kind keeps the correspondence, and stops with the same error |
| `ReceiveSummary.Receiver.FlushExpiredReorderBuffers` | crates/dataplane/src/engine.rs:1042-1064 | the sweep over the keys, reading the clock for each, queues what the unbatched sweep emits |
| `ReceiveSummary.Receiver.ReceiveAvailableFromPathsSummary` | crates/dataplane/src/engine.rs:744-763 | for any holds: same core state, reorder buffers, counters and error as the unbatched form, with the totals of its outcomes; the emissions are its too, but for those pending when an error ended the call, which are computed, and it emits everything if and only if there are none; from empty buffers and without holds this is the detailed form; the buffers it leaves suit the next call |
| `EndToEnd.WireAsItems` | crates/dataplane/src/engine.rs:640-741 | receiving any readable packets of user services is delivering, one after another, the payloads read from them, with the same deliveries, counters and error |
| `EndToEnd.CopiesEmitOnce` | crates/dataplane/src/engine.rs:1223-1255 | however many copies of a payload arrive in a row, one emission, one packet counted, and the rest counted as duplicates |
| `EndToEnd.CoalescedIsUser` | crates/dataplane/src/engine.rs:2228-2284 | the coalescer builds only well-formed data and batch frames of its own service |
| `EndToEnd.PlanDelivers` | crates/dataplane/src/engine.rs:1825-1914 | the planned entries, read in order by a receiver that has seen nothing from here on, are emitted once per datagram |
| `EndToEnd.EachPayloadOnceInOrder` | crates/dataplane/src/engine.rs:1825-1914 | for every list of datagrams to one peer short of the sequence wrap, and every choice of paths, copies and fragments: when the frames arrive in order at a receiver that serves the service and has seen none of these sequences, it emits each payload exactly once in the datagrams' order, counts exactly the surplus copies as duplicates, emits nothing for any other service and leaves no fragment behind |
| `AnyOrder.CargoDelivers` | crates/dataplane/src/engine.rs:664-700 | one frame of any kind delivers exactly the payloads it makes readable and copies of ones that were, and leaves the unfinished fragments in the buffers |
| `AnyOrder.EmitsExactlyWhatIsReadable` | crates/dataplane/src/engine.rs:640-741 | frames in any order, repeated or missing: no error, what has been emitted is exactly what can be read from what arrived, each payload once, and every further copy is counted as a duplicate; the rest waits in the buffers |
| `AnyOrderPlan.PlannedEntriesAre` | crates/dataplane/src/engine.rs:1825-1914 | every planned entry is a copy of the datagram its sequence stands for, and every datagram has one |
| `AnyOrderPlan.PlannedIdsRun` | crates/dataplane/src/engine.rs:1855-1864 | planned entries share a datagram id only as copies of one datagram, as long as ids do not run out and copies are cut alike |
| `AnyOrderPlan.CoalescedBear` | crates/dataplane/src/engine.rs:2228-2284 | frame by frame, what each coalesced frame brings: whole payloads, or one fragment |
| `AnyOrderPlan.EachReadablePayloadOnce` | crates/dataplane/src/engine.rs:1825-1914 | whichever of a request's frames arrive, in whatever order and however often, with copies on paths of one size: no error, and each datagram of which a copy can be read is emitted exactly once, no other, every surplus copy is counted, and nothing is emitted for any other service |
| `AnyOrderPlan.EveryFrameEveryPayloadOnce` | crates/dataplane/src/engine.rs:1825-1914 | if every frame arrives at least once, in any order, every datagram is emitted exactly once |
| `AnyOrderHeld.ArrivalAsHeldItems` | crates/dataplane/src/engine.rs:765-904 | a frame of a served service is received with holds as its payloads are, one after another |
| `AnyOrderHeld.ReleaseSplits` | crates/dataplane/src/engine.rs:1080-1117 | of the held entries some leave, each once, and the others stay as they are |
| `AnyOrderHeld.EmittedOrHeld` | crates/dataplane/src/engine.rs:744-763 | over any run of production calls, any arrivals and any holds: no error; what can be read from what arrived has been emitted once or is held with the payload that was sent, never both, nothing else is, and surplus copies are counted |
| `HeldPlan.EachReadablePayloadOnceOrHeld` | crates/dataplane/src/engine.rs:744-763 | the same of a planned request: each datagram that can be read is emitted once or held, and emitted, held and duplicates add up to the copies read |
| `HeldPlan.ExpireAll` | crates/dataplane/src/engine.rs:1066-1117 | a sweep of a key whose entries have all waited the longest hold leaves nothing held |
| `HeldPlan.EveryPayloadOnceInTheEnd` | crates/dataplane/src/engine.rs:744-763 | if every frame arrives in some call and a last call sweeps when every hold is over, every datagram has been emitted exactly once and nothing is held |
| `MixedCopies.AlikeIsFaithful` | crates/dataplane/src/fragmentation.rs:75-132 | fragments of two copies cut at the same places, in any order and mixture, give no error and only the payload |
| `MixedCopies.MixIsFaithfulExactly` | crates/dataplane/src/fragmentation.rs:75-132 | for two copies under one datagram id that holds if and only if their fragment sizes are equal or neither copy needs a second fragment |
| `UnevenFanout.PlansTwoCopies` | crates/dataplane/src/engine.rs:1850-1910 | an oversized datagram sent over two paths is planned as two copies under one datagram id |
| `UnevenFanout.MixedFragmentsEmitGarbled` | crates/dataplane/src/engine.rs:1855-1906 | for every datagram as long as its two paths' fragment sizes together: the first fragment by one path and the second by the other are received without error and emitted as one payload, which is the one sent only if the bytes confused are equal |
| `UnevenFanout.UnevenRequest` | crates/dataplane/src/scheduler/all_paths.rs:19-36 | such a request of a user service: 42 bytes over paths of 54 and 36 |
| `UnevenFanout.RampComesOutGarbled` | crates/dataplane/src/engine.rs:1855-1906 | that request, a fresh planner and a fresh receiver: two of its six frames arrive, and 42 bytes are emitted that are not the ones sent |
| `SharedIds.OwnIdsAreSeparate` | crates/dataplane/src/fragmentation.rs:75-89 | fragments of two datagrams with different ids fare, in any mixture, as if the other were not there |
| `SharedIds.SeparateExactly` | crates/dataplane/src/fragmentation.rs:75-132 | that holds if and only if the ids differ, or neither datagram takes more than one fragment, or one takes none |
| `SharedIds.OversizedNeedOwnIds` | crates/dataplane/src/fragmentation.rs:47-89 | for datagrams too large for their paths only the ids decide |
| `CrossedPeers.PeersCross` | crates/dataplane/src/engine.rs:664-690 | two peers' datagrams of one length, cut alike, under one id: half of each is emitted as a payload of the second peer, which is the one it sent only if the other's bytes are the same |
| `CrossedPeers.FirstDatagramsCross` | crates/dataplane/src/engine.rs:1855-1864 | the first fragmented datagrams of two peers, 42 ones and 42 twos: 30 ones and 12 twos are emitted |
| `Drain.BudgetFits` | crates/dataplane/src/sockets.rs:441-442 | a socket's budget is its quantum, or the least number that, taken from every socket, covers what remains; at least one and never more than remains |
| `Drain.OneShare` | crates/dataplane/src/sockets.rs:441-442 | only one number is such a share |
| `Drain.SinceDuringRound` | crates/dataplane/src/sockets.rs:431-437 | how long each socket has waited at each point of a round |
| `Drain.PromiseAfterRound` | crates/dataplane/src/sockets.rs:431-456 | after a round, waited so far plus still ahead stays within `2 (n - 1)` for every socket if and only if the sockets left out have room for the unproductive visits at its end |
| `Drain.RoundKeepsPromise` | crates/dataplane/src/sockets.rs:431-456 | so a round that is whole, or cut short right behind a productive socket, keeps that promise |
| `Drain.VisitsBetween` | crates/dataplane/src/sockets.rs:420-463 | in a run that was fair at every moment, between two visits to a socket lie at most `2 (n - 1)` visits to others |
| `DrainCalls.RoundIsOk` | crates/dataplane/src/sockets.rs:431-456 | a round visits sockets in order, each visit takes all that waits or its share of what is left, a failure is the round's last answer, the cursor ends behind the last productive visit, and only the budget or a failure cuts it short |
| `DrainCalls.DrainCallOk` | crates/dataplane/src/sockets.rs:420-463 | every call stays within its budget, each visit takes all that waits or its share of what is left, the call fails only with its last visit, and stops early without failing only after a whole round of empty sockets |
| `DrainCalls.CallHandsOnPromise` | crates/dataplane/src/sockets.rs:420-463 | during any call, failing or not, no socket waits longer than `2 (n - 1)` visits; the promise is handed to the next call if the call did not fail, and if it did exactly when the sockets its last round left out have room |
| `DrainCalls.RunIsFair` | crates/dataplane/src/sockets.rs:420-463 | over every run of calls without handler failures every moment is fair |
| `DrainCalls.RunVisitsBetween` | crates/dataplane/src/sockets.rs:420-463 | in every such run at most `2 (n - 1)` visits to others fall between two visits to a socket |
| `DrainCalls.FailingSocketStarvesOthers` | crates/dataplane/src/sockets.rs:449-456 | while the socket under the cursor fails in every call, every other socket waits one visit longer with each call |
| `DrainCalls.StarvationIsUnfair` | crates/dataplane/src/sockets.rs:449-456 | so with two sockets or more no such run stays within the bound |
| `DrainCalls.BoundIsReached` | crates/dataplane/src/sockets.rs:420-463 | for every number of sockets a single call, without failures, in which the first socket waits exactly `2 (n - 1)` visits |
| `DrainTotals.DrainsAllOrTheBudget` | crates/dataplane/src/sockets.rs:420-463 | with nothing arriving meanwhile and no failing handler, a call takes exactly the smaller of its budget and all that waits, and from no socket more than it held |
| `DrainTotals.BusySocketsFillTheBudget` | crates/dataplane/src/sockets.rs:420-463 | a call that never finds a socket empty or failing takes exactly its budget |
| `DrainCalls.PathTransportSet.DrainRound` | crates/dataplane/src/sockets.rs:430-457 | one round of the loop: visits, counts, cursor and failure of the visit-by-visit form, each visit taking all that waits or its share |
| `DrainCalls.PathTransportSet.DrainAvailable` | crates/dataplane/src/sockets.rs:420-463 | the whole call: never more than the budget, each visit all that waits or its share, a failure only from the last visit; early stop only after a whole round of empty sockets; fair throughout, and fair for the next call unless it failed |
| `Fields.LayoutRoundTrip` | crates/protocol/src/control.rs:681-817 | packing numbers in a layout and unpacking them undo each other, both ways |
| `Fields.ReadAtOffsets` | crates/protocol/src/control.rs:1062-1081 | each number is read at its own offset |
| `Control.LayoutsAsWritten` | crates/protocol/src/control.rs:819-1014 | the value lengths and offsets of the ten numeric messages |
| `ControlLayout.EveryFieldLies` | crates/protocol/src/control.rs:681-817 | every field of all fifteen messages, big-endian, at its offset; an absent number is zero |
| `ControlLayout.PayloadBegins` | crates/protocol/src/control.rs:580-594 | a payload begins with version 1 and the number of records |
| `ControlLayout.RecordBegins` | crates/protocol/src/control.rs:585-591 | a record is its type, its length and its value |
| `ControlLayout.TakenExactly` | crates/protocol/src/control.rs:819-1014 | for every kind, exactly which bytes are accepted: lengths, the fields that must not be zero, modes, states, MTU pairs, user service ids, text lengths |
| `Control.MessageReencodes` | crates/protocol/src/control.rs:819-1014 | a decoded message is constructor-valid, has no present zero, and encodes to the bytes it came from |
| `Control.MessageRoundTrip` | crates/protocol/src/control.rs:681-1014 | for all fifteen kinds, a message survives encode and decode if and only if it is constructor-valid, has proper text and no present zero |
| `Control.ZeroLatencyIsRefused` | crates/protocol/src/control.rs:1031-1037 | a constructor-valid latency report that the decoder refuses |
| `Records.UnframeOfFrame` | crates/protocol/src/control.rs:580-626 | unframing framed records gives the records |
| `Records.FrameOfUnframe` | crates/protocol/src/control.rs:597-626 | framing unframed records gives the input |
| `ControlPayload.Encode` | crates/protocol/src/control.rs:580-594 | succeeds exactly when the payload takes at most 65535 bytes, and then is that payload |
| `ControlPayload.Decode` | crates/protocol/src/control.rs:597-626 | the cursor loop computes the recursive parse |
| `ControlPayload.PayloadReencodes` | crates/protocol/src/control.rs:580-626 | every accepted input is the encoding of its non-empty list of canonical messages |
| `ControlPayload.PayloadRoundTrip` | crates/protocol/src/control.rs:580-626 | a payload that fits survives if and only if it is not empty and every message is canonical |
| `PythonControl.DecodeControlPayload` | python/gatherlink/protocol.py:250-430 | the cursor loop over dictionaries and lists computes the record-by-record fold |
| `PythonControl.KnownHasLayout` | python/gatherlink/protocol.py:250-430 | the types the decoder knows are exactly those with a layout of numbers or text |
| `PythonControl.OnlyKnownRecordsMatter` | python/gatherlink/protocol.py:250-430 | well-framed payloads with the same known records, in order, decode to the same frame |
| `PythonControl.InsertedUnknownIgnored` | python/gatherlink/protocol.py:250-430 | inserting records of unknown types anywhere, count adjusted, changes nothing |
| `PythonControl.PackedNumbersRead` | python/gatherlink/protocol.py:787-985 | numbers packed in a kind's layout are stored under their id if acceptable and otherwise end the payload |
| `CrossLanguage.RecordCrosses` | python/gatherlink/protocol.py:723-985 | a record Rust accepts becomes the matching entry in Python, or ends the decode if its layout differs |
| `CrossLanguage.PythonReadsRust` | python/gatherlink/protocol.py:250-430 | of the payloads Rust accepts Python decodes exactly those without a scheduler policy or path pressure message, to the entries of Rust's messages |
| `PythonEncoding.EncodeControlPayload` | python/gatherlink/protocol.py:172-242 | succeeds exactly when there is an entry, every entry passes its table's checks and the payload takes at most 65535 bytes, and then writes the entries' records |
| `PythonEncoding.DecoderTakesWhatIsWritten` | python/gatherlink/protocol.py:723-1071 | the decoder takes exactly the numbers the encoder would write, but for the mode and times of a clock exchange |
| `PythonEncoding.TextsAsRustBuilds` | python/gatherlink/protocol.py:433-520 | the texts Python writes are exactly the messages Rust's constructors build |
| `PythonEncoding.EntryReadBack` | python/gatherlink/protocol.py:433-720 | an entry the encoder writes is entered again by the decoder, zero metrics as absent, unless it is a malformed clock exchange |
| `PythonEncoding.DecodeOfEncode` | python/gatherlink/protocol.py:172-430 | what the decoder makes of the encoder's payload: nothing if some clock exchange is malformed, otherwise all its entries |
| `PythonEncoding.SurvivesExactly` | python/gatherlink/protocol.py:172-430 | a payload comes back as it was encoded if and only if no clock exchange is malformed and no metric is zero |
| `PythonEncoding.HalfResponseIsRefused` | python/gatherlink/protocol.py:946-968 | a clock response without its times is encoded, and every payload that holds it is refused |
| `PythonEncoding.ZeroMetricIsLost` | python/gatherlink/protocol.py:1043-1071 | a round trip of zero is encoded and decoded as absent |
| `PythonEncoding.RustReadsEntry` | crates/protocol/src/control.rs:819-1014 | the entries Python writes that Rust takes: texts, status and the six shared numeric kinds, if a capacity or latency report has a number and a clock exchange is well formed |
| `PythonEncoding.RustReadsPython` | crates/protocol/src/control.rs:597-626 | Rust accepts a payload Python wrote if and only if it takes every entry, and then its messages are the entries that were encoded |
| `ServiceIds.NextAutomatic` | crates/dataplane/src/runtime_config.rs:543-554 | the search finds the next unclaimed id, or fails at the last one |
| `ServiceIds.AutoIdIsKthUnclaimed` | crates/dataplane/src/runtime_config.rs:522-554 | the k-th automatic id has exactly k unclaimed user ids below it |
| `ServiceIds.IdsAreDistinctUserIds` | crates/dataplane/src/runtime_config.rs:522-563 | the ids are distinct user ids and explicit ones are kept |
| `ServiceIds.UserIdsAreNotReserved` | crates/protocol/src/ids.rs:46-54 | an id may be given to a service if and only if the receiver does not keep it for Gatherlink itself |
| `ServiceIds.AssignServiceIds` | crates/dataplane/src/runtime_config.rs:514-563 | succeeds if and only if names, listen addresses and explicit ids are distinct and the automatic ids fit below the last one; then gives each service its id |
| `ServiceIds.LastIdIsNeverAutomatic` | crates/dataplane/src/runtime_config.rs:550-554 | when every other user id is claimed, one more automatic service fails |

## Left out

- Real sockets, batched system calls, buffer sizes and binding: a socket is what it holds or what it was handed; every send is complete.
- The cipher, key exchange and signatures: idealised as exact inverses.
- The path schedulers: any choice of distinct paths per datagram is allowed.
- Timing samples, last-seen clocks, snapshots, and counters that only time or size them.
- Relay executor counters, the bounded path queue, flowlets, and the time helper: bookkeeping around what is modelled.
- Python's frame helpers, the order in which its encoder takes its tables (here entries are written in any given order), and its five-number scheduler policies.
- Loading configuration, the command line, carriers, bindings and tools.
- `receive_available` on the socket set: the same round robin with a budget of one per visit, which collects frames instead of handling them.
- PathTransportSet: a failing handler and a failing socket read are one outcome; positions stand for paths, so a path id listed twice is two sockets.
- Receiver: duplicate and gap counters are kept; per-packet times and per-path latency samples are not.
- MessageRoundTrip: text is a byte sequence with an abstract validity predicate in place of UTF-8.
- ShuffledComesOutInOrder: for sequences short of the 64-bit wrap; across it the buffer opens elsewhere, as `GapFill.OpensAtExpected` says.
- ShuffledIsSentInOrder: likewise, and for a peer with one service, since with two the code does not keep the order.
