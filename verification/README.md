# Verified model of the LAN audio bridge

The bridge captures audio on one machine, cuts it into UDP packets and plays it on another. This
project models the code between the capture callback and the playback callback and proves that
it does its work: no wrong audio is ever played, nothing is lost without being counted, latency
stays bounded, and playback is stable once it runs and settles at the configured delay.

The files follow the program:

| part | files |
|---|---|
| jitter buffer (`common/src/jitter.rs`) | `PacketStore`, `JitterSpec`, `JitterBuffer`, `JitterInsert`, `JitterClock`, `JitterUnderrun`, `JitterRender`, `JitterInvariants`, `JitterControl`, `JitterGaps`, `JitterSteady`, `JitterConvergence`, `JitterExact`, `JitterOverlap`, `JitterExamples`, `SequenceLoss`, `Fidelity` |
| resampler (`common/src/resampler.rs`) | `Resampler` |
| wire codec (`common/src/packet.rs`, `common/src/audio.rs`) | `Packet`, `WireFormat`, `Audio` |
| capture sender (`sender/src/main.rs`) | `CaptureQueue`, `Sender`, `Streams`, `Subsequences` |
| WASAPI packetizer (`w-sender/src/packetizer.rs`) | `Packetizer`, `CaptureFormats` |
| receiver (`receiver/src/main.rs`) | `ReceiverQueue`, `ReceiverTiming`, `EndToEnd`, `Delivery` |
| helpers | `Wrappers`, `Numbers` |

What the source updates in place is a class here. Each of its methods is proved to compute a
function on a value of type `State`, `Stream` or `Queue` (the object's `View()`), and the properties are
lemmas about those functions and about runs of them. What a function means is also said without it:
which packets enter and what becomes of the others (`JitterInsert`), where the clock jumps
(`JitterClock`), what a pull reports and leaves (`JitterUnderrun`), which byte is which field
(`WireFormat`), which bytes are which sample (`CaptureFormats`). Threads are runs of atomic steps in any order.
Samples and time are exact reals, positions and counters are unbounded natural numbers with
saturating operations written out.

The state carries a little history the source does not have: which packets were accepted and are
neither evicted nor cleared (`live`), how many were evicted, pruned and cleared, what a queue was
offered, accepted, delivered and discarded. `Fidelity` speaks of the *live* packets and not of
the stored ones: that pruning removes nothing that could still be heard is part of what is proved.

## Where the code does less than it seems to

Each of these is proved, with the exact condition; `JitterExamples` has runs from the empty buffer
that reach the failing case.

- Start-up is a window. The audio callback trims a deep buffer to the fixed delay before it
  pulls, so a buffer that is not running starts exactly when its depth is between the fixed delay
  plus what is rendered and the fixed delay plus the trim tolerance (`JitterSteady.StartupWindow`).
  A callback larger than the tolerance never starts playback (`JitterSteady.LargeCallbackNeverStarts`).
- For the same reason a running buffer deeper than the tolerance loses the frames it is
  about to play (`JitterSteady.CallbackTrimsWhatItPlays`).
- The cached lookup agrees with the direct search, for every cache and position, exactly when stored
  packets do not overlap (`PacketStore.CacheTransparentIffDisjoint`). Overlapping packets are
  accepted (`JitterExamples.OverlapIsStored`); the senders' packets never overlap.
- When packets overlap, pruning can uncover one: a packet that starts before a pruned one and
  reaches further may arrive later (`JitterExamples.PruningMayUncover`). Pruning changes nothing
  that is still to be read exactly when none is uncovered at the read position
  (`JitterOverlap.PrunedUnreadableIff`), and the only event that uncovers one is the acceptance
  of such a packet (`JitterOverlap.StepUncovers`).
- The streaming resampler drops a stream that is a single frame long, the batch resampler repeats
  it (`Resampler.StreamingEqualsBatch`). Above a ratio of two, for example 192 kHz to 48 kHz,
  `drain(..drop)` can run past the end of its buffer and panic (`Resampler.DrainInRangeIffAtMostTwo`).
- At output rates above the source rate the depth control can let through a pull that is one frame
  short: the fractional read position carries its last frame past the data
  (`JitterExamples.UpsamplingMayMiss`). Over complete data a pull has no silent frame exactly when
  the last read position of its plan is before the newest end (`JitterGaps.PullGapIff`).
- A packet that arrives out of order makes the ones between it and the newest count as lost a
  second time (`JitterExamples.SwappedCountAsLost`). Lost plus seen packets is the span of the
  sequence numbers exactly when nothing counted as out of order (`SequenceLoss.LostPlusSeenIsSpan`).
- `push_drop_oldest` reports a drop when its first attempt met a full queue, even if the consumer
  emptied the queue in between and nothing was lost (`ReceiverQueue.ReportsAccounted`,
  `ReceiverQueue.ReportWithoutLoss`).
- The configured capacity holds three fixed delays unless the 32-bit count of milliseconds
  saturates (`ReceiverTiming.CapacityHoldsThreeDelays`).
- The sample -32767 comes back from the trip through floating point as -32768
  (`Audio.SampleRoundTrip`), so fidelity is stated for the samples in the packets.

## Model

| member | source | states |
|---|---|---|
| EndToEnd.CallbackPlaysSource | receiver/src/main.rs:690-714 | Main theorem. Datagrams of capture senders and packetizers, lost, repeated, reordered, cut short or damaged beyond parsing, and any interleaving of socket thread and callback: each frame a rendering callback writes is, at its read position, the followed stream's captured frame as 16-bit samples, or the packetizer's converted frame, interpolated, held before a gap, and silent exactly where no live packet covers the position |
| EndToEnd.CallbackPlaysStream | receiver/src/main.rs:690-714 | The same for any senders whose packets are contiguous, in terms of their packets |
| EndToEnd.SenderCarries | w-sender/src/packetizer.rs:103-128 | What either sender has emitted is one contiguous stream from position zero whose frames are those it was given, quantized or converted |
| EndToEnd.EveryDatagramAccounted | receiver/src/main.rs:247-266 | Conservation over the whole receiver, for any run and any bytes: every event the queue accepted is queued, discarded, or in exactly one outcome of the buffer; every packet the buffer accepted is stored, evicted, pruned or cleared |
| EndToEnd.AfterOrderly | receiver/src/main.rs:525-538 | In every reachable state of the two threads, whatever bytes arrive, all invariants of queue and buffer hold together and the buffer has counted exactly the drained events |
| EndToEnd.AfterSent | receiver/src/main.rs:471-538 | When only sent packets are heard, queue, pending push and buffer hold only those, in every reachable state |
| EndToEnd.SentDatagram | receiver/src/main.rs:471-507 | The bytes of a sent packet are heard as that packet and, cut short anywhere, as none, so both stay within the theorem's hypothesis |
| EndToEnd.StreamFrameIsSource | w-sender/src/packetizer.rs:103-128 | The stream's frame at a position is the source's, quantized or converted |
| EndToEnd.HeardOnLine | common/src/audio.rs:18-23 | What is heard of a source on a straight line is the line, at every fractional read position between two live frames; before a gap its last frame is held, and in the gap it is silent |
| Delivery.ReceiverPlaysSource | receiver/src/main.rs:471-538 | From the datagrams to the device: a receiver configured from its command line that hears the serialised packets of a sender in order, as many before each callback as one plays, plays at its first callback the sender's source frames from the fixed delay and one callback before the newest end, and at every later one exactly those that come next |
| Delivery.FeedDelivered | receiver/src/main.rs:471-538 | Datagrams of well-formed packets, heard, queued and taken one after the other, become the inserts of those packets at their arrival times, in order, and none is discarded |
| Delivery.OneDelivered | receiver/src/main.rs:525-538 | The same for one packet |
| Delivery.GarbageDelivered | receiver/src/main.rs:492-499 | Bytes that do not parse count as one received and one invalid packet and change nothing else |
| Fidelity.RunPlaysStream | common/src/jitter.rs:288-425 | No wrong audio after any run of inserts, invalid packets, trims and pulls, for any senders whose packets are contiguous: slot by slot a rendering is the followed stream at the read position |
| Fidelity.PullPlaysStream | common/src/jitter.rs:342-408 | The same for one pull from any pure state that satisfies the invariants |
| Fidelity.RunPure | common/src/jitter.rs:173-235 | Stream purity: everything live belongs to the followed stream and is what its sender sent, in every reachable state |
| Fidelity.StoredIsSent | common/src/jitter.rs:173-235 | The same for everything stored |
| Fidelity.HeardWhereLive | common/src/jitter.rs:753-776 | A position is heard exactly when a live packet covers it, and it then is a position of the stream |
| Fidelity.PureDisjoint | common/src/jitter.rs:702-721 | Live packets never overlap when senders are contiguous |
| PacketStore.PacketAtDisjoint | common/src/jitter.rs:714-720 | On disjoint packets the search finds exactly the packet that covers a position |
| PacketStore.CacheTransparentIffDisjoint | common/src/jitter.rs:702-721 | Cached lookup equals direct search for every valid cache and every position if and only if packets are disjoint |
| PacketStore.PruneInvisible | common/src/jitter.rs:619-630 | Pruning changes no lookup from one frame before the read frame on, overlapping packets included |
| PacketStore.SampleFromWellFormed | common/src/jitter.rs:753-776 | Every position a well-formed packet covers has a frame |
| PacketStore.SamplesOfFrame | common/src/jitter.rs:753-776 | A frame is the two samples at its offset times the channels, left first; one sample on both sides for one channel or at the end of a short payload; nothing outside |
| JitterBuffer.JitterBuffer.InsertPacket | common/src/jitter.rs:173-235 | In place, computes the specified insert, whose cases `JitterInsert` gives, with its outcome; exactly where start plus frames passes 64 bits it stops as a checked build panics, with the counters and the stream switch done |
| JitterBuffer.JitterBuffer.RecordInvalidPacket | common/src/jitter.rs:237-240 | Counts one received and one invalid packet and changes nothing else |
| JitterBuffer.JitterBuffer.PullFixed | common/src/jitter.rs:288-425 | In place, computes the specified pull and fills the caller's slice: silent throughout when it does not render, and otherwise, slot after slot, the frame's left sample on the first channel, its right one on the second and zeros on the others, zeros for a silent slot and for the samples left over at the end |
| JitterBuffer.FilledHolds | common/src/jitter.rs:723-737 | What a rendering writes, sample by sample: slot k starts k times the channels into the slice |
| JitterBuffer.JitterBuffer.TrimToPlayoutBufferBudget | common/src/jitter.rs:466-481 | In place, computes the specified budget trim |
| JitterBuffer.JitterBuffer.SyncReadPosToPlayoutClock | common/src/jitter.rs:524-557 | In place, computes the specified clock jump, whose target `JitterClock` gives |
| JitterBuffer.JitterBuffer.PrepareFixedBuffer | common/src/jitter.rs:572-602 | In place, refuses, jumps or returns the clamped correction as specified; no trim it makes can subtract below zero |
| JitterBuffer.JitterBuffer.TrimToBufferDepth | common/src/jitter.rs:604-610 | In place, computes the specified trim; its unchecked subtraction is in range at every call |
| JitterBuffer.JitterBuffer.ClearForResync | common/src/jitter.rs:656-671 | In place, empties the buffer and counts the resync by its reason |
| JitterBuffer.JitterBuffer.UpdateSequenceMetrics | common/src/jitter.rs:483-495 | In place, computes the specified loss and reorder counts |
| JitterBuffer.JitterBuffer.DropOldestWhileOver | common/src/jitter.rs:632-654 | The eviction loop terminates, keeps exactly the packets that start no further than the capacity before the newest end, and counts each other one as late |
| JitterBuffer.WithoutPlayedFront | common/src/jitter.rs:619-630 | Removing from the front until a packet is not played leaves exactly the packets with an unplayed one at or before them |
| JitterBuffer.SampleAtCached | common/src/jitter.rs:702-721 | One cached lookup returns the specified slot and cache |
| JitterBuffer.RenderIntegerPath | common/src/jitter.rs:359-380 | The integer loop computes the specified cursor and writes exactly its slots |
| JitterBuffer.RenderInterpolatingPath | common/src/jitter.rs:381-406 | The interpolating loop computes the specified cursor and writes exactly its slots |
| JitterInsert.StoredIff | common/src/jitter.rs:204-226 | A packet of the followed stream and format that is not stored and within the capacity enters the store if and only if the buffer is not running or has not read past its end, in whatever order it arrives |
| JitterInsert.OthersAreAccepted | common/src/jitter.rs:204-235 | Everything an accepted packet changes and leaves: stored beside what was there but for what starts more than the capacity before the newest end; read position and phase stay |
| JitterInsert.TakeoverIsFresh | common/src/jitter.rs:184-235 | A quarter of a second after the followed stream was last heard another one takes over: Resynced, and phase, read position, newest end, store, expected number and anchors are those of the new packet alone |
| JitterInsert.FirstIsFollowed | common/src/jitter.rs:196-200 | With no stream followed the packet's is, from its start on |
| JitterInsert.OtherStreamIsForeign | common/src/jitter.rs:184-190 | Within that quarter of a second another stream's packet counts as foreign and changes nothing else |
| JitterInsert.WrongFormatIsInvalid | common/src/jitter.rs:174-181 | A packet of another rate or channel count counts as invalid and changes nothing else |
| JitterInsert.OverIsLate | common/src/jitter.rs:204-210 | A packet whose frames a running buffer has read past counts as late; only counters and the expected number change |
| JitterInsert.RepeatedIsDuplicate | common/src/jitter.rs:212-216 | A packet that starts where a stored one does counts as duplicate; only counters and the expected number change |
| JitterInsert.OverflowIff | common/src/jitter.rs:204-205 | Exactly when start plus frames passes 64 bits where the source adds them |
| JitterClock.SyncLandsAtDue | common/src/jitter.rs:524-557 | Where a clock jump lands: exactly at the anchor's position plus the elapsed time at the configured rate and drift, minus the delay not in the playout ring and the frames to render, if two frames are left beyond it; else two frames before the newest end, if that is forward; never back |
| JitterClock.NoSyncWithoutClock | common/src/jitter.rs:316-324 | With clock sync off, no playout time, no anchor or a time before it nothing moves |
| JitterClock.DriftIsEstimated | common/src/jitter.rs:497-513 | From one second on the estimate is the drift: elapsed time at the configured rate and that drift is exactly the frames sent |
| JitterClock.ClockMeetsSender | common/src/jitter.rs:497-557 | Clock and drift together: at the arrival of an accepted packet, a second or more after the first, the position due is its own start |
| JitterClock.AnchorsAgree | common/src/jitter.rs:497-522 | In every reachable state clock and drift count from the same packet |
| JitterUnderrun.RendersIff | common/src/jitter.rs:331-340 | A pull renders if and only if the depth is what it renders, for a running buffer, or the delay not in the playout ring on top of that, for any other |
| JitterUnderrun.RefusalPrimes | common/src/jitter.rs:331-340 | A pull that does not render leads back to priming, counts an underrun if a stream is followed, and keeps the rest |
| JitterUnderrun.RenderingCounts | common/src/jitter.rs:408-425 | A pull that renders counts its silent frames; with less than two frames left after a silent one, or after half a second of silence, it empties the buffer and resyncs once as an underrun; else it runs on and prunes |
| JitterUnderrun.RenderCounts | common/src/jitter.rs:364-404 | Both missing counts of a rendering are the silent slots, in all and at the end |
| JitterUnderrun.RenderingSnaps | common/src/jitter.rs:353-362 | Within a millionth of a whole position and a billionth of the source's rate a rendering reads whole positions; anywhere else it reads where it stands and moves by its ratio |
| JitterUnderrun.PruneTakes | common/src/jitter.rs:619-630 | Of packets that do not overlap exactly those that ended more than a frame before the read frame are pruned |
| JitterUnderrun.ToleranceIsATenth | common/src/jitter.rs:612-617 | The tolerance is a tenth of the fixed delay, between a hundredth and a twentieth of a second |
| JitterRender.IntegerPathRefinesInterpolation | common/src/jitter.rs:359-406 | At ratio one and a whole position the integer path and the interpolating path agree on slots, both missing counts and the final position, for any packets, although their caches are used differently |
| JitterRender.RenderClosedForm | common/src/jitter.rs:355-406 | Slot k of a rendering is the frame at the k-th read position, in closed form, without cache or fast path |
| JitterRender.RenderAdvance | common/src/jitter.rs:355-408 | A rendering of n frames emits n slots and ends n strides on |
| JitterRender.RenderGaps | common/src/jitter.rs:364-404 | The gap counter is zero exactly when no slot is silent |
| JitterInvariants.RunKeeps | common/src/jitter.rs:136-700 | Every reachable state: phases, capacity span, pruning only of played packets, at most half a second of running gap, packet accounting, resyncs by reason |
| JitterInvariants.InsertKeeps | common/src/jitter.rs:173-235 | An insert keeps every invariant and counts its packet once |
| JitterInvariants.PullKeeps | common/src/jitter.rs:288-425 | A pull keeps every invariant, never moves back, and moves forward when it renders |
| JitterInvariants.ResyncedIffStreamChange | common/src/jitter.rs:184-203 | An insert answers Resynced exactly when it cleared the buffer for a stream change, and the counter counts those |
| JitterInvariants.NotStartedNeverReentered | common/src/jitter.rs:656-671 | No step leads back to NotStarted |
| JitterInvariants.ReadPositionMonotone | common/src/jitter.rs:524-557 | While the stream id is unchanged no step moves the read position back |
| JitterInvariants.PrunedPacketsUnreadable | common/src/jitter.rs:619-630 | When live packets do not overlap, looking up the stored packets from the read position on finds what looking up every accepted, unevicted packet would |
| JitterOverlap.PrunedUnreadableIff | common/src/jitter.rs:619-630 | For any packets: the two lookups agree at every position still to be read if and only if at the read position no pruned packet hides an older one that is still stored |
| JitterOverlap.StepUncovers | common/src/jitter.rs:173-235 | A step uncovers a packet if and only if it accepts one that starts before the pruned packet that is the newest live start at the read position, but after every stored one, reaches past that position and is within the capacity |
| JitterOverlap.RunUncoversNothing | common/src/jitter.rs:619-630 | Over any run in which none is accepted so, pruning changes nothing that is still to be read |
| JitterExamples.OverlapIsStored | common/src/jitter.rs:204-235 | Two inserts that overlap are both stored, and cached and direct lookup then differ |
| JitterExamples.PruningMayUncover | common/src/jitter.rs:619-630 | A run in which a packet arrives late, starts before a pruned one, and is found where the pruned one would have hidden it |
| JitterInvariants.LatestEndBounded | common/src/jitter.rs:204-226 | The newest end never passes the furthest end that arrived, over any run |
| JitterControl.TrimExact | common/src/jitter.rs:604-610 | After a trim the depth is exactly the requested one, or the old one where that is smaller, despite fractional positions and the 1e-6 rounding; it moves forward only, and ends a gap when it moves |
| JitterControl.BudgetTrimExact | common/src/jitter.rs:466-481 | The budget trim acts only beyond the tolerance and leaves exactly the budget |
| JitterControl.SyncLeavesTwo | common/src/jitter.rs:524-557 | A clock jump leaves at least two frames to read |
| JitterControl.StartingPlan | common/src/jitter.rs:578-584 | A buffer that is not running and is deep enough starts at the wanted depth, or where it stands if that is further, at the device's own ratio |
| JitterControl.RunningPlan | common/src/jitter.rs:586-602 | A running buffer stays where it stands and is played four parts per million faster or slower for each frame of error, two thousand at most, unless it is too deep by more than the tolerance: then it jumps to the wanted depth |
| JitterControl.LevelCountsFrames | common/src/jitter.rs:684-691 | The depth counts from the read position's whole frame, a millionth forgiven |
| JitterControl.CorrectionIsProportional | common/src/jitter.rs:596-601 | Four parts per million a frame up to 500 frames, and two thousand beyond, in either direction |
| JitterControl.NeedRoundsUp | common/src/jitter.rs:739-751 | The source-frame count is the exact quotient rounded up by less than one, unless the 64-bit sum saturates |
| JitterControl.CorrectionBounded | common/src/jitter.rs:596-601 | The correction for an error moves a rendering of at most 250000 source frames by no more than the error, in its direction |
| JitterControl.CorrectionBoundedIff | common/src/jitter.rs:596-601 | That limit is sharp: every error bounds its correction if and only if the rendering is at most 250000 source frames |
| JitterControl.PlanLevel | common/src/jitter.rs:572-602 | What passes the depth control holds what it renders, is at most the tolerance too deep, and is corrected for exactly its remaining error |
| JitterControl.LatencyBound | common/src/jitter.rs:325-425 | After a pull that renders at most 250000 source frames, the depth is at most the desired depth, the tolerance and one frame |
| JitterGaps.NoGapWhenDataIsThere | common/src/jitter.rs:311-421 | With data at every position up to the newest end, a pull that passes the depth control has no missing frame and no resync, positive corrections included; at output rates above the source rate it takes one frame more than the need |
| JitterGaps.PullGapIff | common/src/jitter.rs:342-406 | Over complete data, at any pair of rates and any length, a rendering pull has no silent frame if and only if the last read position of its plan is before the newest end |
| JitterGaps.RenderGapIff | common/src/jitter.rs:355-406 | The same for a rendering at any ratio, by either path and with overlapping packets |
| JitterExamples.UpsamplingMayMiss | common/src/jitter.rs:586-588 | A run of callbacks at four times the source rate: the last passes the depth control over complete data with exactly its need, and still writes a silent frame |
| JitterSteady.StartupWindow | common/src/jitter.rs:466-481 | The callback's trim and pull start playback if and only if the depth is within the start-up window |
| JitterSteady.LargeCallbackNeverStarts | receiver/src/main.rs:697-703 | A callback that needs more than the tolerance never starts playback, at any depth |
| JitterSteady.StartupDepth | common/src/jitter.rs:578-584 | The callback that starts playback at equal rates leaves exactly the fixed delay, wherever in the window the depth was and wherever in a frame reading began; only a resync leaves it empty |
| JitterSteady.StartupIsSteady | common/src/jitter.rs:578-584 | A start over complete data establishes every hypothesis of the steady run, with a depth error of zero |
| JitterSteady.ColdStart | common/src/jitter.rs:173-425 | A fresh buffer fed in order to within the start-up window starts at the next callback, without a gap or resync, and is steady from then on |
| JitterSteady.EqualRatesPull | common/src/jitter.rs:572-602 | One running pull at equal rates: no gap, and the depth error shrinks or stays without changing sign |
| JitterSteady.InsertKeepsSolid | common/src/jitter.rs:204-235 | An in-order packet extends the data and its eviction reaches nothing still to be read |
| JitterSteady.SteadyRun | receiver/src/main.rs:690-703 | Control-loop stability over any number of rounds: still running, no gap, no resync, depth error never larger and never of the other sign |
| JitterConvergence.SteadyConverges | common/src/jitter.rs:596-601 | Convergence: from any depth error of a steady run the error is zero, and the depth the desired one, once there were as many rounds as a sum over the sizes on the way gives |
| JitterConvergence.ErrorShrinks | common/src/jitter.rs:596-601 | An error of e frames has shrunk by a frame at least after one million over frames times min(4 e, 2000) rounds, rounded up |
| JitterConvergence.ErrorHolds | common/src/jitter.rs:381-408 | While the error stays the same, each round moves the fractional read position by exactly the correction, which accumulates |
| JitterSteady.CallbackTrimsWhatItPlays | receiver/src/main.rs:697-703 | The callback's trim turns the depth error into the negated frame count, discarding the frames about to be played, exactly outside the tolerance condition of the steady run, and otherwise leaves it |
| SequenceLoss.LostPlusSeenIsSpan | common/src/jitter.rs:483-495 | Over any run without a resync, of arrivals in any order (each number within half the 32-bit range of the expected one), trims, pulls, invalid and foreign packets, across any number of wraps: lost plus seen packets is the unwrapped span and what backward numbers fall short by, each of those counts as out of order, and lost plus seen is the span if and only if none did |
| JitterExamples.SwappedCountAsLost | common/src/jitter.rs:483-495 | A run of four packets, two swapped and all stored, that counts two as lost and one as out of order |
| Resampler.ResampleLinear | common/src/resampler.rs:3-34 | The batch loop computes the closed form; its reserved length never cuts it short |
| Resampler.CountIsExact | common/src/resampler.rs:22-31 | Output k exists exactly when its position has a right neighbour in the input |
| Resampler.BatchOnLine | common/src/resampler.rs:3-34 | A line stays a line: of frames on a straight line the batch resampler returns the points of that line one source step over the target step apart |
| Resampler.BatchReaches | common/src/resampler.rs:17-31 | Output k exists if and only if there is an input frame beyond its position k times source over target |
| Resampler.StreamOnLine | common/src/resampler.rs:64-84 | So does the streaming resampler, however the line is cut into chunks, at any ratio but one |
| Resampler.StreamingLinearResampler.PushChunk | common/src/resampler.rs:64-84 | In place, computes the specified push, or reports the drain past the end |
| Resampler.StreamingLinearResampler.SetEffectiveTargetRate | common/src/resampler.rs:52-62 | Sets the ratio for two positive rates and ignores the rest |
| Resampler.PushCarriesOn | common/src/resampler.rs:64-84 | At any ratio, a push that does not panic yields exactly the frames the longer input adds, and carries the phase and only the input still needed |
| Resampler.StreamingEqualsBatch | common/src/resampler.rs:37-84 | For any two rates and any chunking, a stream that does not panic equals the batch result if and only if rates are equal or the input is not a single frame; up to two to one it never panics |
| Resampler.VaryingRatesStayInRange | common/src/resampler.rs:52-84 | With the ratio set anew before every push, up to two each time, the drain stays in range and the phase in [0, 1) |
| Resampler.DrainInRangeIffAtMostTwo | common/src/resampler.rs:79-83 | The drain is in range for everything that can be pushed if and only if the ratio is at most two |
| Resampler.DifferentRatesDiffer | common/src/resampler.rs:65-68 | The epsilon test takes two rates for equal exactly when they are |
| Packet.ParseOfSerialize | common/src/packet.rs:81-150 | Serialising and parsing gives the packet back exactly when it is well formed |
| Packet.SerializeOfParse | common/src/packet.rs:81-150 | The encoding is canonical: bytes that parse are the bytes of the packet they parse to, which is well formed |
| Packet.TruncatedIsRefused | common/src/packet.rs:88-150 | A packet's bytes cut short anywhere do not parse |
| Packet.HeaderRoundTrip | common/src/packet.rs:188-202 | Every header field survives the wire, whatever follows |
| Packet.FromBytes | common/src/packet.rs:88-150 | The cursor parser computes the specified parse, with its error in every case |
| Packet.ReadHeader | common/src/packet.rs:97-121 | Reads each field at its place and stops at an unknown version or header size |
| Packet.WriteI16PacketBytes | common/src/packet.rs:168-186 | Replaces the buffer by the packet's bytes, or refuses a payload of the wrong size and leaves the buffer alone |
| Packet.WriteStereoF32PacketBytes | common/src/packet.rs:153-166 | Replaces the buffer by the bytes of the packet with the quantized frames |
| WireFormat.HeaderLayout | common/src/packet.rs:97-121 | Every header field is the little-endian number at its offset |
| WireFormat.PayloadLayout | common/src/packet.rs:136-149 | Sample i of a payload is the two's complement number of its two bytes, low byte first |
| WireFormat.AcceptedIff | common/src/packet.rs:88-150 | Exactly which bytes are accepted, byte by byte, and what their header and samples are |
| WireFormat.RefusedFor | common/src/packet.rs:88-134 | Which error the others are refused with: the first thing wrong |
| Audio.SampleRoundTrip | common/src/audio.rs:26-42 | A 16-bit sample survives the trip through floating point exactly when it is not -32767 |
| Audio.LerpOnLine | common/src/audio.rs:18-23 | Between two neighbouring points of a line the interpolation is the line, on each side its own |
| Audio.QuantizesToNearest | common/src/audio.rs:26-34 | Quantizing is to the nearest level, and saturates outside the range |
| Audio.SamplesAreEven | common/src/audio.rs:36-42 | Samples are equally spaced from full scale to full scale, the lowest two both full scale |
| Streams.PacketInStream | sender/src/main.rs:599-616 | Contiguous packets are one sequence of frames: each packet's frames are the stream's at its positions |
| Streams.SameOrApart | sender/src/main.rs:599-616 | Two packets of a contiguous stream are the same or do not overlap |
| Sender.PacketCarries | common/src/packet.rs:153-166 | Up to 65535 frames, the packet made of some frames is well formed, has the number, position and time it was given and as many frames, and carries them quantized |
| Sender.QuantizedIsNear | common/src/audio.rs:26-42 | A frame on the wire is, side by side, itself to within half a step, and full scale beyond it |
| Sender.PacketSender.SendFrames | sender/src/main.rs:599-630 | Emits the next packet of one contiguous stream from position zero that carries everything sent, in order; its bytes parse back to it; the counters advance even when the network refuses |
| Sender.CaptureSender.TrimPending | sender/src/main.rs:1239-1251 | Drops exactly the oldest frames beyond the newest packets to keep, and counts them |
| Sender.CaptureSender.TrimWhenBehind | sender/src/main.rs:929-940 | Trims and restarts the deadline exactly when more than four packet intervals late, and otherwise leaves both |
| Sender.CaptureSender.SendThoseDue | sender/src/main.rs:942-960 | Sends only what is due and stops only when nothing is due, no whole packet waits or four are sent |
| Sender.CaptureSender.SendDue | sender/src/main.rs:942-960 | Sends what is due, then trims exactly if four packets were not enough; sent, dropped and kept frames make up what waited |
| Sender.CaptureSender.PacedTurn | sender/src/main.rs:929-976 | A paced turn trims at its head, sends what is due and trims at its end exactly as the clock readings say, and leaves the deadline they say |
| Sender.PacingKeepsSchedule | sender/src/main.rs:929-976 | A paced turn never runs ahead of its schedule: packet k goes out no earlier than k intervals after the deadline it began with, or after its own start where it was over four intervals late; then, and when four packets were not enough, at most four packets' frames are left waiting |
| Sender.CaptureSender.BurstTurn | sender/src/main.rs:978-987 | Sends whole packets until none is left or sixteen are sent |
| Sender.CaptureSender.Turn | sender/src/main.rs:922-1029 | At every loop head resampled frames = sent + waiting + dropped, what was sent and waits is an in-order part of what was resampled, and each turn trims, sends and drops exactly what its branch says and leaves the deadline it says |
| CaptureQueue.RunKeeps | sender/src/main.rs:325-487 | Under every interleaving of callback, consumer and chunk drops: queued + free + held buffers is the pool, each keeps its room, offered frames = dropped + delivered + queued, delivered and queued chunks are in order |
| CaptureQueue.OfferKeeps | sender/src/main.rs:359-424 | One callback keeps all of that, in both modes and with or without the lock |
| CaptureQueue.FillKeeps | sender/src/main.rs:403-424 | Filling a buffer of the pool never needs more room than it has |
| CaptureQueue.ReleaseKeeps | sender/src/main.rs:547-563 | A dropped chunk's buffer always goes back: the pool has room for it and it has kept its capacity |
| CaptureQueue.DeliveryInOrder | sender/src/main.rs:470-487 | Delivered then queued chunks are an in-order subsequence of those offered |
| CaptureQueue.FifoKeepsAccepted | sender/src/main.rs:391-394 | First-in-first-out discards no accepted chunk |
| CaptureQueue.AcceptedIff | sender/src/main.rs:359-424 | Exactly when a chunk is accepted |
| CaptureQueue.MissesAreLocked | sender/src/main.rs:375-379 | A lock miss counts exactly for chunks that would have fitted and found the lock taken |
| CaptureQueue.RunAccounts | sender/src/main.rs:359-487 | Offered chunks = dropped + delivered + queued, under every interleaving |
| CaptureQueue.CapturedAt | sender/src/main.rs:408-420 | Frame k of an input slice is its k-th group of samples, clamped: the first on the left, the second, if any, on the right |
| CaptureQueue.PoolDryOnlyWhenHeld | sender/src/main.rs:396-402 | The pool is dry if and only if the consumer holds two chunks and one more for each free slot of the queue |
| CaptureQueue.CaptureQueue.PushInputRealtime | sender/src/main.rs:359-424 | In place, computes the specified callback step on the interleaved input |
| CaptureQueue.CaptureQueue.RecvTimeout | sender/src/main.rs:470-487 | In place, hands out the oldest chunk |
| CaptureQueue.CaptureQueue.DropChunk | sender/src/main.rs:547-563 | In place, takes a held chunk back into the pool |
| CaptureQueue.ReadFrames | sender/src/main.rs:408-420 | The conversion loop pairs and clamps the samples of whole frames |
| Packetizer.CutIsFaithful | w-sender/src/packetizer.rs:103-128 | However far a chunk gets: non-empty adjacent packets of bounded size whose payloads concatenate to the conversion of the frames they cover; a stop is the error of the next block, and without one the chunk is covered |
| Packetizer.ReadBlock | w-sender/src/packetizer.rs:104-113 | Converts a block, or returns its first frame's error; what a conversion is `CaptureFormats` gives |
| Packetizer.Packetizer.EmitPacket | w-sender/src/packetizer.rs:115-127 | Emits bytes that parse back to the packet and advances the counters past it |
| Packetizer.Packetizer.PacketizeCaptureChunk | w-sender/src/packetizer.rs:66-133 | In place, emits the cut of the chunk after the format checks, and keeps everything emitted one contiguous stream whose payloads are the converted samples, also after an error in the middle |
| Packetizer.StreamOfPayloads | w-sender/src/packetizer.rs:103-128 | The frames of the emitted stream are the converted samples, two to a frame |
| CaptureFormats.IntegersAreRead | w-sender/src/packetizer.rs:169-200 | Every integer of 16, 24 or 32 bits is read from its little-endian two's complement bytes as its quotient by the largest one, the lowest as full scale |
| CaptureFormats.SignedIsTwosComplement | w-sender/src/packetizer.rs:184-192 | The sign extension of any number of bytes: the unsigned value, less the whole range in its upper half |
| CaptureFormats.OtherSamples | w-sender/src/packetizer.rs:169-182 | Floats are clamped; a sample of the wrong size is a panic, but for padding behind 24 bits |
| CaptureFormats.FrameLayout | w-sender/src/packetizer.rs:136-168 | A frame's samples stand at its multiple of the block alignment, left first and right one sample further; mono fills both sides, no data is silence, and a short buffer an error |
| CaptureFormats.SixteenBitsPassThrough | w-sender/src/packetizer.rs:104-113 | A 16-bit stereo capture without the sample -32767 goes to the wire as it is, sample for sample |
| CaptureFormats.CutNumbers | w-sender/src/packetizer.rs:115-127 | Packet i of a chunk is numbered i on, modulo 2^32, and has the position, send time and frame count of its piece of the chunk |
| ReceiverQueue.RunKeeps | receiver/src/main.rs:232-267 | Under every interleaving the queue stays within its capacity and holds the newest accepted events, and the accepted events are, as a multiset, exactly those drained, discarded and queued, each in order |
| ReceiverQueue.DrainedInOrder | receiver/src/main.rs:262-266 | Drained then queued events are an in-order subsequence of those accepted |
| ReceiverQueue.PushFinishes | receiver/src/main.rs:247-260 | With one producer a push ends within three queue operations, two rounds, however often the consumer pops in between |
| ReceiverQueue.ReportsAccounted | receiver/src/main.rs:247-260 | Reported drops are the discarded events plus the times the consumer had emptied the queue in between |
| ReceiverQueue.ReportWithoutLoss | receiver/src/main.rs:247-260 | A concrete run that reports a drop and discards nothing |
| ReceiverQueue.PushWithRoom | receiver/src/main.rs:247-260 | A push that finds room reports no drop and discards nothing |
| ReceiverQueue.PushWithoutRoom | receiver/src/main.rs:247-260 | A push that meets a full queue reports a drop and discards the oldest event the consumer has left, if any |
| ReceiverQueue.ReceiverEventQueue.PushDropOldest | receiver/src/main.rs:247-260 | The loop terminates and computes the specified push for any pops in between |
| ReceiverQueue.ReceiverEventQueue.DrainInto | receiver/src/main.rs:262-266 | Takes everything in order and leaves the queue empty |
| ReceiverTiming.CeilCovers | receiver/src/main.rs:122-134 | Milliseconds cover some frames exactly when they are at least the rounded-up conversion: for all 32-bit counts but the largest, and for that one exactly when it covers them |
| ReceiverTiming.MsRoundTrip | receiver/src/main.rs:122-134 | Milliseconds through frames and back never grow, for any milliseconds and any rate |
| ReceiverTiming.MsIsAThousandth | receiver/src/main.rs:122-124 | Milliseconds are their thousandth of the rate in frames, rounded down |
| ReceiverTiming.CapacityHoldsThreeDelays | receiver/src/main.rs:144-148 | The capacity is at least three fixed delays if and only if the largest capacity would be |
| ReceiverTiming.ConfiguredIff | receiver/src/main.rs:98-170 | The receiver starts exactly for stereo at 48000 Hz with a delay above zero given in one way at most; it then keeps the frames given, 48 for each millisecond given, or 14400, in a buffer of three times their milliseconds, 600 at least |
| ReceiverTiming.DefaultTiming | receiver/src/main.rs:98-120 | Without options: 14400 frames, 300 ms, in a buffer of 900 ms |
| ReceiverTiming.ConfiguredRoom | receiver/src/main.rs:98-170 | The configured buffer has room for 16800 frames beyond the fixed delay and the tolerance if and only if the longest capacity would, which fails only for delays of about seven weeks and more |
| ReceiverTiming.ConfiguredSteady | receiver/src/main.rs:98-203 | For a receiver configured with that room, the capacity condition of the steady run always holds |
| ReceiverTiming.ConfiguredPlaysOn | receiver/src/main.rs:690-703 | From the command line to endless playback: the receiver configured with that room, fed to within the start-up window and then with what each callback plays, starts at once, never has a gap or resync over any number of callbacks, and each leaves exactly the fixed delay |
| ReceiverTiming.ConfiguredPlaysExactly | receiver/src/main.rs:690-703 | The same receiver, fed with sent packets: its first callback writes the stream's frames from the fixed delay and one callback before the newest end, and every later one exactly the frames that come next, none missing, repeated or interpolated |
| JitterExact.SteadyRunPlays | common/src/jitter.rs:359-380 | In a steady run without error and from a whole position, the callback after any number of rounds writes exactly the next frames of the followed stream |
| JitterExact.StartupOnTime | common/src/jitter.rs:578-584 | A start over solid data plays the stream's own frames, the fixed delay behind, and begins such a run |

## Left out

- Floating point: `f32` and `f64` are exact reals. Rounding, infinities and NaN are not modelled; the source's epsilons and constants are kept.
- JitterBuffer.JitterBuffer.InsertPacket: is of a build with overflow checks. A build without them wraps where this one stops, and then works on with the wrapped position. A packet that ends at the very last 64-bit position is inserted, but the sums with one more frame in pruning and lookup are unbounded here.
- Sender.PacketSender.SendFrames: asks for fewer than 65536 frames and for a position inside 64 bits; the source truncates the one and adds the other unchecked.
- Packetizer.Packetizer.PacketizeCaptureChunk: asks for a position inside 64 bits and a packet size from 1 to 65535 frames, which its caller picks; the level meter's sums are not part of this model.
- JitterControl.LatencyBound: holds for renders of at most 250000 source frames, over five seconds in one callback. A correction can move a longer rendering by more than the error (`JitterControl.CorrectionBoundedIff`).
- JitterGaps.NoGapWhenDataIsThere: has the same limit.
- JitterSteady.SteadyRun: like the convergence theorem, is about in-order arrivals of whole rounds with clock sync off; drift between clocks and jitter in arrival are covered by the latency bound and the no-gap theorem one pull at a time.
- SequenceLoss.LostPlusSeenIsSpan: needs each number within half the 32-bit range of the expected one; beyond it the source takes forwards for backwards.
- Delivery.ReceiverPlaysSource: is about datagrams that arrive in order and in time; for any others `EndToEnd.CallbackPlaysSource` says what is heard.
- EndToEnd.CallbackPlaysSource: begins at the frames the resampler hands to the sender loop; the resampler and the capture queue before it have their own theorems.
- A sample rate of zero in the buffer's configuration: the receiver refuses it at start-up.
- The position counter of the render loop: it saturates in the source and is unbounded here.
- Metrics that only report: latest sequence and position, levels in milliseconds, resampling ratios, level meters, timing windows, percentiles and all printing.
- The IEEE reading of captured float samples is a parameter; the 16, 24 and 32 bit integer readings are modelled.
- Sender-side rate tuning is an arbitrary ratio per chunk.
- Waiting: condition variables, packet deadlines and the wall clock are inputs of the steps. A poisoned lock counts as a missed lock.
- The lock-free queue behind the receiver's event queue: its push and pop are atomic steps.
- A callback larger than its scratch buffer, which repeats the last frame, and the conversion to device sample types.
- Sockets, audio devices, thread priorities, command-line parsing, the status datagrams and the scripts.
