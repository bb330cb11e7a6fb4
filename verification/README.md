# Scrambler's packet pipeline, verified

Scrambler captures UDP packets of selected processes and lets them through late, doubled, thinned
out or slowed down. This project models the pipeline in its `core` directory in Dafny and proves
what that pipeline keeps true over every run and every interleaving of its threads.

    dafny verify dfyconfig.toml

## What is modelled

- `Packets.dfy`: packets, addresses, five-tuples and the constants (1500-byte MTU, 4096 pool slots,
  batches of 128).
- `ScheduledPacketQueue.dfy`: the heap of pool slots ordered by release time, as a binary heap whose
  comparisons read the pool through the slot, with `Push`, `PopReady`, `DrainAll` and `Peek`.
- `DelayProtocol.dfy`, `DelayTheorems.dfy`: the delay queue as a system of threads without a lock.
  The capture thread has a program counter inside `Push`, the drain thread one inside `DrainLoop`
  and, after both are joined, one inside `FlushPackets`. Every access to a shared object is a step of
  its own; a slot that has been copied onto the heap but not yet popped from the handoff queue, or
  reinjected but not yet popped, is a state of its own. One invariant covers slot ownership, heap
  order, which packet each slot carries, what was sent, and in which order. The priority queue's
  push and pop are steps that promise nothing if the vector they are given is not a heap.
- `Backlog.dfy`, `FlushOrder.dfy`: two more properties of all its runs, how fast a backlog drains and
  when the shutdown flush keeps the order by release time.
- `DelayPaths.dfy`, `DelayQueue.dfy`: the delay queue as a class over an array pool, two queues and
  the heap. Its ghost state is the protocol run that the calls made so far amount to, so every
  theorem about runs holds of the object.
- `EffectConfig.dfy`, `Throttle.dfy`, `EffectEngine.dfy`, `EffectTheorems.dfy`: the settings with
  their clamps and the throttle's revision, and the engine that loses, delays, duplicates and
  throttles packets. The random generator is an oracle: each packet comes with arbitrary draws.
- `Capture.dfy`, `CaptureTheorems.dfy`, `PacketInterceptor.dfy`: the walk over a received buffer, as a
  function and as the methods of the interceptor, which also has its Start and Stop. The reference
  the walk is proved against knows a batch as a list of packets and has no buffer and no cursor.
- `Pipeline.dfy`: capture loop, engines and delay queue together, in every interleaving.
- `FlowTracker.dfy`: the flow table and endpoint index in front of the system's UDP table.
- `TargetPidSet.dfy`: the set of targeted processes with its lock-free cached element.

What WinDivert and Windows answer (packet boundaries, table rows, the clock, whether a handle opens)
is a parameter. Times are unbounded integers of nanoseconds; the throttle's 64-bit unsigned
arithmetic and the revision's 64-bit wrap-around are written out.

Three things the code does that its names do not suggest are stated as they are:

- The endpoint index prefers the row of the exact address, the scan it replaces prefers the later
  row, so after a bootstrap they can name different processes
  (`FlowTrackers.IndexDisagreesExample`). They agree if and only if no later wildcard row of another
  process follows the last exact one (`FlowTrackers.IndexAgreesIffNotShadowed`).
- The walk stops when the buffer is used up, even if addresses remain
  (`CaptureTheorems.UnreachedExample`). Conservation of a batch holds if and only if it gets to every
  address (`CaptureTheorems.BatchConserves`), which it does on well-formed batches.
- The shutdown flush empties the handoff queue before the heap, so a packet can leave before an
  earlier one that is due first (`FlushOrder.OrderLostExample`). Over a whole run the order by release
  time is kept if and only if, when the flush begins, no scheduled packet is due strictly before one
  that is handed off (`FlushOrder.FlushKeepsOrderIff`).

## Model

| member | source | states |
|---|---|---|
| DelayProtocol.Safety | src/core/DelayQueue.cpp:90-204 | Every state of every interleaving of Push, DrainLoop and Stop satisfies the invariant: slot ownership, heap order, what each slot carries, bytes sent, order of sending. |
| DelayTheorems.ExactlyOneOwner | src/core/DelayQueue.cpp:52-62 | Each of the 4096 slots has exactly one owner among free queue, handoff queue, heap, drain batch, the producer's hand and the flusher's hand; no other slot number has any. |
| DelayTheorems.PushesNeverBlock | src/core/DelayQueue.cpp:104-123 | Whenever a thread is about to push onto the handoff queue or back onto the free queue, that bounded queue has room. |
| DelayTheorems.GivesUpOnlyWhenFull | src/core/DelayQueue.cpp:92-102 | Push reports an exhausted pool only in a state where all 4096 slots are handed off, scheduled, in the batch being sent or in the flusher's hand. |
| DelayTheorems.InFlightSlotsStable | src/core/DelayQueue.cpp:104-107 | No step changes the payload or release time of a slot in the handoff queue, heap or batch, so the heap stays ordered although it compares through memory the producer writes. |
| DelayTheorems.BytesSentAreBytesPushed | src/core/DelayQueue.cpp:163-184 | Every packet given to a send call is, field for field, one accepted by Push, and none is sent twice. |
| DelayTheorems.SentInDueOrder | src/core/DelayQueue.cpp:148-204 | While the drain loop runs, and until it has been joined, a packet accepted earlier and due strictly earlier is sent earlier, whatever pushes interleave. |
| DelayTheorems.NeverEarly | include/core/ScheduledPacketQueue.h:33-33 | The drain loop releases no packet before its release time. |
| DelayTheorems.BatchFits | src/core/DelayQueue.cpp:141-172 | What is packed for a send call never exceeds 128 addresses and 128 * 1500 bytes, the sizes of the buffers. |
| DelayTheorems.HandoffLoopTerminates | src/core/DelayQueue.cpp:152-157 | The inner loop moves at most as many entries as there are slots outside the heap when it starts, however often the producer pushes meanwhile. |
| DelayTheorems.StopFreesEverySlot | src/core/DelayQueue.cpp:110-125 | After Stop the free queue holds each of the 4096 slots exactly once. |
| DelayTheorems.StopSendsEachOnce | src/core/DelayQueue.cpp:78-88 | After Stop every accepted packet has been given to exactly one send call, unchanged. |
| Backlogs.BacklogDrains | src/core/DelayQueue.cpp:148-204 | In every interleaving, while the clock reads t or later and nothing due by t is added, max(0, n - 128k) of n waiting packets due at t are left after k passes, so they are gone exactly from pass ceil(n / 128) on, whatever else is pushed. |
| FlushOrder.FlushKeepsOrderIff | src/core/DelayQueue.cpp:110-125 | Over a run from Start to Stop packets leave in due order if and only if, when the flush begins, no scheduled packet is due strictly before one still handed off. |
| FlushOrder.OrderLostExample | src/core/DelayQueue.cpp:110-125 | For any two packets of which the one pushed first is due first, a run in which the other leaves first. |
| DelayQueues.DelayQueue.constructor | src/core/DelayQueue.cpp:52-62 | The new object is in the protocol's initial state: every slot in the free queue in pool order. |
| DelayQueues.DelayQueue.Push | src/core/DelayQueue.cpp:90-108 | An uninterrupted call is a path of protocol steps to the state with the packet in the first free slot, handed off and accepted, or, without a free slot, only counted. |
| DelayQueues.DelayQueue.EmptyHandoff | src/core/DelayQueue.cpp:152-157 | Moves the handoff queue's entries onto the heap: the heap's multiset grows by exactly them. |
| DelayQueues.DelayQueue.Pack | src/core/DelayQueue.cpp:163-172 | The send buffer is the batch's packets back to back and the addresses are theirs in the same order. |
| DelayQueues.DelayQueue.DrainPass | src/core/DelayQueue.cpp:148-204 | One iteration of the drain loop: up to 128 due slots leave the merged heap, earliest first, their packets are packed for one send call within its buffers, and their slots return to the free queue; a path of protocol steps. Of the packets due at any instant up to its own it leaves 128 fewer, or none. |
| DelayQueues.DelayQueue.FlushPackets | src/core/DelayQueue.cpp:110-125 | Sends the handoff queue in order, then the heap in due order, and returns every slot in that order. |
| DelayQueues.DelayQueue.Stop | src/core/DelayQueue.cpp:78-88 | Both queues end empty, every slot is free, and what was sent over the object's life is, as a multiset, what was accepted; a second call sends nothing. |
| ScheduledPackets.TopIsMin | include/core/ScheduledPacketQueue.h:13-19 | In a heap under the comparator no entry is due before the top. |
| ScheduledPackets.BatchSize | include/core/ScheduledPacketQueue.h:33-39 | The loop's exit condition determines how many packets were popped: the limit or the number due, whichever is less. |
| ScheduledPackets.OnePass | include/core/ScheduledPacketQueue.h:30-42 | A pass at one instant takes a full limit, or all, of what was due at any earlier instant. |
| ScheduledPackets.BacklogClears | src/core/DelayQueue.cpp:159-174 | Of n packets due at t, max(0, n - 128k) are left after k passes, each at its own instant from t on, so they are gone exactly from pass ceil(n / 128) on. |
| ScheduledPackets.PopReadyTimesUnique | include/core/ScheduledPacketQueue.h:29-42 | PopReady's specification leaves no freedom but among equal release times. |
| ScheduledPackets.ReadyCountOfBag | include/core/ScheduledPacketQueue.h:33-33 | How many packets are due depends on the queued multiset only, not on the heap's layout. |
| ScheduledPackets.ScheduledPacketQueue.Push | include/core/ScheduledPacketQueue.h:24-27 | The heap stays a heap and gains exactly the pushed slot. |
| ScheduledPackets.ScheduledPacketQueue.Pop | include/core/ScheduledPacketQueue.h:35-36 | Removes exactly the top and leaves a heap. |
| ScheduledPackets.ScheduledPacketQueue.PopReady | include/core/ScheduledPacketQueue.h:30-42 | Delivers exactly min(limit, number due) packets in nondecreasing release order, all due, and leaves the rest of the multiset, none of it due before anything delivered. |
| ScheduledPackets.ScheduledPacketQueue.DrainAll | include/core/ScheduledPacketQueue.h:44-53 | Delivers the whole multiset in nondecreasing release order and leaves the queue empty. |
| ScheduledPackets.ScheduledPacketQueue.Peek | include/core/ScheduledPacketQueue.h:55-63 | Nothing exactly when the queue is empty, otherwise a queued slot none is due before. |
| Throttling.TransmissionTimeIsCeiling | src/core/PacketEffectEngine.cpp:15-29 | For every packet and rate the pipeline can have, the 64-bit computation does not overflow and yields the least number of nanoseconds in which the bytes fit the rate. |
| Throttling.ClosedForm | src/core/PacketEffectEngine.cpp:103-137 | Under the recursion, copy k leaves at the maximum over i <= k of base i plus the transmission times of copies i..k-1, and of the initial free time plus all earlier ones. |
| Throttling.EarliestSchedule | src/core/PacketEffectEngine.cpp:110-122 | No schedule that respects base times and spacing lets any copy leave before the recursion does. |
| Throttling.ByteRate | src/core/PacketEffectEngine.cpp:24-26 | Bytes of copies i..j-1 fit in the time between copies i and j at the rate. |
| Throttling.BackloggedRounding | src/core/PacketEffectEngine.cpp:24-26 | While the throttle never idles, rounding costs less than a nanosecond per copy. |
| EffectTheorems.EmissionShape | src/core/PacketEffectEngine.cpp:180-202 | A packet is lost and nothing is emitted, or it yields identical copies, 1 + the duplicate count of them if the duplicate draw is below the duplicate rate and one otherwise, those due now at once and the rest strictly later in order; with a throttle at most one nonempty copy leaves at once. |
| EffectTheorems.LostExactlyIf | src/core/PacketEffectEngine.cpp:40-73 | A packet is lost if and only if, in burst mode, a burst is under way or the burst draw is below the burst rate, and otherwise the drop draw is below the drop rate. |
| EffectTheorems.AppliesBelowRate | include/core/EffectConfig.h:300-313 | An effect applies if and only if the draw is below the rate; so never at rate 0 and always at rate 1, draws being at least 0 and below 1. |
| EffectTheorems.ThrottleReportedIffHeldBack | src/core/PacketEffectEngine.cpp:115-142 | The throttle is reported if and only if some copy leaves later than now + delay. |
| EffectTheorems.EffectsReported | src/core/PacketEffectEngine.cpp:40-92 | A lost packet reports the loss, as a burst exactly in burst mode; another one reports delay and jitter as configured, and duplication exactly when it has more than one copy. |
| EffectTheorems.UnthrottledDelay | src/core/PacketEffectEngine.cpp:75-92 | Without a throttle all copies leave together, after the delay and at most the jitter on top, and at once exactly if that is zero. |
| EffectTheorems.NeverBeforeDelay | src/core/PacketEffectEngine.cpp:75-102 | With or without a throttle, no copy leaves before now plus the configured delay plus the jitter drawn, each in milliseconds. |
| EffectTheorems.RunIsLindley | src/core/PacketEffectEngine.cpp:94-143 | Over any run in one throttle setting, with any losses, delays and duplicates, the emitted copies follow the single-server recursion across packets. |
| EffectTheorems.DepartureClosedForm | src/core/PacketEffectEngine.cpp:94-143 | From a fresh revision, copy k of the run leaves exactly at the maximum over i <= k of the instant copy i would leave without a throttle (now plus configured delay plus drawn jitter) plus the transmission times of copies i..k-1. |
| EffectTheorems.DeparturesEarliest | src/core/PacketEffectEngine.cpp:110-137 | The run's departures form an allowed schedule, and no allowed schedule lets any copy leave earlier. |
| EffectTheorems.ByteRateBound | src/core/PacketEffectEngine.cpp:103-137 | Over a run, bytes of copies i..j-1 times 10^9 are at most the rate times the time between departures i and j. |
| EffectTheorems.WindowBytes | include/core/EffectConfig.h:93-112 | Any window of w nanoseconds releases at most rate * w / 10^9 bytes plus one 1500-byte packet. |
| EffectTheorems.ByteRateMet | src/core/PacketEffectEngine.cpp:15-29 | Over a backlogged stretch of a run the time taken exceeds the bytes at the rate by less than a nanosecond per copy. |
| EffectTheorems.BurstCounterRange | src/core/PacketEffectEngine.cpp:43-58 | Over any run the burst counter stays within 0..31, and it is 0 after any packet seen with burst mode off. |
| EffectTheorems.EngineFollowsLosses | src/core/PacketEffectEngine.cpp:186-190 | Whether each packet of a run is lost depends on the loss counter, the settings and the draws only. |
| EffectTheorems.RandomLosses | src/core/PacketEffectEngine.cpp:66-69 | Over any run, whatever the burst counter was, a packet seen with burst mode off is lost if and only if its drop draw is below the drop rate. |
| EffectTheorems.BurstContinues | src/core/PacketEffectEngine.cpp:49-55 | With n packets of a burst outstanding the next n are lost, then the counter is clear. |
| EffectTheorems.LossesFollowBlocks | src/core/PacketEffectEngine.cpp:47-64 | In burst mode the losses of a run are the pattern of its blocks: passes, and bursts of exactly the length configured when each starts, only the last possibly unfinished. |
| EffectTheorems.LossesDecompose | src/core/PacketEffectEngine.cpp:47-64 | The drop decisions alone, without the draws, split into those blocks. |
| EffectTheorems.BlocksUnique | src/core/PacketEffectEngine.cpp:47-64 | Any sequence of drop decisions splits in at most one way into passes and bursts of the length configured where each starts. |
| EffectTheorems.DropsDecomposeUniquely | src/core/PacketEffectEngine.cpp:47-64 | Every run in burst mode from a cleared counter: its drop decisions split so in exactly one way. |
| EffectTheorems.DirectionsIndependent | src/core/PacketEffectEngine.cpp:209-212 | What one direction emits in a mixed run is what its engine alone emits on that direction's packets. |
| EffectTheorems.LostPacketsLeaveNoTrace | src/core/PacketEffectEngine.cpp:31-38 | With revisions that never go back, surviving packets are emitted exactly as if the lost ones had never arrived. |
| EffectEngines.DirectionPacketEffectEngine.ShouldDropPacket | src/core/PacketEffectEngine.cpp:40-73 | The verdict, the reported effects and the new burst counter are those of the loss function; a drop is exactly a nonempty effect set. |
| EffectEngines.DirectionPacketEffectEngine.ResetThrottleStateIfNeeded | src/core/PacketEffectEngine.cpp:31-38 | A changed revision clears the throttle's free time, an unchanged one leaves the engine alone. |
| EffectEngines.DirectionPacketEffectEngine.EmitPacketCopies | src/core/PacketEffectEngine.cpp:94-143 | The loop's copies leave in an arithmetic progression, split at now; the throttle flag and the new free time follow from it. |
| EffectEngines.DirectionPacketEffectEngine.Process | src/core/PacketEffectEngine.cpp:180-202 | The emission and the new engine state are those of the engine's transition function, about which the theorems speak. |
| EffectEngines.PacketEffectEngine.Process | src/core/PacketEffectEngine.cpp:209-212 | The packet's direction alone decides which engine acts. |
| EffectConfigs.DirectionEffectConfig.SetThrottleKBytesPerSec | include/core/EffectConfig.h:103-112 | The clamped rate is stored and the revision advanced exactly when it differs from the stored one. |
| EffectConfigs.DirectionEffectConfig.SetDelayMs | include/core/EffectConfig.h:68-71 | Negative delays become 0; nothing else changes and the snapshot stays in range. |
| EffectConfigs.DirectionEffectConfig.SetDelayJitterMs | include/core/EffectConfig.h:83-86 | Jitter is clamped to 0..1000 ms; nothing else changes. |
| EffectConfigs.DirectionEffectConfig.SetBurstDropLength | include/core/EffectConfig.h:139-142 | The length is clamped to 1..32; nothing else changes. |
| EffectConfigs.DirectionEffectConfig.SetDuplicateCount | include/core/EffectConfig.h:169-173 | The count is clamped to 1..64; nothing else changes. |
| EffectConfigs.ClampNearest | include/core/EffectConfig.h:68-173 | A clamped value lies in the range and no value of the range is nearer to the one given, so one in range is kept. |
| EffectConfigs.ClampRateNearest | include/core/EffectConfig.h:114-168 | The same of a rate and 0..1. |
| EffectConfigs.RevisionCountsChanges | include/core/EffectConfig.h:103-112 | After any calls the revision has advanced by the number of calls that changed the rate, modulo 2^64. |
| EffectConfigs.LastRateStored | include/core/EffectConfig.h:103-112 | After any calls the stored rate is in range, and no rate in range is nearer to the one last asked for. |
| EffectConfigs.SameRevisionSameRate | include/core/EffectConfig.h:107-111 | Short of 2^64 changes, the revision is unchanged if and only if the rate was never changed in between. |
| Interceptors.PacketInterceptor.CaptureBatch | src/core/PacketInterceptor.cpp:187-372 | The loop over a received buffer computes the walk, and the delay queue ends as if exactly the walk's pushes had been made in order. |
| Interceptors.PacketInterceptor.RoutePacket | src/core/PacketInterceptor.cpp:259-363 | One packet is passed, found oversized, or given to its direction's engine, its immediate copies appended and its delayed ones pushed. |
| Interceptors.PacketInterceptor.AppendImmediate | src/core/PacketInterceptor.cpp:193-212 | A packet over an MTU leaves buffer and addresses alone, any other extends both by exactly itself. |
| Interceptors.PacketInterceptor.Start | src/core/PacketInterceptor.cpp:43-82 | Refused while running, failing if the handle does not open, otherwise running with a fresh queue of 4096 free slots. |
| Interceptors.PacketInterceptor.StopQueue | src/core/PacketInterceptor.cpp:111-115 | Callable only when nothing is received any more, the capture thread is joined and the handle still sends; everything accepted has then had its one send attempt and all slots are free. |
| Interceptors.PacketInterceptor.Stop | src/core/PacketInterceptor.cpp:97-128 | From any state, started or not: the queue is flushed and gone, the handle closed, and the interceptor can be started again. |
| Interceptors.PushedAllCounts | src/core/DelayQueue.cpp:90-108 | Of packets pushed one after another the first ones, as many as there are free slots, are accepted in order and the others counted as exhausted. |
| CaptureTheorems.BatchSpliced | src/core/PacketInterceptor.cpp:187-372 | On a well-formed batch the send buffer is, in order, each packet as often as its fate says, then the raw rest from the first parse failure on; each address stays with its packet; the pushes are the delayed copies in order. |
| CaptureTheorems.FatesUpToFailure | src/core/PacketInterceptor.cpp:223-257 | The packets that have a fate are exactly those before the first parse failure. |
| CaptureTheorems.FateShape | src/core/PacketInterceptor.cpp:262-363 | Oversized packets vanish, packets that are not targeted leave once, targeted ones as at most 65 copies; every pushed copy has the packet's bytes and address and is due later; the other direction's engine is untouched. |
| CaptureTheorems.TargetedFate | src/core/PacketInterceptor.cpp:262-356 | A targeted UDP packet of a known process that fits an MTU goes, in either direction, through its own direction's engine with its own bytes, address and draws; what leaves now and later is exactly what that engine emits. |
| CaptureTheorems.TargetedRoute | src/core/PacketInterceptor.cpp:262-356 | The loop body appends that engine's immediate copies, pushes its scheduled ones, keeps its new state and counts its drop and delay. |
| CaptureTheorems.BatchEngages | src/core/PacketInterceptor.cpp:214-372 | Over a whole batch, for any parser, the engines' state and the pushes are those of the engines run on exactly the targeted UDP packets that fit an MTU, and the packets counted as dropped and as delayed those they drop and delay. |
| CaptureTheorems.BatchTransparent | src/core/PacketInterceptor.cpp:193-212 | If every packet that parses fits an MTU and is not targeted, or no effect is configured, the batch goes out byte for byte and address for address, with no push, parse failures included. |
| CaptureTheorems.BatchTallied | src/core/PacketInterceptor.cpp:279-343 | Each counter counts what it is named for: lost, oversized, copies beyond the first, packets with a delayed copy, parse failures. |
| CaptureTheorems.PushesFromBatch | src/core/PacketInterceptor.cpp:350-353 | Every push of a well-formed batch is a delayed copy of one of its packets, under that packet's own address. |
| CaptureTheorems.BatchConserves | src/core/PacketInterceptor.cpp:214-372 | For any parser, captured + duplicated = dropped + oversized + sent at once + pushed if and only if the walk gets to every address; otherwise exactly the unreached ones are missing. |
| CaptureTheorems.UnreachedExample | src/core/PacketInterceptor.cpp:365-371 | Two addresses over a buffer holding one packet: the walk ends after the first, and the identity fails. |
| CaptureTheorems.FramedBatchConserves | src/core/PacketInterceptor.cpp:214-372 | On well-formed batches it always does. |
| Pipeline.SysSafety | src/core/PacketInterceptor.cpp:150-398 | In every interleaving of the capture loop with the delay queue, each produced copy is accepted, in the producer's hand, still to be pushed or found no slot, and the totals add up. |
| Pipeline.Conservation | src/core/PacketInterceptor.cpp:97-128 | Once stopped: captured - unreached - dropped - oversized + duplicated = sent at once + delayed packets given exactly one send attempt + exhausted pushes; packet for packet, what was produced is what was sent or given up; every slot is free. |
| Pipeline.WellFormedConservation | src/core/PacketInterceptor.cpp:97-128 | On well-formed batches nothing is unreached and the identity holds without that term. |
| Pipeline.NothingInvented | src/core/DelayQueue.cpp:127-135 | At any time, whatever the delay queue has sent is a delayed copy of a captured packet with its bytes and address. |
| Pipeline.QueueRun | src/core/PacketInterceptor.cpp:350-353 | Seen from the delay queue a pipeline run is a run of its protocol, so all theorems about it apply. |
| Pipeline.EnginesOverRun | src/core/PacketInterceptor.cpp:150-398 | In every interleaving the engines are carried from batch to batch: all copies produced so far are what they schedule over the targeted packets of all batches in one run from the start, and the totals of dropped and delayed packets count that run's. |
| Pipeline.PushedInOrder | src/core/PacketInterceptor.cpp:350-353 | In every interleaving, copies are accepted or given up in the order the engines produced them: those taken and those given up shuffle into exactly what precedes the copies still to be pushed. |
| Packets.ReversedEnds | include/core/Types.h:49-56 | Reversing a flow exchanges its two ends, address with port, and keeps the protocol; twice is the flow itself. |
| FlowTrackers.EndpointKeyInjective | src/core/FlowTracker.cpp:30-33 | The 48-bit key determines address and port. |
| FlowTrackers.TablesAlwaysConsistent | src/core/FlowTracker.cpp:182-284 | In every interleaving of flow events and any number of lookups the flow table is closed under reversal with equal pids, no map holds pid 0 or 4, and every lookup answers 0 or a real process. |
| FlowTrackers.TablesFollowHistory | src/core/FlowTracker.cpp:219-284 | In every interleaving a flow's entry is the pid of the latest establish or insert on it or its reverse since the last delete of either, and an endpoint's entry likewise since the last bootstrap. |
| FlowTrackers.ReplayHoldsLatest | src/core/FlowTracker.cpp:219-284 | The same of any sequence of writes. |
| FlowTrackers.LookupSymmetric | src/core/FlowTracker.cpp:182-217 | Looking up a flow and its reverse in the opposite direction give the same answer and the same tables. |
| FlowTrackers.LookupAnswers | src/core/FlowTracker.cpp:182-217 | A known flow answers its owner; otherwise the exact local endpoint does, otherwise the wildcard one, with nothing changed; otherwise the scan, and an owner it finds is remembered for the flow in both directions and nothing else. |
| FlowTrackers.CachedAnswersFollowHistory | src/core/FlowTracker.cpp:184-205 | In every interleaving a lookup answers at once the latest write about the flow, else about its exact endpoint, else about the wildcard endpoint, and scans exactly if there is none. |
| FlowTrackers.LookupAlone | src/core/FlowTracker.cpp:182-217 | A lookup with nothing in between takes steps that answer and write what the lookup function says. |
| FlowTrackers.DeletedFlowIsRescanned | src/core/FlowTracker.cpp:265-271 | Right after a delete, looking the flow up as outbound misses every cache and answers what the scan finds. |
| FlowTrackers.IndexHitsIffScanFinds | src/core/FlowTracker.cpp:119-136 | After a bootstrap with no flow known, a lookup hits if and only if the scan of the same rows finds an owner. |
| FlowTrackers.IndexAgreesIffNotShadowed | src/core/FlowTracker.cpp:71-82 | Then index and scan name the same process if and only if no later wildcard row of another process is the last match after the last exact row. |
| FlowTrackers.IndexDisagreesExample | src/core/FlowTracker.cpp:193-204 | A table of two rows on which they differ. |
| FlowTrackers.ScanFindsEither | src/core/FlowTracker.cpp:71-82 | The scan finds an owner if and only if an exact or a wildcard row exists, and then the owner in the last row of one of these kinds. |
| FlowTrackers.FlowTracker.LookupPidFromSystem | src/core/FlowTracker.cpp:71-82 | The loop returns the last matching row's pid, or 0. |
| FlowTrackers.FlowTracker.BootstrapFromSystem | src/core/FlowTracker.cpp:119-136 | The index is replaced by the one its rows define; the flow table is untouched. |
| FlowTrackers.FlowTracker.LookupPid | src/core/FlowTracker.cpp:182-217 | Answer and new tables are those of the lookup function: flow, exact endpoint, wildcard endpoint, then scan and insert. |
| FlowTrackers.FlowTracker.InsertFlow | src/core/FlowTracker.cpp:219-224 | Sets the flow in both directions. |
| FlowTrackers.FlowTracker.OnFlowEstablished | src/core/FlowTracker.cpp:226-251 | Sets the flow in both directions and its local endpoint, unless the pid is noise. |
| FlowTrackers.FlowTracker.OnFlowDeleted | src/core/FlowTracker.cpp:253-284 | Clears the flow in both directions and its exact and wildcard endpoints. |
| TargetPids.Linearizable | include/core/EffectConfig.h:326-388 | In every interleaving of any number of threads, the operations in the order they took effect (mutators at the cache store, slow readers at the locked read) answer as a plain set would, each finished call once and between its invocation and its return. |
| TargetPids.RealTimeOrder | include/core/EffectConfig.h:358-368 | A call that returned before another was invoked precedes it in that order. |
| TargetPids.MembershipFromLog | include/core/EffectConfig.h:329-356 | The abstract set holds a pid if and only if the last logged Add, Remove, Clear or SetSelectedPid that concerns it was an Add or SetSelectedPid of it. |
| TargetPids.QueriesAnswerLastChange | include/core/EffectConfig.h:358-368 | In every interleaving a query answers true if and only if the last such operation before it in the order of effect put its pid in. |
| TargetPids.CacheIsWholeSet | include/core/EffectConfig.h:371-381 | Whatever a mutator stores in the cache, unless it is the sentinel, is the only element of the set. |
| TargetPids.TargetPidSet.Contains | include/core/EffectConfig.h:358-368 | Membership for every 32-bit pid, the sentinel value included. |
| TargetPids.TargetPidSet.Add | include/core/EffectConfig.h:329-334 | The set gains exactly the pid; the cache is the sole element or the sentinel. |
| TargetPids.TargetPidSet.Remove | include/core/EffectConfig.h:336-341 | The set loses exactly the pid; the cache is the sole element or the sentinel. |
| TargetPids.TargetPidSet.SetSelectedPid | include/core/EffectConfig.h:350-356 | Leaves exactly the pid, cached. |

## Left out

- WinDivert and Windows calls, timers, sleeping, thread creation and priorities: what they answer is a parameter; a failed send still counts as the packet's send attempt.
- The internals of the single-producer single-consumer queues and the atomics' memory orders: bounded first-in first-out queues that hold their stated 4096 entries, and steps that every thread sees in one order.
- The internals of the standard library's priority queue in the protocol: push and pop of a heap give a heap with the right multiset, push and pop of anything else promise nothing. `ScheduledPacketQueue.dfy` has a binary heap that meets this.
- The callback of PopReady and DrainAll: the methods return the slots in call order instead.
- Class methods of the delay queue run one after another there; their interleavings are those of the protocol, whose steps are smaller.
- The random generator's distribution, and floats: draws are arbitrary, rates are reals; a jitter draw lies in the range asked for.
- Snapshots of the settings that tear while a setter runs: a snapshot is taken at once, so the throttle theorems are per observed revision.
- Lengths in memory: the parser's `next_len` is taken to be at most what it was given, and unsigned counters never wrap. What the parser answers for a packet is part of what is found out about that packet, not a function of the bytes.
- The flow tracker and the target set inside the capture walk: their answers for each packet are part of the walk's input; both are proved separately.
- First-in first-out order among equal release times, order during the shutdown flush, and order between immediate and delayed packets: the code does not promise these.
- The counter of reinjected packets: the flush does not count its sends, so send attempts are counted in the protocol's history instead.
- `FiveTupleHash`, `Diagnostics`, `ClassifyRecvFailure`, `StartupError`, the FlowTracker's own Start, Stop and receive loop, and the fatal callbacks: classification and logging only.
- `src/ui`, `include/ui`, `src/main.cpp` and `src/platform`: Qt, Windows plumbing and key tables.
