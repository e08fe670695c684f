# Verification of the transport core of MiniRTC

This project models the logic that decides what MiniRTC sends, acknowledges and asks for, and
proves properties of it in Dafny: the pacer and its packet queue, loss recovery by NACK,
congestion feedback from the receiver over the wire back into the sender's accounts, the
bandwidth estimators and probing, the lifecycle of peer connections, and the normaliser of ICE
candidates. `dafny verify dfyconfig.toml` checks everything.

Code that works on state is a class whose methods have the loops of the source and are proved
against specification functions over a snapshot of that state; what the source promises is then
proved about those functions, over every step and over every run. Times are whole microseconds,
rates whole bits per second; `Units.dfy` states the rounding of the unit headers.

| files | content |
|---|---|
| `Options`, `Units`, `SeqNum`, `MapSums` | absent values; rounding of rates and sizes; wrapping 16-bit numbers; sums over maps |
| `QueueModel`, `QueueAccounting`, `QueueInvariant`, `QueueService`, `QueueRuns`, `QueueAges`, `QueueMedia`, `PacketQueue` | the prioritized packet queue: specification, cached totals, invariant, order of service, runs, age limits, what it means for the media, the object |
| `PacerModel`, `PacerBound`, `PacerRounding`, `PacerRates`, `PacerService`, `PacingController` | the pacer as a leaky bucket, its bound over runs, what rounding does to it, at which rates, what is sent and when, the object |
| `Rtcp`, `NackPacking`, `NackMinimal`, `NackPacket` | big-endian fields and the common header; PID/BLP packing; when it is minimal; the NACK packet |
| `Histogram`, `NackModel`, `NackWindow`, `NackTiming`, `NackRequester` | reordering histogram; the list of missing packets, its window, and when they are requested; the object |
| `AdapterModel`, `InFlight`, `FeedbackOnce`, `FeedbackResults`, `TransportNumbers`, `FeedbackAdapter` | the sender's history: specification, in-flight bytes, feedback and acknowledged keys, the results handed on, runs with fresh and with clashing numbers, the object |
| `FeedbackCodec`, `FeedbackPacket`, `FeedbackTracker`, `FeedbackGenerator` | RFC 8888 feedback: wire format, packet, the receiver's tracker per stream, the generator of messages |
| `LifecycleModel`, `Lifecycle`, `PeerConnection` | connection generations and the ICE worker as a state machine; its invariants; the methods as runs of it |
| `BandwidthEstimation` | the loss-based target and the sliding minimum |
| `ThroughputWindow`, `ThroughputEstimator` | the window of acknowledged packets and the rate read off it |
| `ProbeModel`, `ProbeChain`, `ProbeController` | bandwidth probing: rates, chains of further probes, the object |
| `IceCandidate` | the candidate normaliser |

Findings about the code, each stated by a lemma:

- The leaky bucket does not keep to its rate exactly. Every budget update rounds to the nearest
  byte, so each may pay up to half a byte too much; `PacerRounding.OverpaysIff` says exactly when.
  The bound without a term for rounding holds on every run in which no update does
  (`PacerBound.KeepsRateUnlessOverpaid`), and on all runs exactly at rates within 7 bit/s above a
  multiple of 8 Mbit/s, that is of whole bytes per microsecond (`PacerRates.KeepsRateIff`, for
  packets of any size). `PacerRounding.DoubleRateRun` is a run from a new pacer that sends at twice
  its rate for as long as it lasts, and `PacerRounding.BoundNeedsRounding` states by how much it
  passes the bound.
- The age limit of the packet queue counts the time for which the queue had been paused before a
  packet came toward that packet's age, so packets may be dropped too early
  (`QueueAges.AgeLimitIff`, `QueueAges.PauseShortensLimit`); without pauses it is exact.
- The comparator of the NACK map is not an order on all 16-bit numbers
  (`SeqNum.ComparatorIsNotTransitive`); it is one on the keys that are ever present together.
- Rolling back a packet whose key was sent before can take bytes out of flight that are not in
  flight; `InFlight.RemoveBalancedIff` gives the exact condition, `InFlight.BalancedThroughoutIff`
  carries it over runs, and `InFlight.RollbackOfResentKeyLosesBalance` is a run.
- Registering a packet under a transport number that another key holds leaves the new key's mapping
  wrong; `FeedbackOnce.AddMappedIff` gives the exact condition, `TransportNumbers.MappedThroughoutIff`
  carries it over runs, and `TransportNumbers.ClashCreditsTheWrongPacket` is a run in which the
  arrival of one packet is credited to another.
- The greedy NACK packing of a forward list within one turn uses the fewest items exactly if none of
  its rotations that start at most 16 before the first number packs into fewer
  (`NackMinimal.PackMinimalIff`); a list that ends more than 16 before its start always qualifies.
- A feedback packet counts the reports of a stream modulo 65536 but writes all of them. From 16385
  reports on it writes fewer bytes than it counts, and from 65536 on, where the number cut to 16 bits
  is at most 16384, it writes more, past the room it checked for: `FeedbackCodec.GroupMatchesIff` is
  exact, `FeedbackPacket.WholeSpaceOverruns` an instance. The tracker does not bound its range, so
  four packets suffice (`FeedbackGenerator.OverrunByFourPackets`).
- The candidate normaliser is idempotent exactly for candidate text of at most 4094 characters
  (`IceCandidate.ParseIdempotentIff`).

Where code and documentation disagree the model follows the code. The tracker's comment quotes
RFC 8888, which asks for the arrival time of the first copy of a duplicate; the code takes the
least offset, which is the latest copy (src/qos/congestion_control_feedback_tracker.cc:95). The
enqueue time by which idle streams are culled is never updated after a stream is made
(src/qos/prioritized_packet_queue.cc:88). A new route does not clear the history of minimum
targets (src/qos/send_side_bandwidth_estimation.cc:174-195).

## Model

| member | source | states |
|---|---|---|
| SeqNum.DiffsComplement | src/common/mod_ops.h:65-120 | Forward and reverse distance of wrapping numbers add up to the modulus, and walking the forward distance arrives at the other number. |
| SeqNum.AheadIsTotal | src/common/sequence_number_compare.h:7-22 | `IsNewer` and `AheadOf` agree on all pairs, and exactly one of two different numbers is ahead, also at distance 0x8000. |
| SeqNum.AheadWithinHalf | src/common/rtc_base/numerics/sequence_number_util.h:36-60 | The comparators read as integer comparison of the unbounded counters less than half the space apart. |
| SeqNum.AheadBeyondHalfReverses | src/common/rtc_base/numerics/sequence_number_util.h:36-60 | At every distance above half the space the answer is reversed. |
| SeqNum.ComparatorIsOrderInWindow | src/common/rtc_base/numerics/sequence_number_util.h:66-78 | Inside any half window the map comparator is the strict order of the counters. |
| SeqNum.ComparatorIsNotTransitive | src/common/rtc_base/numerics/sequence_number_util.h:66-78 | On the whole number space it is no order: three numbers are each ahead of the next. |
| SeqNum.UnwrapIsNearest | src/common/rtc_base/numerics/sequence_number_unwrapper.h:36-75 | An unwrapped number is congruent to the value and within half the space of the previous one. |
| SeqNum.UnwrapRecovers | src/common/rtc_base/numerics/sequence_number_unwrapper.h:36-75 | Unwrapping the 16-bit forms of any run of counters with small steps gives the counters back. |
| QueueInvariant.InitialInv | src/qos/prioritized_packet_queue.cc:149-162 | A new queue satisfies the invariant: every cache agrees with a walk over all deques, every round-robin table lists exactly the streams pending at its level, once, and the cached top level is the least non-empty one. |
| QueueService.CachesAreWalks | src/qos/prioritized_packet_queue.cc:164-215 | Under the invariant the packet count, the payload size, the count per media type, the key-frame counts and the list of enqueue times each equal what a walk over all per-stream deques gives. |
| QueueService.QueueTimeSumIsSumOfWaits | src/qos/prioritized_packet_queue.cc:306-320 | The cached queue-time sum is the sum over all queued packets of their un-paused waiting time up to the last update. |
| QueueInvariant.PushEffect | src/qos/prioritized_packet_queue.cc:164-215 | A push keeps the invariant, appends the packet to the deque of its stream and level, and otherwise only drops the expired prefixes of that level; pause time is credited. |
| QueueInvariant.PurgeEffect | src/qos/prioritized_packet_queue.cc:427-453 | A purge removes exactly the expired prefix of every deque of the level, keeps the round-robin order of the streams that remain, and touches no other level. |
| QueueInvariant.UpdateTopEffect | src/qos/prioritized_packet_queue.cc:406-425 | Searching a new top level restores the invariant and loses nothing but expired packets. |
| QueueInvariant.SetPauseInv | src/qos/prioritized_packet_queue.cc:322-325 | Pausing and resuming keep the invariant and all deques, and account for the pause so far. |
| QueueInvariant.PopInv | src/qos/prioritized_packet_queue.cc:217-236 | Under the invariant a non-empty queue has a packet to serve, and serving it keeps the invariant and the clocks. |
| QueueService.PopRefinesSpec | src/qos/prioritized_packet_queue.cc:217-236 | Pop hands out the head of a deque at the least level with any packet, stamped with its un-paused wait, and removes just that packet, except that expired packets may go when the level runs empty. |
| QueueService.TurnOrder | src/qos/prioritized_packet_queue.cc:217-236 | Without pushes or removals the n-th next pop serves the n-th stream of the table. |
| QueueService.FairTurns | src/qos/prioritized_packet_queue.cc:217-236 | Between two pops of the same stream every other stream pending at the level is served exactly once, in order. |
| QueueService.RemoveSsrcEffect | src/qos/prioritized_packet_queue.cc:327-365 | Removing a stream's packets empties all its deques, keeps the invariant, and loses of other streams only expired packets. |
| QueueService.OldestIsFront | src/qos/prioritized_packet_queue.cc:294-297 | With enqueue times in order, the front of the list is the least enqueue time of all queued packets, and one of them has it. |
| QueueRuns.RunAgrees | src/qos/prioritized_packet_queue.cc:164-453 | Over every run of pushes, pops, removals, pauses and updates the invariant holds and the pause bookkeeping agrees with an independent clock of un-paused time. |
| QueueRuns.StepProvenance | src/qos/prioritized_packet_queue.cc:164-453 | After a step every queued packet was queued before or is the one just pushed. |
| QueueRuns.PushesTellApart | src/qos/prioritized_packet_queue.cc:164-215 | The number of pushes before a push tells it apart from every other push of the run. |
| QueueRuns.StampIsUnpausedTime | src/qos/prioritized_packet_queue.cc:375-404 | Over every run from a new queue the time stamped on a popped packet is exactly the un-paused time between its push and its pop; its push is the one whose list node the popped entry holds. |
| QueueRuns.OldestEnqueueTimeIsLeast | src/qos/prioritized_packet_queue.cc:294-297 | Over every run whose pushes come in time order the oldest enqueue time is the least one of the queued packets. |
| QueueAges.AgeLimitIff | src/qos/prioritized_packet_queue.cc:427-453 | On every run whose clocks are in order, a push drops a packet waiting at its level exactly if its age and the time for which the queue had been paused before it came together exceed the limit. |
| QueueAges.NothingOlderThanLimit | src/qos/prioritized_packet_queue.cc:427-453 | So after a push nothing else at its level is older than the limit, with or without pauses. |
| QueueAges.LimitExactWithoutPause | src/qos/prioritized_packet_queue.cc:427-453 | While the queue has never been paused, exactly the packets older than the limit are dropped. |
| QueueAges.PauseShortensLimit | src/qos/prioritized_packet_queue.cc:427-453 | After a pause of ten seconds a packet one microsecond old is dropped under a limit of one second. |
| QueueAges.SearchOffersNothingOld | src/qos/prioritized_packet_queue.cc:406-425 | When the queue has to look for its next level, every packet it then offers is within its limit at the last update. |
| QueueMedia.PopServesByMedia | src/qos/prioritized_packet_queue.cc:41-60 | What Pop hands out may leave before everything queued: audio first, then retransmissions, those of video last if they are told apart, then video and redundancy, padding at the end. |
| QueueMedia.StepLosesOnly | src/qos/prioritized_packet_queue.cc:66-80 | In every operation a packet leaves only by being handed out, by the removal of its stream, or past the limit of its own medium: none for audio and padding, the video limit for video and redundancy, the limit of its kind for a retransmission. |
| QueueMedia.LeavesOnlyPastLimit | src/qos/prioritized_packet_queue.cc:164-453 | The same over every run from a new queue with these limits. |
| QueueMedia.PushForgetsIdle | src/qos/prioritized_packet_queue.cc:200-214 | Every half second a push forgets exactly the streams that are empty and were made more than half a second ago. |
| PacketQueue.PrioritizedPacketQueue.Push | src/qos/prioritized_packet_queue.cc:164-215 | The method keeps the invariant and computes the specified push. |
| PacketQueue.PrioritizedPacketQueue.Pop | src/qos/prioritized_packet_queue.cc:217-236 | The method keeps the invariant and computes the specified pop; a non-empty queue can always serve. |
| PacketQueue.PrioritizedPacketQueue.RemovePacketsForSsrc | src/qos/prioritized_packet_queue.cc:327-365 | The loop over the levels computes the specified removal and keeps the invariant. |
| PacketQueue.PrioritizedPacketQueue.PurgeOldPacketsAtPriorityLevel | src/qos/prioritized_packet_queue.cc:427-453 | The loop over the round-robin table with removal in place computes the specified purge. |
| PacketQueue.PrioritizedPacketQueue.MaybeUpdateTopPrioLevel | src/qos/prioritized_packet_queue.cc:406-425 | The search over the levels computes the specified update of the top level. |
| PacketQueue.PrioritizedPacketQueue.UpdateAverageQueueTime | src/qos/prioritized_packet_queue.cc:306-320 | Advancing the clock computes the specified sums, paused or not. |
| PacketQueue.PrioritizedPacketQueue.DequeuePacketInternal | src/qos/prioritized_packet_queue.cc:375-404 | Taking a packet out of the books computes the specified state and its un-paused wait. |
| PacketQueue.PrioritizedPacketQueue.SetPauseState | src/qos/prioritized_packet_queue.cc:322-325 | Changing the pause state first advances the clock, and keeps the invariant. |
| PacketQueue.PrioritizedPacketQueue.AverageQueueTime | src/qos/prioritized_packet_queue.cc:299-304 | The average is the walked sum of un-paused waits over the number of packets, cut to a whole number. |
| PacketQueue.PrioritizedPacketQueue.HasKeyframePackets | src/qos/prioritized_packet_queue.cc:367-373 | The counter answers exactly whether any queued packet of the stream is a key-frame packet. |
| PacerBound.PacedIsMedia | src/qos/pacing_controller.cc:624-668 | A packet released while nothing un-paced waits is video, redundancy or padding; otherwise it is audio or a retransmission. |
| PacerBound.WaitingMakesReady | src/qos/pacing_controller.cc:323-395 | Waiting for the next send time and paying for it leaves at most the allowed debt. |
| PacerBound.SendLoopInv | src/qos/pacing_controller.cc:466-544 | The send loop keeps the ledger: debt equals what was sent less what was paid and written off, and paced bytes stay bounded. |
| PacerBound.ProcessInv | src/qos/pacing_controller.cc:397-597 | A whole call keeps it, whatever the clock does. |
| PacerService.UnpacedAreSent | src/qos/pacing_controller.cc:466-544 | After a call outside a pause no audio and no retransmission is queued, and each that was has been sent, unless a retransmission was past its limit; one call sends at most 65536 packets. |
| PacerService.UnpacedNeverWait | src/qos/pacing_controller.cc:397-597 | The same in every state reachable from a new pacer. |
| PacerService.ChargesWhatIsSent | src/qos/pacing_controller.cc:670-693 | A call charges exactly payload and padding of each packet it sends, audio only if it is accounted for, and the keep-alive. |
| PacerService.MediaGoesOutIff | src/qos/pacing_controller.cc:345-395 | With only media queued, outside pause and congestion, a call sends exactly if the debt has drained or drains within the burst interval, and then begins with the next packet of the queue. |
| PacerService.CongestedSendsOnlyUnpaced | src/qos/pacing_controller.cc:650-655 | Under congestion only audio and retransmissions are sent. |
| PacerService.PausedSendsNothing | src/qos/pacing_controller.cc:405-431 | In a pause nothing is sent but the keep-alive: half a second after the last, once there has been a packet. |
| PacerService.PausesEarnNothing | src/qos/pacing_controller.cc:104-134 | No debt is paid for the time of a pause; only leaving congestion pays for the time since the last update. |
| PacerService.RunFlags | src/qos/pacing_controller.cc:104-134 | Over every run the pacer is paused, congested and started as the last events about it say, and its queue is paused with it. |
| PacerService.HeartbeatInTime | src/qos/pacing_controller.cc:323-395 | The next call is asked for no later than the next keep-alive is due, and exactly then in a pause, under congestion with only media waiting, and before the first packet. |
| PacerService.UnpacedTimeIsFirst | src/qos/pacing_controller.cc:728-745 | While something un-paced waits the pacer goes by the enqueue time of the leading audio packet, or else by the earlier of the leading retransmissions, never later than that of the packet it sends next. |
| PacerBound.LeakyBucketBound | src/qos/pacing_controller.cc:296-310 | Over every run paced bytes are at most rate times the advance of the process time, plus the burst allowance (at most 63000 bytes or the residue of draining), one packet, half a byte per budget update that overpays, and what the debt cap wrote off. |
| PacerBound.KeepsRateUnlessOverpaid | src/qos/pacing_controller.cc:684-693 | On every run in which no update overpays, in particular on every run at a rate within 7 bit/s above a multiple of 8 Mbit/s, the bound holds without a term for rounding. |
| PacerRates.KeepsRateIff | src/qos/pacing_controller.cc:397-597 | From a new pacer the bound without a term for rounding holds on all runs exactly at these rates. |
| PacerBound.LeakyBucketBoundUncapped | src/qos/pacing_controller.cc:684-693 | With only paced media whose packets fit under the 500 ms debt cap the write-off term is zero. |
| PacerBound.ChargeWritesOffIff | src/qos/pacing_controller.cc:689-693 | A charge is cut by the debt cap exactly if it would exceed 500 ms worth. |
| PacerRounding.OverpaysIff | src/qos/pacing_controller.cc:684-687 | One update pays more than the elapsed time is worth exactly when rounding to whole bytes rounds up and there is debt to pay it on; these are the updates the bound counts. |
| PacerRounding.FastTicksDoubleTheRate | src/qos/pacing_controller.cc:296-310 | Called every microsecond at 4 Mbit/s while it has nothing to send or waits, a pacer pays a whole byte for each half byte earned. |
| PacerRounding.DoubleRateRun | src/qos/pacing_controller.cc:397-597 | From a new pacer at 4 Mbit/s, whatever its burst interval, there are runs of any length that send paced packets at exactly twice the rate with nothing written off. |
| PacerRounding.BoundNeedsRounding | src/qos/pacing_controller.cc:397-597 | At the default burst interval such a run of n milliseconds exceeds rate times time plus the allowance plus one packet by exactly 500 bytes for each millisecond after the 42nd. |
| Pacing.PacingController.ProcessPackets | src/qos/pacing_controller.cc:397-597 | The loop over the queue object computes the specified run, of which the rows above speak, and keeps the ledger invariant. |
| Pacing.PacingController.GetNextSendTime | src/qos/pacing_controller.cc:323-395 | Reads the specified next send time off the state. |
| Pacing.PacingController.GetPendingPacket | src/qos/pacing_controller.cc:624-668 | Releases a packet exactly when the specification does, and leaves the state alone otherwise. |
| Pacing.PacingController.UpdateTimeAndGetElapsed | src/qos/pacing_controller.cc:296-310 | Elapsed time is never negative and at most two seconds, and the process time moves to the given time but never back. |
| Pacing.PacingController.EnqueuePacket | src/qos/pacing_controller.cc:194-230 | Enqueuing pays for the time since the last call first, and keeps the invariant. |
| Rtcp.Read16Be16 | src/common/byte_io.h:267-296 | Reading back a 16-bit big-endian field at any position. |
| Rtcp.Read32Be32 | src/common/byte_io.h:298-339 | Reading back a 32-bit big-endian field at any position. |
| Rtcp.ParseInvertsHeader | src/rtcp/rtcp_packet/rtcp_common_header.cpp:50-95 | Parsing the common header written for a payload finds format, type, payload and size, whatever follows it. |
| NackPacking.RoundTripSet | src/rtcp/nack.cpp:125-154 | For every list, unpacking its packing gives the same set of numbers (RFC 4585, section 6.2.1). |
| NackPacking.RoundTripList | src/rtcp/nack.cpp:125-154 | For a list in forward order it gives the list itself. |
| NackPacking.RoundTripNeedsOrder | src/rtcp/nack.cpp:125-154 | Out of order it may not. |
| NackPacking.CoversMeans | src/rtcp/nack.cpp:125-154 | An item covers its packet id and the number d after it, up to 16, exactly if bit d-1 of the mask is set (RFC 4585, section 6.2.1). |
| NackPacking.AheadListRoundTrip | src/rtcp/nack.cpp:125-154 | In particular for a list in the order of the number comparator. |
| NackMinimal.RotationWins | src/rtcp/nack.cpp:125-144 | For any set of items covering a forward list within one turn, some rotation of the list that starts at most 16 before its first number packs into no more items. |
| NackMinimal.PackMinimalIff | src/rtcp/nack.cpp:125-144 | The greedy packing of a forward list within one turn is the smallest set of covering items exactly if none of these at most 17 rotations packs into fewer. |
| NackMinimal.PackIsMinimal | src/rtcp/nack.cpp:125-144 | In particular if the list ends more than 16 before its start. |
| NackMinimal.MinimalityNeedsCondition | src/rtcp/nack.cpp:125-144 | A list of two numbers around the wrap is packed into two items where one covers it. |
| NackPacket.SerializeWithinLimit | src/rtcp/nack.cpp:81-114 | Serialisation succeeds exactly if there is nothing to write or one item fits an empty buffer, and every datagram is within the limit. |
| NackPacket.BlockLayout | src/rtcp/nack.cpp:28-114 | A packet is 0x81, 205, the length in words less one, both SSRCs and, per item, packet id and mask in network order. |
| NackPacket.SerializeWrites | src/rtcp/nack.cpp:81-114 | The datagrams together carry, behind what the buffer held, one packet per fragment. |
| NackPacket.FragmentsMakeUp | src/rtcp/nack.cpp:81-114 | The fragments concatenate to the packed list. |
| NackPacket.ReadAllInvertsBlocks | src/rtcp/nack.cpp:52-74 | Reading consecutive packets gives the numbers of all their items. |
| NackPacket.WireRoundTrip | src/rtcp/nack.cpp:52-154 | End to end the receiver of all datagrams reads the same set of numbers, and the same list in forward order. |
| NackPacket.Nack.Create | src/rtcp/nack.cpp:81-114 | The fragmentation loop over a byte buffer computes the specified serialisation. |
| NackPacket.Nack.Parse | src/rtcp/nack.cpp:52-74 | Parsing succeeds exactly from the minimal length on, and reads sender, media source and every whole item. |
| NackPacket.Nack.Pack | src/rtcp/nack.cpp:125-144 | The loop with the bit mask computes the specified packing. |
| NackPacket.Nack.Unpack | src/rtcp/nack.cpp:146-154 | The loop that shifts the bit mask computes the specified unpacking. |
| ReorderingHistogram.CumulativeIsCountBelow | src/qos/histogram.cc:36-45 | A cumulative sum of buckets counts the values below the boundary. |
| ReorderingHistogram.Histogram.Add | src/qos/histogram.cc:23-34 | The circular buffer holds the last values added, clipped to the last bucket, and the buckets count them. |
| ReorderingHistogram.Histogram.InverseCdf | src/qos/histogram.cc:36-45 | The result is the least number of buckets holding the required fraction of the values. |
| NackWindow.EntriesCompareAsCounters | src/qos/nack_requester.cc:59-108 | Present keys compare as their unbounded counters, also across a 16-bit wrap, so the map order is a strict total order. |
| NackWindow.LowerBoundSplits | src/qos/nack_requester.cc:139-143 | For a key within half the space of the window, lower_bound splits the list exactly at its counter. |
| NackWindow.UpperBoundSplits | src/qos/nack_requester.cc:145-147 | Likewise upper_bound. |
| NackWindow.AdvanceStands | src/qos/nack_requester.cc:161-182 | A forward packet without overflow keeps the entries that are not too old and adds exactly the skipped numbers that are not recovered. |
| NackWindow.StepWindowed | src/qos/nack_requester.cc:55-182 | Every operation keeps the window invariant. |
| NackWindow.LossIsExcused | src/qos/nack_requester.cc:59-182 | A number that leaves the list, or is passed over without entering it, has an excuse in that step. |
| NackWindow.NoGapIsForgotten | src/qos/nack_requester.cc:59-182 | Over every run a skipped number not in the list was lost at one event and is out of the list ever since; at that event it was received, recovered, too old, dropped in an overflow that asked for a key frame, requested 100 times, or cleared. |
| NackWindow.ListStaysInWindow | src/qos/nack_requester.cc:59-182 | Over every run the list has at most 1000 keys, strictly increasing, each between newest-10000 and newest-1. |
| NackRequesting.BatchSurvivesPacking | src/qos/nack_requester.cc:184-224 | Over every run each batch requested survives the packing to the wire unchanged, in the fewest possible items. |
| NackRequesting.NackRequester.OnReceivedPacket | src/qos/nack_requester.cc:59-108 | The method computes the specified step with the median reordering so far as the wait of new entries, keeps the window invariant, returns the specified batch, and adds to the histogram how far behind an out-of-order packet came. |
| NackRequesting.NackRequester.AddPacketsToNack | src/qos/nack_requester.cc:161-182 | The insertion loop computes the specified list, or the overflow. |
| NackRequesting.NackRequester.GetNackBatch | src/qos/nack_requester.cc:184-224 | The loop marks and returns exactly the entries that are due. |
| NackTiming.RequestedByTimeIff | src/qos/video_recovery_timing.h:21-34 | ProcessNacks requests a listed packet exactly if no request is under way, it was noticed 10 ms ago, last tried 20 ms ago and last sent the retry delay ago: 1, 1, 2 round trips once measured, else 2, 4, 8. |
| NackTiming.RequestSchedule | src/qos/nack_requester.cc:184-224 | Over every run whose clock does not run backward: a packet never sent is requested from 10 ms after it was noticed on, one sent at t from its retry delay after t on, never within one round trip and at the latest after eight, both 20 ms after the last attempt. |
| NackTiming.RequestedAreMarked | src/qos/nack_requester.cc:184-224 | Exactly the requested entries are marked as under way, and nothing else changes. |
| NackTiming.RequestedByArrivalIff | src/qos/nack_requester.cc:184-224 | An arrival requests a packet exactly if it is still listed, was never sent, has no request under way, was noticed 10 ms and last tried 20 ms ago, and the stream has come as far beyond it as it waits for. |
| NackTiming.NewEntriesWait | src/qos/nack_requester.cc:198-213 | No arrival requests a packet less than 10 ms after it was noticed. |
| NackTiming.AdvanceMakes | src/qos/nack_requester.cc:161-182 | After a forward packet the list is the entries that are not too old, unchanged, and a fresh entry with the given wait for each skipped packet that is not recovered. |
| NackTiming.SentReportMeans | src/qos/nack_requester.cc:110-131 | The report for a batch ends exactly the requests under way in it: a success counts and takes its time, the hundredth removes the entry, a failure takes the time of the attempt alone. |
| NackTiming.RoundTripInRange | src/qos/nack_requester.cc:149-159 | Over every run the round-trip time used is between one millisecond and two seconds. |
| NackTiming.RoundTripFollows | src/qos/nack_requester.cc:68-83 | The round-trip time moves exactly by measurements of 1 to 2000 ms, handed in or taken from a retransmission that answers exactly one successful request: to the first, and by a quarter of the way to each later one. |
| NackTiming.RecoveredAreRemembered | src/qos/nack_requester.cc:91-102 | A packet recovered ahead of the newest is remembered, and exactly those up to 10000 behind it stay. |
| NackRequesting.NackRequester.OnNackBatchSent | src/qos/nack_requester.cc:110-131 | The loop computes retries, delays and removals as specified. |
| NackRequesting.NackRequester.ClearUpToNumber | src/qos/nack_requester.cc:139-143 | Clearing keeps the invariant and removes exactly the entries before the number. |
| InFlight.InFlightIsConserved | src/qos/transport_feedback_adapter.cc:33-394 | Over every run whose removals are clean, outstanding data of each route is the sum of sizes of its history entries sent and above the last acknowledged number. |
| InFlight.BalancedThroughoutIff | src/qos/transport_feedback_adapter.cc:33-394 | On every run in-flight data is conserved at all times exactly if every removal is clean in the sense of the next row. |
| InFlight.RemoveBalancedIff | src/qos/transport_feedback_adapter.cc:144-162 | Removing a packet keeps this exactly if the packet removed is not a sent one at or below the last acknowledged number. |
| InFlight.RemoveBeforeSentBalanced | src/qos/transport_feedback_adapter.h:78-80 | The documented use, on a packet not yet reported sent, always keeps it. |
| InFlight.RollbackOfResentKeyLosesBalance | src/qos/transport_feedback_adapter.cc:144-162 | A run in which rolling back a re-sent key takes its size out of flight twice. |
| FeedbackOnce.AddMappedIff | src/qos/transport_feedback_adapter.cc:86-142 | Adding a packet keeps every key mapping on a live entry of the same key exactly if its number is not taken by another key or its own key is mapped already. |
| FeedbackOnce.OthersMapped | src/qos/transport_feedback_adapter.cc:144-394 | No other operation can break a mapping. |
| TransportNumbers.MappedThroughoutIff | src/qos/transport_feedback_adapter.cc:86-394 | On every run all key mappings are right at all times exactly if every packet is added cleanly in the sense of that condition. |
| TransportNumbers.FreshNumbersStayMapped | src/qos/transport_feedback_adapter.cc:86-394 | If no two packets are added under the same transport number and numbers move by less than half the space, all mappings are right throughout every run. |
| TransportNumbers.FreshNumbersReportOnce | src/qos/transport_feedback_adapter.cc:347-394 | Then no packet is reported received twice. |
| TransportNumbers.ClashCreditsTheWrongPacket | src/qos/transport_feedback_adapter.cc:86-142 | A run in which two packets share a number: the second key is mapped to the entry of the first, and feedback for the second is handed on as the arrival of the first. |
| FeedbackOnce.ReceivedAtMostOncePerInsertion | src/qos/transport_feedback_adapter.cc:347-394 | Over every run a transport number is reported received at most once per insertion. |
| FeedbackOnce.CacheIsExact | src/qos/transport_feedback_adapter.cc:316-345 | At the last prune the cache holds exactly the keys acknowledged in the last 60 s and not re-sent since. |
| FeedbackOnce.RecentlyAcknowledgedIsExact | src/qos/transport_feedback_adapter.cc:316-345 | The same over every run in time order. |
| FeedbackResults.ResultsAreExact | src/qos/transport_feedback_adapter.cc:234-263 | With right mappings a message yields, in its order, exactly one result for each reported packet of the current route that was sent and not reported received before, carrying its entry and the reported flag; and exactly the entries reported received leave the history. |
| FeedbackResults.ResultPerKey | src/qos/transport_feedback_adapter.cc:234-263 | With distinct keys every reported key of a sent packet of the route has its result, received or lost. |
| FeedbackResults.AcknowledgesHighest | src/qos/transport_feedback_adapter.cc:356-366 | A message acknowledges exactly up to the highest number it reports on, received or not. |
| FeedbackResults.PruneDropsOld | src/qos/transport_feedback_adapter.cc:118-130 | Adding a packet drops only entries made more than 60 s ago, from the front, until the front is not. |
| FeedbackResults.SentOnce | src/qos/transport_feedback_adapter.cc:164-203 | A packet is handed on exactly at its first report of sending, with its time and the data then in flight on the current route. |
| FeedbackResults.SendingKeepsUntracked | src/qos/transport_feedback_adapter.cc:164-203 | Data sent outside feedback is attributed to the next tracked packet, once, and none is lost. |
| FeedbackAdapter.TransportFeedbackAdapter.AddPacketToHistory | src/qos/transport_feedback_adapter.cc:86-142 | The method computes the specified insertion with its pruning loops and keeps the in-flight balance. |
| FeedbackAdapter.TransportFeedbackAdapter.RemovePacketFromHistory | src/qos/transport_feedback_adapter.cc:144-162 | Computes the specified removal; the balance is kept if the removal is clean. |
| FeedbackAdapter.TransportFeedbackAdapter.ProcessSentPacket | src/qos/transport_feedback_adapter.cc:164-203 | Computes the specified step for a sent packet and keeps the balance. |
| FeedbackAdapter.TransportFeedbackAdapter.ProcessCongestionControlFeedback | src/qos/transport_feedback_adapter.cc:205-290 | The loop over the reports computes the specified results and state, and keeps the balance. |
| FeedbackAdapter.TransportFeedbackAdapter.RetrievePacketFeedback | src/qos/transport_feedback_adapter.cc:356-394 | Computes the specified result, advances the last acknowledged number and releases in-flight bytes up to it. |
| FeedbackTracker.SortSorts | src/qos/congestion_control_feedback_tracker.cc:69-73 | Sorting orders the batch by number and arrival time and keeps its packets. |
| FeedbackTracker.CongestionControlFeedbackTracker.ReceivedPacket | src/qos/congestion_control_feedback_tracker.cc:26-61 | The batch and the bounded history take the packet in; a duplicate merges to the earliest arrival and any CE mark; a late packet re-opens the range. |
| FeedbackTracker.CongestionControlFeedbackTracker.Remember | src/qos/congestion_control_feedback_tracker.cc:26-61 | A full history of 16384 drops its oldest number and keeps the rest. |
| FeedbackTracker.CongestionControlFeedbackTracker.AddPacketsToFeedback | src/qos/congestion_control_feedback_tracker.cc:63-132 | A batch is one gap-free range up to the newest packet that takes in every packet; a number is reported received exactly if it is in the batch or the history, with the latest of their arrivals; any CE copy gives CE. |
| FeedbackTracker.CongestionControlFeedbackTracker.MergeNumber | src/qos/congestion_control_feedback_tracker.cc:81-129 | The inner loop consumes exactly the copies of one number and never reads past the sorted batch. |
| FeedbackTracker.BatchIsContiguous | src/qos/congestion_control_feedback_tracker.cc:127-128 | Such a batch meets what the feedback packet demands of one stream. |
| FeedbackCodec.DeliveredMeans | src/rtcp/congestion_control_feedback.cpp:82-133 | Over the wire a received packet keeps its ECN mark; an offset below 8190/1024 s shrinks by less than 1/1024 s and one microsecond, a larger one is over range, a negative one unavailable; a lost packet arrives as lost. |
| FeedbackCodec.ReportLayout | src/rtcp/congestion_control_feedback.cpp:82-133 | A report is the received bit, two ECN bits and 13 bits of offset in 1/1024 s, 0x1FFE if over range and 0x1FFF if negative; all zero for a lost packet (RFC 8888, section 3.1). |
| FeedbackCodec.BlockLayout | src/rtcp/congestion_control_feedback.cpp:142-206 | A block is the SSRC, the first number, the count and the reports in network order, padded to four bytes. |
| FeedbackCodec.SinglePrecisionOffset | src/rtcp/congestion_control_feedback.cpp:82-104 | Whatever single precision makes of the product, the offset is off by at most 1/1024 s and three microseconds. |
| FeedbackCodec.PaddingStaysInside | src/rtcp/congestion_control_feedback.cpp:291-310 | By 4-byte alignment the padding skip never passes the end if the reports fit. |
| FeedbackCodec.ReadInvertsRuns | src/rtcp/congestion_control_feedback.cpp:281-311 | Reading written blocks gives the blocks, behind any prefix. |
| FeedbackCodec.RunsInvertRead | src/rtcp/congestion_control_feedback.cpp:281-311 | Writing back what was read gives the payload bytes. |
| FeedbackCodec.AcceptedExactly | src/rtcp/congestion_control_feedback.cpp:265-312 | The payloads that parse are exactly the sequences of whole blocks, the last one with at least one report. |
| FeedbackCodec.GroupMatchesIff | src/rtcp/congestion_control_feedback.cpp:169-206 | For a contiguous stream of any length, bytes written equal bytes counted exactly up to 16384 reports, and exceed them exactly from 65536 reports on where their number cut to 16 bits is at most 16384. |
| FeedbackCodec.BodyMatchesIff | src/rtcp/congestion_control_feedback.cpp:208-263 | For contiguous streams of any length, the bytes Create writes are those BlockLength counts plus the excess of each stream; if no stream overruns they are never more, and equal exactly if no stream has more than 16384 reports. |
| FeedbackCodec.BodyRoundTrip | src/rtcp/congestion_control_feedback.cpp:142-312 | Reading what was written gives the same streams and numbers in order, each delivered as above. |
| FeedbackCodec.GroupsOfBatches | src/qos/congestion_control_feedback_generator.cc:85-101 | Cutting the concatenated batches of different streams by stream gives back the batches. |
| FeedbackPacket.MessageMatchesIff | src/rtcp/congestion_control_feedback.cpp:232-263 | The whole message is no longer than counted exactly if the total excess is not positive, and has the counted length exactly if no stream has more than 16384 reports, given that none overruns. |
| FeedbackPacket.MessageLayout | src/rtcp/congestion_control_feedback.cpp:208-230 | A message is 0x8B, 205, the counted length, the sender, the blocks and the report timestamp. |
| FeedbackPacket.WholeSpaceOverruns | src/rtcp/congestion_control_feedback.cpp:142-206 | One report for each number of the space, without gap or duplicate: 20 bytes are counted and 131092 written. |
| FeedbackPacket.PayloadRoundTrip | src/rtcp/congestion_control_feedback.cpp:142-312 | Parsing the written payload gives sender, timestamp and the delivered packets. |
| FeedbackPacket.MessageRoundTrip | src/rtcp/congestion_control_feedback.cpp:142-312 | The same through the common header, in front of whatever follows, up to the length the field can state. |
| FeedbackPacket.CongestionControlFeedback.BlockLength | src/rtcp/congestion_control_feedback.cpp:232-263 | The one-pass count from first and last numbers computes the specified size. |
| FeedbackPacket.CongestionControlFeedback.Create | src/rtcp/congestion_control_feedback.cpp:142-230 | If the message is no longer than counted: writes exactly the message behind the contents of the buffer, flushing it first if needed; fails exactly if it does not fit an empty buffer; never writes past the limit. |
| FeedbackPacket.CongestionControlFeedback.Parse | src/rtcp/congestion_control_feedback.cpp:265-312 | On every byte payload it terminates, reads only inside, and succeeds exactly if the blocks end where the timestamp begins. |
| FeedbackGenerator.JoinedListIsWellFormed | src/qos/congestion_control_feedback_generator.cc:85-101 | The list joined from all trackers is contiguous per stream, and no longer on the wire than counted if every batch is shorter than the number space. |
| FeedbackGenerator.OverrunByFourPackets | src/qos/congestion_control_feedback_tracker.cc:63-132 | Four packets numbered 0, 30000, 60000 and 4464 make a batch of 70001 reports, whose message is 131072 bytes longer than counted. |
| FeedbackGenerator.CongestionControlFeedbackGenerator.SendFeedback | src/qos/congestion_control_feedback_generator.cc:85-101 | The message cut by stream is the right batch of each tracker that had packets; it is empty exactly if nothing arrived; the next message is 25 to 250 ms away. |
| FeedbackGenerator.CongestionControlFeedbackGenerator.OnReceivedPacket | src/qos/congestion_control_feedback_generator.cc:41-51 | The packet joins what its tracker has to report and no other; a message goes out exactly if one was due before the arrival, and cut by stream it is the right batch of each tracker. |
| FeedbackGenerator.CongestionControlFeedbackGenerator.Process | src/qos/congestion_control_feedback_generator.cc:67-72 | A message goes out exactly if due, is never empty, and cut by stream is the right batch of each tracker that had packets; the returned wait is positive. |
| FeedbackGenerator.CongestionControlFeedbackGenerator.CalculateNextPossibleSendTime | src/qos/congestion_control_feedback_generator.cc:103-116 | The debt decays at the feedback rate and the wait is the drain time, clamped to 25 to 250 ms. |
| Lifecycle.StepInv | src/pc/peer_connection.cpp:540-690 | Every critical section keeps: one fate per generation, one clean-up at most, and the queue accounting. |
| Lifecycle.OneTerminalStatus | src/pc/peer_connection.cpp:540-690 | In every interleaving a generation has at most one terminal callback; none while current or if replaced; exactly one if gone otherwise. |
| Lifecycle.DeliveredIsFinal | src/pc/peer_connection.cpp:549-566 | After its terminal callback a generation is never current, never retired and never reported again. |
| Lifecycle.WorkerLeavesNothing | src/pc/peer_connection.cpp:1230-1272 | In every interleaving each generation is queued at most once, the worker takes them in order, and once it has left nothing is queued and all were cleaned up. |
| Lifecycle.NothingQueuedAfterStop | src/pc/peer_connection.cpp:1274-1283 | After the stop flag is set nothing is queued any more until the worker is started again, also by a retirement under way. |
| PeerConnections.PeerConnection.RetirePeerConnection | src/pc/peer_connection.cpp:593-617 | Retires exactly the current connection of its user while the worker runs, queued before it leaves the map. |
| PeerConnections.PeerConnection.OnTerminalStatus | src/pc/peer_connection.cpp:545-566 | The application is told exactly if this call retired the connection. |
| PeerConnections.PeerConnection.ReplaceOrCreatePeerConnection | src/pc/peer_connection.cpp:627-662 | The new generation takes the place of the old; a failed Init is reported as Failed, once. |
| PeerConnections.PeerConnection.ClearPeerConnections | src/pc/peer_connection.cpp:664-690 | All leave the map at once and each is reported closed. |
| PeerConnections.PeerConnection.RemoveAfterLeave | src/pc/peer_connection.cpp:1296-1320 | The user's connection, if any, leaves and is reported closed. |
| PeerConnections.PeerConnection.WorkerRound | src/pc/peer_connection.cpp:1233-1266 | Clean-up comes before leaving, and leaving needs an empty queue. |
| PeerConnections.PeerConnection.StopIceWorker | src/pc/peer_connection.cpp:1274-1283 | Joining the worker ends with everything queued cleaned up. |
| PeerConnections.PeerConnection.Destroy | src/pc/peer_connection.cpp:513-527 | Afterwards every generation was replaced or has exactly one terminal callback, and every retired one was cleaned up. |
| BandwidthEstimation.FrontIsWindowMin | src/qos/send_side_bandwidth_estimation.cc:467-485 | The front of a deque without outdated entries is the least target of the last 999 ms. |
| BandwidthEstimation.PopFront | src/qos/send_side_bandwidth_estimation.cc:471-475 | Dropping an outdated front loses no recent sample. |
| BandwidthEstimation.PushBack | src/qos/send_side_bandwidth_estimation.cc:479-484 | Dropping undercut targets from the back and adding the new one keeps the window represented. |
| BandwidthEstimation.GrowthBounded | src/qos/send_side_bandwidth_estimation.cc:411-417 | The increased rate is at most 1.08 times any sample of the window plus 1000.5 bit/s. |
| BandwidthEstimation.IncreasedNeverOnEdge | src/qos/send_side_bandwidth_estimation.cc:411-412 | The product by 1.08 is never near a whole number, so double precision gives the exact result. |
| BandwidthEstimation.SendSideBandwidthEstimation.UpdateMinHistory | src/qos/send_side_bandwidth_estimation.cc:467-485 | After the two pop loops and the push the front is the least target sampled in the last 999 ms since the last clear. |
| BandwidthEstimation.SendSideBandwidthEstimation.UpdateEstimate | src/qos/send_side_bandwidth_estimation.cc:350-449 | At a reported loss of at most 5/256 the target is at the upper limit or above 1.08 times the window minimum by 999.5 bit/s, and at most 1000.5 bit/s above 1.08 times any sample; at 26/256 or more it drops by half the loss fraction, once per report and 300 ms and round trip; else it stays or is a limit; in the start phase without loss it jumps to the higher of the limits. |
| BandwidthEstimation.SendSideBandwidthEstimation.UpdatePacketsLost | src/qos/send_side_bandwidth_estimation.cc:281-315 | Reports add up to at least 20 packets; the loss fraction is the floor of lost over expected in 1/256, clipped to a byte. |
| BandwidthEstimation.SendSideBandwidthEstimation.SetSendBitrate | src/qos/send_side_bandwidth_estimation.cc:207-215 | The new target is used directly and the history starts anew. |
| BandwidthEstimation.SendSideBandwidthEstimation.SetMinMaxBitrate | src/qos/send_side_bandwidth_estimation.cc:217-226 | The configured limits, the minimum never below 5 kbit/s. |
| BandwidthEstimation.SendSideBandwidthEstimation.OnRouteChange | src/qos/send_side_bandwidth_estimation.cc:174-195 | Everything starts over but the history of minima. |
| ThroughputWindow.InsertSorts | src/qos/robust_throughput_estimator.cc:65-75 | Insertion keeps the window sorted and adds one packet. |
| ThroughputWindow.PruneIsLongest | src/qos/robust_throughput_estimator.cc:38-49 | Pruning keeps exactly the packets from which on the window is allowed: the longest allowed suffix. |
| ThroughputWindow.WindowWithin | src/qos/robust_throughput_estimator.cc:38-49 | The window has at most 20 packets, or at most 500 within a second, and never spans more than five seconds; one packet more would break that. |
| ThroughputWindow.AmidPrunes | src/qos/robust_throughput_estimator.cc:51-93 | Whatever late packets came in, pruning the window gives the longest allowed suffix of everything received, sorted. |
| ThroughputEstimator.GapSumIs | src/qos/robust_throughput_estimator.cc:99-110 | The duration with the largest gap replaced by the second largest is first to last less their difference, and not negative. |
| ThroughputEstimator.EvenTrafficRate | src/qos/robust_throughput_estimator.cc:152-188 | Even traffic is estimated at exactly size over interval: leaving out one packet and one gap is right. |
| ThroughputEstimator.SendTimesMean | src/qos/robust_throughput_estimator.cc:131-150 | The running minimum and maximum of send times are those of the timely packets. |
| ThroughputEstimator.TimelyMeans | src/qos/robust_throughput_estimator.cc:131-150 | A packet counts toward the send rate exactly if nothing that left the window was sent after it. |
| ThroughputEstimator.ReceiveRateAtLeast | src/qos/robust_throughput_estimator.cc:152-172 | For packets of any sizes spaced by a bottleneck the receive rate is at least that of the bottleneck: the first packet is left out. |
| ThroughputEstimator.SendRateExact | src/qos/robust_throughput_estimator.cc:152-188 | For packets of any sizes paced at a rate the send rate is exactly that: the last packet is left out. |
| ThroughputEstimator.PacedBottleneckRate | src/qos/robust_throughput_estimator.cc:152-188 | A paced sender over a bottleneck of no less than its rate is estimated at exactly its own rate. |
| ThroughputEstimator.RobustThroughputEstimator.IncomingPacketFeedbackVector | src/qos/robust_throughput_estimator.cc:51-93 | After each vector the window is the longest allowed suffix of everything received since the last reset, sorted, and the remembered send time is the latest of the rest. |
| ThroughputEstimator.RobustThroughputEstimator.SwapIn | src/qos/robust_throughput_estimator.cc:65-75 | The swap loop inserts behind every packet that is not later. |
| ThroughputEstimator.RobustThroughputEstimator.Bitrate | src/qos/robust_throughput_estimator.cc:95-189 | No estimate below ten packets; else the receive rate over the gaps with the largest replaced, capped by the send rate. |
| ThroughputEstimator.Estimate | src/qos/robust_throughput_estimator.cc:180-188 | With ten timely packets the estimate never exceeds their send rate. |
| ProbeModel.FurtherProbeGrows | src/qos/probe_controller.cc:277-286 | A measured rate above the threshold leads to a target more than 1.4 times the last, 1.275 times on a relay. |
| ProbeModel.ScaleIsNearest | src/qos/probe_controller.cc:277-286 | A scaled rate is the nearest whole rate. |
| ProbeModel.ChainEnds | src/qos/probe_controller.cc:583-601 | A chain of n further probes below a cap has growth^n times its first target below the cap. |
| ProbeModel.ChainLength | src/qos/probe_controller.cc:583-601 | In whole numbers it has at most as many further probes as there are rates between its first target and the cap. |
| ProbeChain.FurtherProbesChain | src/qos/probe_controller.cc:251-289 | Over any run of estimates under a fixed profile and maximum, the targets of all further probes but the last form a chain from the awaited target that stays below the maximum. |
| ProbeChain.FurtherProbesEnd | src/qos/probe_controller.cc:251-289 | So however many estimates come, their number n is bounded: growth^(n-1) times the awaited target is below the maximum. |
| ProbeChain.CapIsLeast | src/qos/probe_controller.cc:522-560 | The cap on a probe is the least of the maximum, twice the allocation if there is one, and one and a half times the estimate, relayed one and a quarter, while it grows under losses. |
| ProbeControl.ProbeController.InitiateProbing | src/qos/probe_controller.cc:522-602 | No probe is above the cap or the maximum; ids ascend over the whole run; results are awaited exactly if further probing was asked for and no rate reaches the cap. |
| ProbeControl.ProbeController.SetEstimatedBitrate | src/qos/probe_controller.cc:251-289 | A further probe starts exactly if its threshold is passed and the cause does not block it; its target extends the chain of the current path profile by the growth factor, or is the cap and ends it. The step is the one whose runs are bounded above. |
| ProbeControl.ProbeController.InitiateExponentialProbing | src/qos/probe_controller.cc:229-249 | The two first probes, at three and six times the start rate, relayed at two and four times, none above the cap. |
| ProbeControl.ProbeController.Process | src/qos/probe_controller.cc:463-489 | A result is awaited for one second; a periodic probe starts exactly if none is awaited any more, there is an estimate, no cause blocks it, and repeated initial probing is due a second after the last probe or application-limited probing five seconds, relayed eight, after; at three, or two, times the estimate, relayed two or one and a half, none above the cap. |
| ProbeControl.ProbeController.SetBitrates | src/qos/probe_controller.cc:108-144 | Start rate and estimate follow a given start rate, else the minimum stands in for an unset one; probes start exactly from the initial state with network or for a maximum raised above the estimate, unless blocked, none above the maximum. |
| ProbeControl.ProbeController.OnMaxTotalAllocatedBitrate | src/qos/probe_controller.cc:146-193 | Probes start exactly if probing is complete, the application is limited, the allocation is new and the estimate below it and the maximum, and no cause blocks it; on a direct path at the allocation or twice the estimate, and then at twice the estimate if that is more; never above twice the allocation. |
| ProbeControl.ProbeController.RequestProbe | src/qos/probe_controller.cc:354-385 | One probe, at 85% of the rate before the last large drop, exactly if probing is complete, the application is or was just limited, 95% of that target exceeds the estimate, the drop is less than five and the last such probe more than five seconds ago, and no cause blocks it. |
| ProbeControl.ProbeController.OnNetworkAvailability | src/qos/probe_controller.cc:195-212 | Losing the network goes back to the initial state without a chain; the two first probes start exactly on gaining it there with a start rate, unless blocked. |
| IceCandidate.PairsMean | src/ice/ice_utils.h:101-110 | Extension pairs are accepted exactly if every name has a value and all user fragments agree with each other and with a given one. |
| IceCandidate.AcceptedMeans | src/ice/ice_utils.h:79-112 | What is accepted is a completion marker or one normal candidate with eight fields and whole pairs; the fragment reported is admissible again. |
| IceCandidate.ParseIff | src/ice/ice_utils.h:79-112 | Exactly what is accepted and as what: blank text and both completion markers with the given fragment, and one line that starts with candidate:, has eight fields and whole, agreeing pairs, with the fragment it names. |
| IceCandidate.ParseIdempotentIff | src/ice/ice_utils.h:79-112 | Parsing the result again gives the same result exactly if the candidate text without surrounding blanks and "a=" has at most 4094 characters. |
| IceCandidate.LongCandidateNotIdempotent | src/ice/ice_utils.h:79-112 | A candidate of 4095 characters is accepted, and what becomes of it is refused. |
| IceCandidate.TrimTrims | src/ice/ice_utils.h:43-48 | Trimming leaves the stretch between the first and last character that is not blank. |
| IceCandidate.ReadToken | src/ice/ice_utils.h:94-103 | A stream read takes exactly the next field. |
| IceCandidate.ParseIceCandidateSignal | src/ice/ice_utils.h:79-112 | The parser with its stream loops computes the specified result. |

## Left out

- FEC, encryption, SCTP, ICE, WebSocket and JSON calls: foreign code; the media codecs likewise.
- The Kalman filter, trendline, Bayesian and AIMD estimators, and the link capacity tracker: their results depend on floating-point filters.
- Logging, statistics and low-bitrate warnings.
- Clocks, randomness, the network and application callbacks: parameters, and lists of what was sent or told.
- PrioritizedPacketQueue: the per-stream queues are values in a map keyed by SSRC; pointers from the round-robin tables are SSRCs, so aliasing of queue objects is not modelled.
- QueueAges.AgeLimitIff: for the limit a push enforces at its level; levels searched for the next packet drop by the same test at the time of the last update (QueueAges.SearchOffersNothingOld).
- Pacing.PacingController.ProcessPackets: the media rate is constant, the padding rate zero and no probe is active, so FEC fetching, padding generation, probing, key-frame flushing, packet overhead and the raised rate for long queues are not modelled.
- PacerService.UnpacedAreSent: packets handed to the sender are a list in the ledger; one call sends at most 65536.
- Pacing.PacingController.GetNextSendTime: likewise without probes, cluster expiry and padding.
- Pacing.PacingController.GetPendingPacket: likewise without the probing path.
- Pacing.PacingController.EnqueuePacket: likewise without key-frame flushing and the update of the media rate.
- PacerBound.LeakyBucketBound: states half a byte per budget update that overpays where the design speaks of one microsecond in all, because the code rounds; the exact condition is PacerRates.KeepsRateIff.
- Nack requester: the set of recovered numbers is a plain set; nothing is claimed about its order. The ordered map is a sequence.
- NackTiming.RequestedByArrivalIff: for waits of at most 20000 packets, where the comparator still reads as order; the program's wait is at most the ten buckets of the histogram.
- ReorderingHistogram.Histogram.InverseCdf: the fraction is compared exactly, where the code adds single-precision quotients.
- FeedbackAdapter.TransportFeedbackAdapter.ProcessCongestionControlFeedback: arrival times from compact NTP, the ECN-support flag and the final sort of results are not modelled; a network route is a number.
- FeedbackOnce.ReceivedAtMostOncePerInsertion: with transport numbers inserted more than once the bound is their number of insertions, because a re-inserted number is a new packet.
- NackMinimal.PackMinimalIff: for lists in forward order within one turn of the number space, in which the requester's batches always are.
- FeedbackCodec.DeliveredMeans: offsets are scaled exactly, where the code multiplies in single precision; FeedbackCodec.SinglePrecisionOffset bounds the difference.
- FeedbackPacket.CongestionControlFeedback.Create: asks that the message be no longer than counted, because otherwise the code writes past the room it checked for; what it would overwrite is not modelled.
- FeedbackPacket.MessageRoundTrip: up to the 262144 bytes the length field can state.
- Feedback tracker: sorting is an insertion sort standing for the library's; nothing depends on the order of equal packets. The code does not bound a tracker's range, so the generator promises a message no longer than counted only if every batch is shorter than the number space.
- FeedbackGenerator.CongestionControlFeedbackGenerator.SendFeedback: the NTP timestamp is not computed and the message is returned instead of handed on; time does not run backwards, and `Process` is called with the time the clock reads.
- Peer connection: non-terminal status callbacks are not modelled, as the code checks and calls back in separate steps; messages of the worker are only their effect on the map; signalling and joining are left out. Shared ownership is not modelled: clean-up is the order in which the worker takes connections. The application's status callback is set.
- BandwidthEstimation.SendSideBandwidthEstimation.UpdateEstimate: the round-trip back-off is disabled in the code and left out, as are link capacity and the unused field trial switches. Loss thresholds of 2% and 10% are exact fractions.
- RobustThroughputEstimator: the default settings, with unacknowledged data of weight one, are constants.
- ProbeController: probes driven by a network state estimate, the skip by a fraction of the maximum and the abort switch are disabled by the configuration and left out; durations of probe clusters are not modelled. Scale factors are exact fractions.
- ProbeChain.FurtherProbesEnd: holds under one path profile and maximum; a change of path starts a new chain.
- ICE utilities: HasIceAttribute, GetIceUsername and the STUN endpoint printer are easy members.
- The generic little-endian and odd-width readers of byte_io.h are not used by the packets modelled.
