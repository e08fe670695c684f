/**
 CongestionControlFeedbackGenerator: one tracker per stream, one feedback message for all
 of them, and the pacing of messages to 5% of the bandwidth between 25 and 250 ms.
 */
module FeedbackGenerator {
  import opened Options
  import opened SeqNum
  import opened Rtcp
  import opened Units
  import opened FeedbackTracker
  import FeedbackPacket
  import Codec = FeedbackCodec

  const MIN_TIME_BETWEEN_FEEDBACK := 25_000
  const MAX_TIME_TO_WAIT_FOR_MARKER := 25_000
  const MAX_TIME_BETWEEN_FEEDBACK := 250_000

  // ---------------------------------------------------------------------------
  // Joining the batches

  /** The batches that are not empty, in order. */
  function Filled(batches: seq<seq<FeedbackInfo>>): (r: seq<seq<FeedbackInfo>>)
    ensures forall i :: 0 <= i < |r| ==> r[i] != []
  {
    if batches == [] then []
    else (if batches[0] == [] then [] else [batches[0]]) + Filled(batches[1..])
  }

  /** Batch i, if any, reports one stream contiguously, that of tracker i. */
  predicate BatchesOf(batches: seq<seq<FeedbackInfo>>, ssrcs: seq<U32>) {
    |batches| == |ssrcs| &&
    forall i :: 0 <= i < |batches| && batches[i] != [] ==>
      Codec.Contiguous(batches[i]) && batches[i][0].ssrc == ssrcs[i]
  }

  predicate Ascending(ssrcs: seq<U32>) {
    forall i, j :: 0 <= i < j < |ssrcs| ==> ssrcs[i] < ssrcs[j]
  }

  lemma TailAscends(ssrcs: seq<U32>)
    requires Ascending(ssrcs) && ssrcs != []
    ensures Ascending(ssrcs[1..]) && forall s :: s in ssrcs[1..] ==> ssrcs[0] < s
  {
  }

  lemma {:induction false} FilledIsOnePerStream(batches: seq<seq<FeedbackInfo>>, ssrcs: seq<U32>)
    requires BatchesOf(batches, ssrcs) && Ascending(ssrcs)
    ensures Codec.AllContiguous(Filled(batches)) && Codec.OnePerStream(Filled(batches))
    ensures forall i :: 0 <= i < |Filled(batches)| ==> Filled(batches)[i][0].ssrc in ssrcs
    ensures Codec.Concat(Filled(batches)) == Codec.Concat(batches)
  {
    hide Codec.Contiguous, Ascending;
    if batches != [] {
      TailAscends(ssrcs);
      FilledIsOnePerStream(batches[1..], ssrcs[1..]);
      var rest := Filled(batches[1..]);
      if batches[0] == [] {
        assert Filled(batches) == rest;
        assert Codec.Concat(batches) == Codec.Concat(batches[1..]);
      } else {
        assert ([batches[0]] + rest)[1..] == rest;
        forall i | 0 <= i < |rest|
          ensures rest[i][0].ssrc != batches[0][0].ssrc
        {
          assert rest[i][0].ssrc in ssrcs[1..];
        }
      }
    }
  }

  /** Cut by stream, the joined list falls into the batches again: it is what the constructor
      of the feedback packet demands. */
  lemma JoinedListIsWellFormed(batches: seq<seq<FeedbackInfo>>, ssrcs: seq<U32>)
    requires BatchesOf(batches, ssrcs) && Ascending(ssrcs)
    ensures Codec.Groups(Codec.Concat(batches)) == Filled(batches)
    ensures Codec.AllContiguous(Codec.Groups(Codec.Concat(batches)))
    ensures (forall i :: 0 <= i < |batches| ==> |batches[i]| < MODULUS) ==>
              Codec.TotalExcess(Codec.Groups(Codec.Concat(batches))) <= 0
  {
    hide Codec.Contiguous, Codec.Groups, Codec.Concat, Codec.TotalExcess;
    FilledIsOnePerStream(batches, ssrcs);
    Codec.GroupsOfBatches(Filled(batches));
    if forall i :: 0 <= i < |batches| ==> |batches[i]| < MODULUS {
      ShortBatchesFit(batches);
    }
  }

  /** Batches shorter than the number space never overrun the count. */
  lemma {:induction false} ShortBatchesFit(batches: seq<seq<FeedbackInfo>>)
    requires forall i :: 0 <= i < |batches| ==> |batches[i]| < MODULUS
    ensures Codec.TotalExcess(Filled(batches)) <= 0
  {
    hide Codec.Excess;
    if batches != [] {
      ShortBatchesFit(batches[1..]);
      if batches[0] == [] {
        assert Filled(batches) == Filled(batches[1..]);
      } else {
        Codec.ExcessSign(|batches[0]|);
        assert ([batches[0]] + Filled(batches[1..]))[1..] == Filled(batches[1..]);
      }
    }
  }

  lemma ConcatAppend(batches: seq<seq<FeedbackInfo>>, batch: seq<FeedbackInfo>)
    ensures Codec.Concat(batches + [batch]) == Codec.Concat(batches) + batch
  {
    if batches == [] {
      assert batches + [batch] == [batch];
    } else {
      assert (batches + [batch])[1..] == batches[1..] + [batch];
      ConcatAppend(batches[1..], batch);
      assert batches[0] + (Codec.Concat(batches[1..]) + batch) == batches[0] + Codec.Concat(batches[1..]) + batch;
    }
  }

  // ---------------------------------------------------------------------------
  // The generator

  /** A snapshot of what a tracker has to report. */
  datatype Pending = Pending(ssrc: U32, start: Option<int>, history: map<int, PacketInfo>, packets: seq<PacketInfo>)

  ghost function PendingOf(t: CongestionControlFeedbackTracker): Pending
    reads t
  {
    Pending(t.ssrc, if t.packets == [] then None else Some(t.RangeStart()), t.history, t.packets)
  }

  /** The packet is the latest of those pending; `before` are the others. */
  ghost predicate Joins(p: Pending, before: seq<PacketInfo>, sequenceNumber: Seq16, arrivalTime: int, ecn: Ecn) {
    p.start.Some? && |p.packets| == |before| + 1 && p.packets[..|before|] == before &&
    Wrap(p.packets[|before|].sequenceNumber) == sequenceNumber &&
    p.packets[|before|].arrivalTime == arrivalTime && p.packets[|before|].ecn == ecn
  }

  /** The batches answer what was pending, and the message is made of them. */
  ghost predicate Reports(sent: seq<FeedbackInfo>, batches: seq<seq<FeedbackInfo>>, pending: seq<Pending>, now: int) {
    |batches| == |pending| && (forall i :: 0 <= i < |pending| ==> Answers(batches[i], pending[i], now)) &&
    sent == Codec.Concat(batches) && Codec.Groups(sent) == Filled(batches) && Codec.AllContiguous(Codec.Groups(sent))
  }

  /** What the generator needs of `ReceivedPacket`: the packet joins the batch. */
  method Receive(t: CongestionControlFeedbackTracker, sequenceNumber: Seq16, arrivalTime: int, ecn: Ecn)
    requires t.Valid()
    modifies t
    ensures t.Valid()
    ensures var (next, n) := Unwrap(old(t.unwrapper), sequenceNumber);
            t.unwrapper == next && t.packets == old(t.packets) + [PacketInfo(n, arrivalTime, ecn)]
    ensures Joins(PendingOf(t), old(t.packets), sequenceNumber, arrivalTime, ecn)
    ensures old(t.lastSequenceNumberInFeedback).None? ==> t.lastSequenceNumberInFeedback.None?
  {
    hide CongestionControlFeedbackTracker.Valid, Unwrap;
    ValidUnwraps(t, sequenceNumber);
    t.ReceivedPacket(sequenceNumber, arrivalTime, ecn);
  }

  lemma JoinsPending(t: CongestionControlFeedbackTracker, before: seq<PacketInfo>, sequenceNumber: Seq16,
                     arrivalTime: int, ecn: Ecn)
    requires Joins(PendingOf(t), before, sequenceNumber, arrivalTime, ecn)
    ensures t.packets != []
  {
  }

  lemma ValidUnwraps(t: CongestionControlFeedbackTracker, sequenceNumber: Seq16)
    requires t.Valid()
    ensures Wrap(Unwrap(t.unwrapper, sequenceNumber).1) == sequenceNumber
  {
    hide Unwrap;
    UnwrapIsNearest(t.unwrapper, sequenceNumber);
  }

  /** A batch answers what was pending: nothing for nothing, else the right batch. */
  ghost predicate Answers(batch: seq<FeedbackInfo>, p: Pending, now: int) {
    if p.start.None? then batch == [] else RightBatch(batch, p.ssrc, p.start.value, now, p.history, p.packets)
  }

  class CongestionControlFeedbackGenerator {
    /** The trackers in the order of their SSRC. */
    var trackers: seq<CongestionControlFeedbackTracker>
    var maxFeedbackRate: nat
    var packetOverhead: nat
    var sendRateDebt: nat
    var lastFeedbackSentTime: int
    var nextPossibleFeedbackSendTime: int
    var firstArrivalTimeSinceFeedback: Option<int>
    var markerBitSeen: bool

    ghost predicate Valid()
      reads this, trackers
    {
      TrackersApart() && (forall t :: t in trackers ==> t.Valid()) &&
      (firstArrivalTimeSinceFeedback.Some? <==> exists t :: t in trackers && t.packets != [])
    }

    ghost predicate TrackersApart()
      reads this
    {
      InSsrcOrder(trackers)
    }

    ghost function PendingAt(i: nat): Pending
      requires i < |trackers|
      reads this, trackers
    {
      PendingOf(trackers[i])
    }

    ghost function AllPending(): (r: seq<Pending>)
      reads this, trackers
      ensures |r| == |trackers| && forall i :: 0 <= i < |r| ==> r[i] == PendingAt(i)
    {
      seq(|trackers|, i requires 0 <= i < |trackers| reads this, trackers => PendingAt(i))
    }

    constructor ()
      ensures Valid() && trackers == [] && maxFeedbackRate == 1_000_000 && sendRateDebt == 0
      ensures nextPossibleFeedbackSendTime == 0 && lastFeedbackSentTime == 0
    {
      trackers, maxFeedbackRate, packetOverhead, sendRateDebt := [], 1_000_000, 0, 0;
      lastFeedbackSentTime, nextPossibleFeedbackSendTime := 0, 0;
      firstArrivalTimeSinceFeedback, markerBitSeen := None, false;
    }

    /** Never before the time the pacing allows; without a marker not before 25 ms after the
        first packet; without any packet not before 25 ms from the clock. */
    function NextFeedbackTime(clock: int): (t: int)
      reads this
      ensures t >= nextPossibleFeedbackSendTime
      ensures firstArrivalTimeSinceFeedback.None? ==> t > clock
    {
      if firstArrivalTimeSinceFeedback.None? then
        Max(clock + MIN_TIME_BETWEEN_FEEDBACK, nextPossibleFeedbackSendTime)
      else if !markerBitSeen then
        Max(nextPossibleFeedbackSendTime, firstArrivalTimeSinceFeedback.value + MAX_TIME_TO_WAIT_FOR_MARKER)
      else nextPossibleFeedbackSendTime
    }

    /** Ask every tracker for its batch. */
    method CollectBatches(now: int) returns (batches: seq<seq<FeedbackInfo>>, joined: seq<FeedbackInfo>)
      requires TrackersApart() && forall t :: t in trackers ==> t.Valid()
      modifies trackers
      ensures joined == Codec.Concat(batches) && |batches| == |trackers|
      ensures forall i :: 0 <= i < |trackers| ==> Answers(batches[i], old(PendingAt(i)), now)
      ensures forall i :: 0 <= i < |trackers| ==> trackers[i].Valid() && trackers[i].packets == []
    {
      hide Answers, RightBatch, CongestionControlFeedbackTracker.Valid, CongestionControlFeedbackTracker.RangeStart;
      batches, joined := [], [];
      var i := 0;
      while i < |trackers|
        invariant 0 <= i <= |trackers| && |batches| == i && joined == Codec.Concat(batches)
        invariant forall k :: 0 <= k < i ==> Answers(batches[k], old(PendingAt(k)), now)
        invariant forall k :: 0 <= k < i ==> trackers[k].Valid() && trackers[k].packets == []
        invariant forall k :: i <= k < |trackers| ==> unchanged(trackers[k])
      {
        var batch := trackers[i].AddPacketsToFeedback(now);
        BatchAnswers(batch, old(PendingAt(i)), now);
        ConcatAppend(batches, batch);
        batches, joined := batches + [batch], joined + batch;
        i := i + 1;
      }
    }

    /** The batches, joined. */
    method JoinBatches(now: int) returns (joined: seq<FeedbackInfo>, ghost batches: seq<seq<FeedbackInfo>>)
      requires TrackersApart() && forall t :: t in trackers ==> t.Valid()
      modifies trackers
      ensures Reports(joined, batches, old(AllPending()), now)
      ensures (forall i :: 0 <= i < |batches| ==> |batches[i]| < MODULUS) ==>
                Codec.TotalExcess(Codec.Groups(joined)) <= 0
      ensures joined != [] <==> old(exists i :: 0 <= i < |trackers| && trackers[i].packets != [])
      ensures forall t :: t in trackers ==> t.Valid() && t.packets == []
    {
      hide Answers, Codec.Groups, Codec.Concat, Codec.AllContiguous, Filled;
      ghost var pending := AllPending();
      ghost var ts, count := trackers, |trackers|;
      ghost var ssrcs := seq(count, i requires 0 <= i < count => ts[i].ssrc);
      assert (exists i :: 0 <= i < count && pending[i].start.Some?) <==>
             (exists i :: 0 <= i < count && trackers[i].packets != []) by {
        if i :| 0 <= i < count && trackers[i].packets != [] {
          assert pending[i].start.Some?;
        }
      }
      var all;
      all, joined := CollectBatches(now);
      batches := all;
      AnswersAreBatches(batches, pending, ssrcs, now);
      JoinedListIsWellFormed(batches, ssrcs);
      NothingOnlyFromNothing(batches, pending, now);
    }

    /** One message for all streams. Cut by stream it is the batches of the trackers that had
        anything to report; and the next message is 25 to 250 ms away. */
    method SendFeedback(now: int) returns (sent: seq<FeedbackInfo>, ghost batches: seq<seq<FeedbackInfo>>)
      requires Valid() && now >= lastFeedbackSentTime
      modifies this, trackers
      ensures Valid() && trackers == old(trackers)
      ensures Reports(sent, batches, old(AllPending()), now)
      ensures (forall i :: 0 <= i < |batches| ==> |batches[i]| < MODULUS) ==>
                Codec.TotalExcess(Codec.Groups(sent)) <= 0
      ensures sent != [] <==> old(firstArrivalTimeSinceFeedback).Some?
      ensures firstArrivalTimeSinceFeedback == None && !markerBitSeen && lastFeedbackSentTime == now
      ensures now + MIN_TIME_BETWEEN_FEEDBACK <= nextPossibleFeedbackSendTime <= now + MAX_TIME_BETWEEN_FEEDBACK
    {
      hide Answers, Codec.Groups, Codec.Concat, Codec.AllContiguous, Filled;
      sent, batches := JoinBatches(now);
      markerBitSeen, firstArrivalTimeSinceFeedback := false, None;
      var message := new FeedbackPacket.CongestionControlFeedback(sent, 0);
      var size := message.BlockLength();
      CalculateNextPossibleSendTime(size, now);
    }

    /** The debt of past messages decays at the feedback rate. */
    method CalculateNextPossibleSendTime(feedbackSize: nat, now: int)
      requires now >= lastFeedbackSentTime
      modifies this`sendRateDebt, this`lastFeedbackSentTime, this`nextPossibleFeedbackSendTime
      ensures sendRateDebt ==
              Max(0, old(sendRateDebt) - BytesAt(maxFeedbackRate, now - old(lastFeedbackSentTime))) +
              feedbackSize + packetOverhead
      ensures lastFeedbackSentTime == now
      ensures now + MIN_TIME_BETWEEN_FEEDBACK <= nextPossibleFeedbackSendTime <= now + MAX_TIME_BETWEEN_FEEDBACK
      ensures maxFeedbackRate == 0 ==> nextPossibleFeedbackSendTime == now + MAX_TIME_BETWEEN_FEEDBACK
      ensures maxFeedbackRate > 0 ==>
                var wait := nextPossibleFeedbackSendTime - now;
                wait == DrainTime(sendRateDebt, maxFeedbackRate) ||
                (wait == MIN_TIME_BETWEEN_FEEDBACK && DrainTime(sendRateDebt, maxFeedbackRate) < wait) ||
                (wait == MAX_TIME_BETWEEN_FEEDBACK && DrainTime(sendRateDebt, maxFeedbackRate) > wait)
    {
      var debtPayed := BytesAt(maxFeedbackRate, now - lastFeedbackSentTime);
      sendRateDebt := if debtPayed > sendRateDebt then 0 else sendRateDebt - debtPayed;
      sendRateDebt := sendRateDebt + feedbackSize + packetOverhead;
      lastFeedbackSentTime := now;
      if maxFeedbackRate == 0 {
        nextPossibleFeedbackSendTime := now + MAX_TIME_BETWEEN_FEEDBACK;
      } else {
        var drain := DrainTime(sendRateDebt, maxFeedbackRate);
        nextPossibleFeedbackSendTime := now + Max(MIN_TIME_BETWEEN_FEEDBACK, Min(drain, MAX_TIME_BETWEEN_FEEDBACK));
      }
    }

    /** `feedback_trackers_[ssrc]`: the tracker of a stream, made on first use. */
    method TrackerFor(ssrc: U32) returns (t: CongestionControlFeedbackTracker)
      requires TrackersApart()
      modifies this`trackers
      ensures TrackersApart() && t in trackers && t.ssrc == ssrc
      ensures t in old(trackers) || (fresh(t) && t.Valid() && t.packets == [])
      ensures forall u :: u in trackers <==> u == t || u in old(trackers)
      ensures t in old(trackers) ==> trackers == old(trackers)
    {
      hide CongestionControlFeedbackTracker.Valid;
      var i := 0;
      while i < |trackers| && trackers[i].ssrc < ssrc
        invariant 0 <= i <= |trackers|
        invariant forall j :: 0 <= j < i ==> trackers[j].ssrc < ssrc
        decreases |trackers| - i
      {
        i := i + 1;
      }
      if i < |trackers| && trackers[i].ssrc == ssrc {
        t := trackers[i];
      } else {
        t := new CongestionControlFeedbackTracker(ssrc);
        InsertedApart(trackers, i, t);
        trackers := trackers[..i] + [t] + trackers[i..];
      }
    }

    /** The packet is tracked, and a message goes out if one was due before it arrived. It
        reports what was pending before and, for the packet's stream, the packet as well. */
    method OnReceivedPacket(ssrc: U32, sequenceNumber: Seq16, arrivalTime: int, ecn: Ecn, marker: bool, clock: int)
      returns (sent: Option<seq<FeedbackInfo>>, ghost tracker: CongestionControlFeedbackTracker,
               ghost pending: seq<Pending>, ghost batches: seq<seq<FeedbackInfo>>)
      requires Valid() && clock >= lastFeedbackSentTime
      modifies this, trackers
      ensures Valid() && tracker in trackers && tracker.ssrc == ssrc && (tracker in old(trackers) || fresh(tracker))
      ensures |pending| == |trackers|
      ensures forall i :: 0 <= i < |trackers| && trackers[i] == tracker ==>
                Joins(pending[i], if tracker in old(trackers) then old(tracker.packets) else [], sequenceNumber,
                      arrivalTime, ecn)
      ensures forall i :: 0 <= i < |trackers| && trackers[i] != tracker ==>
                var t := trackers[i]; t in old(trackers) && pending[i] == old(PendingOf(t))
      ensures sent.Some? <==>
              old(nextPossibleFeedbackSendTime) < arrivalTime &&
              (marker || old(markerBitSeen) ||
               (old(firstArrivalTimeSinceFeedback).Some? &&
                old(firstArrivalTimeSinceFeedback).value + 25_000 < arrivalTime))
      ensures sent.Some? ==> sent.value != [] && Reports(sent.value, batches, pending, clock) &&
                             nextPossibleFeedbackSendTime >= clock + MIN_TIME_BETWEEN_FEEDBACK
      ensures sent.None? ==> firstArrivalTimeSinceFeedback.Some? && pending == AllPending()
    {
      hide Reports, Joins, PendingOf, Filled, CongestionControlFeedbackTracker.Valid;
      sent, batches := None, [];
      tracker := Track(ssrc, sequenceNumber, arrivalTime, ecn, marker);
      pending := AllPending();
      assert forall i :: 0 <= i < |trackers| ==> trackers[i] in old(trackers) || fresh(trackers[i]);
      if NextFeedbackTime(clock) < arrivalTime {
        var list;
        list, batches := SendFeedback(clock);
        sent := Some(list);
      }
    }

    /** Take the packet in. */
    method Track(ssrc: U32, sequenceNumber: Seq16, arrivalTime: int, ecn: Ecn, marker: bool)
      returns (ghost tracker: CongestionControlFeedbackTracker)
      requires Valid()
      modifies this`trackers, this`markerBitSeen, this`firstArrivalTimeSinceFeedback, trackers
      ensures Valid() && tracker in trackers && tracker.ssrc == ssrc && (tracker in old(trackers) || fresh(tracker))
      ensures forall t :: t in trackers ==> t in old(trackers) || fresh(t)
      ensures Joins(PendingOf(tracker), if tracker in old(trackers) then old(tracker.packets) else [], sequenceNumber,
                    arrivalTime, ecn)
      ensures forall t :: t in trackers && t != tracker ==> t in old(trackers) && PendingOf(t) == old(PendingOf(t))
      ensures markerBitSeen == (old(markerBitSeen) || marker)
      ensures firstArrivalTimeSinceFeedback ==
              if old(firstArrivalTimeSinceFeedback).None? then Some(arrivalTime) else old(firstArrivalTimeSinceFeedback)
    {
      hide Joins, CongestionControlFeedbackTracker.Valid;
      markerBitSeen := markerBitSeen || marker;
      if firstArrivalTimeSinceFeedback.None? {
        firstArrivalTimeSinceFeedback := Some(arrivalTime);
      }
      tracker := Admit(ssrc, sequenceNumber, arrivalTime, ecn);
      JoinsPending(tracker, if tracker in old(trackers) then old(tracker.packets) else [], sequenceNumber,
                   arrivalTime, ecn);
    }

    /** The packet joins the batch of its stream's tracker; the others stay as they are. */
    method Admit(ssrc: U32, sequenceNumber: Seq16, arrivalTime: int, ecn: Ecn)
      returns (tracker: CongestionControlFeedbackTracker)
      requires TrackersApart() && forall t :: t in trackers ==> t.Valid()
      modifies this`trackers, trackers
      ensures TrackersApart() && forall t :: t in trackers ==> t.Valid()
      ensures tracker in trackers && tracker.ssrc == ssrc && (tracker in old(trackers) || fresh(tracker))
      ensures Joins(PendingOf(tracker), if tracker in old(trackers) then old(tracker.packets) else [], sequenceNumber,
                    arrivalTime, ecn)
      ensures forall t :: t in trackers && t != tracker ==> t in old(trackers) && PendingOf(t) == old(PendingOf(t))
    {
      hide Joins, InSsrcOrder, Unwrap, CongestionControlFeedbackTracker.Valid;
      tracker := TrackerFor(ssrc);
      Receive(tracker, sequenceNumber, arrivalTime, ecn);
    }

    /** A message is due only after the time the previous one allowed, and never without a
        packet to report. */
    method Process(now: int)
      returns (wait: int, sent: Option<seq<FeedbackInfo>>, ghost batches: seq<seq<FeedbackInfo>>)
      requires Valid() && now >= lastFeedbackSentTime
      modifies this, trackers
      ensures Valid() && trackers == old(trackers)
      ensures sent.Some? <==> old(NextFeedbackTime(now)) <= now
      ensures sent.Some? ==> sent.value != [] && Reports(sent.value, batches, old(AllPending()), now) &&
                             now >= old(nextPossibleFeedbackSendTime) &&
                             nextPossibleFeedbackSendTime >= now + MIN_TIME_BETWEEN_FEEDBACK
      ensures sent.Some? <==>
                old(firstArrivalTimeSinceFeedback.Some? && nextPossibleFeedbackSendTime <= now &&
                    (markerBitSeen || firstArrivalTimeSinceFeedback.value + 25_000 <= now))
      ensures wait == NextFeedbackTime(now) - now && wait > 0
      ensures firstArrivalTimeSinceFeedback.None? ==> wait == Max(25_000, nextPossibleFeedbackSendTime - now)
      ensures firstArrivalTimeSinceFeedback.Some? ==>
                wait == Max(nextPossibleFeedbackSendTime - now,
                            if markerBitSeen then nextPossibleFeedbackSendTime - now
                            else firstArrivalTimeSinceFeedback.value + 25_000 - now)
    {
      hide Codec.AllContiguous, Codec.Groups, Answers, Filled;
      sent, batches := None, [];
      if NextFeedbackTime(now) <= now {
        var list;
        list, batches := SendFeedback(now);
        sent := Some(list);
      }
      wait := NextFeedbackTime(now) - now;
    }
  }

  predicate InSsrcOrder(trackers: seq<CongestionControlFeedbackTracker>) {
    forall i, j :: 0 <= i < j < |trackers| ==> trackers[i].ssrc < trackers[j].ssrc
  }

  lemma InsertedApart(trackers: seq<CongestionControlFeedbackTracker>, i: nat, t: CongestionControlFeedbackTracker)
    requires InSsrcOrder(trackers) && i <= |trackers|
    requires forall j :: 0 <= j < i ==> trackers[j].ssrc < t.ssrc
    requires i < |trackers| ==> t.ssrc < trackers[i].ssrc
    ensures InSsrcOrder(trackers[..i] + [t] + trackers[i..])
    ensures forall u :: u in trackers[..i] + [t] + trackers[i..] <==> u == t || u in trackers
  {
    assert trackers == trackers[..i] + trackers[i..];
  }

  /** Four packets of one stream in one batch, numbered 0, 30000, 60000 and then 4464, which
      unwraps to 70000. The batch reports all 70001 numbers, and the message written for it is
      131072 bytes longer than counted. */
  method OverrunByFourPackets(ssrc: U32, now: int, sender: U32, timestamp: U32) returns (batch: seq<FeedbackInfo>)
    ensures |batch| == 70001 && Codec.Contiguous(batch) && Codec.Overruns(batch)
    ensures FeedbackPacket.WellFormed(batch)
    ensures |FeedbackPacket.Message(sender, batch, timestamp)| == FeedbackPacket.BlockSize(batch) + 131072
  {
    hide RightEntry, Codec.GroupSize, FeedbackPacket.Message, FeedbackPacket.BlockSize, FeedbackPacket.WellFormed;
    var tracker := FourPackets(ssrc, now);
    ghost var start, history, packets := tracker.RangeStart(), tracker.history, tracker.packets;
    FourNumbers(packets);
    batch := tracker.AddPacketsToFeedback(now);
    BatchIsContiguous(batch, ssrc, start, now, history, packets);
    FeedbackPacket.OneStream(sender, batch, timestamp);
  }

  method FourPackets(ssrc: U32, now: int) returns (tracker: CongestionControlFeedbackTracker)
    ensures fresh(tracker) && tracker.Valid() && tracker.ssrc == ssrc && tracker.lastSequenceNumberInFeedback == None
    ensures |tracker.packets| == 4 && tracker.packets[0].sequenceNumber == 0
    ensures tracker.packets[1].sequenceNumber == 30000 && tracker.packets[2].sequenceNumber == 60000
    ensures tracker.packets[3].sequenceNumber == 70000
  {
    hide CongestionControlFeedbackTracker.Valid, Unwrap;
    FourUnwrapped();
    tracker := new CongestionControlFeedbackTracker(ssrc);
    Receive(tracker, 0, now, Codec.NotEct);
    Receive(tracker, 30000, now, Codec.NotEct);
    Receive(tracker, 60000, now, Codec.NotEct);
    Receive(tracker, 4464, now, Codec.NotEct);
  }

  lemma FourUnwrapped()
    ensures Unwrap(Fresh, 0) == (Started(0, 0), 0)
    ensures Unwrap(Started(0, 0), 30000) == (Started(30000, 30000), 30000)
    ensures Unwrap(Started(30000, 30000), 60000) == (Started(60000, 60000), 60000)
    ensures Unwrap(Started(60000, 60000), 4464).1 == 70000
  {
  }

  lemma FourNumbers(packets: seq<PacketInfo>)
    requires |packets| == 4 && packets[0].sequenceNumber == 0 && packets[1].sequenceNumber == 30000
    requires packets[2].sequenceNumber == 60000 && packets[3].sequenceNumber == 70000
    ensures Sort(packets)[0].sequenceNumber in {0, 30000, 60000, 70000}
    ensures packets[0] in packets && packets[3] in packets
  {
    SortSorts(packets);
    assert Sort(packets)[0] in packets;
  }

  lemma BatchAnswers(batch: seq<FeedbackInfo>, p: Pending, now: int)
    requires p.start.None? ==> batch == []
    requires p.start.Some? ==> RightBatch(batch, p.ssrc, p.start.value, now, p.history, p.packets)
    ensures Answers(batch, p, now)
  {
  }

  lemma AnswersAreBatches(batches: seq<seq<FeedbackInfo>>, pending: seq<Pending>, ssrcs: seq<U32>, now: int)
    requires |batches| == |pending| == |ssrcs| && forall i :: 0 <= i < |pending| ==> pending[i].ssrc == ssrcs[i]
    requires forall i :: 0 <= i < |batches| ==> Answers(batches[i], pending[i], now)
    ensures BatchesOf(batches, ssrcs)
  {
    hide RightBatch;
    forall i | 0 <= i < |batches| && batches[i] != []
      ensures Codec.Contiguous(batches[i]) && batches[i][0].ssrc == ssrcs[i]
    {
      var p := pending[i];
      assert Answers(batches[i], p, now);
      BatchIsContiguous(batches[i], p.ssrc, p.start.value, now, p.history, p.packets);
    }
  }

  lemma {:induction false} NothingOnlyFromNothing(batches: seq<seq<FeedbackInfo>>, pending: seq<Pending>, now: int)
    requires |batches| == |pending| && forall i :: 0 <= i < |batches| ==> Answers(batches[i], pending[i], now)
    ensures Codec.Concat(batches) != [] <==> exists i :: 0 <= i < |pending| && pending[i].start.Some?
  {
    if batches != [] {
      NothingOnlyFromNothing(batches[1..], pending[1..], now);
      assert batches[0] != [] <==> pending[0].start.Some?;
      if i :| 0 <= i < |pending| && pending[i].start.Some? && i > 0 {
        assert pending[1..][i - 1].start.Some?;
      }
    }
  }
}
