/**
 SendSideBandwidthEstimation: the loss-based target rate and the sliding minimum it grows
 from. Times in microseconds, rates in bits per second; None is an infinite limit or a time
 that has not come.
 */
module BandwidthEstimation {
  import opened Options
  import opened Units

  const BWE_INCREASE_INTERVAL := 1_000_000
  const HISTORY_PRECISION := 1_000
  const BWE_DECREASE_INTERVAL := 300_000
  const START_PHASE := 2_000_000
  const MAX_FEEDBACK_AGE := 6_000_000
  const MIN_BITRATE := 5_000
  const DEFAULT_MAX_BITRATE := 1_000_000_000
  const LIMIT_NUM_PACKETS := 20

  datatype Sample = Sample(time: int, rate: int)

  // ---------------------------------------------------------------------------
  // The naive sliding minimum

  /** A sample counts for 999 ms. */
  predicate Recent(x: Sample, now: int) {
    now - x.time + HISTORY_PRECISION <= BWE_INCREASE_INTERVAL
  }

  /** `r` is the least rate sampled in the last 999 ms. */
  ghost predicate IsWindowMin(r: int, samples: seq<Sample>, now: int) {
    (exists x :: x in samples && Recent(x, now) && x.rate == r) &&
    (forall x :: x in samples && Recent(x, now) ==> r <= x.rate)
  }

  // ---------------------------------------------------------------------------
  // The monotone deque

  /** Rates rise and times do not fall from front to back. */
  predicate Monotone(deque: seq<Sample>) {
    forall i, j :: 0 <= i < j < |deque| ==> deque[i].rate < deque[j].rate && deque[i].time <= deque[j].time
  }

  predicate Covers(h: Sample, x: Sample) {
    h.time >= x.time && h.rate <= x.rate
  }

  /** The deque holds samples only, and for every recent sample one that is no older and no
      larger. */
  ghost predicate Represents(deque: seq<Sample>, samples: seq<Sample>, now: int) {
    Monotone(deque) &&
    (forall h :: h in deque ==> h in samples && h.time <= now) &&
    (forall x :: x in samples && Recent(x, now) ==> exists h :: h in deque && Covers(h, x))
  }

  /** The front of a deque without outdated entries is the minimum of the window. */
  lemma FrontIsWindowMin(deque: seq<Sample>, samples: seq<Sample>, now: int)
    requires Represents(deque, samples, now) && deque != [] && Recent(deque[0], now)
    ensures IsWindowMin(deque[0].rate, samples, now)
  {
    assert deque[0] in samples;
    forall x | x in samples && Recent(x, now)
      ensures deque[0].rate <= x.rate
    {
      var h :| h in deque && Covers(h, x);
    }
  }

  /** Time passes: fewer samples are recent. */
  lemma TimePasses(deque: seq<Sample>, samples: seq<Sample>, before: int, now: int)
    requires Represents(deque, samples, before) && before <= now
    ensures Represents(deque, samples, now)
  {
    forall x | x in samples && Recent(x, now)
      ensures exists h :: h in deque && Covers(h, x)
    {
      assert Recent(x, before);
    }
  }

  /** An outdated front covers no recent sample. */
  lemma PopFront(deque: seq<Sample>, samples: seq<Sample>, now: int)
    requires Represents(deque, samples, now) && deque != [] && !Recent(deque[0], now)
    ensures Represents(deque[1..], samples, now)
  {
    assert forall h :: h in deque ==> h == deque[0] || h in deque[1..];
    forall x | x in samples && Recent(x, now)
      ensures exists h :: h in deque[1..] && Covers(h, x)
    {
      var h :| h in deque && Covers(h, x);
      assert h != deque[0];
    }
  }

  /** What covered a sample is still there, or undercut by the new sample. */
  lemma StillCovered(deque: seq<Sample>, kept: nat, now: int, rate: int, x: Sample, i: nat)
    requires kept <= |deque| && i < |deque| && Covers(deque[i], x) && deque[i].time <= now
    requires i >= kept ==> rate <= deque[i].rate
    ensures exists h :: h in deque[..kept] + [Sample(now, rate)] && Covers(h, x)
  {
    var next := deque[..kept] + [Sample(now, rate)];
    if i < kept {
      assert next[i] == deque[i] && next[i] in next;
    } else {
      assert next[kept] in next && Covers(next[kept], x);
    }
  }

  lemma PushKeepsOrder(deque: seq<Sample>, kept: nat, now: int, rate: int)
    requires Monotone(deque) && kept <= |deque| && forall h :: h in deque ==> h.time <= now
    requires kept > 0 ==> deque[kept - 1].rate < rate
    ensures Monotone(deque[..kept] + [Sample(now, rate)])
  {
    forall i | 0 <= i < kept
      ensures deque[i].rate < rate && deque[i].time <= now
    {
      assert deque[i] in deque;
    }
  }

  /** Dropping rates from the back that the new sample undercuts, and adding it. */
  lemma PushBack(deque: seq<Sample>, kept: nat, samples: seq<Sample>, now: int, rate: int)
    requires Represents(deque, samples, now) && kept <= |deque|
    requires forall i :: kept <= i < |deque| ==> rate <= deque[i].rate
    requires kept > 0 ==> deque[kept - 1].rate < rate
    ensures Represents(deque[..kept] + [Sample(now, rate)], samples + [Sample(now, rate)], now)
  {
    hide Covers, Monotone;
    var newest, next := Sample(now, rate), deque[..kept] + [Sample(now, rate)];
    PushKeepsOrder(deque, kept, now, rate);
    assert forall h :: h in next ==> h in deque || h == newest;
    forall x | x in samples + [newest] && Recent(x, now)
      ensures exists h :: h in next && Covers(h, x)
    {
      if x in samples {
        var h :| h in deque && Covers(h, x);
        var i :| 0 <= i < |deque| && deque[i] == h;
        StillCovered(deque, kept, now, rate, x, i);
      } else {
        CoversItself(newest);
        assert next[kept] == newest;
      }
    }
  }

  lemma CoversItself(x: Sample)
    ensures Covers(x, x)
  {
  }

  // ---------------------------------------------------------------------------
  // Rates

  /** 8% and 1 kbps above the minimum. `rate * 1.08 + 0.5` cut to a whole number; the product
      is never nearer than 1/50 to a whole number, so double precision does not matter. */
  function Increased(rate: int): int {
    (rate * 216 + 100) / 200 + 1_000
  }

  lemma IncreasedNeverOnEdge(rate: int)
    ensures (rate * 216 + 100) % 200 >= 4 && (rate * 216 + 100) % 200 <= 196
  {
    assert (rate * 216 + 100) % 8 == 4;
    var q, r := (rate * 216 + 100) / 200, (rate * 216 + 100) % 200;
    assert rate * 216 + 100 == 200 * q + r;
    assert r % 8 == 4;
  }

  lemma OneSample(now: int, rate: int)
    ensures Represents([Sample(now, rate)], [Sample(now, rate)], now)
    ensures Represents([], [], now)
  {
    assert Covers(Sample(now, rate), Sample(now, rate));
  }

  lemma GrowthBounded(least: int, samples: seq<Sample>, now: int)
    requires IsWindowMin(least, samples, now)
    ensures forall x :: x in samples && Recent(x, now) ==> 200 * Increased(least) <= 216 * x.rate + 200_100
  {
  }

  lemma GrowthAtLeast(least: int)
    ensures 200 * Increased(least) > 216 * least + 199_900
  {
  }

  /** The rate cut by half the loss fraction. */
  function Reduced(rate: int, loss: int): int {
    rate * (512 - loss) / 512
  }

  lemma ReducedNear(rate: int, loss: int)
    ensures rate * (512 - loss) - 512 < 512 * Reduced(rate, loss) <= rate * (512 - loss)
  {
  }

  /** Losses up to 2%, in 1/256: at most 5. */
  predicate LowLoss(loss: int) {
    loss * 100 <= 2 * 256
  }

  /** Losses above 10%: at least 26. */
  predicate HighLoss(loss: int) {
    loss * 100 > 10 * 256
  }

  // ---------------------------------------------------------------------------
  // The estimator

  class SendSideBandwidthEstimation {
    var minBitrateHistory: seq<Sample>
    var lostPacketsSinceLastLossUpdate: int
    var expectedPacketsSinceLastLossUpdate: int
    var currentTarget: int
    var minBitrateConfigured: int
    var maxBitrateConfigured: int
    var hasDecreasedSinceLastFractionLoss: bool
    var lastLossPacketReport: Option<int>
    var lastFractionLoss: int
    var lastRoundTripTime: int
    var receiverLimit: Option<int>
    var delayBasedLimit: Option<int>
    var timeLastDecrease: Option<int>
    var firstReportTime: Option<int>
    /** Every target sampled since the history was last cleared, and the time of the last
        sample. */
    ghost var samples: seq<Sample>
    ghost var sampledAt: int

    ghost predicate Valid()
      reads this
    {
      Represents(minBitrateHistory, samples, sampledAt) &&
      MIN_BITRATE <= minBitrateConfigured &&
      0 <= lastFractionLoss <= 255 && 0 <= currentTarget && 0 <= lastRoundTripTime &&
      0 <= expectedPacketsSinceLastLossUpdate < LIMIT_NUM_PACKETS &&
      (receiverLimit.Some? ==> receiverLimit.value > 0) && (delayBasedLimit.Some? ==> delayBasedLimit.value > 0)
    }

    /** What a target comes to be: within the limits, the lower one winning. */
    function Limited(rate: int): (r: int)
      reads this
      ensures r >= minBitrateConfigured && (r <= rate || r == minBitrateConfigured)
      ensures r <= maxBitrateConfigured || r == minBitrateConfigured
      ensures delayBasedLimit.Some? ==> r <= delayBasedLimit.value || r == minBitrateConfigured
    {
      Max(minBitrateConfigured, Min(rate, UpperLimit()))
    }

    /** The rate is as high as the limits allow. */
    predicate AtCeiling(rate: int)
      reads this
    {
      rate >= maxBitrateConfigured || (delayBasedLimit.Some? && rate >= delayBasedLimit.value)
    }

    predicate IsALimit(rate: int)
      reads this
    {
      rate == minBitrateConfigured || rate == maxBitrateConfigured || Some(rate) == delayBasedLimit
    }

    /** The loss report is less than 6 s old and shows at least 10%, and the target was not cut for
        it nor within the last 300 ms and a round trip. */
    predicate CutIsDue(now: int)
      reads this
    {
      currentTarget > 0 && lastFractionLoss >= 26 && !hasDecreasedSinceLastFractionLoss &&
      lastLossPacketReport.Some? && now - lastLossPacketReport.value < 6_000_000 &&
      (timeLastDecrease.Some? ==> now - timeLastDecrease.value >= 300_000 + lastRoundTripTime)
    }

    /** A loss of at most 2% was reported in the last 6 s. */
    predicate GrowthIsDue(now: int)
      reads this
    {
      lastFractionLoss <= 5 && lastLossPacketReport.Some? && now - lastLossPacketReport.value < 6_000_000
    }

    /** The first two seconds without loss, in which the target is below the limit of the receiver
        or of the delay-based estimate. */
    predicate JumpIsDue(now: int)
      reads this
    {
      lastFractionLoss == 0 && (firstReportTime.Some? ==> now - firstReportTime.value < 2_000_000) &&
      ((receiverLimit.Some? && receiverLimit.value > currentTarget) ||
       (delayBasedLimit.Some? && delayBasedLimit.value > currentTarget))
    }

    /** `GetUpperLimit`. */
    function UpperLimit(): int
      reads this
    {
      if delayBasedLimit.Some? then Min(delayBasedLimit.value, maxBitrateConfigured) else maxBitrateConfigured
    }

    predicate InStartPhase(now: int)
      reads this
    {
      firstReportTime.None? || now - firstReportTime.value < START_PHASE
    }

    constructor (ghost now: int)
      ensures Valid() && samples == [] && currentTarget == 0 && sampledAt == now
      ensures minBitrateConfigured == MIN_BITRATE && maxBitrateConfigured == DEFAULT_MAX_BITRATE
      ensures delayBasedLimit == None && receiverLimit == None
    {
      minBitrateHistory, lostPacketsSinceLastLossUpdate, expectedPacketsSinceLastLossUpdate := [], 0, 0;
      currentTarget, minBitrateConfigured, maxBitrateConfigured := 0, MIN_BITRATE, DEFAULT_MAX_BITRATE;
      hasDecreasedSinceLastFractionLoss, lastLossPacketReport, lastFractionLoss := false, None, 0;
      lastRoundTripTime, receiverLimit, delayBasedLimit := 0, None, None;
      timeLastDecrease, firstReportTime := None, None;
      samples, sampledAt := [], now;
    }

    /** Afterwards the front is the least target of the last 999 ms. */
    method UpdateMinHistory(now: int)
      requires Represents(minBitrateHistory, samples, sampledAt) && sampledAt <= now
      modifies this`minBitrateHistory, this`samples, this`sampledAt
      ensures Represents(minBitrateHistory, samples, sampledAt) && sampledAt == now
      ensures samples == old(samples) + [Sample(now, currentTarget)]
      ensures minBitrateHistory != [] && IsWindowMin(minBitrateHistory[0].rate, samples, now)
    {
      hide Represents;
      TimePasses(minBitrateHistory, samples, sampledAt, now);
      sampledAt := now;
      while minBitrateHistory != [] && now - minBitrateHistory[0].time + HISTORY_PRECISION > BWE_INCREASE_INTERVAL
        invariant Represents(minBitrateHistory, samples, now) && samples == old(samples) && sampledAt == now
        decreases |minBitrateHistory|
      {
        PopFront(minBitrateHistory, samples, now);
        minBitrateHistory := minBitrateHistory[1..];
      }
      ghost var deque, had := minBitrateHistory, samples;
      while minBitrateHistory != [] && currentTarget <= minBitrateHistory[|minBitrateHistory| - 1].rate
        invariant samples == had && sampledAt == now
        invariant |minBitrateHistory| <= |deque| && minBitrateHistory == deque[..|minBitrateHistory|]
        invariant forall i :: |minBitrateHistory| <= i < |deque| ==> currentTarget <= deque[i].rate
        decreases |minBitrateHistory|
      {
        minBitrateHistory := minBitrateHistory[..|minBitrateHistory| - 1];
      }
      assert |minBitrateHistory| < |deque| ==> currentTarget <= deque[|minBitrateHistory|].rate;
      PushBack(deque, |minBitrateHistory|, samples, now, currentTarget);
      minBitrateHistory := minBitrateHistory + [Sample(now, currentTarget)];
      samples := samples + [Sample(now, currentTarget)];
      FrontIsWindowMin(minBitrateHistory, samples, now);
    }

    method UpdateTargetBitrate(rate: int)
      modifies this`currentTarget
      ensures currentTarget == Limited(rate)
    {
      var bounded := Min(rate, UpperLimit());
      if bounded < minBitrateConfigured {
        bounded := minBitrateConfigured;
      }
      currentTarget := bounded;
    }

    /** The rate trusted in the start phase. */
    function StartRate(): int
      reads this
    {
      var r := if receiverLimit.Some? then Max(receiverLimit.value, currentTarget) else currentTarget;
      if delayBasedLimit.Some? then Max(delayBasedLimit.value, r) else r
    }

    predicate StartJump(now: int)
      reads this
    {
      lastFractionLoss == 0 && InStartPhase(now) && StartRate() != currentTarget
    }

    /** There is a loss report, less than 6 s old. */
    predicate FreshReport(now: int)
      reads this
    {
      lastLossPacketReport.Some? && now - lastLossPacketReport.value < MAX_FEEDBACK_AGE
    }

    predicate MayDecrease(now: int)
      reads this
    {
      currentTarget > 0 && HighLoss(lastFractionLoss) && !hasDecreasedSinceLastFractionLoss &&
      (timeLastDecrease.None? || now - timeLastDecrease.value >= BWE_DECREASE_INTERVAL + lastRoundTripTime)
    }

    /** One update. In the start phase without loss the target may jump to the limits of the
        receiver and the delay-based estimate, and the history starts anew. Otherwise the
        target is sampled, and then: at low loss it grows by 8% and 1 kbps of the least target
        of the last 999 ms; between 2% and 10% it only keeps to the limits; above 10% it drops
        by half the loss fraction, at most once per loss report and per 300 ms and round trip
        time. */
    method UpdateEstimate(now: int)
      requires Valid() && sampledAt <= now
      modifies this`minBitrateHistory, this`samples, this`sampledAt, this`currentTarget,
               this`hasDecreasedSinceLastFractionLoss, this`timeLastDecrease
      ensures Valid() && sampledAt == now
      ensures if old(StartJump(now)) then
                currentTarget == Limited(old(StartRate())) && samples == [Sample(now, old(currentTarget))] &&
                hasDecreasedSinceLastFractionLoss == old(hasDecreasedSinceLastFractionLoss)
              else
                samples == old(samples) + [Sample(now, old(currentTarget))] &&
                minBitrateHistory != [] && IsWindowMin(minBitrateHistory[0].rate, samples, now) &&
                currentTarget == Limited(
                  if !FreshReport(now) then old(currentTarget)
                  else if LowLoss(lastFractionLoss) then Increased(minBitrateHistory[0].rate)
                  else if old(MayDecrease(now)) then Reduced(old(currentTarget), lastFractionLoss)
                  else old(currentTarget))
      ensures !old(StartJump(now)) && FreshReport(now) && LowLoss(lastFractionLoss) ==>
                forall x :: x in samples && Recent(x, now) ==>
                  currentTarget == minBitrateConfigured || 200 * currentTarget <= 216 * x.rate + 200_100
      ensures old(!StartJump(now) && FreshReport(now) && MayDecrease(now)) ==>
                hasDecreasedSinceLastFractionLoss && timeLastDecrease == Some(now)
      ensures !old(!StartJump(now) && FreshReport(now) && MayDecrease(now)) ==>
                hasDecreasedSinceLastFractionLoss == old(hasDecreasedSinceLastFractionLoss) &&
                timeLastDecrease == old(timeLastDecrease)
      ensures old(!JumpIsDue(now) && GrowthIsDue(now)) ==>
                AtCeiling(currentTarget) || 200 * currentTarget > 216 * minBitrateHistory[0].rate + 199_900
      ensures old(!JumpIsDue(now) && CutIsDue(now)) ==>
                IsALimit(currentTarget) ||
                old(currentTarget) * (512 - lastFractionLoss) - 512 < 512 * currentTarget
                  <= old(currentTarget) * (512 - lastFractionLoss)
      ensures old(!JumpIsDue(now) && !GrowthIsDue(now) && !CutIsDue(now)) ==>
                IsALimit(currentTarget) || currentTarget == old(currentTarget)
      ensures old(JumpIsDue(now)) ==>
                AtCeiling(currentTarget) ||
                (currentTarget >= old(currentTarget) &&
                 (receiverLimit.Some? ==> currentTarget >= receiverLimit.value) &&
                 (delayBasedLimit.Some? ==> currentTarget >= delayBasedLimit.value))
    {
      hide Represents, IsWindowMin, Increased, Reduced;
      if lastFractionLoss == 0 && InStartPhase(now) {
        var rate := StartRate();
        if rate != currentTarget {
          minBitrateHistory := [Sample(now, currentTarget)];
          samples, sampledAt := minBitrateHistory, now;
          OneSample(now, currentTarget);
          UpdateTargetBitrate(rate);
          return;
        }
      }
      UpdateMinHistory(now);
      LossBasedUpdate(now);
    }

    /** What follows the sampling. */
    method LossBasedUpdate(now: int)
      requires minBitrateHistory != [] && IsWindowMin(minBitrateHistory[0].rate, samples, now) && currentTarget >= 0
      modifies this`currentTarget, this`hasDecreasedSinceLastFractionLoss, this`timeLastDecrease
      ensures currentTarget == Limited(
                if !FreshReport(now) then old(currentTarget)
                else if LowLoss(lastFractionLoss) then Increased(minBitrateHistory[0].rate)
                else if old(MayDecrease(now)) then Reduced(old(currentTarget), lastFractionLoss)
                else old(currentTarget))
      ensures FreshReport(now) && LowLoss(lastFractionLoss) ==>
                forall x :: x in samples && Recent(x, now) ==>
                  currentTarget == minBitrateConfigured || 200 * currentTarget <= 216 * x.rate + 200_100
      ensures old(FreshReport(now) && MayDecrease(now)) ==>
                hasDecreasedSinceLastFractionLoss && timeLastDecrease == Some(now)
      ensures !old(FreshReport(now) && MayDecrease(now)) ==>
                hasDecreasedSinceLastFractionLoss == old(hasDecreasedSinceLastFractionLoss) &&
                timeLastDecrease == old(timeLastDecrease)
      ensures old(GrowthIsDue(now)) ==>
                AtCeiling(currentTarget) || 200 * currentTarget > 216 * minBitrateHistory[0].rate + 199_900
      ensures old(CutIsDue(now)) ==>
                IsALimit(currentTarget) ||
                old(currentTarget) * (512 - lastFractionLoss) - 512 < 512 * currentTarget
                  <= old(currentTarget) * (512 - lastFractionLoss)
      ensures old(!GrowthIsDue(now) && !CutIsDue(now)) ==>
                IsALimit(currentTarget) || currentTarget == old(currentTarget)
    {
      hide IsWindowMin, Increased, Reduced;
      GrowthAtLeast(minBitrateHistory[0].rate);
      ReducedNear(currentTarget, lastFractionLoss);
      if lastLossPacketReport.None? {
        UpdateTargetBitrate(currentTarget);
        return;
      }
      if now - lastLossPacketReport.value < MAX_FEEDBACK_AGE {
        if currentTarget < 0 || LowLoss(lastFractionLoss) {
          GrowthBounded(minBitrateHistory[0].rate, samples, now);
          UpdateTargetBitrate(Increased(minBitrateHistory[0].rate));
          return;
        } else if currentTarget > 0 && HighLoss(lastFractionLoss) {
          if !hasDecreasedSinceLastFractionLoss &&
             (timeLastDecrease.None? || now - timeLastDecrease.value >= BWE_DECREASE_INTERVAL + lastRoundTripTime) {
            timeLastDecrease := Some(now);
            hasDecreasedSinceLastFractionLoss := true;
            UpdateTargetBitrate(Reduced(currentTarget, lastFractionLoss));
            return;
          }
        }
      }
      UpdateTargetBitrate(currentTarget);
    }

    method SetSendBitrate(rate: nat)
      requires Valid()
      modifies this`delayBasedLimit, this`currentTarget, this`minBitrateHistory, this`samples
      ensures Valid() && delayBasedLimit == None && currentTarget == Limited(rate)
      ensures minBitrateHistory == [] && samples == []
    {
      delayBasedLimit := None;
      UpdateTargetBitrate(rate);
      minBitrateHistory, samples := [], [];
    }

    /** None is an infinite maximum. */
    method SetMinMaxBitrate(min: nat, max: Option<nat>)
      requires Valid()
      modifies this`minBitrateConfigured, this`maxBitrateConfigured
      ensures Valid() && minBitrateConfigured == Max(min, MIN_BITRATE)
      ensures maxBitrateConfigured ==
              if max.Some? && max.value > 0 then Max(minBitrateConfigured, max.value) else DEFAULT_MAX_BITRATE
    {
      minBitrateConfigured := Max(min, MIN_BITRATE);
      if max.Some? && max.value > 0 {
        maxBitrateConfigured := Max(minBitrateConfigured, max.value);
      } else {
        maxBitrateConfigured := DEFAULT_MAX_BITRATE;
      }
    }

    method UpdateReceiverEstimate(bandwidth: nat)
      requires Valid()
      modifies this`receiverLimit, this`currentTarget
      ensures Valid() && receiverLimit == (if bandwidth == 0 then None else Some(bandwidth))
      ensures currentTarget == Limited(old(currentTarget))
    {
      receiverLimit := if bandwidth == 0 then None else Some(bandwidth);
      UpdateTargetBitrate(currentTarget);
    }

    method UpdateDelayBasedEstimate(bitrate: nat)
      requires Valid()
      modifies this`delayBasedLimit, this`currentTarget
      ensures Valid() && delayBasedLimit == (if bitrate == 0 then None else Some(bitrate))
      ensures currentTarget == Limited(old(currentTarget))
    {
      delayBasedLimit := if bitrate == 0 then None else Some(bitrate);
      UpdateTargetBitrate(currentTarget);
    }

    /** The target handed out also keeps to the receiver's limit. */
    function TargetRate(): (r: int)
      reads this
      ensures r >= minBitrateConfigured && (r <= currentTarget || r == minBitrateConfigured)
      ensures receiverLimit.Some? ==> r <= receiverLimit.value || r == minBitrateConfigured
    {
      Max(minBitrateConfigured, if receiverLimit.Some? then Min(currentTarget, receiverLimit.value) else currentTarget)
    }

    method UpdateRtt(rtt: int)
      requires Valid()
      modifies this`lastRoundTripTime
      ensures Valid() && lastRoundTripTime == if rtt > 0 then rtt else old(lastRoundTripTime)
    {
      if rtt > 0 {
        lastRoundTripTime := rtt;
      }
    }

    /** Reports are added up until they cover 20 packets; then their common loss fraction is
        taken and the target updated. */
    method UpdatePacketsLost(packetsLost: int, numberOfPackets: int, now: int)
      requires Valid() && sampledAt <= now
      modifies this
      ensures Valid()
      ensures firstReportTime == if old(firstReportTime).None? then Some(now) else old(firstReportTime)
      ensures numberOfPackets <= 0 ==>
                lostPacketsSinceLastLossUpdate == old(lostPacketsSinceLastLossUpdate) &&
                expectedPacketsSinceLastLossUpdate == old(expectedPacketsSinceLastLossUpdate)
      ensures var expected, lost := old(expectedPacketsSinceLastLossUpdate) + numberOfPackets,
                                    old(lostPacketsSinceLastLossUpdate) + packetsLost;
              if numberOfPackets > 0 && expected >= LIMIT_NUM_PACKETS then
                lastLossPacketReport == Some(now) && sampledAt == now &&
                lostPacketsSinceLastLossUpdate == 0 && expectedPacketsSinceLastLossUpdate == 0 &&
                (lost <= 0 ==> lastFractionLoss == 0) && (lost >= expected ==> lastFractionLoss == 255) &&
                (0 <= lost < expected ==> lastFractionLoss * expected <= 256 * lost < (lastFractionLoss + 1) * expected)
              else
                lastLossPacketReport == old(lastLossPacketReport) && lastFractionLoss == old(lastFractionLoss) &&
                currentTarget == old(currentTarget) && samples == old(samples) &&
                (numberOfPackets > 0 ==> lostPacketsSinceLastLossUpdate == lost &&
                                         expectedPacketsSinceLastLossUpdate == expected)
    {
      hide Represents, IsWindowMin, FractionLost;
      if firstReportTime.None? {
        firstReportTime := Some(now);
      }
      if numberOfPackets > 0 {
        var expected := expectedPacketsSinceLastLossUpdate + numberOfPackets;
        if expected < LIMIT_NUM_PACKETS {
          expectedPacketsSinceLastLossUpdate := expected;
          lostPacketsSinceLastLossUpdate := lostPacketsSinceLastLossUpdate + packetsLost;
          return;
        }
        hasDecreasedSinceLastFractionLoss := false;
        lastFractionLoss := FractionLost(lostPacketsSinceLastLossUpdate + packetsLost, expected);
        lostPacketsSinceLastLossUpdate, expectedPacketsSinceLastLossUpdate := 0, 0;
        lastLossPacketReport := Some(now);
        UpdateEstimate(now);
      }
    }

    /** A new route: everything starts over but the history, which a later update still
        consults. */
    method OnRouteChange()
      requires Valid()
      modifies this
      ensures Valid() && currentTarget == 0 && minBitrateConfigured == MIN_BITRATE
      ensures delayBasedLimit == None && receiverLimit == None && firstReportTime == None
      ensures samples == old(samples) && minBitrateHistory == old(minBitrateHistory) && sampledAt == old(sampledAt)
    {
      hide Represents;
      ForgetLosses();
      currentTarget, minBitrateConfigured, maxBitrateConfigured := 0, MIN_BITRATE, DEFAULT_MAX_BITRATE;
      receiverLimit, delayBasedLimit, firstReportTime := None, None, None;
    }

    method ForgetLosses()
      modifies this`lostPacketsSinceLastLossUpdate, this`expectedPacketsSinceLastLossUpdate,
               this`hasDecreasedSinceLastFractionLoss, this`lastLossPacketReport, this`lastFractionLoss,
               this`lastRoundTripTime, this`timeLastDecrease
      ensures lostPacketsSinceLastLossUpdate == 0 && expectedPacketsSinceLastLossUpdate == 0
      ensures lastLossPacketReport == None && lastFractionLoss == 0 && lastRoundTripTime == 0
      ensures timeLastDecrease == None && !hasDecreasedSinceLastFractionLoss
    {
      lostPacketsSinceLastLossUpdate, expectedPacketsSinceLastLossUpdate := 0, 0;
      hasDecreasedSinceLastFractionLoss, lastLossPacketReport, lastFractionLoss := false, None, 0;
      lastRoundTripTime, timeLastDecrease := 0, None;
    }
  }

  /** The fraction lost in 1/256, cut to a byte. */
  function FractionLost(lost: int, expected: int): (f: int)
    requires expected > 0
    ensures 0 <= f <= 255
    ensures lost <= 0 ==> f == 0
    ensures lost >= expected ==> f == 255
    ensures 0 <= lost < expected ==> f * expected <= 256 * lost < (f + 1) * expected
  {
    var q8 := Max(lost, 0) * 256;
    FractionBounds(q8, expected);
    Min(q8 / expected, 255)
  }

  lemma FractionBounds(q8: int, expected: int)
    requires expected > 0 && q8 >= 0
    ensures q8 / expected >= 0 && (q8 / expected) * expected <= q8 < (q8 / expected + 1) * expected
    ensures q8 < 256 * expected ==> q8 / expected <= 255
    ensures q8 >= 256 * expected ==> q8 / expected >= 256
  {
    var q, r := q8 / expected, q8 % expected;
    assert q8 == q * expected + r && 0 <= r < expected;
    ScaleKeepsOrder(256, q, expected);
    ScaleKeepsOrder(q + 1, 256, expected);
  }

  lemma ScaleKeepsOrder(a: int, b: int, c: int)
    requires c > 0
    ensures a <= b ==> a * c <= b * c
  {
  }
}
