/**
 ProbeController: which probe clusters are started when, with invariants over every run.
 Times in microseconds, rates in bits per second; None is plus infinity or an absent time.
 */
module ProbeControl {
  import opened Options
  import opened Units
  import opened ProbeModel
  import opened ProbeChain

  const MAX_WAITING_TIME := 1_000_000
  const DEFAULT_MAX_PROBING_BITRATE := 20_000_000
  const BITRATE_DROP_TIMEOUT := 5_000_000
  const ALR_ENDED_TIMEOUT := 3_000_000
  const MIN_TIME_BETWEEN_ALR_PROBES := 5_000_000
  const BITRATE_DROP_THRESHOLD := Ratio(66, 100)
  const FRACTION_AFTER_DROP := Ratio(85, 100)
  const CERTAIN_FRACTION := Ratio(95, 100)

  /** Probes for the given rates, cut to the cap, with consecutive ids. */
  function ProbesFor(rates: seq<int>, cap: int, id: nat, at: int): (r: seq<Probe>)
    ensures |r| == |rates|
    ensures forall i :: 0 <= i < |r| ==> r[i] == Probe(id + i, Min(rates[i], cap), at)
  {
    seq(|rates|, i requires 0 <= i < |rates| => Probe(id + i, Min(rates[i], cap), at))
  }

  /** No cluster id is used twice: they ascend, below the next one. */
  predicate IdsAscend(sent: seq<Probe>, next: nat) {
    (forall i, j :: 0 <= i < j < |sent| ==> sent[i].id < sent[j].id) &&
    (forall i :: 0 <= i < |sent| ==> sent[i].id < next)
  }

  lemma NewIdsAscend(sent: seq<Probe>, rates: seq<int>, cap: int, next: nat, at: int)
    requires IdsAscend(sent, next)
    ensures IdsAscend(sent + ProbesFor(rates, cap, next, at), next + |rates|)
    ensures sent + [] == sent
  {
  }

  lemma SingleProbe(rate: int, cap: int, id: nat, at: int)
    ensures ProbesFor([rate], cap, id, at) == [Probe(id, Min(rate, cap), at)]
    ensures AllBelow([rate], cap) <==> rate < cap
  {
    assert [rate][0] == rate;
  }

  predicate AllBelow(rates: seq<int>, cap: int) {
    forall i :: 0 <= i < |rates| ==> rates[i] < cap
  }

  /** The rates probed when more is allocated, cut to a multiple of the estimate, and whether
      to go on from there. */
  function AllocationProbes(estimate: nat, allocatedTotal: nat, relayPath: bool): (r: (seq<int>, bool))
    ensures 1 <= |r.0| <= 2 && forall i :: 0 <= i < |r.0| ==> r.0[i] >= 0
    ensures forall i :: 0 <= i < |r.0| ==> r.0[i] <= Max(allocatedTotal, Scale(estimate, ProfileOf(relayPath).allocationLimit))
  {
    var profile := ProfileOf(relayPath);
    var limit := Scale(estimate, profile.allocationLimit);
    ScaleNonNegative(estimate, profile.allocationLimit);
    if limit < allocatedTotal then ([limit], true)
    else
      var full := Scale(allocatedTotal, profile.secondAllocation);
      var second := Min(full, limit);
      (if second > allocatedTotal then [allocatedTotal, second] else [allocatedTotal], limit < full)
  }

  lemma WholeScales(rate: nat, relayPath: bool)
    ensures Scale(rate, ProfileOf(relayPath).first) == (if relayPath then 2 else 3) * rate
    ensures Scale(rate, ProfileOf(relayPath).second) == (if relayPath then 4 else 6) * rate
  {
  }

  /** On a direct path, with less estimated than allocated: the first probe at the allocation or
      twice the estimate, the second at twice the estimate if that is more. */
  lemma AllocationMeans(estimate: nat, allocatedTotal: nat)
    ensures var (rates, further) := AllocationProbes(estimate, allocatedTotal, false);
            rates[0] == Min(allocatedTotal, 2 * estimate) &&
            (estimate < allocatedTotal ==>
               further && |rates| == (if allocatedTotal < 2 * estimate then 2 else 1) &&
               (|rates| == 2 ==> rates[1] == 2 * estimate))
  {
    assert Scale(estimate, DIRECT.allocationLimit) == 2 * estimate;
    assert Scale(allocatedTotal, DIRECT.secondAllocation) == 2 * allocatedTotal;
  }

  class ProbeController {
    var networkAvailable: bool
    var repeatedInitialProbingEnabled: bool
    var enablePeriodicAlrProbing: bool
    var relayPath: bool
    var lastAllowedRepeatedInitialProbe: int
    var cause: Cause
    var phase: Phase
    var minBitrateToProbeFurther: Option<int>
    var timeLastProbingInitiated: int
    var estimatedBitrate: int
    var startBitrate: int
    var maxBitrate: int
    var maxTotalAllocatedBitrate: int
    var lastBweDropProbingTime: int
    var alrStartTime: Option<int>
    var alrEndTime: Option<int>
    var timeOfLastLargeDrop: int
    var bitrateBeforeLastLargeDrop: int
    var nextProbeClusterId: nat
    /** Every probe so far, and the targets of the current chain under the current profile. */
    ghost var sent: seq<Probe>
    ghost var chain: seq<int>

    ghost predicate Valid()
      reads this
    {
      0 <= estimatedBitrate && 0 <= startBitrate && 0 <= maxBitrate && 0 <= maxTotalAllocatedBitrate &&
      0 <= bitrateBeforeLastLargeDrop &&
      (phase.WaitingForProbingResult? <==> minBitrateToProbeFurther.Some?) &&
      IdsAscend(sent, nextProbeClusterId) &&
      Chain(chain, Growth(relayPath)) &&
      (phase.WaitingForProbingResult? && chain != [] ==>
         minBitrateToProbeFurther.value == Scale(chain[|chain| - 1], ProfileOf(relayPath).threshold))
    }

    /** The highest rate a probe may aim at now. */
    function Cap(): (r: int)
      reads this
      ensures r <= maxBitrate
    {
      CapOf(maxBitrate, maxTotalAllocatedBitrate, cause, estimatedBitrate, relayPath)
    }

    /** What estimates look at and change. */
    function Awaited(): Awaiting
      reads this
    {
      Awaiting(phase, minBitrateToProbeFurther, cause, estimatedBitrate, maxBitrate, maxTotalAllocatedBitrate,
               relayPath, nextProbeClusterId)
    }

    constructor ()
      ensures Valid() && phase == Init && sent == []
    {
      networkAvailable, repeatedInitialProbingEnabled, enablePeriodicAlrProbing, relayPath := false, false, false, false;
      lastAllowedRepeatedInitialProbe, cause, phase, minBitrateToProbeFurther := 0, DelayBasedLimited, Init, None;
      timeLastProbingInitiated, estimatedBitrate, startBitrate := 0, 0, 0;
      maxBitrate, maxTotalAllocatedBitrate, lastBweDropProbingTime := DEFAULT_MAX_PROBING_BITRATE, 0, 0;
      alrStartTime, alrEndTime, timeOfLastLargeDrop, bitrateBeforeLastLargeDrop := None, None, 0, 0;
      nextProbeClusterId, sent, chain := 1, [], [];
    }

    method UpdateState(next: Phase)
      modifies this`phase, this`minBitrateToProbeFurther
      ensures phase == next
      ensures minBitrateToProbeFurther == if next.ProbingComplete? then None else old(minBitrateToProbeFurther)
    {
      phase := next;
      if next.ProbingComplete? {
        minBitrateToProbeFurther := None;
      }
    }

    /** Nothing while the estimate is limited by losses or delays; else one probe per rate, none
        above the cap, with new ids. Results are awaited only if no rate reaches the cap. */
    method InitiateProbing(now: int, rates: seq<int>, probeFurther: bool, ghost continues: bool)
      returns (probes: seq<Probe>)
      requires Valid() && rates != [] && forall i :: 0 <= i < |rates| ==> rates[i] >= 0
      requires continues && chain != [] ==> Exceeds(rates[|rates| - 1], chain[|chain| - 1], Growth(relayPath))
      modifies this`phase, this`minBitrateToProbeFurther, this`timeLastProbingInitiated, this`nextProbeClusterId,
               this`sent, this`chain
      ensures Valid() && sent == old(sent) + probes && nextProbeClusterId == old(nextProbeClusterId) + |probes|
      ensures probes == if Blocks(cause) then [] else ProbesFor(rates, Cap(), old(nextProbeClusterId), now)
      ensures forall i :: 0 <= i < |probes| ==> probes[i].target <= maxBitrate
      ensures Blocks(cause) ==> phase == old(phase) && chain == old(chain) &&
                                minBitrateToProbeFurther == old(minBitrateToProbeFurther) &&
                                timeLastProbingInitiated == old(timeLastProbingInitiated)
      ensures !Blocks(cause) ==>
                timeLastProbingInitiated == now &&
                phase == (if probeFurther && AllBelow(rates, Cap()) then WaitingForProbingResult else ProbingComplete) &&
                chain == (if phase.ProbingComplete? then []
                          else (if continues then old(chain) else []) + [rates[|rates| - 1]])
    {
      hide IdsAscend, Exceeds, Scale, Chain, ProfileOf, Growth, CapOf;
      NewIdsAscend(sent, rates, Cap(), nextProbeClusterId, now);
      probes := [];
      if !Blocks(cause) {
        var cap := Cap();
        var below;
        probes, below := CreateProbes(now, rates, cap);
        sent := sent + probes;
        timeLastProbingInitiated := now;
        Settle(probes[|probes| - 1].target, probeFurther && below, continues);
      }
    }

    /** Await the results of the last probe, or be done. */
    method Settle(target: int, awaits: bool, ghost continues: bool)
      requires Chain(chain, Growth(relayPath)) && (awaits ==> target >= 0)
      requires awaits && continues && chain != [] ==> Exceeds(target, chain[|chain| - 1], Growth(relayPath))
      modifies this`phase, this`minBitrateToProbeFurther, this`chain
      ensures Chain(chain, Growth(relayPath))
      ensures awaits ==> phase.WaitingForProbingResult? &&
                         minBitrateToProbeFurther == Some(Scale(target, ProfileOf(relayPath).threshold)) &&
                         chain == (if continues then old(chain) else []) + [target]
      ensures !awaits ==> phase.ProbingComplete? && minBitrateToProbeFurther == None && chain == []
    {
      hide Exceeds, Chain, Growth;
      EmptyChain(Growth(relayPath));
      ghost var before := if continues then chain else [];
      if awaits {
        ChainExtends(before, target, Growth(relayPath));
        UpdateState(WaitingForProbingResult);
        minBitrateToProbeFurther := Some(Scale(target, ProfileOf(relayPath).threshold));
        chain := before + [target];
      } else {
        UpdateState(ProbingComplete);
        chain := [];
      }
    }

    /** The clusters themselves, and whether all rates stay below the cap. */
    method CreateProbes(now: int, rates: seq<int>, cap: int) returns (probes: seq<Probe>, below: bool)
      modifies this`nextProbeClusterId
      ensures probes == ProbesFor(rates, cap, old(nextProbeClusterId), now)
      ensures nextProbeClusterId == old(nextProbeClusterId) + |rates| && below == AllBelow(rates, cap)
    {
      probes, below := [], true;
      var i := 0;
      while i < |rates|
        invariant 0 <= i <= |rates| && nextProbeClusterId == old(nextProbeClusterId) + i
        invariant |probes| == i && below == AllBelow(rates[..i], cap)
        invariant forall k :: 0 <= k < i ==> probes[k] == Probe(old(nextProbeClusterId) + k, Min(rates[k], cap), now)
      {
        var rate := rates[i];
        if rate >= cap {
          rate := cap;
          below := false;
        }
        probes := probes + [Probe(nextProbeClusterId, rate, now)];
        nextProbeClusterId := nextProbeClusterId + 1;
        i := i + 1;
      }
      assert rates[..i] == rates;
    }

    /** Two probes, at three and six times the start rate, on a relayed path two and four times,
        none above the cap. */
    predicate FirstProbes(probes: seq<Probe>)
      reads this
    {
      |probes| == 2 &&
      probes[0].target == Min((if relayPath then 2 else 3) * startBitrate, Cap()) &&
      probes[1].target == Min((if relayPath then 4 else 6) * startBitrate, Cap())
    }

    /** The first probes of a connection. */
    method InitiateExponentialProbing(now: int) returns (probes: seq<Probe>)
      requires Valid()
      modifies this`phase, this`minBitrateToProbeFurther, this`timeLastProbingInitiated, this`nextProbeClusterId,
               this`sent, this`chain, this`lastAllowedRepeatedInitialProbe
      ensures Valid() && sent == old(sent) + probes
      ensures probes == if Blocks(cause) then []
                        else ProbesFor([Scale(startBitrate, ProfileOf(relayPath).first),
                                        Scale(startBitrate, ProfileOf(relayPath).second)],
                                       Cap(), old(nextProbeClusterId), now)
      ensures probes != [] ==> FirstProbes(probes)
    {
      WholeScales(startBitrate, relayPath);
      var profile := ProfileOf(relayPath);
      if repeatedInitialProbingEnabled && maxTotalAllocatedBitrate == 0 {
        lastAllowedRepeatedInitialProbe := now + profile.repeatedPeriod;
      }
      probes := InitiateProbing(now, [Scale(startBitrate, profile.first), Scale(startBitrate, profile.second)], true, false);
    }

    /** A measured rate above the threshold of the last target starts a further probe. Its
        target exceeds the last by more than 1.4, relayed by more than 1.275, or is the cap and
        ends the chain. A run of estimates starts the probes that `FurtherProbes` bounds. */
    method SetEstimatedBitrate(bitrate: nat, cause: Cause, now: int) returns (probes: seq<Probe>)
      requires Valid()
      modifies this
      ensures Valid() && sent == old(sent) + probes
      ensures this.cause == cause && estimatedBitrate == bitrate && maxBitrate == old(maxBitrate)
      ensures probes != [] <==>
                old(phase).WaitingForProbingResult? && bitrate > old(minBitrateToProbeFurther).value && !Blocks(cause)
      ensures probes != [] ==>
                |probes| == 1 && probes[0].id == old(nextProbeClusterId) &&
                (if phase.WaitingForProbingResult? then
                   probes[0].target < Cap() && chain == old(chain) + [probes[0].target] &&
                   (old(chain) != [] ==>
                      Exceeds(probes[0].target, old(chain)[|old(chain)| - 1], Growth(relayPath)))
                 else phase.ProbingComplete? && probes[0].target == Cap())
      ensures probes == [] ==> phase == old(phase) && chain == old(chain)
      ensures relayPath == old(relayPath)
      ensures (Awaited(), probes) == Estimated(old(Awaited()), bitrate, cause, now)
      ensures old(phase).WaitingForProbingResult? && old(chain) != [] ==>
                Awaits(old(Awaited()), old(chain)[|old(chain)| - 1])
    {
      hide Exceeds, Scale, Chain, ProfileOf, Growth, IdsAscend, ProbesFor, AllBelow, CapOf;
      ChainTargets(chain, Growth(relayPath));
      NoteEstimate(bitrate, cause, now);
      ScaleNonNegative(bitrate, ProfileOf(relayPath).further);
      if chain != [] && phase.WaitingForProbingResult? && bitrate > minBitrateToProbeFurther.value {
        FurtherProbeGrows(relayPath, chain[|chain| - 1], bitrate);
      }
      SingleProbe(Scale(bitrate, ProfileOf(relayPath).further), Cap(), nextProbeClusterId, now);
      probes := [];
      if phase.WaitingForProbingResult? && bitrate > minBitrateToProbeFurther.value {
        probes := InitiateProbing(now, [Scale(bitrate, ProfileOf(relayPath).further)], true, true);
      }
    }

    /** Take the estimate in, and remember a drop to less than 66%. */
    method NoteEstimate(bitrate: nat, cause: Cause, now: int)
      requires Valid()
      modifies this`cause, this`estimatedBitrate, this`timeOfLastLargeDrop, this`bitrateBeforeLastLargeDrop
      ensures Valid() && this.cause == cause && estimatedBitrate == bitrate
      ensures if bitrate < Scale(old(estimatedBitrate), BITRATE_DROP_THRESHOLD)
              then timeOfLastLargeDrop == now && bitrateBeforeLastLargeDrop == old(estimatedBitrate)
              else timeOfLastLargeDrop == old(timeOfLastLargeDrop) &&
                   bitrateBeforeLastLargeDrop == old(bitrateBeforeLastLargeDrop)
    {
      this.cause := cause;
      if bitrate < Scale(estimatedBitrate, BITRATE_DROP_THRESHOLD) {
        timeOfLastLargeDrop := now;
        bitrateBeforeLastLargeDrop := estimatedBitrate;
      }
      estimatedBitrate := bitrate;
    }

    /** Repeated initial probing is on and still allowed, and the last probe was a second ago. */
    predicate RepeatedProbeDue(now: int)
      reads this
    {
      repeatedInitialProbingEnabled && now < lastAllowedRepeatedInitialProbe && now - timeLastProbingInitiated >= 1_000_000
    }

    /** Periodic probing is on, and the application has been limited, without a probe, for five
        seconds, on a relayed path for eight. */
    predicate AlrProbeDue(now: int)
      reads this
    {
      enablePeriodicAlrProbing && alrStartTime.Some? &&
      var interval := if relayPath then 8_000_000 else 5_000_000;
      now - alrStartTime.value >= interval && now - timeLastProbingInitiated >= interval
    }

    /** Waiting ends after a second; then periodic probes may start. */
    method Process(now: int) returns (probes: seq<Probe>)
      requires Valid()
      modifies this
      ensures Valid() && sent == old(sent) + probes && maxBitrate == old(maxBitrate)
      ensures forall i :: 0 <= i < |probes| ==> probes[i].target <= maxBitrate
      ensures old(phase).WaitingForProbingResult? && now - old(timeLastProbingInitiated) <= MAX_WAITING_TIME ==>
                phase.WaitingForProbingResult? && probes == [] && chain == old(chain)
      ensures (old(phase).WaitingForProbingResult? && now - old(timeLastProbingInitiated) > MAX_WAITING_TIME &&
               probes == []) ==> phase.ProbingComplete?
      ensures old(phase).Init? ==> phase.Init? && probes == []
      ensures probes != [] <==>
                old(estimatedBitrate != 0 && !Blocks(cause) &&
                    (phase.ProbingComplete? ||
                     (phase.WaitingForProbingResult? && now - timeLastProbingInitiated > 1_000_000)) &&
                    (RepeatedProbeDue(now) || AlrProbeDue(now)))
      ensures probes != [] ==>
                |probes| == 1 && probes[0].target == Min(PeriodicRate(old(RepeatedProbeDue(now))), Cap())
    {
      hide IdsAscend, Chain, ProbesFor, AllBelow, CapOf, PeriodicRate, Scale;
      if WaitedOut(now) {
        UpdateState(ProbingComplete);
      }
      if estimatedBitrate == 0 || !phase.ProbingComplete? {
        return [];
      }
      probes := PeriodicProbe(now);
    }

    /** The probe that is due when nothing is awaited. */
    method PeriodicProbe(now: int) returns (probes: seq<Probe>)
      requires Valid() && phase.ProbingComplete?
      modifies this`phase, this`minBitrateToProbeFurther, this`timeLastProbingInitiated, this`nextProbeClusterId,
               this`sent, this`chain
      ensures Valid() && sent == old(sent) + probes
      ensures probes == [] ==> phase == old(phase)
      ensures forall i :: 0 <= i < |probes| ==> probes[i].target <= maxBitrate
      ensures probes != [] <==> !Blocks(cause) && old(RepeatedProbeDue(now) || AlrProbeDue(now))
      ensures probes != [] ==>
                |probes| == 1 && probes[0].target == Min(PeriodicRate(old(RepeatedProbeDue(now))), Cap())
    {
      hide IdsAscend, Chain, AllBelow, CapOf, Scale, Exceeds, Growth;
      WholeScales(estimatedBitrate, relayPath);
      ScaleNonNegative(estimatedBitrate, ProfileOf(relayPath).alr);
      probes := [];
      if TimeForNextRepeatedInitialProbe(now) {
        probes := InitiateProbing(now, [Scale(estimatedBitrate, ProfileOf(relayPath).first)], true, false);
      } else if TimeForAlrProbe(now) {
        probes := InitiateProbing(now, [Scale(estimatedBitrate, ProfileOf(relayPath).alr)], true, false);
      }
    }

    /** Three times the estimate when initial probing is repeated, else twice; on a relayed path twice,
        else one and a half times. */
    function PeriodicRate(repeated: bool): int
      reads this
    {
      if repeated then (if relayPath then 2 else 3) * estimatedBitrate
      else Scale(estimatedBitrate, if relayPath then Ratio(3, 2) else Ratio(2, 1))
    }

    /** A result has been awaited for too long. */
    predicate WaitedOut(now: int)
      reads this
    {
      now - timeLastProbingInitiated > MAX_WAITING_TIME && phase.WaitingForProbingResult?
    }

    predicate TimeForNextRepeatedInitialProbe(now: int)
      reads this
    {
      !phase.WaitingForProbingResult? && RepeatedInitialProbeDue(now)
    }

    predicate RepeatedInitialProbeDue(now: int)
      reads this
    {
      repeatedInitialProbingEnabled && lastAllowedRepeatedInitialProbe > now &&
      now >= timeLastProbingInitiated + MAX_WAITING_TIME
    }

    predicate TimeForAlrProbe(now: int)
      reads this
    {
      enablePeriodicAlrProbing && alrStartTime.Some? &&
      now >= Max(alrStartTime.value, timeLastProbingInitiated) + ProfileOf(relayPath).alrInterval
    }

    /** None is an infinite maximum. */
    method SetBitrates(min: nat, start: nat, max: Option<nat>, now: int) returns (probes: seq<Probe>)
      requires Valid()
      modifies this
      ensures Valid() && sent == old(sent) + probes
      ensures maxBitrate == if max.Some? then max.value else DEFAULT_MAX_PROBING_BITRATE
      ensures startBitrate == if start > 0 then start else if old(startBitrate) == 0 then min else old(startBitrate)
      ensures estimatedBitrate == if start > 0 then start else old(estimatedBitrate)
      ensures forall i :: 0 <= i < |probes| ==> probes[i].target <= maxBitrate
      ensures probes != [] <==>
                !Blocks(cause) &&
                ((old(phase).Init? && networkAvailable) ||
                 (old(phase).ProbingComplete? && estimatedBitrate != 0 && estimatedBitrate < maxBitrate &&
                  old(maxBitrate) < maxBitrate))
      ensures probes != [] && !old(phase).Init? ==> |probes| == 1 && probes[0].target == Cap()
    {
      hide Chain, IdsAscend, Scale;
      if start > 0 {
        startBitrate, estimatedBitrate := start, start;
      } else if startBitrate == 0 {
        startBitrate := min;
      }
      var oldMax := maxBitrate;
      maxBitrate := if max.Some? then max.value else DEFAULT_MAX_PROBING_BITRATE;
      probes := [];
      if phase.Init? && networkAvailable {
        probes := InitiateExponentialProbing(now);
      } else if phase.ProbingComplete? && estimatedBitrate != 0 && oldMax < maxBitrate && estimatedBitrate < maxBitrate {
        probes := InitiateProbing(now, [maxBitrate], false, false);
      }
    }

    method OnNetworkAvailability(available: bool, now: int) returns (probes: seq<Probe>)
      requires Valid()
      modifies this
      ensures Valid() && sent == old(sent) + probes && maxBitrate == old(maxBitrate) && networkAvailable == available
      ensures forall i :: 0 <= i < |probes| ==> probes[i].target <= maxBitrate
      ensures !available ==> phase.Init? && probes == []
      ensures probes != [] <==>
                available && !old(networkAvailable) && old(phase).Init? && startBitrate > 0 && !Blocks(cause)
      ensures probes != [] ==> FirstProbes(probes)
    {
      var was := networkAvailable;
      networkAvailable := available;
      probes := [];
      if !available {
        phase, minBitrateToProbeFurther, lastAllowedRepeatedInitialProbe := Init, None, 0;
        chain := [];
        return;
      }
      if !was && phase.Init? && startBitrate != 0 {
        probes := InitiateExponentialProbing(now);
      }
    }

    /** A new path type has a new profile; the chain under way is not one of either profile. */
    method SetRelayPath(relay: bool)
      requires Valid()
      modifies this`relayPath, this`chain
      ensures Valid() && relayPath == relay
      ensures chain == if relay == old(relayPath) then old(chain) else []
    {
      if relayPath != relay {
        relayPath := relay;
        chain := [];
      }
    }

    /** A single probe towards the rate before a large drop. */
    method RequestProbe(now: int) returns (probes: seq<Probe>)
      requires Valid()
      modifies this
      ensures Valid() && sent == old(sent) + probes && maxBitrate == old(maxBitrate) && |probes| <= 1
      ensures forall i :: 0 <= i < |probes| ==> probes[i].target <= maxBitrate
      ensures probes != [] ==> phase.ProbingComplete? && lastBweDropProbingTime == now
      ensures probes != [] <==>
                old(phase).ProbingComplete? && !Blocks(cause) &&
                (alrStartTime.Some? || (alrEndTime.Some? && now - alrEndTime.value < 3_000_000)) &&
                Scale(Scale(bitrateBeforeLastLargeDrop, Ratio(85, 100)), Ratio(95, 100)) > estimatedBitrate &&
                now - timeOfLastLargeDrop < 5_000_000 && now - old(lastBweDropProbingTime) > 5_000_000
      ensures probes != [] ==>
                probes[0].target == Min(Scale(bitrateBeforeLastLargeDrop, Ratio(85, 100)), Cap())
    {
      probes := [];
      if alrStartTime.Some? || (alrEndTime.Some? && now - alrEndTime.value < ALR_ENDED_TIMEOUT) {
        if phase.ProbingComplete? {
          var suggested := Scale(bitrateBeforeLastLargeDrop, FRACTION_AFTER_DROP);
          if Scale(suggested, CERTAIN_FRACTION) > estimatedBitrate && now - timeOfLastLargeDrop < BITRATE_DROP_TIMEOUT &&
             now - lastBweDropProbingTime > MIN_TIME_BETWEEN_ALR_PROBES {
            lastBweDropProbingTime := now;
            probes := InitiateProbing(now, [suggested], false, false);
          }
        }
      }
    }

    /** More bitrate allocated while the application is limited: one or two probes. */
    method OnMaxTotalAllocatedBitrate(allocatedTotal: nat, now: int) returns (probes: seq<Probe>)
      requires Valid()
      modifies this
      ensures Valid() && sent == old(sent) + probes && maxBitrate == old(maxBitrate) && |probes| <= 2
      ensures maxTotalAllocatedBitrate == allocatedTotal
      ensures forall i :: 0 <= i < |probes| ==> probes[i].target <= maxBitrate
      ensures forall i :: 0 <= i < |probes| && allocatedTotal > 0 ==> probes[i].target <= 2 * allocatedTotal
      ensures probes != [] <==>
                old(phase).ProbingComplete? && !Blocks(cause) && alrStartTime.Some? &&
                allocatedTotal != old(maxTotalAllocatedBitrate) && estimatedBitrate < maxBitrate &&
                estimatedBitrate < allocatedTotal
      ensures probes != [] && !relayPath ==>
                probes[0].target == Min(Min(allocatedTotal, 2 * estimatedBitrate), Cap()) &&
                |probes| == (if allocatedTotal < 2 * estimatedBitrate then 2 else 1) &&
                (|probes| == 2 ==> probes[1].target == Min(2 * estimatedBitrate, Cap()))
    {
      hide Chain, IdsAscend, AllBelow, ProfileOf, AllocationProbes, Scale, Exceeds, Growth, ProbesFor;
      AllocationMeans(estimatedBitrate, allocatedTotal);
      probes := [];
      if phase.ProbingComplete? && allocatedTotal != maxTotalAllocatedBitrate && estimatedBitrate < maxBitrate &&
         estimatedBitrate < allocatedTotal && alrStartTime.Some? {
        maxTotalAllocatedBitrate := allocatedTotal;
        var (rates, further) := AllocationProbes(estimatedBitrate, allocatedTotal, relayPath);
        probes := InitiateProbing(now, rates, further, false);
        return;
      }
      if allocatedTotal != 0 {
        lastAllowedRepeatedInitialProbe := now;
      }
      maxTotalAllocatedBitrate := allocatedTotal;
    }
  }
}
