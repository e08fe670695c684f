/**
 What repeated estimates make of a probe whose result is awaited: a chain of further probes,
 one at a time, which a fixed maximum bounds.
 */
module ProbeChain {
  import opened Options
  import opened Units
  import opened ProbeModel

  datatype Phase = Init | WaitingForProbingResult | ProbingComplete

  datatype Cause = LossLimitedIncreasing | LossLimited | DelayBasedLimited | DelayIncreased | BackOffHighRtt

  datatype Probe = Probe(id: nat, target: int, at: int)

  predicate Blocks(c: Cause) {
    c.LossLimited? || c.DelayIncreased? || c.BackOffHighRtt?
  }

  /** The part of the controller that estimates look at and change. */
  datatype Awaiting = Awaiting(
    phase: Phase,
    minBitrateToProbeFurther: Option<int>,
    cause: Cause,
    estimatedBitrate: int,
    maxBitrate: int,
    maxTotalAllocatedBitrate: int,
    relayPath: bool,
    nextProbeClusterId: nat)

  /** The highest rate a probe may aim at. */
  function CapOf(maxBitrate: int, maxTotalAllocatedBitrate: int, cause: Cause, estimate: int, relayPath: bool): (r: int)
    ensures r <= maxBitrate
  {
    var allocatedTotal :=
      if maxTotalAllocatedBitrate > 0 then Min(maxBitrate, maxTotalAllocatedBitrate * 2) else maxBitrate;
    if cause.LossLimitedIncreasing? then Min(allocatedTotal, Scale(estimate, ProfileOf(relayPath).lossLimited))
    else allocatedTotal
  }

  /** The cap is the least of what applies: the maximum, twice what is allocated if anything is, and
      while the estimate grows under losses one and a half times the estimate, relayed one and a
      quarter. */
  lemma CapIsLeast(maxBitrate: int, total: int, cause: Cause, estimate: int, relayPath: bool)
    ensures var cap := CapOf(maxBitrate, total, cause, estimate, relayPath);
            var grown := Scale(estimate, if relayPath then Ratio(5, 4) else Ratio(3, 2));
            cap <= maxBitrate && (total > 0 ==> cap <= 2 * total) &&
            (cause.LossLimitedIncreasing? ==> cap <= grown) &&
            (cap == maxBitrate || (total > 0 && cap == 2 * total) ||
             (cause.LossLimitedIncreasing? && cap == grown))
  {
    hide Scale;
  }

  /** `SetEstimatedBitrate`. */
  function Estimated(s: Awaiting, bitrate: nat, cause: Cause, now: int): (Awaiting, seq<Probe>) {
    var s1 := s.(cause := cause, estimatedBitrate := bitrate);
    var profile := ProfileOf(s.relayPath);
    var rate := Scale(bitrate, profile.further);
    var cap := CapOf(s.maxBitrate, s.maxTotalAllocatedBitrate, cause, bitrate, s.relayPath);
    if s.phase.WaitingForProbingResult? && s.minBitrateToProbeFurther.Some? &&
       bitrate > s.minBitrateToProbeFurther.value && !Blocks(cause) then
      var below := rate < cap;
      (s1.(phase := if below then WaitingForProbingResult else ProbingComplete,
           minBitrateToProbeFurther := if below then Some(Scale(rate, profile.threshold)) else None,
           nextProbeClusterId := s.nextProbeClusterId + 1),
       [Probe(s.nextProbeClusterId, Min(rate, cap), now)])
    else (s1, [])
  }

  datatype Report = Report(bitrate: nat, cause: Cause, now: int)

  /** The probes started by a run of estimates. */
  function FurtherProbes(s: Awaiting, reports: seq<Report>): seq<Probe>
    decreases |reports|
  {
    if reports == [] then []
    else
      var (t, probes) := Estimated(s, reports[0].bitrate, reports[0].cause, reports[0].now);
      probes + FurtherProbes(t, reports[1..])
  }

  /** The result of a probe at `target` is awaited. */
  predicate Awaits(s: Awaiting, target: int) {
    target >= 0 && s.phase.WaitingForProbingResult? &&
    s.minBitrateToProbeFurther == Some(Scale(target, ProfileOf(s.relayPath).threshold))
  }

  function Targets(probes: seq<Probe>): (r: seq<int>)
    ensures |r| == |probes| && forall i :: 0 <= i < |r| ==> r[i] == probes[i].target
  {
    seq(|probes|, i requires 0 <= i < |probes| => probes[i].target)
  }

  /** Once nothing is awaited, estimates start no probe. */
  lemma {:induction false} NothingFurther(s: Awaiting, reports: seq<Report>)
    requires !s.phase.WaitingForProbingResult?
    ensures FurtherProbes(s, reports) == []
    decreases |reports|
  {
    if reports != [] {
      NothingFurther(Estimated(s, reports[0].bitrate, reports[0].cause, reports[0].now).0, reports[1..]);
    }
  }

  /** One estimate leaves the awaited target, extends the chain by a target that has grown, or
      probes at the cap and ends it. */
  lemma EstimateStep(s: Awaiting, target: int, bitrate: nat, cause: Cause, now: int)
    requires Awaits(s, target)
    ensures var (t, probes) := Estimated(s, bitrate, cause, now);
            t.maxBitrate == s.maxBitrate && t.relayPath == s.relayPath &&
            (|| (probes == [] && Awaits(t, target) && t.phase.WaitingForProbingResult?)
             || (|probes| == 1 && Awaits(t, probes[0].target) && t.phase.WaitingForProbingResult? && probes[0].target < s.maxBitrate &&
                 Exceeds(probes[0].target, target, Growth(s.relayPath)))
             || (|probes| == 1 && !t.phase.WaitingForProbingResult?))
  {
    hide Scale, Exceeds, Growth;
    ScaleNonNegative(bitrate, ProfileOf(s.relayPath).further);
    if bitrate > s.minBitrateToProbeFurther.value {
      FurtherProbeGrows(s.relayPath, target, bitrate);
    }
  }

  /** Targets below the maximum that, behind `target`, form a chain; the last probe aside. */
  predicate ChainBelow(target: int, probes: seq<Probe>, r: Ratio, max: int) {
    probes != [] ==>
      Chain([target] + Targets(probes[..|probes| - 1]), r) &&
      forall i :: 0 <= i < |probes| - 1 ==> probes[i].target < max
  }

  lemma ChainBelowPrepend(target: int, p: Probe, rest: seq<Probe>, r: Ratio, max: int)
    requires ChainBelow(p.target, rest, r, max) && target >= 0
    requires Exceeds(p.target, target, r) && p.target < max
    ensures ChainBelow(target, [p] + rest, r, max)
  {
    hide Exceeds;
    if rest == [] {
      LastAlone(target, p, r, max);
    } else {
      var front := rest[..|rest| - 1];
      ChainPrepend(target, [p.target] + Targets(front), r);
      assert ([p] + rest)[..|rest|] == [p] + front;
      assert [target] + Targets([p] + front) == [target] + ([p.target] + Targets(front));
    }
  }

  lemma LastAlone(target: int, p: Probe, r: Ratio, max: int)
    requires target >= 0
    ensures ChainBelow(target, [p], r, max)
  {
  }

  /** All further probes but the last, which may be at the cap, form a chain from the awaited
      target that stays below the maximum. */
  lemma {:induction false} FurtherProbesChain(s: Awaiting, target: int, reports: seq<Report>)
    requires Awaits(s, target)
    ensures ChainBelow(target, FurtherProbes(s, reports), Growth(s.relayPath), s.maxBitrate)
    decreases |reports|
  {
    hide Estimated, Scale, Exceeds, Growth, Awaits, Chain;
    if reports != [] {
      hide ChainBelow;
      var (t, first) := Estimated(s, reports[0].bitrate, reports[0].cause, reports[0].now);
      var rest := FurtherProbes(t, reports[1..]);
      EstimateStep(s, target, reports[0].bitrate, reports[0].cause, reports[0].now);
      AwaitedNonNegative(s, target);
      if !t.phase.WaitingForProbingResult? {
        NothingFurther(t, reports[1..]);
        LastAlone(target, first[0], Growth(s.relayPath), s.maxBitrate);
        assert first + rest == [first[0]];
      } else if first == [] {
        FurtherProbesChain(t, target, reports[1..]);
        assert first + rest == rest;
      } else {
        FurtherProbesChain(t, first[0].target, reports[1..]);
        ChainBelowPrepend(target, first[0], rest, Growth(s.relayPath), s.maxBitrate);
        assert first + rest == [first[0]] + rest;
      }
    }
  }

  lemma AwaitedNonNegative(s: Awaiting, target: int)
    requires Awaits(s, target)
    ensures target >= 0 && s.phase.WaitingForProbingResult?
  {
  }

  lemma ChainPrepend(first: int, targets: seq<int>, r: Ratio)
    requires targets != [] && first >= 0 && Chain(targets, r) && Exceeds(targets[0], first, r)
    ensures Chain([first] + targets, r)
  {
    hide Exceeds;
    var longer := [first] + targets;
    forall i | 0 < i < |longer|
      ensures Exceeds(longer[i], longer[i - 1], r)
    {
      assert i == 1 || Exceeds(targets[i - 1], targets[i - 2], r);
    }
  }

  /** However the estimates come, under a fixed profile and maximum the number of further
      probes is bounded: growth to the power of all but the last two times the awaited target
      stays below the maximum. */
  lemma FurtherProbesEnd(s: Awaiting, target: int, reports: seq<Report>)
    requires Awaits(s, target)
    ensures var n, r := |FurtherProbes(s, reports)|, Growth(s.relayPath);
            n >= 2 ==> Power(r.num, n - 1) * target < Power(r.den, n - 1) * s.maxBitrate &&
                       n - 1 < s.maxBitrate - target
  {
    hide Estimated, Scale, Exceeds, Growth, Awaits, Power, FurtherProbes;
    FurtherProbesChain(s, target, reports);
    var probes := FurtherProbes(s, reports);
    if |probes| >= 2 {
      var targets := [target] + Targets(probes[..|probes| - 1]);
      assert targets[|targets| - 1] == probes[|probes| - 2].target;
      ChainEnds(targets, s.relayPath, s.maxBitrate);
      ChainLength(targets, s.relayPath);
    }
  }
}
