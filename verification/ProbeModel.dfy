/**
 Arithmetic of bandwidth probing: scaled rates, the two path profiles, and why a chain of
 further probes ends.
 */
module ProbeModel {
  /** A scale factor as an exact fraction. */
  datatype Ratio = Ratio(num: nat, den: nat)

  predicate Proper(r: Ratio) {
    r.den > 0
  }

  type Factor = r: Ratio | Proper(r) witness Ratio(1, 1)

  /** `DataRate * double`: rounded to the nearest bit per second. */
  function Scale(rate: int, r: Ratio): int
    requires Proper(r)
  {
    (2 * rate * r.num + r.den) / (2 * r.den)
  }

  /** The result is the nearest whole rate. */
  lemma ScaleIsNearest(rate: nat, r: Ratio)
    requires Proper(r)
    ensures -(r.den as int) <= 2 * (r.den * Scale(rate, r) - rate * r.num) <= r.den
  {
    var x, d := 2 * rate * r.num + r.den, 2 * r.den;
    assert x == d * (x / d) + x % d;
  }

  datatype Profile = Profile(
    first: Factor,
    second: Factor,
    further: Factor,
    threshold: Factor,
    alr: Factor,
    secondAllocation: Factor,
    allocationLimit: Factor,
    lossLimited: Factor,
    repeatedPeriod: int,
    alrInterval: int)

  /** The defaults, for a direct path. */
  const DIRECT := Profile(Ratio(3, 1), Ratio(6, 1), Ratio(2, 1), Ratio(7, 10), Ratio(2, 1), Ratio(2, 1), Ratio(2, 1),
                          Ratio(3, 2), 5_000_000, 5_000_000)

  /** The gentler profile for a relayed path. */
  const RELAY := Profile(Ratio(2, 1), Ratio(4, 1), Ratio(3, 2), Ratio(17, 20), Ratio(3, 2), Ratio(3, 2), Ratio(3, 2),
                         Ratio(5, 4), 3_000_000, 8_000_000)

  function ProfileOf(relayPath: bool): Profile {
    if relayPath then RELAY else DIRECT
  }

  /** How much a further probe exceeds the one before, at least: 1.4 or 1.275. */
  function Growth(relayPath: bool): Ratio {
    if relayPath then Ratio(51, 40) else Ratio(7, 5)
  }

  /** Strictly more than `r` times as much. */
  predicate Exceeds(next: int, before: int, r: Ratio) {
    next * r.den > before * r.num
  }

  /** A measured rate above the threshold of the last target leads to a target that exceeds
      it by the growth factor. */
  lemma FurtherProbeGrows(relayPath: bool, target: nat, measured: int)
    requires measured > Scale(target, ProfileOf(relayPath).threshold)
    ensures Exceeds(Scale(measured, ProfileOf(relayPath).further), target, Growth(relayPath))
  {
    var p := ProfileOf(relayPath);
    if relayPath {
      assert Scale(target, p.threshold) == (34 * target + 20) / 40;
      assert Scale(measured, p.further) == (6 * measured + 2) / 4;
    } else {
      assert Scale(target, p.threshold) == (14 * target + 10) / 20;
      assert Scale(measured, p.further) == (4 * measured + 1) / 2;
    }
  }

  // ---------------------------------------------------------------------------
  // Chains

  function Power(base: nat, n: nat): nat {
    if n == 0 then 1 else base * Power(base, n - 1)
  }

  /** Targets of consecutive further probes, each exceeding the one before. */
  predicate Chain(targets: seq<int>, r: Ratio) {
    (forall i :: 0 <= i < |targets| ==> targets[i] >= 0) &&
    forall i :: 0 < i < |targets| ==> Exceeds(targets[i], targets[i - 1], r)
  }

  lemma ChainExtends(targets: seq<int>, next: int, r: Ratio)
    requires Chain(targets, r) && next >= 0
    requires targets != [] ==> Exceeds(next, targets[|targets| - 1], r)
    ensures Chain(targets + [next], r)
  {
    hide Exceeds;
    var longer := targets + [next];
    forall i | 0 < i < |longer|
      ensures Exceeds(longer[i], longer[i - 1], r)
    {
      assert i == |targets| || Exceeds(targets[i], targets[i - 1], r);
    }
  }

  lemma ChainTargets(targets: seq<int>, r: Ratio)
    requires Chain(targets, r)
    ensures forall i :: 0 <= i < |targets| ==> targets[i] >= 0
  {
  }

  lemma EmptyChain(r: Ratio)
    ensures Chain([], r)
  {
  }

  lemma ScaleNonNegative(rate: nat, r: Ratio)
    requires Proper(r)
    ensures Scale(rate, r) >= 0
  {
  }

  lemma {:induction false} ChainGrows(targets: seq<int>, r: Ratio)
    requires targets != [] && Chain(targets, r)
    ensures Power(r.num, |targets| - 1) * targets[0] <= Power(r.den, |targets| - 1) * targets[|targets| - 1]
    decreases |targets|
  {
    var n := |targets| - 1;
    if n > 0 {
      ChainGrows(targets[..n], r);
      var a, b, c := targets[0], targets[n - 1], targets[n];
      GrowStep(Power(r.num, n - 1), Power(r.den, n - 1), a, b, c, r);
    }
  }

  lemma GrowStep(p: nat, q: nat, a: nat, b: nat, c: nat, r: Ratio)
    requires p * a <= q * b && c * r.den > b * r.num
    ensures (r.num * p) * a <= (r.den * q) * c
  {
    MulMono(p * a, q * b, r.num);
    MulMono(b * r.num, c * r.den, q);
    assert (r.num * p) * a == r.num * (p * a);
    assert r.num * (q * b) == q * (b * r.num);
    assert q * (c * r.den) == (r.den * q) * c;
  }

  lemma MulMono(a: int, b: int, c: nat)
    requires a <= b
    ensures c * a <= c * b
  {
  }

  /** A chain below a cap is short: `growth^n * first < cap`, n being its number of further
      probes; and from a positive target it is strictly increasing. */
  lemma ChainEnds(targets: seq<int>, relayPath: bool, cap: int)
    requires targets != [] && Chain(targets, Growth(relayPath)) && targets[|targets| - 1] < cap
    ensures var r, n := Growth(relayPath), |targets| - 1;
            Power(r.num, n) * targets[0] < Power(r.den, n) * cap
  {
    var r, n := Growth(relayPath), |targets| - 1;
    ChainGrows(targets, r);
    PowerPositive(r.den, n);
    StrictMono(targets[n], cap, Power(r.den, n));
  }

  lemma {:induction false} PowerPositive(base: nat, n: nat)
    requires base > 0
    ensures Power(base, n) > 0
  {
    if n > 0 {
      PowerPositive(base, n - 1);
    }
  }

  lemma StrictMono(a: int, b: int, c: nat)
    requires a < b && c > 0
    ensures c * a < c * b
  {
  }

  /** In whole numbers: a chain has at most as many further probes as there are rates between
      its first target and the cap. */
  lemma {:induction false} ChainLength(targets: seq<int>, relayPath: bool)
    requires targets != [] && Chain(targets, Growth(relayPath))
    ensures targets[|targets| - 1] >= targets[0] + |targets| - 1
    decreases |targets|
  {
    var n := |targets| - 1;
    if n > 0 {
      ChainLength(targets[..n], relayPath);
      assert Exceeds(targets[n], targets[n - 1], Growth(relayPath));
    }
  }
}
