/**
 Wrapping 16-bit RTP sequence numbers: the differences and comparators of
 mod_ops.h and sequence_number_util.h, and the unwrapper built on them.

 Everything here is about one question: when may a comparison of two 16-bit
 values be read as a comparison of the unbounded counters they came from?
 */
module SeqNum {

  const MODULUS: int := 0x1_0000
  const HALF: int := 0x8000

  /** A `uint16_t`. */
  type Seq16 = x: int | 0 <= x < 0x1_0000

  /** Conversion of an unbounded counter to `uint16_t`. */
  function Wrap(n: int): Seq16 {
    n % MODULUS
  }

  /** `ForwardDiff<uint16_t, 0>`: the unsigned subtraction `b - a`. */
  function ForwardDiff(a: Seq16, b: Seq16): Seq16 {
    Wrap(b - a)
  }

  /** `ReverseDiff<uint16_t, 0>`: the unsigned subtraction `a - b`. */
  function ReverseDiff(a: Seq16, b: Seq16): Seq16 {
    Wrap(a - b)
  }

  /** `AheadOrAt<uint16_t, 0>`. The operands of `a - b` promote to `int`, so the
      first test is a test of the signed difference. */
  predicate AheadOrAt(a: Seq16, b: Seq16) {
    if a - b == HALF then b < a else ForwardDiff(b, a) < HALF
  }

  predicate AheadOf(a: Seq16, b: Seq16) {
    a != b && AheadOrAt(a, b)
  }

  /** `IsNewer<uint16_t>` of sequence_number_compare.h. */
  predicate IsNewer(value: Seq16, previous: Seq16) {
    if value - previous == HALF then value > previous
    else value != previous && Wrap(value - previous) < HALF
  }

  /** Forward and reverse distance complement each other, and walking the forward
      distance from `a` arrives at `b`. */
  lemma DiffsComplement(a: Seq16, b: Seq16)
    ensures Wrap(a + ForwardDiff(a, b)) == b
    ensures ReverseDiff(b, a) == ForwardDiff(a, b)
    ensures a != b ==> ForwardDiff(a, b) + ReverseDiff(a, b) == MODULUS
  {
    assert b - a == (if b >= a then 0 else -1) * MODULUS + ForwardDiff(a, b);
  }

  /** Exactly one of two different numbers is ahead, also at distance 0x8000, and
      the two spellings of the comparison in the code base agree. */
  lemma AheadIsTotal(a: Seq16, b: Seq16)
    ensures IsNewer(a, b) == AheadOf(a, b)
    ensures a != b ==> (AheadOf(a, b) <==> !AheadOf(b, a))
  {
  }

  /** The comparator reads as integer order exactly as long as the counters are less
      than half the number space apart. */
  lemma AheadWithinHalf(x: int, y: int)
    requires -HALF < x - y < HALF
    ensures AheadOf(Wrap(x), Wrap(y)) <==> x > y
    ensures AheadOrAt(Wrap(x), Wrap(y)) <==> x >= y
    ensures Wrap(x) == Wrap(y) <==> x == y
  {
    var a: int, b: int := Wrap(x), Wrap(y);
    var qx, qy := x / MODULUS, y / MODULUS;
    assert x == qx * MODULUS + a && y == qy * MODULUS + b;
    assert x - y == (qx - qy) * MODULUS + (a - b);
    assert qx - qy == 0 || qx - qy == 1 || qx - qy == -1;
    assert ForwardDiff(b, a) == (x - y) % MODULUS;
  }

  /** One step further and it no longer does: at every distance from HALF + 1 up to
      MODULUS - 1 the larger counter compares as older. */
  lemma AheadBeyondHalfReverses(x: int, y: int)
    requires HALF < x - y < MODULUS
    ensures AheadOf(Wrap(y), Wrap(x)) && !AheadOf(Wrap(x), Wrap(y))
  {
    AheadWithinHalf(y + MODULUS, x);
    assert Wrap(y + MODULUS) == Wrap(y);
    AheadIsTotal(Wrap(x), Wrap(y));
  }

  /** The counters `lo, lo + 1, ..` up to but excluding `lo + HALF`, as 16-bit values. */
  predicate InHalfWindow(lo: int, s: Seq16) {
    ForwardDiff(Wrap(lo), s) < HALF
  }

  /** The counter in the window of `lo` that a 16-bit value stands for. */
  function Lift(lo: int, s: Seq16): (n: int)
    ensures lo <= n < lo + MODULUS && Wrap(n) == s
    ensures InHalfWindow(lo, s) <==> n < lo + HALF
  {
    var n := lo + ForwardDiff(Wrap(lo), s);
    assert n % MODULUS == s by {
      DiffsComplement(Wrap(lo), s);
      assert n == (lo / MODULUS) * MODULUS + (Wrap(lo) + ForwardDiff(Wrap(lo), s));
    }
    n
  }

  /** Inside one half window the comparator is the strict order of the counters, so it
      is a strict total order there. */
  lemma ComparatorIsOrderInWindow(lo: int, a: Seq16, b: Seq16)
    requires InHalfWindow(lo, a) && InHalfWindow(lo, b)
    ensures AheadOf(a, b) <==> Lift(lo, a) > Lift(lo, b)
  {
    AheadWithinHalf(Lift(lo, a), Lift(lo, b));
  }

  /** It is not an order on all of `uint16_t`: three numbers can each be ahead of the
      next around the circle. */
  lemma ComparatorIsNotTransitive()
    ensures AheadOf(30000, 0) && AheadOf(60000, 30000) && AheadOf(0, 60000)
  {
  }

  // ---------------------------------------------------------------------------
  // SeqNumUnwrapper<uint16_t>

  /** `last_value_` (absent before the first number) and `last_unwrapped_`. */
  datatype Unwrapper = Fresh | Started(lastValue: Seq16, lastUnwrapped: int)

  /** `SeqNumUnwrapper::Delta`. */
  function Delta(last: Seq16, next: Seq16): int {
    var result := ForwardDiff(last, next);
    if AheadOrAt(next, last) then result else result - MODULUS
  }

  function PeekUnwrap(u: Unwrapper, value: Seq16): int {
    match u
    case Fresh => value
    case Started(last, unwrapped) => unwrapped + Delta(last, value)
  }

  function Unwrap(u: Unwrapper, value: Seq16): (Unwrapper, int) {
    var n := PeekUnwrap(u, value);
    (Started(value, n), n)
  }

  /** The value held and its unwrapped form agree modulo 2^16. */
  predicate Coherent(u: Unwrapper) {
    u.Started? ==> Wrap(u.lastUnwrapped) == u.lastValue
  }

  /** An unwrapped number is congruent to the value and is the closest such number to
      the previous one (the tie at 0x8000 goes to the numerically larger value). */
  lemma UnwrapIsNearest(u: Unwrapper, value: Seq16)
    requires Coherent(u)
    ensures Coherent(Unwrap(u, value).0)
    ensures Wrap(Unwrap(u, value).1) == value
    ensures u.Started? ==> -HALF <= Unwrap(u, value).1 - u.lastUnwrapped <= HALF
  {
    if u.Started? {
      var d := Delta(u.lastValue, value);
      var n := u.lastUnwrapped + d;
      var q := u.lastUnwrapped / MODULUS;
      assert u.lastUnwrapped == q * MODULUS + u.lastValue;
      assert d == value - u.lastValue || d == value - u.lastValue + MODULUS
             || d == value - u.lastValue - MODULUS;
      assert n == q * MODULUS + value || n == (q + 1) * MODULUS + value
             || n == (q - 1) * MODULUS + value;
    }
  }

  /** A step of less than half the number space is read off the 16-bit forms. */
  lemma DeltaIsStep(previous: int, c: int)
    requires -HALF < c - previous < HALF
    ensures Delta(Wrap(previous), Wrap(c)) == c - previous
  {
    AheadWithinHalf(c, previous);
    var qp, qc := previous / MODULUS, c / MODULUS;
    assert previous == qp * MODULUS + Wrap(previous) && c == qc * MODULUS + Wrap(c);
    assert c - previous == (qc - qp) * MODULUS + (Wrap(c) - Wrap(previous));
    assert ForwardDiff(Wrap(previous), Wrap(c)) == (c - previous) % MODULUS;
  }

  /** All unwrapped numbers of a run. */
  function UnwrapAll(u: Unwrapper, values: seq<Seq16>): seq<int>
    decreases values
  {
    if values == [] then []
    else
      var (v, n) := Unwrap(u, values[0]);
      [n] + UnwrapAll(v, values[1..])
  }

  function WrapAll(counters: seq<int>): (r: seq<Seq16>)
    ensures |r| == |counters| && forall i :: 0 <= i < |r| ==> r[i] == Wrap(counters[i])
  {
    if counters == [] then [] else [Wrap(counters[0])] + WrapAll(counters[1..])
  }

  /** Each counter is less than half the number space from the one before it. */
  predicate SmallSteps(previous: int, counters: seq<int>)
    decreases counters
  {
    counters == [] ||
    (-HALF < counters[0] - previous < HALF && SmallSteps(counters[0], counters[1..]))
  }

  /** Round trip: unwrapping the 16-bit forms of any run of counters with small steps
      gives the counters back, shifted by the constant error of the starting point. */
  lemma {:induction false} UnwrapRecovers(u: Unwrapper, previous: int, counters: seq<int>)
    requires u.Started? && u.lastValue == Wrap(previous)
    requires SmallSteps(previous, counters)
    ensures |UnwrapAll(u, WrapAll(counters))| == |counters|
    ensures forall i :: 0 <= i < |counters| ==>
              UnwrapAll(u, WrapAll(counters))[i] == counters[i] + (u.lastUnwrapped - previous)
    decreases counters
  {
    if counters != [] {
      var c := counters[0];
      DeltaIsStep(previous, c);
      var values := WrapAll(counters);
      assert values[0] == Wrap(c) && values[1..] == WrapAll(counters[1..]);
      UnwrapRecovers(Unwrap(u, Wrap(c)).0, c, counters[1..]);
    }
  }
}
