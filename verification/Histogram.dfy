/**
 The reordering histogram: a circular buffer of recent values with a count per
 bucket, and the inverse of its cumulative distribution.
 */
module ReorderingHistogram {

  function CountOf(values: seq<nat>, v: nat): nat {
    if values == [] then 0 else (if values[0] == v then 1 else 0) + CountOf(values[1..], v)
  }

  lemma {:induction false} CountAppend(a: seq<nat>, b: seq<nat>, v: nat)
    ensures CountOf(a + b, v) == CountOf(a, v) + CountOf(b, v)
  {
    if a == [] {
      assert a + b == b;
    } else {
      assert (a + b)[1..] == a[1..] + b;
      CountAppend(a[1..], b, v);
    }
  }

  lemma CountReplace(values: seq<nat>, i: nat, x: nat, v: nat)
    requires i < |values|
    ensures CountOf(values[i := x], v) ==
            CountOf(values, v) - (if values[i] == v then 1 else 0) + if x == v then 1 else 0
  {
    assert values == values[..i] + ([values[i]] + values[i + 1..]);
    assert values[i := x] == values[..i] + ([x] + values[i + 1..]);
    CountAppend(values[..i], [values[i]] + values[i + 1..], v);
    CountAppend(values[..i], [x] + values[i + 1..], v);
  }

  /** The number of values in the first `k` buckets. */
  function Cumulative(buckets: seq<nat>, k: nat): nat
    requires k <= |buckets|
  {
    if k == 0 then 0 else Cumulative(buckets, k - 1) + buckets[k - 1]
  }

  /** The number of values below `k`. */
  function CountBelow(values: seq<nat>, k: nat): nat {
    if values == [] then 0 else (if values[0] < k then 1 else 0) + CountBelow(values[1..], k)
  }

  lemma {:induction false} CountBelowStep(values: seq<nat>, k: nat)
    ensures CountBelow(values, k + 1) == CountBelow(values, k) + CountOf(values, k)
  {
    if values != [] {
      CountBelowStep(values[1..], k);
    }
  }

  lemma {:induction false} NoneBelowZero(values: seq<nat>)
    ensures CountBelow(values, 0) == 0
  {
    if values != [] {
      NoneBelowZero(values[1..]);
    }
  }

  /** The first buckets hold the values below them. */
  lemma {:induction false} CumulativeIsCountBelow(values: seq<nat>, buckets: seq<nat>, k: nat)
    requires k <= |buckets|
    requires forall v :: 0 <= v < |buckets| ==> buckets[v] == CountOf(values, v)
    ensures Cumulative(buckets, k) == CountBelow(values, k)
  {
    if k == 0 {
      NoneBelowZero(values);
    } else {
      CumulativeIsCountBelow(values, buckets, k - 1);
      CountBelowStep(values, k - 1);
    }
  }

  predicate Counts(values: seq<nat>, buckets: seq<nat>) {
    forall v :: 0 <= v < |buckets| ==> buckets[v] == CountOf(values, v)
  }

  lemma ReplaceCounts(values: seq<nat>, buckets: seq<nat>, i: nat, x: nat)
    requires i < |values| && x < |buckets| && values[i] < |buckets|
    requires Counts(values, buckets) && buckets[values[i]] > 0
    ensures var b := buckets[values[i] := buckets[values[i]] - 1];
            Counts(values[i := x], b[x := b[x] + 1])
  {
    var b := buckets[values[i] := buckets[values[i]] - 1];
    var r := b[x := b[x] + 1];
    forall v | 0 <= v < |r|
      ensures r[v] == CountOf(values[i := x], v)
    {
      CountReplace(values, i, x, v);
    }
  }

  lemma AppendCounts(values: seq<nat>, buckets: seq<nat>, x: nat)
    requires x < |buckets| && Counts(values, buckets)
    ensures Counts(values + [x], buckets[x := buckets[x] + 1])
  {
    var r := buckets[x := buckets[x] + 1];
    forall v | 0 <= v < |r|
      ensures r[v] == CountOf(values + [x], v)
    {
      CountAppend(values, [x], v);
      assert CountOf([x], v) == (if x == v then 1 else 0) + CountOf([], v);
    }
  }

  /** Overwriting the oldest value of a full buffer is dropping it and appending. */
  lemma ReplaceRotates(values: seq<nat>, i: nat, x: nat)
    requires i < |values|
    ensures var next := if i + 1 == |values| then 0 else i + 1;
            values[i := x][next..] + values[i := x][..next] == ((values[i..] + values[..i]) + [x])[1..]
  {
  }

  /** The last `capacity` values, oldest first, when one more is added, clipped to the last
      of `numBuckets` buckets. */
  function Added(recent: seq<nat>, value: nat, numBuckets: nat, capacity: nat): seq<nat>
    requires numBuckets > 0
  {
    var all := recent + [if value < numBuckets then value else numBuckets - 1];
    if |all| <= capacity then all else all[1..]
  }

  /** The least number of buckets that hold at least the fraction `num / den` of the values,
      or all buckets. */
  predicate IsInverseCdf(values: seq<nat>, numBuckets: nat, num: nat, den: nat, bucket: nat) {
    bucket <= numBuckets &&
    (bucket < numBuckets ==> CountBelow(values, bucket) * den >= num * |values|) &&
    forall k :: 0 <= k < bucket ==> CountBelow(values, k) * den < num * |values|
  }

  class Histogram {
    const capacity: nat
    var values: seq<nat>
    var buckets: seq<nat>
    var index: nat

    /** The buckets count the values held, and the buffer is overwritten oldest first. */
    ghost predicate Valid()
      reads this
    {
      capacity > 0 && |buckets| > 0 && |values| <= capacity &&
      (if |values| < capacity then index == |values| else index < capacity) &&
      (forall i :: 0 <= i < |values| ==> values[i] < |buckets|) &&
      Counts(values, buckets)
    }

    /** The values held, oldest first. */
    function Recent(): seq<nat>
      requires index <= |values|
      reads this
    {
      values[index..] + values[..index]
    }

    constructor (numBuckets: nat, maxNumValues: nat)
      requires numBuckets > 0 && maxNumValues > 0
      ensures Valid() && values == [] && |buckets| == numBuckets && capacity == maxNumValues
    {
      capacity := maxNumValues;
      buckets := seq(numBuckets, _ => 0);
      values, index := [], 0;
    }

    /** The histogram holds the last `capacity` values added, clipped to the last bucket. */
    method Add(value: nat)
      requires Valid()
      modifies this
      ensures Valid() && |buckets| == old(|buckets|)
      ensures Recent() == Added(old(Recent()), value, |buckets|, capacity)
    {
      var clipped := if value < |buckets| - 1 then value else |buckets| - 1;
      if index < |values| {
        Overwrite(clipped);
      } else {
        Extend(clipped);
      }
    }

    method Overwrite(value: nat)
      requires Valid() && index < |values| && value < |buckets|
      modifies this
      ensures Valid() && |buckets| == old(|buckets|)
      ensures Recent() == (old(Recent()) + [value])[1..] && |values| == capacity
    {
      hide CountOf, Counts;
      ReplaceRotates(values, index, value);
      HeldIsCounted(values, index, buckets);
      ReplaceCounts(values, buckets, index, value);
      buckets := buckets[values[index] := buckets[values[index]] - 1];
      values := values[index := value];
      buckets := buckets[value := buckets[value] + 1];
      index := Advance(index);
    }

    method Extend(value: nat)
      requires Valid() && index == |values| < capacity && value < |buckets|
      modifies this
      ensures Valid() && |buckets| == old(|buckets|)
      ensures Recent() == old(Recent()) + [value] && |values| == old(|values|) + 1
    {
      hide CountOf, Counts;
      AppendCounts(values, buckets, value);
      assert Recent() == values;
      values := values + [value];
      buckets := buckets[value := buckets[value] + 1];
      index := Advance(index);
      assert values[0..] + values[..0] == values && values[|values|..] + values[..|values|] == values;
    }

    /** `(index + 1) % capacity`. */
    function Advance(i: nat): (r: nat)
      requires i < capacity
      ensures r == if i + 1 == capacity then 0 else i + 1
    {
      (i + 1) % capacity
    }

    /** The least number of buckets that hold at least the fraction `num / den` of the
        values; all of them if the fraction is above one. */
    method InverseCdf(num: nat, den: nat) returns (bucket: nat)
      requires Valid() && den > 0 && |values| > 0
      ensures IsInverseCdf(values, |buckets|, num, den, bucket)
    {
      bucket := 0;
      var accumulated := 0;
      NoneBelowZero(values);
      while accumulated * den < num * |values| && bucket < |buckets|
        invariant bucket <= |buckets| && accumulated == CountBelow(values, bucket)
        invariant forall k :: 0 <= k < bucket ==> CountBelow(values, k) * den < num * |values|
      {
        CountBelowStep(values, bucket);
        accumulated := accumulated + buckets[bucket];
        bucket := bucket + 1;
      }
    }
  }

  /** The bucket of a value held is not empty. */
  lemma HeldIsCounted(values: seq<nat>, i: nat, buckets: seq<nat>)
    requires i < |values| && values[i] < |buckets| && Counts(values, buckets)
    ensures buckets[values[i]] > 0
  {
    CountReplace(values, i, values[i] + 1, values[i]);
  }
}
