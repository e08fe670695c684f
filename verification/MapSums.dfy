/**
 Sums over the values of a finite map, used wherever the program caches a total
 that a walk over a table would also give.
 */
module MapSums {

  lemma RemoveShrinks<K, V>(m: map<K, V>, k: K)
    requires k in m
    ensures |m - {k}| == |m| - 1
  {
    assert (m - {k}).Keys == m.Keys - {k};
    assert |(m - {k}).Keys| == |m.Keys| - 1;
  }

  ghost function Sum<K(!new)>(m: map<K, int>): int
    decreases |m|
  {
    if m == map[] then 0
    else
      var k :| k in m;
      RemoveShrinks(m, k);
      m[k] + Sum(m - {k})
  }

  /** The total does not depend on the order in which keys are visited. */
  lemma {:induction false} SumSplit<K(!new)>(m: map<K, int>, k: K)
    requires k in m
    ensures Sum(m) == m[k] + Sum(m - {k})
    decreases |m|
  {
    var j :| j in m && Sum(m) == (RemoveShrinks(m, j); m[j] + Sum(m - {j}));
    if j != k {
      RemoveShrinks(m, j);
      RemoveShrinks(m, k);
      SumSplit(m - {j}, k);
      SumSplit(m - {k}, j);
      assert m - {j} - {k} == m - {k} - {j};
    }
  }

  lemma SumUpdate<K(!new)>(m: map<K, int>, k: K, v: int)
    ensures Sum(m[k := v]) == Sum(m) + v - (if k in m then m[k] else 0)
  {
    SumSplit(m[k := v], k);
    if k in m {
      SumSplit(m, k);
      assert m[k := v] - {k} == m - {k};
    } else {
      assert m[k := v] - {k} == m;
    }
  }

  lemma SumRemove<K(!new)>(m: map<K, int>, k: K)
    ensures Sum(m - {k}) == Sum(m) - (if k in m then m[k] else 0)
  {
    if k in m {
      SumSplit(m, k);
    } else {
      assert m - {k} == m;
    }
  }

  lemma {:induction false} SumOfZeros<K(!new)>(m: map<K, int>)
    requires forall k :: k in m ==> m[k] == 0
    ensures Sum(m) == 0
    decreases |m|
  {
    if m != map[] {
      var k :| k in m;
      SumSplit(m, k);
      RemoveShrinks(m, k);
      SumOfZeros(m - {k});
    }
  }

  /** A sum of non-negative values is at least any one of them. */
  lemma {:induction false} SumAtLeast<K(!new)>(m: map<K, int>)
    requires forall k :: k in m ==> m[k] >= 0
    ensures Sum(m) >= 0
    ensures forall k :: k in m ==> Sum(m) >= m[k]
    decreases |m|
  {
    forall k | k in m
      ensures Sum(m) >= m[k] && Sum(m) >= 0
    {
      SumSplit(m, k);
      RemoveShrinks(m, k);
      SumAtLeast(m - {k});
    }
  }

  /** A positive total has a positive contributor. */
  lemma PositiveSumHasKey<K(!new)>(m: map<K, int>) returns (k: K)
    requires Sum(m) > 0
    ensures k in m && m[k] > 0
  {
    if forall j :: j in m ==> m[j] <= 0 {
      SumNonPositive(m);
      assert false;
    }
    k :| k in m && m[k] > 0;
  }

  lemma {:induction false} SumNonPositive<K(!new)>(m: map<K, int>)
    requires forall k :: k in m ==> m[k] <= 0
    ensures Sum(m) <= 0
    decreases |m|
  {
    if m != map[] {
      var k :| k in m;
      SumSplit(m, k);
      RemoveShrinks(m, k);
      SumNonPositive(m - {k});
    }
  }
}
