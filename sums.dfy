/** Sums over the values of a finite map.

    The report adds up dictionary values (the user tally, the per-host
    session counters, the durations still owed by open records); these
    lemmas let the rest of the model reason about such sums one key at a
    time, independently of the order in which a dictionary is iterated.
 */
module Sums {

  /** The sum of all values of `m`. */
  ghost function Total<K>(m: map<K, int>): int
    decreases |m|
  {
    if m == map[] then 0 else var k :| k in m; m[k] + Total(m - {k})
  }

  /** Any key may be taken out first: the sum does not depend on the order. */
  lemma {:induction false} TotalRemove<K>(m: map<K, int>, k: K)
    requires k in m
    ensures Total(m) == m[k] + Total(m - {k})
    decreases |m|
  {
    var j :| j in m && Total(m) == m[j] + Total(m - {j});
    if j != k {
      TotalRemove(m - {j}, k);
      TotalRemove(m - {k}, j);
      assert m - {j} - {k} == m - {k} - {j};
    }
  }

  /** Setting one key changes the sum by the difference of the values. */
  lemma TotalUpdate<K>(m: map<K, int>, k: K, v: int)
    ensures Total(m[k := v]) == Total(m) - (if k in m then m[k] else 0) + v
  {
    TotalRemove(m[k := v], k);
    assert m[k := v] - {k} == m - {k};
    if k in m {
      TotalRemove(m, k);
    } else {
      assert m - {k} == m;
    }
  }

  /** A map of non-negative values has a non-negative sum. */
  lemma {:induction false} TotalNonneg<K>(m: map<K, int>)
    requires forall k | k in m :: m[k] >= 0
    ensures Total(m) >= 0
    decreases |m|
  {
    if m != map[] {
      var k :| k in m;
      TotalRemove(m, k);
      TotalNonneg(m - {k});
    }
  }

  /** A map whose values are all zero sums to zero. */
  lemma {:induction false} TotalZero<K>(m: map<K, int>)
    requires forall k | k in m :: m[k] == 0
    ensures Total(m) == 0
    decreases |m|
  {
    if m != map[] {
      var k :| k in m;
      TotalRemove(m, k);
      TotalZero(m - {k});
    }
  }

  /** A map of non-negative values with one positive value has a positive sum. */
  lemma TotalPositive<K>(m: map<K, int>, k: K)
    requires forall j | j in m :: m[j] >= 0
    requires k in m && m[k] > 0
    ensures Total(m) > 0
  {
    TotalRemove(m, k);
    TotalNonneg(m - {k});
  }
}
