/** Sums over the values of a finite map, by any weight. */
module Totals {

  ghost function Sum<T>(m: map<nat, T>, weight: T -> int): int
    decreases |m|
  {
    if m == map[] then 0
    else
      var k :| k in m;
      weight(m[k]) + Sum(m - {k}, weight)
  }

  /** The sum does not depend on the order in which the keys are picked. */
  lemma {:induction false} SumSplit<T>(m: map<nat, T>, weight: T -> int, k: nat)
    requires k in m
    ensures Sum(m, weight) == weight(m[k]) + Sum(m - {k}, weight)
    decreases |m|
  {
    var j :| j in m && Sum(m, weight) == weight(m[j]) + Sum(m - {j}, weight);
    if j != k {
      SumSplit(m - {j}, weight, k);
      SumSplit(m - {k}, weight, j);
      assert m - {j} - {k} == m - {k} - {j};
    }
  }

  /** Writing one key replaces that key's share of the sum. */
  lemma SumUpdate<T>(m: map<nat, T>, weight: T -> int, k: nat, value: T)
    ensures Sum(m[k := value], weight)
         == Sum(m, weight) + weight(value) - (if k in m then weight(m[k]) else 0)
  {
    var m' := m[k := value];
    SumSplit(m', weight, k);
    assert m' - {k} == m - {k};
    if k in m {
      SumSplit(m, weight, k);
    } else {
      assert m - {k} == m;
    }
  }

  lemma {:induction false} SumNonNegative<T>(m: map<nat, T>, weight: T -> int)
    requires forall k :: k in m ==> weight(m[k]) >= 0
    ensures Sum(m, weight) >= 0
    decreases |m|
  {
    if m != map[] {
      var k :| k in m && Sum(m, weight) == weight(m[k]) + Sum(m - {k}, weight);
      SumNonNegative(m - {k}, weight);
    }
  }
}
