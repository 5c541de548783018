/** Sums over the entries of a finite map, whatever the order of the keys. */
module Sums {

  ghost function SumBy<K(!new), V(!new)>(m: map<K, V>, weight: (K, V) -> int): int
    decreases |m|
  {
    if m == map[] then 0
    else
      var k :| k in m;
      weight(k, m[k]) + SumBy(m - {k}, weight)
  }

  /** The sum does not depend on which key is taken first. */
  lemma {:induction false} SumSplit<K(!new), V(!new)>(m: map<K, V>, weight: (K, V) -> int, k: K)
    requires k in m
    ensures SumBy(m, weight) == weight(k, m[k]) + SumBy(m - {k}, weight)
    decreases |m|
  {
    var first :| first in m && SumBy(m, weight) == weight(first, m[first]) + SumBy(m - {first}, weight);
    if first != k {
      SumSplit(m - {first}, weight, k);
      SumSplit(m - {k}, weight, first);
      assert m - {first} - {k} == m - {k} - {first};
    }
  }

  /** What a write at one key does to the sum. */
  lemma SumUpdate<K(!new), V(!new)>(m: map<K, V>, weight: (K, V) -> int, k: K, v: V)
    ensures SumBy(m[k := v], weight)
         == SumBy(m, weight) - (if k in m then weight(k, m[k]) else 0) + weight(k, v)
  {
    SumSplit(m[k := v], weight, k);
    if k in m {
      SumSplit(m, weight, k);
      assert m[k := v] - {k} == m - {k};
    } else {
      assert m[k := v] - {k} == m;
    }
  }

  /** With no negative weights, each one is at most the sum. */
  lemma {:induction false} SumMember<K(!new), V(!new)>(m: map<K, V>, weight: (K, V) -> int, k: K)
    requires k in m && forall x :: x in m ==> weight(x, m[x]) >= 0
    ensures weight(k, m[k]) <= SumBy(m, weight)
  {
    SumSplit(m, weight, k);
    SumNonNegative(m - {k}, weight);
  }

  lemma {:induction false} SumNonNegative<K(!new), V(!new)>(m: map<K, V>, weight: (K, V) -> int)
    requires forall x :: x in m ==> weight(x, m[x]) >= 0
    ensures SumBy(m, weight) >= 0
    decreases |m|
  {
    if m != map[] {
      var k :| k in m;
      SumSplit(m, weight, k);
      SumNonNegative(m - {k}, weight);
    }
  }
}
