/** Sums of a weight over the values of a finite map, independent of the order in which a bucket is scanned. */
module Totals {

  ghost function Total<K, V>(m: map<K, V>, weight: V -> nat): nat
  {
    if m == map[] then 0
    else
      var k :| k in m;
      weight(m[k]) + Total(m - {k}, weight)
  }

  lemma {:induction false} TotalRemove<K, V>(m: map<K, V>, k: K, weight: V -> nat)
    requires k in m
    ensures Total(m, weight) == weight(m[k]) + Total(m - {k}, weight)
    decreases |m|
  {
    var j :| j in m && Total(m, weight) == weight(m[j]) + Total(m - {j}, weight);
    if j != k {
      TotalRemove(m - {j}, k, weight);
      TotalRemove(m - {k}, j, weight);
      assert (m - {j}) - {k} == (m - {k}) - {j};
    }
  }

  lemma TotalPut<K, V>(m: map<K, V>, k: K, v: V, weight: V -> nat)
    ensures Total(m[k := v], weight) == weight(v) + Total(m - {k}, weight)
    ensures k !in m ==> Total(m[k := v], weight) == weight(v) + Total(m, weight)
    ensures k in m ==> Total(m[k := v], weight) + weight(m[k]) == Total(m, weight) + weight(v)
  {
    TotalRemove(m[k := v], k, weight);
    assert m[k := v] - {k} == m - {k};
    if k in m {
      TotalRemove(m, k, weight);
    } else {
      assert m - {k} == m;
    }
  }

  lemma SizeRemove<K, V>(m: map<K, V>, k: K)
    ensures |m - {k}| == if k in m then |m| - 1 else |m|
  {
  }

  lemma SizePut<K, V>(m: map<K, V>, k: K, v: V)
    ensures |m[k := v]| == if k in m then |m| else |m| + 1
  {
  }

  predicate IsLeast(k: nat, keys: set<nat>) {
    k in keys && forall j :: j in keys ==> k <= j
  }

  /** A cursor over a non-empty bucket of numbered keys has a first key. */
  lemma LeastExists(keys: set<nat>)
    requires keys != {}
    ensures exists k :: k in keys && IsLeast(k, keys)
  {
    var k :| k in keys;
    LeastBelow(keys, k);
  }

  lemma {:induction false} LeastBelow(keys: set<nat>, k: nat)
    requires k in keys
    ensures exists l :: l in keys && IsLeast(l, keys)
    decreases k
  {
    if j :| j in keys && j < k {
      LeastBelow(keys, j);
    } else {
      assert IsLeast(k, keys);
    }
  }
}
