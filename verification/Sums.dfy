/** Sums over the values of a finite map. */
module Sums {
  ghost function MapSum<K>(m: map<K, int>): int {
    if m == map[] then 0
    else
      var k :| k in m;
      m[k] + MapSum(m - {k})
  }

  /** The sum does not depend on the order in which keys are taken out. */
  lemma {:induction false} MapSumRemove<K>(m: map<K, int>, k: K)
    requires k in m
    ensures MapSum(m) == m[k] + MapSum(m - {k})
    decreases |m|
  {
    var j :| j in m && MapSum(m) == m[j] + MapSum(m - {j});
    if j != k {
      MapSumRemove(m - {j}, k);
      MapSumRemove(m - {k}, j);
      assert m - {j} - {k} == m - {k} - {j};
    }
  }

  lemma MapSumUpdate<K>(m: map<K, int>, k: K, v: int)
    ensures MapSum(m[k := v]) == MapSum(m) + v - if k in m then m[k] else 0
  {
    var n := m[k := v];
    MapSumRemove(n, k);
    if k in m {
      MapSumRemove(m, k);
      assert n - {k} == m - {k};
    } else {
      assert n - {k} == m;
    }
  }

  /** Adding the same amount everywhere adds it once per key. */
  lemma {:induction false} MapSumShift<K>(m: map<K, int>, n: map<K, int>, c: int)
    requires m.Keys == n.Keys
    requires forall k :: k in m ==> n[k] == m[k] + c
    ensures MapSum(n) == MapSum(m) + c * |m|
    decreases |m|
  {
    if m != map[] {
      var k :| k in m;
      MapSumRemove(m, k);
      MapSumRemove(n, k);
      assert (m - {k}).Keys == m.Keys - {k};
      assert |m.Keys| == |m|;
      assert |m - {k}| == |m| - 1;
      MapSumShift(m - {k}, n - {k}, c);
      LessOne(c, |m|);
    } else {
      assert n == map[];
    }
  }

  lemma LessOne(c: int, n: int)
    ensures c * (n - 1) == c * n - c
  {
  }

  lemma {:induction false} MapSumNonNegative<K>(m: map<K, int>)
    requires forall k :: k in m ==> m[k] >= 0
    ensures MapSum(m) >= 0
    ensures forall k :: k in m ==> m[k] <= MapSum(m)
    decreases |m|
  {
    forall k | k in m
      ensures 0 <= m[k] <= MapSum(m)
    {
      MapSumRemove(m, k);
      MapSumNonNegative(m - {k});
    }
  }

  /** Quotients and remainders of the same dividends, summed. */
  lemma {:induction false} MapSumDivided<K>(m: map<K, int>, q: map<K, int>, r: map<K, int>, c: int, t: int)
    requires m.Keys == q.Keys == r.Keys
    requires forall k :: k in m ==> q[k] * c + r[k] == t * m[k]
    ensures MapSum(q) * c + MapSum(r) == t * MapSum(m)
    decreases |m|
  {
    if m == map[] {
      assert q == map[] && r == map[];
    } else {
      var k :| k in m;
      MapSumRemove(m, k);
      MapSumRemove(q, k);
      MapSumRemove(r, k);
      MapSumDivided(m - {k}, q - {k}, r - {k}, c, t);
      AddDivided(q[k], r[k], m[k], MapSum(q - {k}), MapSum(r - {k}), MapSum(m - {k}), c, t);
    }
  }

  lemma AddDivided(q: int, r: int, m: int, qs: int, rs: int, ms: int, c: int, t: int)
    requires q * c + r == t * m && qs * c + rs == t * ms
    ensures (q + qs) * c + (r + rs) == t * (m + ms)
  {
  }

  lemma {:induction false} MapSumBounded<K>(m: map<K, int>, c: int)
    requires forall k :: k in m ==> m[k] <= c
    ensures MapSum(m) <= c * |m|
    decreases |m|
  {
    if m != map[] {
      var k :| k in m;
      MapSumRemove(m, k);
      assert |m.Keys| == |m|;
      assert (m - {k}).Keys == m.Keys - {k};
      assert |m - {k}| == |m| - 1;
      MapSumBounded(m - {k}, c);
      LessOne(c, |m|);
    }
  }

  lemma SubsetSize<T>(a: set<T>, b: set<T>)
    requires a <= b
    ensures |a| <= |b|
  {
    assert b == a + (b - a);
  }
}
