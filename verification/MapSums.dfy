/** Sums over the entries of a map, independent of the order of iteration. */
module MapSums {
  ghost function MapSum<K, V>(m: map<K, V>, w: (K, V) -> int): int
    decreases |m|
  {
    if m == map[] then 0 else
    var k :| k in m;
    assert |m - {k}| < |m| by { Smaller(m, k); }
    w(k, m[k]) + MapSum(m - {k}, w)
  }

  lemma Smaller<K, V>(m: map<K, V>, k: K)
    requires k in m
    ensures |m - {k}| == |m| - 1
  {
  }

  /** Any entry can be taken out first. */
  lemma {:induction false} TakeOut<K, V>(m: map<K, V>, k: K, w: (K, V) -> int)
    requires k in m
    ensures MapSum(m, w) == w(k, m[k]) + MapSum(m - {k}, w)
    decreases |m|
  {
    var l :| l in m && MapSum(m, w) == w(l, m[l]) + MapSum(m - {l}, w);
    if l != k {
      Smaller(m, l);
      Smaller(m, k);
      TakeOut(m - {l}, k, w);
      TakeOut(m - {k}, l, w);
      assert m - {l} - {k} == m - {k} - {l};
    }
  }

  /** Putting in an entry adds its weight and takes away the replaced one's. */
  lemma PutIn<K, V>(m: map<K, V>, k: K, v: V, w: (K, V) -> int)
    ensures MapSum(m[k := v], w) == MapSum(m, w) + w(k, v) - if k in m then w(k, m[k]) else 0
  {
    TakeOut(m[k := v], k, w);
    if k in m {
      TakeOut(m, k, w);
      assert m[k := v] - {k} == m - {k};
    } else {
      assert m[k := v] - {k} == m;
    }
  }

  lemma SurplusOfFewer<K, V>(m: map<K, V>, w: (K, V) -> int, v: (K, V) -> int, c: int, k: K)
    requires forall l <- m :: w(l, m[l]) == v(l, m[l]) + c
    ensures forall l <- m - {k} :: w(l, (m - {k})[l]) == v(l, (m - {k})[l]) + c
  {
  }

  lemma SurplusOfMore<K, V>(m: map<K, V>, w: (K, V) -> int, v: (K, V) -> int, c: int, k: K, more: int)
    requires k in m && w(k, m[k]) == v(k, m[k]) + c && MapSum(m - {k}, w) == MapSum(m - {k}, v) + more
    ensures MapSum(m, w) == MapSum(m, v) + (more + c)
  {
    TakeOut(m, k, w);
    TakeOut(m, k, v);
  }

  lemma OneMore(c: int, n: int)
    ensures c * (n - 1) + c == c * n
  {
  }

  /** A constant surplus per entry adds up to that many times the size. */
  lemma {:induction false} Surplus<K, V>(m: map<K, V>, w: (K, V) -> int, v: (K, V) -> int, c: int)
    requires forall k <- m :: w(k, m[k]) == v(k, m[k]) + c
    ensures MapSum(m, w) == MapSum(m, v) + c * |m|
    decreases |m|
  {
    if m != map[] {
      var k :| k in m;
      Smaller(m, k);
      SurplusOfFewer(m, w, v, c, k);
      Surplus(m - {k}, w, v, c);
      SurplusOfMore(m, w, v, c, k, c * |m - {k}|);
      OneMore(c, |m|);
    }
  }
}
