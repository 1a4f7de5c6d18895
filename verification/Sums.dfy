/** Sums of integer weights over a sequence. */
module Sums {
  ghost function Sum<T>(ts: seq<T>, w: T -> int): int {
    if ts == [] then 0 else Sum(ts[..|ts| - 1], w) + w(ts[|ts| - 1])
  }

  lemma {:induction false} SumUpdate<T>(ts: seq<T>, i: nat, t: T, w: T -> int)
    requires i < |ts|
    ensures Sum(ts[i := t], w) == Sum(ts, w) - w(ts[i]) + w(t)
  {
    var n := |ts| - 1;
    if i < n {
      assert ts[i := t][..n] == ts[..n][i := t];
      SumUpdate(ts[..n], i, t, w);
    } else {
      assert ts[i := t][..n] == ts[..n];
    }
  }

  lemma SumAppend<T>(ts: seq<T>, t: T, w: T -> int)
    ensures Sum(ts + [t], w) == Sum(ts, w) + w(t)
  {
  }

  /** A smaller weight has a smaller sum, by at least the gap at any one place. */
  lemma {:induction false} SumBelow<T>(ts: seq<T>, w: T -> int, v: T -> int, i: nat)
    requires forall t <- ts :: w(t) <= v(t)
    requires i < |ts|
    ensures Sum(ts, w) + v(ts[i]) - w(ts[i]) <= Sum(ts, v)
  {
    var n := |ts| - 1;
    if i < n {
      SumBelow(ts[..n], w, v, i);
    } else if n > 0 {
      SumBelow(ts[..n], w, v, 0);
    }
  }

  lemma {:induction false} SumOfZeros<T>(ts: seq<T>, w: T -> int)
    requires forall t <- ts :: w(t) == 0
    ensures Sum(ts, w) == 0
  {
    if ts != [] {
      SumOfZeros(ts[..|ts| - 1], w);
    }
  }

  /** No weight exceeds the sum of non-negative weights. */
  lemma SumAtLeast<T>(ts: seq<T>, w: T -> int, i: nat)
    requires forall t <- ts :: w(t) >= 0
    requires i < |ts|
    ensures w(ts[i]) <= Sum(ts, w)
  {
    SumOfZeros(ts, _ => 0);
    SumBelow(ts, _ => 0, w, i);
  }
}
