/** Adding up a map of counters. */
module Sums {

  ghost function Sum(m: map<string, int>): int
    decreases |m|
  {
    if m == map[] then 0 else
      var k :| k in m;
      m[k] + Sum(m - {k})
  }

  /** The sum does not depend on the order. */
  lemma {:induction false} SumRemove(m: map<string, int>, k: string)
    requires k in m
    ensures Sum(m) == m[k] + Sum(m - {k})
    decreases |m|
  {
    var l :| l in m && Sum(m) == m[l] + Sum(m - {l});
    if l != k {
      SumRemove(m - {l}, k);
      SumRemove(m - {k}, l);
      assert m - {l} - {k} == m - {k} - {l};
    }
  }

  function At(m: map<string, int>, k: string): int { if k in m then m[k] else 0 }

  lemma SumUpdate(m: map<string, int>, k: string, v: int)
    ensures Sum(m[k := v]) == Sum(m) - At(m, k) + v
  {
    SumRemove(m[k := v], k);
    assert m[k := v] - {k} == m - {k};
    if k in m {
      SumRemove(m, k);
    } else {
      assert m - {k} == m;
    }
  }

  /** The keys with something left. */
  function Positive(m: map<string, int>): set<string> { set k | k in m && m[k] > 0 }

  predicate NonNegative(m: map<string, int>) { forall k <- m :: m[k] >= 0 }

  /** A smaller map sums to less. */
  lemma {:induction false} SumMonotone(m: map<string, int>, n: map<string, int>)
    requires m.Keys == n.Keys && forall k <- m :: m[k] <= n[k]
    ensures Sum(m) <= Sum(n)
    decreases |m|
  {
    if m != map[] {
      var k :| k in m;
      SumRemove(m, k);
      SumRemove(n, k);
      SumMonotone(m - {k}, n - {k});
    }
  }

  predicate EachAtMost(m: map<string, int>, n: nat, c: int) { forall k <- m :: m[k] * n <= c }

  lemma Distribute(a: int, b: int, n: int)
    ensures (a + b) * n == a * n + b * n
  {
  }

  lemma PositiveRemove(m: map<string, int>, k: string)
    requires k in m
    ensures |Positive(m)| == |Positive(m - {k})| + if m[k] > 0 then 1 else 0
  {
    if m[k] > 0 {
      assert Positive(m) == Positive(m - {k}) + {k};
    } else {
      assert Positive(m) == Positive(m - {k});
    }
  }

  /** Counters of at most c / n each sum to at most c / n times the number of positive ones. */
  lemma {:induction false} SumAtMost(m: map<string, int>, n: nat, c: int)
    requires NonNegative(m) && EachAtMost(m, n, c)
    ensures Sum(m) * n <= |Positive(m)| * c
    decreases |m|
  {
    if m != map[] {
      var k :| k in m;
      var rest := m - {k};
      SumRemove(m, k);
      PositiveRemove(m, k);
      SumAtMost(rest, n, c);
      Distribute(m[k], Sum(rest), n);
      assert m[k] * n <= c && 0 <= m[k];
      hide Sum, Positive, EachAtMost, NonNegative;
      if m[k] > 0 {
        Distribute(|Positive(rest)|, 1, c);
      }
    }
  }

  /** Pigeonhole: a sum of at least `c` over its positive counters has one of at least the average. */
  lemma SomeAtLeastAverage(m: map<string, int>, c: int) returns (k: string)
    requires NonNegative(m) && 0 < c <= Sum(m)
    ensures k in Positive(m) && m[k] * |Positive(m)| >= c
  {
    var n := |Positive(m)|;
    if EachAtMost(m, n, c - 1) {
      SumAtMost(m, n, c - 1);
      if n == 0 {
        assert Positive(m) == {};
        assert EachAtMost(m, 1, 0) by { forall l | l in m ensures m[l] == 0 { assert l !in Positive(m); } }
        SumAtMost(m, 1, 0);
      }
      Smaller(Sum(m), n, c - 1);
      assert false;
    } else {
      k :| k in m && m[k] * n > c - 1;
      assert m[k] != 0;
    }
  }

  lemma Smaller(a: int, n: nat, b: int)
    requires n > 0 && a * n <= n * b
    ensures a <= b
  {
    assert (a - b) * n <= 0;
  }
}
