/** A binary min-heap over a sequence of keys, and what a sift repairs (container/heap, as pool.go uses it). */
module PoolHeap {

  function Parent(i: nat): nat
    requires i > 0
  {
    (i - 1) / 2
  }

  predicate Ordered(p: seq<real>) {
    forall k :: 1 <= k < |p| ==> p[Parent(k)] <= p[k]
  }

  /** In order but for `j`, which may be smaller than its parent. */
  predicate UpBroken(p: seq<real>, j: nat) {
    && (forall k :: 1 <= k < |p| && k != j ==> p[Parent(k)] <= p[k])
    && (forall k :: 1 <= k < |p| && Parent(k) == j && j > 0 ==> p[Parent(j)] <= p[k])
  }

  /** In order but for `i`, which may be larger than its children. */
  predicate DownBroken(p: seq<real>, i: nat) {
    && (forall k :: 1 <= k < |p| && Parent(k) != i ==> p[Parent(k)] <= p[k])
    && (forall k :: 1 <= k < |p| && Parent(k) == i && i > 0 ==> p[Parent(i)] <= p[k])
  }

  /** In order but for `i`, either way. */
  predicate Broken(p: seq<real>, i: nat) {
    && (forall k :: 1 <= k < |p| && k != i && Parent(k) != i ==> p[Parent(k)] <= p[k])
    && (forall k :: 1 <= k < |p| && Parent(k) == i && i > 0 ==> p[Parent(i)] <= p[k])
  }

  function Swapped<T>(s: seq<T>, i: nat, j: nat): (r: seq<T>)
    requires i < |s| && j < |s|
    ensures |r| == |s|
  {
    s[i := s[j]][j := s[i]]
  }

  /** The root is a minimum of the whole heap. */
  lemma {:induction false} RootIsLeast(p: seq<real>, k: nat)
    requires Ordered(p) && k < |p|
    ensures p[0] <= p[k]
    decreases k
  {
    if k > 0 {
      RootIsLeast(p, Parent(k));
    }
  }

  lemma UpStep(p: seq<real>, j: nat)
    requires 0 < j < |p| && UpBroken(p, j) && p[j] < p[Parent(j)]
    ensures UpBroken(Swapped(p, Parent(j), j), Parent(j))
  {
    var i := Parent(j);
    var q := Swapped(p, i, j);
    forall k | 1 <= k < |q| && k != i ensures q[Parent(k)] <= q[k] {
      assert i == 0 || p[Parent(i)] <= p[i];
    }
    forall k | 1 <= k < |q| && Parent(k) == i && i > 0 ensures q[Parent(i)] <= q[k] {
      assert p[Parent(i)] <= p[i];
      assert k != j ==> p[i] <= p[k];
    }
  }

  lemma UpDone(p: seq<real>, j: nat)
    requires j < |p| && UpBroken(p, j) && (j == 0 || p[Parent(j)] <= p[j])
    ensures Ordered(p)
  {
  }

  /** The smaller child of `i` goes up. */
  lemma DownStep(p: seq<real>, i: nat, j: nat)
    requires i < j < |p| && Parent(j) == i && Broken(p, i) && p[j] < p[i]
    requires forall k :: 1 <= k < |p| && Parent(k) == i ==> p[j] <= p[k]
    requires i == 0 || p[Parent(i)] <= p[j]
    ensures DownBroken(Swapped(p, i, j), j)
  {
    var q := Swapped(p, i, j);
    forall k | 1 <= k < |q| && Parent(k) != j ensures q[Parent(k)] <= q[k] {
    }
    forall k | 1 <= k < |q| && Parent(k) == j ensures q[Parent(j)] <= q[k] {
      assert k != i && k != j && Parent(k) != i;
      assert p[j] <= p[k];
    }
  }
}
