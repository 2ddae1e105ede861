/** Byte-wise string order, as Go compares strings and Pebble compares keys. */
module Lex {

  predicate Less(a: string, b: string) {
    if b == [] then false
    else if a == [] then true
    else a[0] < b[0] || (a[0] == b[0] && Less(a[1..], b[1..]))
  }

  lemma {:induction false} Irreflexive(a: string)
    ensures !Less(a, a)
    decreases |a|
  {
    if a != [] {
      Irreflexive(a[1..]);
    }
  }

  lemma {:induction false} Transitive(a: string, b: string, c: string)
    requires Less(a, b) && Less(b, c)
    ensures Less(a, c)
    decreases |a|
  {
    if a != [] && a[0] == b[0] && b[0] == c[0] {
      Transitive(a[1..], b[1..], c[1..]);
    }
  }

  lemma {:induction false} Total(a: string, b: string)
    ensures Less(a, b) || a == b || Less(b, a)
    decreases |a|
  {
    if a != [] && b != [] {
      Total(a[1..], b[1..]);
      assert a == [a[0]] + a[1..] && b == [b[0]] + b[1..];
    }
  }

  lemma Asymmetric(a: string, b: string)
    requires Less(a, b)
    ensures a != b && !Less(b, a)
  {
    Irreflexive(a);
    if Less(b, a) {
      Transitive(a, b, a);
    }
  }

  /** A common prefix does not affect the order. */
  lemma {:induction false} CommonPrefix(p: string, a: string, b: string)
    ensures Less(p + a, p + b) == Less(a, b)
    decreases |p|
  {
    if p == [] {
      assert p + a == a && p + b == b;
    } else {
      assert (p + a)[1..] == p[1..] + a && (p + b)[1..] == p[1..] + b;
      CommonPrefix(p[1..], a, b);
    }
  }

  /** Strings of one length that differ are ordered whatever follows them. */
  lemma {:induction false} SameWidth(a: string, b: string, x: string, y: string)
    requires |a| == |b| && Less(a, b)
    ensures Less(a + x, b + y)
    decreases |a|
  {
    assert (a + x)[1..] == a[1..] + x && (b + y)[1..] == b[1..] + y;
    if a[0] == b[0] {
      SameWidth(a[1..], b[1..], x, y);
    }
  }

  predicate IsLeast(ks: set<string>, m: string) {
    m in ks && forall k <- ks :: k == m || Less(m, k)
  }

  lemma LeastExists(ks: set<string>) returns (m: string)
    requires ks != {}
    ensures IsLeast(ks, m)
    decreases |ks|
  {
    var x :| x in ks;
    var rest := ks - {x};
    assert ks == rest + {x};
    if rest == {} {
      m := x;
    } else {
      var y := LeastExists(rest);
      Total(x, y);
      m := if Less(x, y) then x else y;
      forall k | k in ks ensures k == m || Less(m, k) {
        if Less(x, y) && k != x && k != y { Transitive(x, y, k); }
      }
    }
  }

  function Least(ks: set<string>): (m: string)
    requires ks != {}
    ensures IsLeast(ks, m)
  {
    assert exists m :: IsLeast(ks, m) by { var m := LeastExists(ks); }
    assert forall a, b :: IsLeast(ks, a) && IsLeast(ks, b) ==> a == b by {
      forall a, b | IsLeast(ks, a) && IsLeast(ks, b) ensures a == b {
        if a != b { Asymmetric(a, b); }
      }
    }
    var m :| m in ks && IsLeast(ks, m);
    m
  }

  /** The keys an iterator over `ks` visits, in order. */
  function InOrder(ks: set<string>): (s: seq<string>)
    decreases |ks|
  {
    if ks == {} then [] else var m := Least(ks); [m] + InOrder(ks - {m})
  }

  lemma {:induction false} InOrderVisits(ks: set<string>)
    ensures forall k :: k in InOrder(ks) <==> k in ks
    ensures forall i, j :: 0 <= i < j < |InOrder(ks)| ==> Less(InOrder(ks)[i], InOrder(ks)[j])
    decreases |ks|
  {
    if ks != {} {
      InOrderVisits(ks - {Least(ks)});
    }
  }
}
