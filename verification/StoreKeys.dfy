/**
 * The keys of the Pebble store (internal/storage/pebble.go:287-310): four families of byte strings, and
 * what their order means.
 */
module StoreKeys {
  import Lex

  function Pow16(w: nat): (p: nat)
    ensures p > 0
  {
    if w == 0 then 1 else 16 * Pow16(w - 1)
  }

  const WIDTH := 16

  /** A value %016x prints in sixteen digits. */
  predicate Fits(n: int) { 0 <= n < Pow16(WIDTH) }

  function Digit(d: nat): (c: char)
    requires d < 16
  {
    if d < 10 then '0' + d as char else 'a' + (d - 10) as char
  }

  /** `n` in hexadecimal, `w` digits. */
  function Hex(n: nat, w: nat): (s: string)
    ensures |s| == w
  {
    if w == 0 then [] else Hex(n / 16, w - 1) + [Digit(n % 16)]
  }

  function Hex16(n: int): (s: string)
    requires Fits(n)
    ensures |s| == 16
  {
    Hex(n, WIDTH)
  }

  function JobKey(id: string): string { "job:" + id }
  function IdemKey(hash: string): string { "idem:" + hash }

  function ExpKey(e: int, id: string): string
    requires Fits(e)
  {
    "exp:" + Hex16(e) + ":" + id
  }

  function ExpBound(e: int): string
    requires Fits(e)
  {
    "exp:" + Hex16(e)
  }

  predicate NulFree(s: string) { '\0' !in s }

  function QueuePrefix(key: string): string { "qk:" + key + "\0" }

  function QueueIndexKey(key: string, createdAt: int, id: string): string
    requires Fits(createdAt)
  {
    QueuePrefix(key) + (Hex16(createdAt) + ":" + id)
  }

  function QueueIndexBound(key: string, createdAt: int): string
    requires Fits(createdAt)
  {
    QueuePrefix(key) + Hex16(createdAt)
  }

  function QueueEnd(key: string): string { "qk:" + key + "\U{1}" }

  // ---- fixed-width hexadecimal keeps the order ----

  lemma {:induction false} HexOrder(a: nat, b: nat, w: nat)
    requires a < b < Pow16(w)
    ensures Lex.Less(Hex(a, w), Hex(b, w))
    decreases w
  {
    if a / 16 < b / 16 {
      HexOrder(a / 16, b / 16, w - 1);
      Lex.SameWidth(Hex(a / 16, w - 1), Hex(b / 16, w - 1), [Digit(a % 16)], [Digit(b % 16)]);
    } else {
      Lex.CommonPrefix(Hex(a / 16, w - 1), [Digit(a % 16)], [Digit(b % 16)]);
    }
  }

  lemma HexInjective(a: int, b: int)
    requires Fits(a) && Fits(b) && Hex16(a) == Hex16(b)
    ensures a == b
  {
    if a < b {
      HexOrder(a, b, WIDTH);
      Lex.Irreflexive(Hex16(a));
    } else if b < a {
      HexOrder(b, a, WIDTH);
      Lex.Irreflexive(Hex16(a));
    }
  }

  /** Fixed-width numbers, then a separator, then an id: ordered by number, then id. */
  lemma NumberedOrder(a: int, x: string, b: int, y: string)
    requires Fits(a) && Fits(b)
    ensures Lex.Less(Hex16(a) + ":" + x, Hex16(b) + ":" + y) <==> a < b || (a == b && Lex.Less(x, y))
  {
    var p, q := Hex16(a) + ":" + x, Hex16(b) + ":" + y;
    assert p == Hex16(a) + (":" + x) && q == Hex16(b) + (":" + y);
    if a < b {
      HexOrder(a, b, WIDTH);
      Lex.SameWidth(Hex16(a), Hex16(b), ":" + x, ":" + y);
    } else if b < a {
      HexOrder(b, a, WIDTH);
      Lex.SameWidth(Hex16(b), Hex16(a), ":" + y, ":" + x);
      Lex.Asymmetric(q, p);
    } else {
      Lex.CommonPrefix(Hex16(a) + ":", x, y);
    }
  }

  /** A numbered string is before a bound exactly when its number is. */
  lemma BoundOrder(a: int, x: string, b: int)
    requires Fits(a) && Fits(b)
    ensures Lex.Less(Hex16(a) + ":" + x, Hex16(b)) <==> a < b
  {
    var p := Hex16(a) + ":" + x;
    assert p == Hex16(a) + (":" + x) && Hex16(b) == Hex16(b) + [];
    if a < b {
      HexOrder(a, b, WIDTH);
      Lex.SameWidth(Hex16(a), Hex16(b), ":" + x, []);
    } else if b < a {
      HexOrder(b, a, WIDTH);
      Lex.SameWidth(Hex16(b), Hex16(a), [], ":" + x);
      Lex.Asymmetric(Hex16(b), p);
    } else {
      Lex.CommonPrefix(Hex16(a), ":" + x, []);
    }
  }

  // ---- the families are apart, and every key says what it is for ----

  lemma SplitNumbered(a: int, x: string, b: int, y: string)
    requires Fits(a) && Fits(b) && Hex16(a) + ":" + x == Hex16(b) + ":" + y
    ensures a == b && x == y
  {
    var p, q := Hex16(a) + ":" + x, Hex16(b) + ":" + y;
    assert p[..16] == Hex16(a) && q[..16] == Hex16(b);
    assert p[17..] == x && q[17..] == y;
    HexInjective(a, b);
  }

  lemma ExpKeyInjective(a: int, x: string, b: int, y: string)
    requires Fits(a) && Fits(b) && ExpKey(a, x) == ExpKey(b, y)
    ensures a == b && x == y
  {
    assert ExpKey(a, x)[4..] == Hex16(a) + ":" + x;
    assert ExpKey(b, y)[4..] == Hex16(b) + ":" + y;
    SplitNumbered(a, x, b, y);
  }

  /** A queue key without NUL can be read back from any string that starts with its prefix. */
  lemma {:induction false} PrefixInjective(k: string, x: string, l: string, y: string)
    requires NulFree(k) && NulFree(l) && k + "\0" + x == l + "\0" + y
    ensures k == l && x == y
    decreases |k|
  {
    var p, q := k + "\0" + x, l + "\0" + y;
    if k == [] {
      assert p[0] == '\0';
      assert p[1..] == x && q[1..] == y;
    } else {
      assert p[0] == k[0];
      assert l != [];
      assert q[0] == l[0];
      assert p[1..] == k[1..] + "\0" + x && q[1..] == l[1..] + "\0" + y;
      PrefixInjective(k[1..], x, l[1..], y);
    }
  }

  lemma QueueKeyInjective(k: string, a: int, x: string, l: string, b: int, y: string)
    requires NulFree(k) && NulFree(l) && Fits(a) && Fits(b)
    requires QueueIndexKey(k, a, x) == QueueIndexKey(l, b, y)
    ensures k == l && a == b && x == y
  {
    var u, w := Hex16(a) + ":" + x, Hex16(b) + ":" + y;
    assert QueueIndexKey(k, a, x)[3..] == k + "\0" + u;
    assert QueueIndexKey(l, b, y)[3..] == l + "\0" + w;
    PrefixInjective(k, u, l, w);
    SplitNumbered(a, x, b, y);
  }

  /** Keys within one queue are ordered by creation time, then id: the order pages are read in. */
  lemma QueueKeyOrder(k: string, a: int, x: string, b: int, y: string)
    requires Fits(a) && Fits(b)
    ensures Lex.Less(QueueIndexKey(k, a, x), QueueIndexKey(k, b, y)) <==> a < b || (a == b && Lex.Less(x, y))
  {
    Lex.CommonPrefix(QueuePrefix(k), Hex16(a) + ":" + x, Hex16(b) + ":" + y);
    NumberedOrder(a, x, b, y);
  }

  lemma QueueBoundOrder(k: string, a: int, x: string, b: int)
    requires Fits(a) && Fits(b)
    ensures Lex.Less(QueueIndexKey(k, a, x), QueueIndexBound(k, b)) <==> a < b
  {
    Lex.CommonPrefix(QueuePrefix(k), Hex16(a) + ":" + x, Hex16(b));
    BoundOrder(a, x, b);
  }

  lemma ExpBoundOrder(a: int, x: string, b: int)
    requires Fits(a) && Fits(b)
    ensures Lex.Less(ExpKey(a, x), ExpBound(b)) <==> a < b
  {
    assert ExpKey(a, x) == "exp:" + (Hex16(a) + ":" + x);
    Lex.CommonPrefix("exp:", Hex16(a) + ":" + x, Hex16(b));
    BoundOrder(a, x, b);
  }

  // ---- reading a key back ----

  /** 0 for job:, 1 for idem:, 2 for exp:, 3 for qk:, 4 for anything else. */
  function Family(k: string): (f: nat) {
    if k == [] then 4
    else if k[0] == 'j' then 0
    else if k[0] == 'i' then 1
    else if k[0] == 'e' then 2
    else if k[0] == 'q' then 3
    else 4
  }

  function JobOf(k: string): string { if |k| >= 4 then k[4..] else "" }
  function HashOf(k: string): string { if |k| >= 5 then k[5..] else "" }

  ghost function ExpOf(k: string): (int, string) {
    if exists e, id :: Fits(e) && ExpKey(e, id) == k then
      var e, id :| Fits(e) && ExpKey(e, id) == k;
      (e, id)
    else (0, "")
  }

  ghost function EntryOf(k: string): (string, int, string) {
    if exists q, c, id :: NulFree(q) && Fits(c) && QueueIndexKey(q, c, id) == k then
      var q, c, id :| NulFree(q) && Fits(c) && QueueIndexKey(q, c, id) == k;
      (q, c, id)
    else ("", 0, "")
  }

  /** Every key can be read back: the families are apart, and within one no two keys collide. */
  lemma Decodes()
    ensures forall id :: Family(JobKey(id)) == 0 && JobOf(JobKey(id)) == id
    ensures forall h :: Family(IdemKey(h)) == 1 && HashOf(IdemKey(h)) == h
    ensures forall e, id :: Fits(e) ==> Family(ExpKey(e, id)) == 2 && ExpOf(ExpKey(e, id)) == (e, id)
    ensures forall q, c, id :: NulFree(q) && Fits(c) ==>
              Family(QueueIndexKey(q, c, id)) == 3 && EntryOf(QueueIndexKey(q, c, id)) == (q, c, id)
  {
    hide Hex16;
    forall e, id | Fits(e) ensures ExpOf(ExpKey(e, id)) == (e, id) {
      var r := ExpOf(ExpKey(e, id));
      ExpKeyInjective(r.0, r.1, e, id);
    }
    forall q, c, id | NulFree(q) && Fits(c) ensures EntryOf(QueueIndexKey(q, c, id)) == (q, c, id) {
      var r := EntryOf(QueueIndexKey(q, c, id));
      QueueKeyInjective(r.0, r.1, r.2, q, c, id);
    }
  }

  // ---- ranges ----

  /** Everything between a prefix followed by NUL and the prefix followed by 1 starts with the former. */
  lemma {:induction false} RangePrefix(p: string, s: string) returns (t: string)
    requires !Lex.Less(s, p + "\0") && Lex.Less(s, p + "\U{1}")
    ensures s == p + "\0" + t
    decreases |p|
  {
    if p == [] {
      assert (p + "\0")[0] == '\0' && (p + "\U{1}")[0] == '\U{1}';
      t := s[1..];
      assert (p + "\U{1}")[1..] == [] && s[0] == '\0';
    } else {
      assert (p + "\0")[1..] == p[1..] + "\0" && (p + "\U{1}")[1..] == p[1..] + "\U{1}";
      assert (p + "\0")[0] == p[0] && (p + "\U{1}")[0] == p[0];
      t := RangePrefix(p[1..], s[1..]);
      assert s == [s[0]] + s[1..];
    }
  }

  /** No string lies strictly between `x` and `x` followed by NUL. */
  lemma {:induction false} NextString(x: string, s: string)
    ensures !Lex.Less(s, x + "\0") <==> Lex.Less(x, s)
    decreases |x|
  {
    if x == [] {
      assert x + "\0" == "\0";
      if s != [] { assert "\0"[1..] == []; }
    } else if s != [] {
      assert (x + "\0")[1..] == x[1..] + "\0";
      NextString(x[1..], s[1..]);
    }
  }

  lemma {:induction false} PrefixIsFirst(p: string, t: string)
    ensures !Lex.Less(p + t, p)
  {
    assert p == p + [];
    Lex.CommonPrefix(p, t, []);
  }

  /** A queue's index keys end before the end of its range. */
  lemma BeforeEnd(key: string, t: string)
    ensures Lex.Less(QueuePrefix(key) + t, QueueEnd(key))
  {
    assert QueuePrefix(key) + t == ("qk:" + key) + ("\0" + t);
    Lex.CommonPrefix("qk:" + key, "\0" + t, "\U{1}");
  }

  /** The range QueuedPage iterates: from just after a cursor (0, "": the start) to a creation bound (0: the end). */
  function PageLower(key: string, createdAt: int, id: string): string
    requires Fits(createdAt)
  {
    if createdAt == 0 && id == "" then QueuePrefix(key) else QueueIndexKey(key, createdAt, id) + "\0"
  }

  function PageUpper(key: string, before: int): string
    requires before > 0 ==> Fits(before)
  {
    if before > 0 then QueueIndexBound(key, before) else QueueEnd(key)
  }

  predicate InRange(k: string, lower: string, upper: string) { !Lex.Less(k, lower) && Lex.Less(k, upper) }

  /** The range holds exactly the queue's own entries after the cursor and before the bound. */
  lemma PageRange(key: string, createdAt: int, id: string, before: int, q: string, c: int, x: string)
    requires NulFree(key) && NulFree(q) && Fits(createdAt) && Fits(c) && (before > 0 ==> Fits(before)) && x != ""
    ensures InRange(QueueIndexKey(q, c, x), PageLower(key, createdAt, id), PageUpper(key, before))
            <==> q == key && (createdAt < c || (createdAt == c && Lex.Less(id, x))) && (before > 0 ==> c < before)
  {
    hide Hex16, Pow16;
    var k := QueueIndexKey(q, c, x);
    if InRange(k, PageLower(key, createdAt, id), PageUpper(key, before)) {
      OnlyOwnEntries(key, createdAt, id, before, q, c, x);
    }
    if q == key {
      QueueKeyOrder(key, createdAt, id, c, x);
      NextString(QueueIndexKey(key, createdAt, id), k);
      PrefixIsFirst(QueuePrefix(key), Hex16(c) + ":" + x);
      BeforeEnd(key, Hex16(c) + ":" + x);
      if before > 0 { QueueBoundOrder(key, c, x, before); }
    }
  }

  lemma OnlyOwnEntries(key: string, createdAt: int, id: string, before: int, q: string, c: int, x: string)
    requires NulFree(key) && NulFree(q) && Fits(createdAt) && Fits(c) && (before > 0 ==> Fits(before))
    requires InRange(QueueIndexKey(q, c, x), PageLower(key, createdAt, id), PageUpper(key, before))
    ensures q == key
  {
    hide Hex16, Pow16;
    var k := QueueIndexKey(q, c, x);
    var lower, upper := PageLower(key, createdAt, id), PageUpper(key, before);
    assert !Lex.Less(lower, QueuePrefix(key)) by {
      if lower != QueuePrefix(key) {
        assert lower == QueuePrefix(key) + (Hex16(createdAt) + ":" + id + "\0");
        PrefixIsFirst(QueuePrefix(key), Hex16(createdAt) + ":" + id + "\0");
      } else {
        Lex.Irreflexive(lower);
      }
    }
    assert !Lex.Less(k, QueuePrefix(key)) by { AtLeast(QueuePrefix(key), lower, k); }
    assert Lex.Less(k, QueueEnd(key)) by {
      if before > 0 {
        BeforeEnd(key, Hex16(before));
        Lex.Transitive(k, upper, QueueEnd(key));
      }
    }
    var t := RangePrefix("qk:" + key, k);
    assert k[3..] == key + "\0" + t;
    assert k[3..] == q + "\0" + (Hex16(c) + ":" + x);
    PrefixInjective(key, t, q, Hex16(c) + ":" + x);
  }

  lemma AtLeast(a: string, b: string, c: string)
    requires !Lex.Less(b, a) && !Lex.Less(c, b)
    ensures !Lex.Less(c, a)
  {
    Lex.Total(b, c);
    if Lex.Less(c, a) {
      if Lex.Less(b, c) { Lex.Transitive(b, c, a); }
    }
  }
}
