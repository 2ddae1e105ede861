/** Rendezvous ranking of the members for a scope (internal/cluster/router.go); the hash is any score function. */
module Rendezvous {
  import Lex

  type Score = (string, string) -> int

  /** The sort's order: higher score first, then by ID. */
  predicate Ahead(score: Score, key: string, a: string, b: string) {
    score(a, key) > score(b, key) || (score(a, key) == score(b, key) && Lex.Less(a, b))
  }

  lemma AheadIsOrder(score: Score, key: string, a: string, b: string, c: string)
    ensures !Ahead(score, key, a, a)
    ensures Ahead(score, key, a, b) || a == b || Ahead(score, key, b, a)
    ensures Ahead(score, key, a, b) && Ahead(score, key, b, c) ==> Ahead(score, key, a, c)
  {
    Lex.Irreflexive(a);
    Lex.Total(a, b);
    if Lex.Less(a, b) && Lex.Less(b, c) {
      Lex.Transitive(a, b, c);
    }
  }

  predicate IsFirst(score: Score, key: string, ids: set<string>, id: string) {
    id in ids && forall x <- ids :: x == id || Ahead(score, key, id, x)
  }

  lemma {:induction false} FirstExists(score: Score, key: string, ids: set<string>) returns (id: string)
    requires ids != {}
    ensures IsFirst(score, key, ids, id)
    decreases |ids|
  {
    id :| id in ids;
    var rest := ids - {id};
    assert ids == rest + {id};
    if rest == {} {
      assert forall x <- ids :: x == id;
    } else {
      var y := FirstExists(score, key, rest);
      AheadIsOrder(score, key, id, y, y);
      forall x | x in ids ensures
        (Ahead(score, key, id, y) ==> x == id || Ahead(score, key, id, x))
        && (Ahead(score, key, y, id) ==> x == y || Ahead(score, key, y, x))
      {
        assert x == id || x in rest;
        AheadIsOrder(score, key, id, y, x);
      }
      id := if Ahead(score, key, id, y) then id else y;
    }
  }

  lemma FirstIsOne(score: Score, key: string, ids: set<string>, a: string, b: string)
    requires IsFirst(score, key, ids, a) && IsFirst(score, key, ids, b)
    ensures a == b
  {
    AheadIsOrder(score, key, a, b, a);
  }

  function Preferred(score: Score, key: string, ids: set<string>): (id: string)
    requires ids != {}
    ensures IsFirst(score, key, ids, id)
  {
    assert exists a <- ids :: IsFirst(score, key, ids, a) by { var a := FirstExists(score, key, ids); }
    assert forall a, b :: IsFirst(score, key, ids, a) && IsFirst(score, key, ids, b) ==> a == b by {
      forall a, b | IsFirst(score, key, ids, a) && IsFirst(score, key, ids, b) ensures a == b {
        FirstIsOne(score, key, ids, a, b);
      }
    }
    var id :| id in ids && IsFirst(score, key, ids, id);
    id
  }

  /** The members in order of preference. */
  function Ranked(score: Score, key: string, ids: set<string>): seq<string>
    decreases |ids|
  {
    if ids == {} then [] else var id := Preferred(score, key, ids); [id] + Ranked(score, key, ids - {id})
  }

  lemma {:induction false} RankedInOrder(score: Score, key: string, ids: set<string>)
    ensures var r := Ranked(score, key, ids);
            && (forall id :: id in r <==> id in ids)
            && (forall i, j :: 0 <= i < j < |r| ==> Ahead(score, key, r[i], r[j]))
    decreases |ids|
  {
    if ids != {} {
      RankedInOrder(score, key, ids - {Preferred(score, key, ids)});
    }
  }

  /** The ranking is the members, sorted: a higher score first, then the lower ID. */
  lemma RankedSorts(score: Score, key: string, ids: set<string>)
    ensures var r := Ranked(score, key, ids);
            && (forall id :: id in r <==> id in ids)
            && (forall i, j :: 0 <= i < j < |r| ==>
                  score(r[i], key) > score(r[j], key) || (score(r[i], key) == score(r[j], key) && Lex.Less(r[i], r[j])))
  {
    RankedInOrder(score, key, ids);
    hide Ranked;
  }

  function Dropped(s: seq<string>, x: string): seq<string> {
    if s == [] then [] else (if s[0] == x then [] else [s[0]]) + Dropped(s[1..], x)
  }

  lemma {:induction false} DroppedAbsent(s: seq<string>, x: string)
    requires x !in s
    ensures Dropped(s, x) == s
    decreases |s|
  {
    if s != [] {
      DroppedAbsent(s[1..], x);
      assert s == [s[0]] + s[1..];
    }
  }

  /** A member that leaves takes itself out of every scope's ranking and changes nothing else. */
  lemma {:induction false} LeavingDisturbsNoOther(score: Score, key: string, ids: set<string>, x: string)
    requires x in ids
    ensures Ranked(score, key, ids - {x}) == Dropped(Ranked(score, key, ids), x)
    decreases |ids|
  {
    var first := Preferred(score, key, ids);
    var rest := ids - {first};
    var r := Ranked(score, key, ids);
    assert r[1..] == Ranked(score, key, rest);
    if first == x {
      RankedInOrder(score, key, rest);
      DroppedAbsent(Ranked(score, key, rest), x);
    } else {
      LeavingDisturbsNoOther(score, key, rest, x);
      assert IsFirst(score, key, ids - {x}, first);
      FirstIsOne(score, key, ids - {x}, first, Preferred(score, key, ids - {x}));
      assert ids - {x} - {first} == rest - {x};
    }
  }

  /** So a scope moves only if its preferred member leaves, or to a member that joins. */
  lemma OnlyOwnScopesMove(score: Score, key: string, ids: set<string>, x: string)
    requires ids != {} && x !in ids
    ensures var before, after := Preferred(score, key, ids), Preferred(score, key, ids + {x});
            after == x || after == before
  {
    var after := Preferred(score, key, ids + {x});
    if after != x {
      assert IsFirst(score, key, ids, after);
      FirstIsOne(score, key, ids, after, Preferred(score, key, ids));
    }
  }
}
