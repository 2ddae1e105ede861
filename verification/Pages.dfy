/**
 * What a page of a queue's pending jobs is: the reference every store must meet
 * (internal/storage/sqlite.go:310-334 states it as a SQL query).
 */
module Pages {
  import opened Jobs

  datatype Row = Row(job: Job, key: string, status: Status, expiresAt: int)

  type Rows = map<string, Row>

  ghost predicate WellKeyed(rows: Rows) {
    forall id <- rows :: rows[id].job.id == id
  }

  predicate Qualifies(r: Row, key: string, after: Cursor, before: int, now: int) {
    && r.key == key
    && Pending(r.status)
    && now < r.expiresAt
    && !Covers(after, r.job)
    && (before > 0 ==> r.job.createdAt < before)
  }

  function Matching(rows: Rows, key: string, after: Cursor, before: int, now: int): (js: set<Job>)
    ensures forall j <- js :: exists id <- rows :: rows[id].job == j && Qualifies(rows[id], key, after, before, now)
    ensures forall id <- rows :: Qualifies(rows[id], key, after, before, now) ==> rows[id].job in js
  {
    set id | id in rows && Qualifies(rows[id], key, after, before, now) :: rows[id].job
  }

  ghost predicate DistinctIds(js: set<Job>) {
    forall a <- js, b <- js :: a.id == b.id ==> a == b
  }

  predicate IsLeast(js: set<Job>, m: Job) {
    m in js && forall j <- js :: j == m || Before(m, j)
  }

  lemma LeastExists(js: set<Job>) returns (m: Job)
    requires js != {} && DistinctIds(js)
    ensures IsLeast(js, m)
    decreases |js|
  {
    var x :| x in js;
    if js == {x} {
      m := x;
    } else {
      var rest := js - {x};
      assert js == rest + {x};
      var y := LeastExists(rest);
      BeforeIsOrder(x, y, y);
      m := if Before(x, y) then x else y;
      forall j | j in js ensures j == m || Before(m, j) {
        BeforeIsOrder(x, y, j);
      }
    }
  }

  function Least(js: set<Job>): (m: Job)
    requires js != {} && DistinctIds(js)
    ensures IsLeast(js, m)
  {
    assert exists m :: IsLeast(js, m) by { var m := LeastExists(js); }
    assert forall a, b :: IsLeast(js, a) && IsLeast(js, b) ==> a == b by {
      forall a, b | IsLeast(js, a) && IsLeast(js, b) ensures a == b { BeforeIsOrder(a, b, b); }
    }
    var m :| m in js && IsLeast(js, m);
    m
  }

  /** The jobs of a set in page order. */
  function Sorted(js: set<Job>): (s: seq<Job>)
    requires DistinctIds(js)
    decreases |js|
  {
    if js == {} then [] else
      var m := Least(js);
      [m] + Sorted(js - {m})
  }

  function Take<T>(s: seq<T>, n: nat): (r: seq<T>) { if n < |s| then s[..n] else s }

  /** The first `limit` jobs stored under `key` after `after`, created before `before` (0: no bound). */
  function Page(rows: Rows, key: string, after: Cursor, before: int, limit: nat, now: int): (p: seq<Job>)
    requires WellKeyed(rows)
  {
    Take(Sorted(Matching(rows, key, after, before, now)), limit)
  }

  ghost predicate Increasing(s: seq<Job>) {
    forall i, j :: 0 <= i < j < |s| ==> Before(s[i], s[j])
  }

  lemma SortedUnfolds(js: set<Job>)
    requires DistinctIds(js) && js != {}
    ensures Least(js) in js && DistinctIds(js - {Least(js)}) && Sorted(js) == [Least(js)] + Sorted(js - {Least(js)})
    ensures forall j <- js - {Least(js)} :: Before(Least(js), j)
  {
  }

  lemma ConsIncreasing(m: Job, s: seq<Job>)
    requires Increasing(s) && forall j <- s :: Before(m, j)
    ensures Increasing([m] + s)
  {
    hide Before;
    var t := [m] + s;
    forall i, j | 0 <= i < j < |t| ensures Before(t[i], t[j]) {
      assert t[j] == s[j - 1] && s[j - 1] in s;
      if i > 0 { assert t[i] == s[i - 1]; }
    }
  }

  lemma {:induction false} SortedIsIncreasing(js: set<Job>)
    requires DistinctIds(js)
    ensures Increasing(Sorted(js))
    ensures forall j :: j in Sorted(js) <==> j in js
    ensures |Sorted(js)| == |js|
    decreases |js|
  {
    if js != {} {
      SortedUnfolds(js);
      hide Increasing, Sorted, Before, DistinctIds;
      var m := Least(js);
      SortedIsIncreasing(js - {m});
      ConsIncreasing(m, Sorted(js - {m}));
    }
  }

  lemma HeadIsLeast(s: seq<Job>, js: set<Job>)
    requires DistinctIds(js) && Increasing(s) && s != [] && forall j :: j in s <==> j in js
    ensures js != {} && s[0] == Least(js)
  {
    assert s[0] in js;
    var m := Least(js);
    var k :| 0 <= k < |s| && s[k] == m;
    BeforeIsOrder(s[0], m, m);
  }

  lemma TailLists(s: seq<Job>, js: set<Job>)
    requires Increasing(s) && s != [] && forall j :: j in s <==> j in js
    ensures Increasing(s[1..]) && forall j :: j in s[1..] <==> j in js - {s[0]}
  {
    forall j ensures j in s[1..] <==> j in js - {s[0]} {
      if j in s[1..] {
        var i :| 1 <= i < |s| && s[i] == j;
        BeforeIsOrder(s[0], s[i], s[i]);
      }
      if j in js - {s[0]} {
        var i :| 0 <= i < |s| && s[i] == j;
        assert s[1..][i - 1] == j;
      }
    }
  }

  /** Page order leaves no choice: any increasing listing of a set is the sorted one. */
  lemma {:induction false} IncreasingIsSorted(s: seq<Job>, js: set<Job>)
    requires DistinctIds(js) && Increasing(s)
    requires forall j :: j in s <==> j in js
    ensures s == Sorted(js)
    decreases |s|
  {
    if s == [] {
      assert js == {};
    } else {
      HeadIsLeast(s, js);
      TailLists(s, js);
      SortedUnfolds(js);
      hide Increasing, Sorted, DistinctIds;
      IncreasingIsSorted(s[1..], js - {s[0]});
      assert s == [s[0]] + s[1..];
    }
  }

  /** A page, said without sorting: in order, only matching jobs, and no job left out unless later and over the limit. */
  ghost predicate IsPage(rows: Rows, key: string, after: Cursor, before: int, limit: nat, now: int, p: seq<Job>) {
    && Increasing(p)
    && |p| <= limit
    && (forall j <- p :: j in Matching(rows, key, after, before, now))
    && (forall j <- Matching(rows, key, after, before, now) :: j !in p ==>
          |p| == limit && forall x <- p :: Before(x, j))
  }

  lemma PageIsPage(rows: Rows, key: string, after: Cursor, before: int, limit: nat, now: int)
    requires WellKeyed(rows)
    ensures IsPage(rows, key, after, before, limit, now, Page(rows, key, after, before, limit, now))
  {
    var js := Matching(rows, key, after, before, now);
    var s := Sorted(js);
    SortedIsIncreasing(js);
    var p := Page(rows, key, after, before, limit, now);
    forall j | j in js && j !in p ensures |p| == limit && forall x <- p :: Before(x, j) {
      var k :| 0 <= k < |s| && s[k] == j;
      assert forall i :: 0 <= i < |p| ==> p[i] == s[i];
      assert k >= |p|;
    }
  }

  /** `IsPage` pins the page down, so it is a full specification of a page read. */
  lemma OnlyPageIsPage(rows: Rows, key: string, after: Cursor, before: int, limit: nat, now: int, p: seq<Job>)
    requires WellKeyed(rows)
    requires IsPage(rows, key, after, before, limit, now, p)
    ensures p == Page(rows, key, after, before, limit, now)
  {
    var js := Matching(rows, key, after, before, now);
    var rest := set j | j in js && j !in p;
    var s := p + Sorted(rest);
    SortedIsIncreasing(rest);
    forall i, j | 0 <= i < j < |s| ensures Before(s[i], s[j]) {
      if i < |p| <= j { assert s[j] in rest; }
    }
    IncreasingIsSorted(s, js);
    if rest != {} {
      assert |p| == limit by { var j :| j in rest; }
    } else {
      assert s == p;
    }
  }

  /** Reading on from the first job of a page returns the rest of it. */
  lemma SortedFromFirst(rows: Rows, key: string, after: Cursor, before: int, now: int)
    requires WellKeyed(rows)
    requires Matching(rows, key, after, before, now) != {}
    ensures var js := Matching(rows, key, after, before, now);
            Sorted(js) == [Least(js)] + Sorted(Matching(rows, key, CursorAt(Least(js)), before, now))
  {
    var js := Matching(rows, key, after, before, now);
    var m := Least(js);
    var next := Matching(rows, key, CursorAt(m), before, now);
    forall j ensures j in next <==> j in js - {m} {
      CursorOrder(m, j, after);
      BeforeIsOrder(m, m, m);
    }
    assert next == js - {m};
  }

  /** A whole listing is its first page followed by the listing after the page's last job. */
  lemma {:induction false} ListingIsPageThenRest(rows: Rows, key: string, after: Cursor, before: int, limit: nat, now: int)
    requires WellKeyed(rows)
    ensures var p := Page(rows, key, after, before, limit, now);
            var all := Sorted(Matching(rows, key, after, before, now));
            && (p != [] ==> all == p + Sorted(Matching(rows, key, CursorAt(p[|p| - 1]), before, now)))
            && (|p| < limit ==> all == p)
    decreases limit
  {
    hide Matching, Sorted;
    var js := Matching(rows, key, after, before, now);
    if js == {} {
      assert Sorted(js) == [] by { SortedIsIncreasing(js); }
    } else if limit > 0 {
      var m := Least(js);
      SortedFromFirst(rows, key, after, before, now);
      ListingIsPageThenRest(rows, key, CursorAt(m), before, limit - 1, now);
      TakeCons(m, Sorted(Matching(rows, key, CursorAt(m), before, now)), limit);
    }
  }

  lemma TakeCons<T>(x: T, s: seq<T>, n: nat)
    requires n > 0
    ensures Take([x] + s, n) == [x] + Take(s, n - 1)
  {
  }

  /** A page of some of the rows is the page of all exactly if every job on the latter is among them. */
  lemma PageOfFewer(rows: Rows, fewer: Rows, key: string, after: Cursor, before: int, limit: nat, now: int)
    requires WellKeyed(rows) && WellKeyed(fewer) && forall id <- fewer :: id in rows && rows[id] == fewer[id]
    ensures Page(fewer, key, after, before, limit, now) == Page(rows, key, after, before, limit, now)
       <==> forall j <- Page(rows, key, after, before, limit, now) :: j.id in fewer
  {
    PageIsPage(rows, key, after, before, limit, now);
    PageIsPage(fewer, key, after, before, limit, now);
    var page := Page(rows, key, after, before, limit, now);
    hide Page, Covers, Before;
    forall j | j in Page(fewer, key, after, before, limit, now) ensures j.id in fewer {
      assert j in Matching(fewer, key, after, before, now);
    }
    if forall j <- page :: j.id in fewer {
      forall j | j in page ensures j in Matching(fewer, key, after, before, now) {
        assert j in Matching(rows, key, after, before, now);
      }
      forall j | j in Matching(fewer, key, after, before, now) ensures j in Matching(rows, key, after, before, now) {
      }
      OnlyPageIsPage(fewer, key, after, before, limit, now, page);
    }
  }

  /** Everything stored under `key` after `after`, in page order. */
  function Listing(rows: Rows, key: string, after: Cursor, now: int): (all: seq<Job>)
    requires WellKeyed(rows)
  {
    Sorted(Matching(rows, key, after, 0, now))
  }

  lemma PageThenListing(rows: Rows, key: string, after: Cursor, size: nat, now: int)
    requires WellKeyed(rows) && size > 0
    ensures var p := Page(rows, key, after, 0, size, now);
            if |p| < size then Listing(rows, key, after, now) == p
            else p != [] && Listing(rows, key, after, now) == p + Listing(rows, key, CursorAt(p[|p| - 1]), now)
  {
    ListingIsPageThenRest(rows, key, after, 0, size, now);
  }

  /**
   * Reading pages until a short one visits every matching job exactly once, in order, whatever the
   * page size (internal/core/runtime.go:310-324).
   */
  method PageAll(rows: Rows, key: string, start: Cursor, size: nat, now: int) returns (seen: seq<Job>)
    requires WellKeyed(rows) && size > 0
    ensures seen == Listing(rows, key, start, now)
    ensures Increasing(seen)
    ensures forall j :: j in seen <==> j in Matching(rows, key, start, 0, now)
  {
    hide Sorted, Matching, Page;
    seen := [];
    var after := start;
    while true
      invariant Listing(rows, key, start, now) == seen + Listing(rows, key, after, now)
      decreases |Listing(rows, key, after, now)|
    {
      var page := Page(rows, key, after, 0, size, now);
      PageThenListing(rows, key, after, size, now);
      seen := seen + page;
      if |page| < size {
        break;
      }
      after := CursorAt(page[|page| - 1]);
    }
    SortedIsIncreasing(Matching(rows, key, start, 0, now));
  }
}
