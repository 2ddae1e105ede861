/**
 * The account queue as the object its run loop updates. Every method is proved to take the step of
 * the same name in PagedQueue, whose runs PagedQueueRuns is about.
 */
module AccountQueues {
  import opened Basics
  import opened Jobs
  import opened Pages
  import opened PagedQueue
  import opened PagedQueueInv
  import opened PagedQueueFrames
  import opened PagedQueueAttempts
  import opened PagedQueueRuns
  import opened PagedQueueLaws

  // ---- loops against the steps ----

  lemma {:induction false} LoadAllSnoc(c: Config, s: State, page: seq<Job>, i: nat)
    requires s.spills != [] && i < |page|
    ensures LoadAll(c, s, page[..i + 1]) == LoadOne(c, LoadAll(c, s, page[..i]), page[i])
    decreases i
  {
    hide LoadOne;
    if i > 0 {
      var t := LoadOne(c, s, page[0]);
      assert t.spills != [] by { LoadOneSize(c, s, page[0]); }
      LoadAllSnoc(c, t, page[1..], i - 1);
      assert page[..i + 1][1..] == page[1..][..i] && page[..i][1..] == page[1..][..i - 1];
    } else {
      assert page[..1] == [page[0]] && page[..1][1..] == [];
    }
  }

  /** What loading rows leaves alone, and where it leaves the cursor. */
  lemma {:induction false} LoadAllFrame(c: Config, s: State, page: seq<Job>)
    requires s.spills != []
    ensures var t := LoadAll(c, s, page);
            && t.rows == s.rows && t.now == s.now && t.waiting == s.waiting && t.flying == s.flying
            && t.spills[0].key == s.spills[0].key && t.spills[0].cutoff == s.spills[0].cutoff
            && t.spills[0].consumedThrough == s.spills[0].consumedThrough && t.spills[0].reserved == s.spills[0].reserved
            && t.spills[1..] == s.spills[1..]
            && t.spills[0].after == (if page == [] then s.spills[0].after else CursorAt(page[|page| - 1]))
            && t.pagedOwnUntil == (if page != [] && s.spills[0].key == c.own then s.now + RECENT_PAGE_WINDOW else s.pagedOwnUntil)
    decreases |page|
  {
    hide LoadOne;
    if page != [] {
      LoadOneFrame(c, s, page[0]);
      LoadAllFrame(c, LoadOne(c, s, page[0]), page[1..]);
    }
  }

  lemma LoadOneFrame(c: Config, s: State, j: Job)
    requires s.spills != []
    ensures var t := LoadOne(c, s, j);
            && t.rows == s.rows && t.now == s.now && t.waiting == s.waiting && t.flying == s.flying
            && |t.spills| == |s.spills| && t.spills[1..] == s.spills[1..]
            && t.spills[0].key == s.spills[0].key && t.spills[0].cutoff == s.spills[0].cutoff
            && t.spills[0].consumedThrough == s.spills[0].consumedThrough && t.spills[0].reserved == s.spills[0].reserved
            && t.spills[0].after == CursorAt(j)
            && t.pagedOwnUntil == (if s.spills[0].key == c.own then s.now + RECENT_PAGE_WINDOW else s.pagedOwnUntil)
  {
    hide Counts, Track;
  }

  lemma PastPageIsSmaller(rows: Rows, key: string, after: Cursor, size: nat, now: int)
    requires WellKeyed(rows) && Page(rows, key, after, 0, size, now) != []
    ensures var page := Page(rows, key, after, 0, size, now);
            |Matching(rows, key, CursorAt(page[|page| - 1]), 0, now)| < |Matching(rows, key, after, 0, now)|
  {
    hide Matching, Sorted, Page;
    var page := Page(rows, key, after, 0, size, now);
    ListingIsPageThenRest(rows, key, after, 0, size, now);
    SortedIsIncreasing(Matching(rows, key, after, 0, now));
    SortedIsIncreasing(Matching(rows, key, CursorAt(page[|page| - 1]), 0, now));
  }

  /** A page either empties its source or moves its cursor on. */
  lemma LoadPageShrinks(c: Config, s: State)
    requires s.spills != [] && WellKeyed(s.rows) && c.size > 0
    ensures var t := LoadPage(c, s);
            && t.rows == s.rows && t.now == s.now
            && (|t.spills| < |s.spills|
                || (|t.spills| == |s.spills| && |Ahead(t)| < |Ahead(s)|))
  {
    hide LoadAll, Matching, Page;
    var page := NextPage(c, s);
    LoadAllFrame(c, s, page);
    if |page| >= c.size {
      PastPageIsSmaller(s.rows, s.spills[0].key, s.spills[0].after, c.size, s.now);
    }
  }

  /** The rows past the cursor of the first source. */
  function Ahead(s: State): set<Job> {
    if s.spills == [] then {} else Matching(s.rows, s.spills[0].key, s.spills[0].after, 0, s.now)
  }

  /** refill: pages load while the queue holds less than a quarter page. */
  function Refill(c: Config, s: State): State
    requires WellKeyed(s.rows) && c.size > 0
    decreases |s.spills|, |Ahead(s)|
  {
    if Held(s) < LowMark(c) && s.spills != [] then
      LoadPageShrinks(c, s);
      Refill(c, LoadPage(c, s))
    else s
  }

  /**
   * Refilling goes on until at least a quarter of a page is held or nothing is left on disk; a queue that holds that much
   * is left alone, and one that is refilled holds less than a page and a quarter.
   */
  lemma {:induction false} RefillFills(c: Config, s: State)
    requires WellKeyed(s.rows) && c.size > 0
    ensures var t := Refill(c, s);
            && (t.spills == [] || (Held(t) >= 1 && 4 * Held(t) + 3 >= c.size))
            && (Held(s) >= 1 && 4 * Held(s) >= c.size ==> t == s)
            && (t == s || 4 * Held(t) <= 5 * c.size)
    decreases |s.spills|, |Ahead(s)|
  {
    if Held(s) < LowMark(c) && s.spills != [] {
      LoadPageShrinks(c, s);
      PageHolds(c, s);
      hide LoadPage, Ahead, WellKeyed;
      RefillFills(c, LoadPage(c, s));
    }
  }

  /** A page adds at most its size to what is held. */
  lemma PageHolds(c: Config, s: State)
    requires s.spills != [] && WellKeyed(s.rows)
    ensures Held(LoadPage(c, s)) <= Held(s) + c.size
  {
    hide LoadAll, Page;
    LoadAllFrame(c, s, NextPage(c, s));
    LoadAllHolds(c, s, NextPage(c, s));
    PageFits(c, s);
  }

  lemma PageFits(c: Config, s: State)
    requires s.spills != [] && WellKeyed(s.rows)
    ensures |NextPage(c, s)| <= c.size
  {
    hide Sorted, Matching;
  }

  lemma {:induction false} LoadAllHolds(c: Config, s: State, page: seq<Job>)
    requires s.spills != []
    ensures |LoadAll(c, s, page).queue| <= |s.queue| + |page|
    decreases |page|
  {
    if page != [] {
      LoadAllFirst(c, s, page);
      LoadOneQueues(c, s, page[0]);
      hide LoadOne, LoadAll;
      LoadAllHolds(c, LoadOne(c, s, page[0]), page[1..]);
    }
  }

  /** LoadOne without moving the cursor: the body of refill's inner loop. */
  function HoldRow(s: State, j: Job): (t: State)
    requires s.spills != []
    ensures |t.spills| == |s.spills|
  {
    var src := s.spills[0];
    var counted := Counts(src, j);
    var r := s.(spills := if counted then [src.(consumed := src.consumed + 1)] + s.spills[1..] else s.spills);
    if j.id in s.present then r.(backlog := if counted then s.backlog - 1 else s.backlog)
    else Hold(r, j).(owed := s.owed + {j.id})
  }

  /** The first source's cursor moves to `j`. */
  function Advance(c: Config, s: State, j: Job): (t: State)
    requires s.spills != []
    ensures |t.spills| == |s.spills|
  {
    s.(spills := [s.spills[0].(after := CursorAt(j))] + s.spills[1..],
       pagedOwnUntil := if s.spills[0].key == c.own then s.now + RECENT_PAGE_WINDOW else s.pagedOwnUntil)
  }

  /** What refill does after its inner loop. */
  function StampPage(c: Config, s: State, page: seq<Job>): State
    requires s.spills != []
  {
    if page == [] then s else Advance(c, s, page[|page| - 1])
  }

  lemma LoadIsHoldThenAdvance(c: Config, s: State, j: Job)
    requires s.spills != []
    ensures LoadOne(c, s, j) == Advance(c, HoldRow(s, j), j)
  {
    LoadedSpills(c, s, j);
    hide Counts, Track;
  }

  lemma LoadedSpills(c: Config, s: State, j: Job)
    requires s.spills != []
    ensures LoadOne(c, s, j).spills == Advance(c, HoldRow(s, j), j).spills
  {
    hide Counts, Track, CursorAt;
    assert HoldRow(s, j).spills[1..] == s.spills[1..];
  }

  lemma AdvanceCommutes(c: Config, s: State, x: Job, j: Job)
    requires s.spills != []
    ensures HoldRow(Advance(c, s, x), j) == Advance(c, HoldRow(s, j), x)
  {
    hide Track, CursorAt;
    AdvanceCounts(c, s, x, j);
    hide Counts;
    assert HoldRow(Advance(c, s, x), j).spills == Advance(c, HoldRow(s, j), x).spills;
  }

  lemma AdvanceCounts(c: Config, s: State, x: Job, j: Job)
    requires s.spills != []
    ensures Counts(Advance(c, s, x).spills[0], j) == Counts(s.spills[0], j)
  {
    hide Covers;
  }

  lemma AdvanceTwice(c: Config, s: State, x: Job, j: Job)
    requires s.spills != []
    ensures Advance(c, Advance(c, s, x), j) == Advance(c, s, j)
  {
  }

  lemma StampHold(c: Config, s: State, page: seq<Job>, i: nat)
    requires s.spills != [] && i < |page|
    ensures LoadOne(c, StampPage(c, s, page[..i]), page[i]) == StampPage(c, HoldRow(s, page[i]), page[..i + 1])
  {
    hide LoadOne, HoldRow, Advance;
    LoadIsHoldThenAdvance(c, StampPage(c, s, page[..i]), page[i]);
    if i > 0 {
      AdvanceCommutes(c, s, page[i - 1], page[i]);
      AdvanceTwice(c, HoldRow(s, page[i]), page[i - 1], page[i]);
    }
  }

  lemma {:induction false} SweepAllConcat(s: State, i: nat, a: seq<Job>, b: seq<Job>)
    requires i < |s.spills|
    ensures SweepAll(s, i, a + b) == SweepAll(SweepAll(s, i, a), i, b)
    decreases |a|
  {
    hide SweepOne;
    if a == [] {
      assert a + b == b;
    } else {
      assert (a + b)[1..] == a[1..] + b;
      assert |SweepOne(s, i, a[0]).spills| == |s.spills| by { SweepOneSize(s, i, a[0]); }
      SweepAllConcat(SweepOne(s, i, a[0]), i, a[1..], b);
    }
  }

  lemma SweepOneSize(s: State, i: nat, j: Job)
    requires i < |s.spills|
    ensures |SweepOne(s, i, j).spills| == |s.spills|
  {
  }

  lemma SweepAllSnoc(s: State, i: nat, page: seq<Job>, k: nat)
    requires i < |s.spills| && k < |page|
    ensures SweepAll(s, i, page[..k + 1]) == SweepOne(SweepAll(s, i, page[..k]), i, page[k])
  {
    hide SweepOne;
    assert page[..k + 1] == page[..k] + [page[k]];
    SweepAllConcat(s, i, page[..k], [page[k]]);
    var t := SweepAll(s, i, page[..k]);
    assert [page[k]][1..] == [];
  }

  /** Only the rows of `ids` change, to ones no longer pending, and no cursor moves. */
  predicate SweepsOnly(s: State, t: State, ids: set<string>) {
    && t.now == s.now && t.rows.Keys == s.rows.Keys && |t.spills| == |s.spills|
    && (forall id <- s.rows :: id !in ids ==> t.rows[id] == s.rows[id])
    && (forall id <- s.rows :: t.rows[id].job == s.rows[id].job && t.rows[id].key == s.rows[id].key)
    && (forall id <- s.rows :: t.rows[id] == s.rows[id] || !Pending(t.rows[id].status))
    && (forall k :: 0 <= k < |s.spills| ==> t.spills[k].key == s.spills[k].key && t.spills[k].after == s.spills[k].after)
  }

  lemma SweepOneFrame(s: State, i: nat, j: Job)
    requires i < |s.spills|
    ensures SweepsOnly(s, SweepOne(s, i, j), {j.id})
  {
    hide Counts, QueueExpired;
  }

  lemma SweepsTogether(s: State, t: State, u: State, some: set<string>, more: set<string>)
    requires SweepsOnly(s, t, some) && SweepsOnly(t, u, more)
    ensures SweepsOnly(s, u, some + more)
  {
  }

  lemma {:induction false} SweepAllFrame(s: State, i: nat, js: seq<Job>)
    requires i < |s.spills|
    ensures SweepsOnly(s, SweepAll(s, i, js), Ids(js))
    decreases |js|
  {
    hide SweepOne;
    if js != [] {
      var t := SweepOne(s, i, js[0]);
      SweepOneFrame(s, i, js[0]);
      hide SweepsOnly;
      assert |t.spills| == |s.spills| by { SweepOneSize(s, i, js[0]); }
      SweepAllFrame(t, i, js[1..]);
      assert Ids(js) == {js[0].id} + Ids(js[1..]) by {
        assert js == [js[0]] + js[1..];
      }
      SweepsTogether(s, t, SweepAll(s, i, js), {js[0].id}, Ids(js[1..]));
    }
  }

  /** Sweeping a page does not change what lies past it. */
  lemma PastPageUnchanged(s: State, i: nat, page: seq<Job>, last: Cursor, before: int)
    requires i < |s.spills| && WellKeyed(s.rows)
    requires forall j <- page :: j.id in s.rows && s.rows[j.id].job == j && Covers(last, j)
    ensures var t := SweepAll(s, i, page);
            && WellKeyed(t.rows)
            && Matching(t.rows, s.spills[i].key, last, before, s.now) == Matching(s.rows, s.spills[i].key, last, before, s.now)
  {
    hide Covers, SweepAll;
    SweepAllFrame(s, i, page);
    var t := SweepAll(s, i, page);
    forall id | id in s.rows ensures Qualifies(t.rows[id], s.spills[i].key, last, before, s.now)
                                     <==> Qualifies(s.rows[id], s.spills[i].key, last, before, s.now) {
      if id in Ids(page) {
        var j :| j in page && j.id == id;
      }
    }
  }

  lemma {:induction false} FilterSnoc<T>(s: seq<T>, keep: T -> bool, i: nat)
    requires i < |s|
    ensures Filter(s[..i + 1], keep) == Filter(s[..i], keep) + (if keep(s[i]) then [s[i]] else [])
  {
    assert s[..i + 1][..i] == s[..i];
  }

  lemma {:induction false} TrackAllSnoc(next: int, q: seq<Job>, j: Job)
    ensures TrackAll(next, q + [j]) == Track(TrackAll(next, q), j)
  {
    assert (q + [j])[..|q|] == q;
  }

  /** One more job of a list of distinct jobs is failed. */
  lemma FailOneMore(s: State, q: seq<Job>, p: Job -> bool, i: nat)
    requires Distinct(q) && i < |q|
    ensures var gone := Ids(Filter(q[..i], p));
            if p(q[i]) then
              && Ids(Filter(q[..i + 1], p)) == gone + {q[i].id} && q[i].id !in gone
              && FailHeld(s, gone + {q[i].id}) == FailHeld(FailHeld(s, gone), {q[i].id})
            else Ids(Filter(q[..i + 1], p)) == gone
  {
    hide Filter;
    var gone := Ids(Filter(q[..i], p));
    FilterSnoc(q, p, i);
    FilterKeeps(q[..i], p);
    if p(q[i]) {
      assert Filter(q[..i + 1], p) == Filter(q[..i], p) + [q[i]];
      assert Ids(Filter(q[..i], p) + [q[i]]) == gone + {q[i].id} by { IdsSnoc(Filter(q[..i], p), q[i]); }
      assert forall j <- q[..i] :: j.id != q[i].id;
      FailTwice(s, gone, q[i].id);
    }
  }

  lemma IdsSnoc(q: seq<Job>, j: Job)
    ensures Ids(q + [j]) == Ids(q) + {j.id}
  {
    forall x ensures x in Ids(q + [j]) <==> x in Ids(q) + {j.id} {
      if x in Ids(q) {
        var y :| y in q && y.id == x;
        assert y in q + [j];
      }
      assert j in q + [j];
    }
  }

  lemma FailTwice(s: State, gone: set<string>, id: string)
    requires id !in gone
    ensures FailHeld(s, gone + {id}) == FailHeld(FailHeld(s, gone), {id})
  {
    assert FailRows(s.rows, gone + {id}, s.now) == FailRows(FailRows(s.rows, gone, s.now), {id}, s.now);
    assert |gone + {id}| == |gone| + 1;
    assert s.present - (gone + {id}) == s.present - gone - {id};
    assert s.owed - (gone + {id}) == s.owed - gone - {id};
  }

  lemma FailNone(s: State)
    ensures FailHeld(s, {}) == s
  {
    assert FailRows(s.rows, {}, s.now) == s.rows;
  }

  /** The waiting list is failed like the list of its jobs. */
  lemma {:induction false} WaitingAsJobs(w: seq<Waiting>, p: Job -> bool)
    ensures JobsOf(Filter(w, OfWaiting(p))) == Filter(JobsOf(w), p)
    ensures JobsOf(Filter(w, Not(OfWaiting(p)))) == Filter(JobsOf(w), Not(p))
    decreases |w|
  {
    if w != [] {
      var init := w[..|w| - 1];
      WaitingAsJobs(init, p);
      assert JobsOf(w)[..|w| - 1] == JobsOf(init);
      assert JobsOf(w)[|w| - 1] == w[|w| - 1].job;
      JobsSnoc(Filter(init, OfWaiting(p)), w[|w| - 1]);
      JobsSnoc(Filter(init, Not(OfWaiting(p))), w[|w| - 1]);
    }
  }

  lemma JobsSnoc(w: seq<Waiting>, x: Waiting)
    ensures JobsOf(w + [x]) == JobsOf(w) + [x.job]
  {
  }

  lemma IdsOfWaiting(w: seq<Waiting>)
    ensures Ids(JobsOf(w)) == WaitingIds(w)
  {
    forall x ensures x in Ids(JobsOf(w)) <==> x in WaitingIds(w) {
      if x in Ids(JobsOf(w)) {
        var k :| 0 <= k < |w| && JobsOf(w)[k].id == x;
        assert w[k] in w;
      }
      if x in WaitingIds(w) {
        var k :| 0 <= k < |w| && w[k].job.id == x;
        assert JobsOf(w)[k] in JobsOf(w);
      }
    }
  }

  lemma TrackNone(next: int)
    ensures TrackAll(next, JobsOf([])) == next
  {
  }

  /** Failing jobs does not touch the lists or the deadline cache. */
  lemma FailFrame(s: State, ids: set<string>, q: seq<Job>, next: int)
    ensures FailHeld(s.(queue := q, nextDeadline := next), ids) == FailHeld(s, ids).(queue := q, nextDeadline := next)
    ensures FailHeld(s.(nextDeadline := next), ids) == FailHeld(s, ids).(nextDeadline := next)
    ensures FailHeld(s, ids).queue == s.queue && FailHeld(s, ids).now == s.now
  {
  }

  /** One page of a sweep, then the rest of it. */
  lemma PagedSweep(s: State, i: nat, key: string, cursor: Cursor, before: int, size: nat)
    requires i < |s.spills| && WellKeyed(s.rows) && s.spills[i].key == key && size > 0
    ensures var page := Page(s.rows, key, cursor, before, size, s.now);
            var t := SweepAll(s, i, page);
            && WellKeyed(t.rows) && t.now == s.now
            && (if |page| < size then
                  SweepAll(s, i, Sorted(Matching(s.rows, key, cursor, before, s.now))) == t
                else
                  var next := Matching(t.rows, key, CursorAt(page[|page| - 1]), before, s.now);
                  && SweepAll(s, i, Sorted(Matching(s.rows, key, cursor, before, s.now))) == SweepAll(t, i, Sorted(next))
                  && |next| < |Matching(s.rows, key, cursor, before, s.now)|)
  {
    hide SweepAll, Matching, Sorted, Page;
    var page := Page(s.rows, key, cursor, before, size, s.now);
    ListingIsPageThenRest(s.rows, key, cursor, before, size, s.now);
    SweepAllFrame(s, i, page);
    SweepAllKeepsKeys(s, i, page);
    if |page| >= size {
      var last := CursorAt(page[|page| - 1]);
      var rest := Matching(s.rows, key, last, before, s.now);
      CoveredByLast(s.rows, key, cursor, before, size, s.now);
      PastPageUnchanged(s, i, page, last, before);
      SweepAllConcat(s, i, page, Sorted(rest));
      SortedIsIncreasing(rest);
      SortedIsIncreasing(Matching(s.rows, key, cursor, before, s.now));
    }
  }

  /** The last job of a page covers the page. */
  lemma CoveredByLast(rows: Rows, key: string, cursor: Cursor, before: int, size: nat, now: int)
    requires WellKeyed(rows) && Page(rows, key, cursor, before, size, now) != []
    ensures var page := Page(rows, key, cursor, before, size, now);
            forall j <- page :: j.id in rows && rows[j.id].job == j && Covers(CursorAt(page[|page| - 1]), j)
  {
    hide Sorted, Page, Covers;
    var page := Page(rows, key, cursor, before, size, now);
    PageIsPage(rows, key, cursor, before, size, now);
    var p := page[|page| - 1];
    forall j | j in page ensures j.id in rows && rows[j.id].job == j && Covers(CursorAt(p), j) {
      var k :| 0 <= k < |page| && page[k] == j;
      assert j in Matching(rows, key, cursor, before, now);
      BeforeIsOrder(j, p, p);
      CursorOrder(p, j, START);
    }
  }

  /** A sweep leaves the clock, the attached sources and the earlier stamps alone. */
  lemma {:induction false} SweepFromFrame(s: State, i: nat)
    requires i <= |s.spills| && WellKeyed(s.rows)
    ensures var t := SweepFrom(s, i);
            t.now == s.now && t.pendingSpills == s.pendingSpills && t.safeUntil == s.safeUntil && t.lastSweep == s.lastSweep
    decreases |s.spills| - i
  {
    hide SweepAll, SweepList;
    if i < |s.spills| {
      var js := SweepList(s, i);
      SweepAllKeepsKeys(s, i, js);
      SweepAllStamps(s, i, js);
      SweepFromFrame(SweepAll(s, i, js), i + 1);
    }
  }

  lemma {:induction false} SweepAllStamps(s: State, i: nat, js: seq<Job>)
    requires i < |s.spills|
    ensures var t := SweepAll(s, i, js);
            t.now == s.now && t.pendingSpills == s.pendingSpills && t.safeUntil == s.safeUntil && t.lastSweep == s.lastSweep
    decreases |js|
  {
    hide Counts, QueueExpired;
    if js != [] {
      SweepAllStamps(SweepOne(s, i, js[0]), i, js[1..]);
    }
  }

  // ---- the queue ----

  class AccountQueue {
    const c: Config
    var rows: Rows
    var now: int
    var backlog: int
    var cmds: seq<Job>
    var queue: seq<Job>
    var waiting: seq<Waiting>
    var flying: map<string, Flight>
    var present: set<string>
    var spills: seq<Source>
    var spillPending: seq<Source>
    var pagedOwnUntil: int
    var nextDeadline: int
    var lastSpillSweep: int
    ghost var outstanding: map<string, Handoff>
    ghost var owed: set<string>
    ghost var safeUntil: int

    ghost function View(): State
      reads this
    {
      State(rows, now, backlog, outstanding, cmds, queue, waiting, flying, present, spills, spillPending,
            pagedOwnUntil, nextDeadline, lastSpillSweep, owed, safeUntil)
    }

    constructor (c: Config, rows: Rows, now: int)
      ensures this.c == c
      ensures View() == State(rows, now, 0, map[], [], [], [], map[], {}, [], [], 0, 0, 0, {}, now)
    {
      this.c := c;
      this.rows, this.now, backlog := rows, now, 0;
      cmds, queue, waiting, flying, present := [], [], [], map[], {};
      spills, spillPending := [], [];
      pagedOwnUntil, nextDeadline, lastSpillSweep := 0, 0, 0;
      outstanding, owed, safeUntil := map[], {}, now;
    }

    /** attachSpill counts the attached rows one by one, then hands the source to the run loop. */
    method AttachSpill(key: string, after: Cursor, remaining: nat, cutoff: int)
      modifies this
      ensures View() == Attach(old(View()), key, after, remaining, cutoff)
    {
      var i := 0;
      while i < remaining
        invariant i <= remaining
        invariant View() == old(View()).(backlog := old(backlog) + i)
      {
        backlog := backlog + 1;
        i := i + 1;
      }
      if spills + spillPending == [] {
        safeUntil := now + PENDING_ROW_GRACE;
      }
      spillPending := spillPending + [Source(key, after, remaining, 0, cutoff, START)];
    }

    method TakeAttached()
      modifies this
      ensures View() == TakeSpills(old(View()))
    {
      var pending := spillPending;
      spillPending := [];
      spills := spills + pending;
    }

    method TrackDeadline(j: Job)
      modifies this`nextDeadline
      ensures nextDeadline == Track(old(nextDeadline), j)
    {
      var d := QueueDeadline(j);
      if d > 0 && (nextDeadline == 0 || d < nextDeadline) {
        nextDeadline := d;
      }
    }

    method HoldJob(j: Job)
      modifies this
      ensures View() == Hold(old(View()), j)
    {
      hide Track;
      present := present + {j.id};
      queue := queue + [j];
      TrackDeadline(j);
    }

    method FindOwnSpill() returns (own: Option<Cursor>)
      ensures own == OwnSpill(spills, c.own)
    {
      var i := 0;
      while i < |spills|
        invariant i <= |spills|
        invariant OwnSpill(spills, c.own) == OwnSpill(spills[i..], c.own)
      {
        if spills[i].key == c.own {
          return Some(spills[i].after);
        }
        i := i + 1;
      }
      return None;
    }

    method Accepts(j: Job) returns (ok: bool)
      ensures ok == AcceptHandoff(c, View(), j)
    {
      if j.id in present {
        return false;
      }
      var own := FindOwnSpill();
      if own.Some? && !Covers(own.value, j) {
        return false;
      }
      if now < pagedOwnUntil {
        if j.id in rows && now < rows[j.id].expiresAt && rows[j.id].status != Queued {
          return false;
        }
      }
      return true;
    }

    method ReceiveHandoff()
      requires cmds != []
      modifies this
      ensures View() == Receive(c, old(View()))
    {
      hide AcceptHandoff, Hold;
      var j := cmds[0];
      var ok := Accepts(j);
      cmds := cmds[1..];
      outstanding := outstanding - {j.id};
      if ok {
        HoldJob(j);
      }
    }

    /** finishSpill gives back what a dry source reserved and never handed over. */
    method DropSource(i: nat)
      requires i < |spills|
      modifies this
      ensures View() == FinishSpill(old(View()), i)
    {
      var src := spills[i];
      var n := src.reserved - src.consumed;
      while n > 0
        invariant n <= Max(src.reserved - src.consumed, 0)
        invariant n >= 0 || n == src.reserved - src.consumed
        invariant View() == old(View()).(backlog := old(backlog) - Max(src.reserved - src.consumed, 0) + Max(n, 0))
      {
        backlog := backlog - 1;
        n := n - 1;
      }
      spills := spills[..i] + spills[i + 1..];
    }

    method LoadRow(job: Job)
      requires spills != []
      modifies this
      ensures View() == HoldRow(old(View()), job)
    {
      hide Track, Countable;
      var src := spills[0];
      var counted := Counts(src, job);
      if counted {
        spills := [src.(consumed := src.consumed + 1)] + spills[1..];
      }
      if job.id in present {
        // Counted twice otherwise: once by its hand-off, once by the source.
        if counted {
          backlog := backlog - 1;
        }
      } else {
        HoldJob(job);
        owed := owed + {job.id};
      }
    }

    method LoadRows(page: seq<Job>)
      requires spills != []
      modifies this
      ensures View() == LoadAll(c, old(View()), page)
    {
      hide HoldRow, LoadOne;
      ghost var s := View();
      var i := 0;
      while i < |page|
        invariant i <= |page| && spills != []
        invariant StampPage(c, View(), page[..i]) == LoadAll(c, s, page[..i])
      {
        LoadAllSnoc(c, s, page, i);
        StampHold(c, View(), page, i);
        LoadRow(page[i]);
        i := i + 1;
      }
      assert page[..|page|] == page;
      if |page| > 0 {
        if spills[0].key == c.own {
          pagedOwnUntil := now + RECENT_PAGE_WINDOW;
        }
        spills := [spills[0].(after := CursorAt(page[|page| - 1]))] + spills[1..];
      }
    }

    method RefillQueue()
      requires WellKeyed(rows) && c.size > 0
      modifies this
      ensures View() == Refill(c, old(View()))
    {
      hide LoadAll, Matching;
      var low := LowMark(c);
      while |queue| + |waiting| + |flying| < low && spills != []
        invariant WellKeyed(rows)
        invariant Refill(c, View()) == Refill(c, old(View()))
        decreases |spills|, |Ahead(View())|
      {
        LoadPageShrinks(c, View());
        var page := Page(rows, spills[0].key, spills[0].after, 0, c.size, now);
        LoadRows(page);
        if |page| < c.size {
          DropSource(0);
        }
      }
    }

    method SweepRow(i: nat, job: Job)
      requires i < |spills|
      modifies this
      ensures View() == SweepOne(old(View()), i, job)
    {
      if job.id !in present && QueueExpired(job, now) {
        var src := spills[i];
        spills := spills[i := src.(consumed := if Counts(src, job) then src.consumed + 1 else src.consumed)];
        backlog := backlog - 1;
        rows := FailRows(rows, {job.id}, now);
        owed := owed - {job.id};
      }
    }

    method SweepRows(i: nat, page: seq<Job>)
      requires i < |spills|
      modifies this
      ensures View() == SweepAll(old(View()), i, page)
    {
      hide SweepOne;
      ghost var s := View();
      var k := 0;
      while k < |page|
        invariant k <= |page| && |spills| == |s.spills|
        invariant View() == SweepAll(s, i, page[..k])
      {
        SweepAllSnoc(s, i, page, k);
        SweepRow(i, page[k]);
        k := k + 1;
      }
      assert page[..|page|] == page;
    }

    /** The inner loop of sweepSpilled: a page at a time, from the source's cursor on. */
    method SweepSource(i: nat)
      requires i < |spills| && WellKeyed(rows) && c.size > 0
      modifies this
      ensures View() == SweepAll(old(View()), i, SweepList(old(View()), i))
      ensures WellKeyed(rows) && |spills| == old(|spills|)
    {
      hide SweepAll, Matching, Sorted, Page, SweepOne;
      ghost var s := View();
      var key := spills[i].key;
      var before := now - QUEUED_TTL;
      var cursor := spills[i].after;
      while true
        invariant |spills| == |s.spills| && WellKeyed(rows) && spills[i].key == key && now == s.now
        invariant SweepAll(View(), i, Sorted(Matching(rows, key, cursor, before, now))) == SweepAll(s, i, SweepList(s, i))
        decreases |Matching(rows, key, cursor, before, now)|
      {
        var page := Page(rows, key, cursor, before, c.size, now);
        ghost var t := View();
        PagedSweep(t, i, key, cursor, before, c.size);
        SweepRows(i, page);
        SweepAllFrame(t, i, page);
        if |page| < c.size {
          break;
        }
        cursor := CursorAt(page[|page| - 1]);
      }
    }

    /** sweepSpilled. The ghost stamp says how long the rows it left alone are safe from cleanup. */
    method SweepSpilled()
      requires WellKeyed(rows) && c.size > 0
      modifies this
      ensures View() == Sweep(old(View()))
    {
      hide SweepAll, SweepList;
      ghost var s := View();
      if |spills| == 0 || now - lastSpillSweep < SPILL_SWEEP_EVERY {
        return;
      }
      var i := 0;
      while i < |spills|
        invariant i <= |spills| && WellKeyed(rows)
        invariant SweepFrom(View(), i) == SweepFrom(s, 0)
      {
        SweepSource(i);
        i := i + 1;
      }
      assert SweepFrom(View(), i) == View();
      SweepFromFrame(s, 0);
      lastSpillSweep := now;
      if s.pendingSpills == [] {
        safeUntil := now + PENDING_ROW_GRACE;
      }
    }

    /** A held job is failed: its row, its count and its place in `present`. */
    method FailJob(job: Job)
      modifies this
      ensures View() == FailHeld(old(View()), {job.id})
    {
      backlog := backlog - 1;
      present := present - {job.id};
      rows := FailRows(rows, {job.id}, now);
      owed := owed - {job.id};
    }

    /** In a sound queue the jobs left are exactly those that are not too late. */
    method DropExpired()
      requires Distinct(queue)
      modifies this
      ensures View() == DropExpiredJobs(old(View()))
      ensures Inv(c, old(View())) ==> forall j :: j in queue <==> j in old(queue) && !TooLate(j, now)
    {
      hide Inv, TooLate, FailHeld, Filter, QueueExpired, Distinct, TrackAll;
      ghost var s := View();
      LiveAreLeft(c, s);
      if |queue| == 0 {
        nextDeadline := 0;
      } else if !(nextDeadline == 0 || now < nextDeadline) {
        ScanQueue();
      }
      assert View() == DropExpiredJobs(s);
      assert queue == DropExpiredJobs(s).queue;
    }

    /** The scan: expired jobs are failed, the others kept, and the earliest deadline found again. */
    method ScanQueue()
      requires Distinct(queue)
      modifies this
      ensures var s := old(View());
              var kept := Filter(s.queue, Not(Expired(s.now)));
              View() == FailHeld(s, Ids(Filter(s.queue, Expired(s.now)))).(queue := kept, nextDeadline := TrackAll(0, kept))
    {
      hide FailHeld, Filter, QueueExpired;
      ghost var s := View();
      var all := queue;
      nextDeadline := 0;
      var kept: seq<Job> := [];
      var i := 0;
      assert Filter(all[..0], Expired(now)) == [] && Filter(all[..0], Not(Expired(now))) == [] by { FilterNone(all[..0], Expired(now)); }
      FailNone(s);
      FailFrame(s, {}, [], 0);
      assert Ids([]) == {};
      while i < |all|
        invariant i <= |all| && now == s.now
        invariant kept == Filter(all[..i], Not(Expired(s.now)))
        invariant View() == FailHeld(s, Ids(Filter(all[..i], Expired(s.now)))).(nextDeadline := TrackAll(0, kept))
      {
        ghost var gone := Ids(Filter(all[..i], Expired(s.now)));
        FilterSnoc(all, Not(Expired(s.now)), i);
        FailOneMore(s, all, Expired(s.now), i);
        var job := all[i];
        if !QueueExpired(job, now) {
          TrackAllSnoc(0, kept, job);
          kept := kept + [job];
          TrackDeadline(job);
        } else {
          FailFrame(FailHeld(s, gone), {job.id}, [], TrackAll(0, kept));
          FailJob(job);
        }
        i := i + 1;
      }
      assert all[..|all|] == all;
      queue := kept;
    }

    method DropExpiredRetries()
      requires DistinctWaiting(waiting)
      modifies this
      ensures View() == DropExpiredWaiting(old(View()))
    {
      hide FailHeld, Filter, QueueExpired;
      ghost var s := View();
      var all := waiting;
      ghost var js := JobsOf(all);
      var kept: seq<Waiting> := [];
      var i := 0;
      assert Filter(js[..0], Expired(now)) == [] && Filter(all[..0], Not(OfWaiting(Expired(now)))) == [] by {
        FilterNone(js[..0], Expired(now));
        FilterNone(all[..0], OfWaiting(Expired(now)));
      }
      FailNone(s);
      assert Ids([]) == {};
      while i < |all|
        invariant i <= |all| && now == s.now
        invariant kept == Filter(all[..i], Not(OfWaiting(Expired(s.now))))
        invariant View() == FailHeld(s, Ids(Filter(js[..i], Expired(s.now))))
      {
        FilterSnoc(all, Not(OfWaiting(Expired(s.now))), i);
        FailOneMore(s, js, Expired(s.now), i);
        var w := all[i];
        if !QueueExpired(w.job, now) {
          kept := kept + [w];
        } else {
          FailFrame(View(), {w.job.id}, [], 0);
          FailJob(w.job);
        }
        i := i + 1;
      }
      assert all[..|all|] == all && js[..|all|] == js;
      WaitingAsJobs(all, Expired(s.now));
      IdsOfWaiting(Filter(all, OfWaiting(Expired(s.now))));
      waiting := kept;
    }

    /** The retry timer's case of the run loop. */
    method RequeueDue()
      modifies this
      ensures View() == RetryDue(old(View()))
    {
      hide Filter, TrackAll;
      ghost var s := View();
      var all := waiting;
      var kept: seq<Waiting> := [];
      ghost var due: seq<Waiting> := [];
      assert Filter(all[..0], Due(now)) == [] && Filter(all[..0], Not(Due(now))) == [] by { FilterNone(all[..0], Due(now)); }
      assert s.queue + JobsOf([]) == s.queue;
      assert TrackAll(nextDeadline, JobsOf([])) == nextDeadline by { TrackNone(nextDeadline); }
      var i := 0;
      while i < |all|
        invariant i <= |all| && now == s.now
        invariant kept == Filter(all[..i], Not(Due(s.now))) && due == Filter(all[..i], Due(s.now))
        invariant View() == s.(queue := s.queue + JobsOf(due), nextDeadline := TrackAll(s.nextDeadline, JobsOf(due)))
      {
        FilterSnoc(all, Due(s.now), i);
        FilterSnoc(all, Not(Due(s.now)), i);
        var w := all[i];
        if w.at > now {
          kept := kept + [w];
        } else {
          JobsSnoc(due, w);
          TrackAllSnoc(s.nextDeadline, JobsOf(due), w.job);
          due := due + [w];
          queue := queue + [w.job];
          TrackDeadline(w.job);
        }
        i := i + 1;
      }
      assert all[..|all|] == all;
      waiting := kept;
    }

    method StartAttempt()
      requires queue != []
      modifies this
      ensures View() == Dispatch(old(View()))
    {
      var job := queue[0];
      queue := queue[1..];
      flying := flying[job.id := Flight(job, Running)];
    }

    /**
     * The dispatch loop: `allows` is whether the pace and the pool let it send next. What it does is a run of drops
     * and dispatches; it starts the live jobs in order, and ends, as an expired head always shortens the queue.
     */
    method DispatchReady(allows: nat -> bool) returns (started: seq<Job>, ghost steps: seq<Step>)
      requires Inv(c, View())
      modifies this
      ensures Inv(c, View())
      ensures IsRun(c, old(View()), steps) && After(c, old(View()), steps) == View()
      ensures forall step <- steps :: step.ExpiredDropped? || step.Dispatched?
      ensures now == old(now)
      ensures Filter(old(queue), Not(Expired(now))) == started + Filter(queue, Not(Expired(now)))
      ensures flying.Keys == old(flying).Keys + Ids(started)
      ensures forall j <- started :: j in old(queue) && !TooLate(j, now)
      ensures forall j <- old(queue) :: !TooLate(j, now) ==> j in started || j in queue
      ensures queue != [] && |flying| < c.maxConc ==> !TooLate(queue[0], now) && !allows(|started|)
    {
      hide DispatchedSoFar, DropExpiredJobs, Dispatch, QueueExpired, Inv, TooLate;
      ghost var was := View();
      started, steps := [], [];
      NoneDispatched(c, was);
      while |queue| > 0 && |flying| < c.maxConc
        invariant DispatchedSoFar(c, was, View(), steps, started)
        decreases |queue|
      {
        SoFarKeeps(c, was, View(), steps, started);
        if QueueExpired(queue[0], now) {
          DropShortensQueue(c, View());
          DropsNext(c, was, View(), steps, started);
          DropExpired();
          steps := steps + [ExpiredDropped];
          continue;
        }
        if !allows(|started|) {
          SoFarMeans(c, was, View(), steps, started);
          StartedAreLive(was.queue, queue, started, now);
          LateIsExpired(queue[0], now);
          return;
        }
        DispatchesNext(c, was, View(), steps, started);
        started := started + [queue[0]];
        StartAttempt();
        steps := steps + [Dispatched];
      }
      SoFarMeans(c, was, View(), steps, started);
      StartedAreLive(was.queue, queue, started, now);
    }

    /** The run loop reads what an attempt reports. */
    method ReadReport(id: string)
      requires id in flying
      modifies this
      ensures View() == Done(old(View()), id)
    {
      var f := flying[id];
      flying := flying - {id};
      if f.phase.Retrying? {
        waiting := waiting + [Waiting(f.job, f.phase.at)];
      } else {
        present := present - {id};
        backlog := backlog - 1;
        owed := owed - {id};
      }
    }
  }

  lemma LiveAreLeft(c: Config, s: State)
    ensures DropExpiredJobs(s).now == s.now
    ensures Inv(c, s) ==> forall j :: j in DropExpiredJobs(s).queue <==> j in s.queue && !TooLate(j, s.now)
  {
    hide Inv, Filter, TooLate;
    if Inv(c, s) {
      hide *;
      DropLeavesTheLive(c, s);
    }
  }

  /** The jobs started, and those left, are the ones of the queue that are not too late. */
  lemma StartedAreLive(was: seq<Job>, left: seq<Job>, started: seq<Job>, now: int)
    requires Filter(was, Not(Expired(now))) == started + Filter(left, Not(Expired(now)))
    ensures forall j <- started :: j in was && !TooLate(j, now)
    ensures forall j <- was :: !TooLate(j, now) ==> j in started || j in left
  {
    FilterIs(was, Not(Expired(now)));
    FilterIs(left, Not(Expired(now)));
    forall j ensures QueueExpired(j, now) <==> TooLate(j, now) { LateIsExpired(j, now); }
    var live := Filter(was, Not(Expired(now)));
    hide Filter, Precedes, QueueExpired, TooLate;
    assert forall j <- started :: j in live;
    assert forall j <- live :: j in started || j in Filter(left, Not(Expired(now)));
  }

  /** What the dispatch loop has done so far. */
  ghost predicate DispatchedSoFar(c: Config, was: State, cur: State, steps: seq<Step>, started: seq<Job>) {
    && Inv(c, cur) && cur.now == was.now
    && IsRun(c, was, steps) && After(c, was, steps) == cur
    && (forall step <- steps :: step.ExpiredDropped? || step.Dispatched?)
    && Filter(was.queue, Not(Expired(was.now))) == started + Filter(cur.queue, Not(Expired(was.now)))
    && cur.flying.Keys == was.flying.Keys + Ids(started)
  }

  lemma NoneDispatched(c: Config, s: State)
    requires Inv(c, s)
    ensures DispatchedSoFar(c, s, s, [], [])
  {
    hide Inv, Filter;
    assert Ids([]) == {};
  }

  lemma SoFarKeeps(c: Config, was: State, cur: State, steps: seq<Step>, started: seq<Job>)
    requires DispatchedSoFar(c, was, cur, steps, started)
    ensures Inv(c, cur) && Distinct(cur.queue)
  {
    hide Filter, IsRun, After;
  }

  lemma SoFarMeans(c: Config, was: State, cur: State, steps: seq<Step>, started: seq<Job>)
    requires DispatchedSoFar(c, was, cur, steps, started)
    ensures Inv(c, cur) && cur.now == was.now && IsRun(c, was, steps) && After(c, was, steps) == cur
    ensures forall step <- steps :: step.ExpiredDropped? || step.Dispatched?
    ensures Filter(was.queue, Not(Expired(was.now))) == started + Filter(cur.queue, Not(Expired(was.now)))
    ensures cur.flying.Keys == was.flying.Keys + Ids(started)
  {
    hide Inv, Filter, IsRun, After;
  }

  /** One more step of the loop, after which the jobs started are `begun`. */
  lemma OneMore(c: Config, was: State, cur: State, steps: seq<Step>, started: seq<Job>, step: Step, begun: seq<Job>)
    requires DispatchedSoFar(c, was, cur, steps, started)
    requires (step.ExpiredDropped? || step.Dispatched?) && Enabled(c, cur, step)
    requires var next := Apply(c, cur, step);
             && Inv(c, next) && next.now == was.now
             && Filter(was.queue, Not(Expired(was.now))) == begun + Filter(next.queue, Not(Expired(was.now)))
             && next.flying.Keys == was.flying.Keys + Ids(begun)
    ensures DispatchedSoFar(c, was, Apply(c, cur, step), steps + [step], begun)
  {
    hide Inv, Filter, IsRun, After, Apply, Enabled, Ids;
    Extend(c, was, steps, step);
  }

  lemma DropsNext(c: Config, was: State, cur: State, steps: seq<Step>, started: seq<Job>)
    requires DispatchedSoFar(c, was, cur, steps, started)
    ensures DispatchedSoFar(c, was, DropExpiredJobs(cur), steps + [ExpiredDropped], started)
  {
    hide *;
    SoFarMeans(c, was, cur, steps, started);
    DropIsStep(c, cur);
    DropExpiredJobsKeeps(c, cur);
    DropEffect(c, cur);
    OneMore(c, was, cur, steps, started, ExpiredDropped, started);
  }

  lemma DispatchesNext(c: Config, was: State, cur: State, steps: seq<Step>, started: seq<Job>)
    requires DispatchedSoFar(c, was, cur, steps, started)
    requires cur.queue != [] && |cur.flying| < c.maxConc && !QueueExpired(cur.queue[0], cur.now)
    ensures DispatchedSoFar(c, was, Dispatch(cur), steps + [Dispatched], started + [cur.queue[0]])
    ensures |Dispatch(cur).queue| < |cur.queue|
  {
    hide *;
    SoFarMeans(c, was, cur, steps, started);
    DispatchIsStep(c, cur);
    DispatchKeeps(c, cur);
    DispatchTakes(cur);
    IdsSnoc(started, cur.queue[0]);
    var begun := started + [cur.queue[0]];
    var rest := Filter(Dispatch(cur).queue, Not(Expired(was.now)));
    assert started + ([cur.queue[0]] + rest) == begun + rest;
    OneMore(c, was, cur, steps, started, Dispatched, begun);
  }

  lemma DropIsStep(c: Config, s: State)
    ensures Enabled(c, s, ExpiredDropped) && Apply(c, s, ExpiredDropped) == DropExpiredJobs(s)
  {
    hide DropExpiredJobs;
  }

  lemma DispatchIsStep(c: Config, s: State)
    requires s.queue != [] && |s.flying| < c.maxConc && !QueueExpired(s.queue[0], s.now)
    ensures CanDispatch(c, s) && Enabled(c, s, Dispatched) && Apply(c, s, Dispatched) == Dispatch(s)
  {
    hide Dispatch, QueueExpired;
  }

  lemma {:induction false} Extend(c: Config, s: State, steps: seq<Step>, step: Step)
    requires IsRun(c, s, steps) && Enabled(c, After(c, s, steps), step)
    ensures IsRun(c, s, steps + [step]) && After(c, s, steps + [step]) == Apply(c, After(c, s, steps), step)
    decreases |steps|
  {
    hide Enabled, Apply;
    if steps == [] {
      assert [] + [step] == [step] && [step][1..] == [];
    } else {
      Extend(c, Apply(c, s, steps[0]), steps[1..], step);
      assert (steps + [step])[1..] == steps[1..] + [step];
    }
  }

  lemma {:induction false} FilterAll<T>(q: seq<T>, keep: T -> bool)
    requires forall x <- q :: keep(x)
    ensures Filter(q, keep) == q
    decreases |q|
  {
    if q != [] {
      FilterAll(q[..|q| - 1], keep);
      assert q == q[..|q| - 1] + [q[|q| - 1]];
    }
  }

  /** Dropping leaves the live jobs, and nothing in flight changes. */
  lemma DropEffect(c: Config, s: State)
    requires Inv(c, s)
    ensures var live := Not(Expired(s.now));
            var t := DropExpiredJobs(s);
            && t.now == s.now && t.flying == s.flying
            && Filter(t.queue, live) == Filter(s.queue, live)
  {
    CacheRefinesScan(c, s);
    hide Inv, Filter, QueueExpired, FailRows, TrackAll;
    var live := Not(Expired(s.now));
    var t := DropExpiredJobs(s);
    assert t.queue == Filter(s.queue, live);
    FilterAll(t.queue, live);
  }

  /** A live head goes out first. */
  lemma DispatchTakes(s: State)
    requires s.queue != [] && !QueueExpired(s.queue[0], s.now)
    ensures var t := Dispatch(s);
            && t.queue == s.queue[1..] && t.now == s.now && t.flying.Keys == s.flying.Keys + {s.queue[0].id}
            && Filter(s.queue, Not(Expired(s.now))) == [s.queue[0]] + Filter(t.queue, Not(Expired(s.now)))
  {
    hide Filter, QueueExpired;
    assert s.queue == [s.queue[0]] + s.queue[1..];
    FilterCons(s.queue[0], s.queue[1..], Not(Expired(s.now)));
  }
}
