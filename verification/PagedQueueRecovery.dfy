/** Recovery: hand over a queue's first page and leave the rest on disk (internal/core/runtime.go:274-302). */
module PagedQueueRecovery {
  import opened Jobs
  import opened Pages
  import opened PagedQueue
  import opened PagedQueueInv
  import opened PagedQueueFrames
  import opened PagedQueuePaging

  /** A store as recovery finds it. */
  ghost predicate Recoverable(c: Config, rows: Rows, now: int) {
    && c.size > 0 && c.own != "" && QUEUED_TTL < now
    && WellKeyed(rows)
    && (forall id <- rows :: RowOk(rows[id]) && rows[id].job.createdAt <= now)
  }

  /** The queue with these jobs handed over, and no source attached. */
  function HandedOver(rows: Rows, now: int, page: seq<Job>): State {
    State(rows, now, |page|, map id | id in Ids(page) && id in rows :: Handoff(rows[id].job, now, true), page,
          [], [], map[], {}, [], [], 0, 0, 0, Ids(page), now)
  }

  function FirstPage(c: Config, rows: Rows, now: int): seq<Job>
    requires WellKeyed(rows)
  {
    Page(rows, c.own, START, 0, c.size, now)
  }

  /** What PendingQueueKeys counts under the queue's key. */
  function PendingCount(c: Config, rows: Rows, now: int): nat { |Matching(rows, c.own, START, 0, now)| }

  function Recover(c: Config, rows: Rows, now: int): State
    requires WellKeyed(rows)
  {
    var page := FirstPage(c, rows, now);
    var s := HandedOver(rows, now, page);
    if |page| < c.size || PendingCount(c, rows, now) <= |page| || page == [] then s
    else Attach(s, c.own, CursorAt(page[|page| - 1]), PendingCount(c, rows, now) - |page|, now + 1)
  }

  // ---- the first page ----

  lemma {:induction false} CountIds(js: set<Job>)
    requires DistinctIds(js)
    ensures |set j <- js :: j.id| == |js|
    decreases |js|
  {
    if js != {} {
      var x :| x in js;
      CountIds(js - {x});
      assert (set j <- js :: j.id) == (set j <- js - {x} :: j.id) + {x.id};
      assert x.id !in (set j <- js - {x} :: j.id);
    }
  }

  lemma {:induction false} IncreasingIsDistinct(page: seq<Job>, js: set<Job>)
    requires Increasing(page) && DistinctIds(js)
    requires forall j <- page :: j in js
    ensures Distinct(page) && |Ids(page)| == |page|
    decreases |page|
  {
    forall i, k | 0 <= i < k < |page| ensures page[i].id != page[k].id {
      assert page[i] in page && page[k] in page;
      BeforeIsOrder(page[i], page[k], page[k]);
    }
    if page != [] {
      var init := page[..|page| - 1];
      IncreasingIsDistinct(init, js);
      var x := page[|page| - 1];
      assert page == init + [x];
      assert Ids(page) == Ids(init) + {x.id};
    }
  }

  ghost predicate PageOk(c: Config, rows: Rows, now: int, page: seq<Job>) {
    && Distinct(page) && |Ids(page)| == |page|
    && (forall j <- page :: j.id in rows && rows[j.id].job == j && Qualifies(rows[j.id], c.own, START, 0, now))
  }

  lemma FirstPageOk(c: Config, rows: Rows, now: int)
    requires WellKeyed(rows)
    ensures PageOk(c, rows, now, FirstPage(c, rows, now))
  {
    hide Covers;
    PageIsPage(rows, c.own, START, 0, c.size, now);
    IncreasingIsDistinct(FirstPage(c, rows, now), Matching(rows, c.own, START, 0, now));
  }

  /** If recovery attaches nothing, the page was everything. */
  lemma WholeIsHanded(c: Config, rows: Rows, now: int, j: Job)
    requires WellKeyed(rows)
    requires |FirstPage(c, rows, now)| < c.size || PendingCount(c, rows, now) <= |FirstPage(c, rows, now)|
    requires j in Matching(rows, c.own, START, 0, now)
    ensures j in FirstPage(c, rows, now)
  {
    hide Covers, Matching;
    ListingIsPageThenRest(rows, c.own, START, 0, c.size, now);
    SortedIsIncreasing(Matching(rows, c.own, START, 0, now));
  }

  /** Otherwise the rows past its last job are the rest, and there are as many as recovery attaches. */
  lemma RestIsPastPage(c: Config, rows: Rows, now: int)
    requires WellKeyed(rows) && FirstPage(c, rows, now) != []
    ensures var page := FirstPage(c, rows, now);
            var all := Matching(rows, c.own, START, 0, now);
            var rest := Matching(rows, c.own, CursorAt(page[|page| - 1]), 0, now);
            && |rest| == |all| - |page|
            && (forall j <- all :: j in page || j in rest)
  {
    hide *;
    var page := FirstPage(c, rows, now);
    FirstPageThenRest(c, rows, now);
    MatchingDistinct(rows, c.own, START, now);
    MatchingDistinct(rows, c.own, CursorAt(page[|page| - 1]), now);
    SplitSorted(Matching(rows, c.own, START, 0, now), page, Matching(rows, c.own, CursorAt(page[|page| - 1]), 0, now));
  }

  lemma FirstPageThenRest(c: Config, rows: Rows, now: int)
    requires WellKeyed(rows) && FirstPage(c, rows, now) != []
    ensures var page := FirstPage(c, rows, now);
            Sorted(Matching(rows, c.own, START, 0, now)) ==
            page + Sorted(Matching(rows, c.own, CursorAt(page[|page| - 1]), 0, now))
  {
    hide Page, Matching, Sorted, WellKeyed;
    ListingIsPageThenRest(rows, c.own, START, 0, c.size, now);
  }

  lemma MatchingDistinct(rows: Rows, key: string, after: Cursor, now: int)
    requires WellKeyed(rows)
    ensures DistinctIds(Matching(rows, key, after, 0, now))
  {
  }

  /** A sorted set split in two: the sizes add up, and every job is in one part. */
  lemma SplitSorted(all: set<Job>, page: seq<Job>, rest: set<Job>)
    requires DistinctIds(all) && DistinctIds(rest) && Sorted(all) == page + Sorted(rest)
    ensures |rest| == |all| - |page| && forall j <- all :: j in page || j in rest
  {
    SortedIsIncreasing(all);
    SortedIsIncreasing(rest);
    hide Sorted, DistinctIds, Increasing;
    forall j | j in all ensures j in page || j in rest {
      assert j in page + Sorted(rest);
    }
  }

  lemma LastCoversPage(c: Config, rows: Rows, now: int, j: Job)
    requires WellKeyed(rows) && j in FirstPage(c, rows, now)
    ensures var page := FirstPage(c, rows, now); Covers(CursorAt(page[|page| - 1]), j)
  {
    hide Matching;
    var page := FirstPage(c, rows, now);
    var p := page[|page| - 1];
    PageIsPage(rows, c.own, START, 0, c.size, now);
    var k :| 0 <= k < |page| && page[k] == j;
    BeforeIsOrder(j, p, p);
    CursorOrder(p, j, START);
  }

  lemma AfterStart(j: Job)
    requires j.createdAt > 0
    ensures !Covers(START, j)
  {
  }

  // ---- the state recovery leaves ----

  lemma HandedOverOk(c: Config, rows: Rows, now: int, page: seq<Job>)
    requires Recoverable(c, rows, now) && PageOk(c, rows, now, page)
    ensures var s := HandedOver(rows, now, page);
            && RowsOk(s) && SingleCopy(c, s) && MemoryOk(s) && DeadlineOk(s) && SourcesOk(s) && BacklogExact(s)
            && HandoffsOk(c, s)
  {
    hide Covers, QueueDeadline, Qualifies, RowOk, HandoffOk;
    var s := HandedOver(rows, now, page);
    forall id | id in s.outstanding ensures s.outstanding[id].job.id == id && HandoffOk(c, s, s.outstanding[id]) {
      var j :| j in page && j.id == id;
      RecoveredHandoff(c, rows, now, page, j);
    }
    forall j | j in page ensures j.id in s.outstanding { assert j.id in Ids(page); }
  }

  lemma RecoveredHandoff(c: Config, rows: Rows, now: int, page: seq<Job>, j: Job)
    requires Recoverable(c, rows, now) && PageOk(c, rows, now, page) && j in page
    ensures HandoffOk(c, HandedOver(rows, now, page), Handoff(j, now, true))
  {
    hide Covers, QueueDeadline;
    assert RowOk(rows[j.id]) && j.id in Ids(page);
  }

  lemma OwedAreHandedOver(c: Config, rows: Rows, now: int, page: seq<Job>, t: State)
    requires PageOk(c, rows, now, page)
    requires t.owed == Ids(page) && t.outstanding == HandedOver(rows, now, page).outstanding && t.present == {}
    requires Sources(t) != [] ==> t.now < t.safeUntil
    ensures OwedOk(c, t)
  {
    hide Qualifies;
    forall id | id in t.owed ensures id in t.outstanding {
      var j :| j in page && j.id == id;
    }
  }

  /** A live row of the queue's key is in the page, or past its last job. */
  lemma LiveIsMatching(c: Config, rows: Rows, now: int, id: string)
    requires Recoverable(c, rows, now) && id in rows
    requires rows[id].key == c.own && Pending(rows[id].status) && now < rows[id].expiresAt
    ensures rows[id].job in Matching(rows, c.own, START, 0, now) && rows[id].job.id == id
  {
    hide QueueDeadline;
    assert RowOk(rows[id]);
    AfterStart(rows[id].job);
  }

  lemma HandedIsOutstanding(rows: Rows, now: int, page: seq<Job>, id: string)
    requires id in rows && rows[id].job in page && rows[id].job.id == id
    ensures id in HandedOver(rows, now, page).outstanding
  {
    assert id in Ids(page);
  }

  lemma WholeRecovered(c: Config, rows: Rows, now: int)
    requires Recoverable(c, rows, now)
    requires |FirstPage(c, rows, now)| < c.size || PendingCount(c, rows, now) <= |FirstPage(c, rows, now)|
    ensures NoneLost(c, HandedOver(rows, now, FirstPage(c, rows, now)))
  {
    hide FirstPage, Matching, RowOk;
    var s := HandedOver(rows, now, FirstPage(c, rows, now));
    forall id | id in s.rows && s.rows[id].key == c.own && Live(s, id) ensures id in s.outstanding {
      LiveIsMatching(c, rows, now, id);
      WholeIsHanded(c, rows, now, rows[id].job);
      HandedIsOutstanding(rows, now, FirstPage(c, rows, now), id);
    }
  }

  lemma RestRecovered(c: Config, rows: Rows, now: int, t: State)
    requires Recoverable(c, rows, now) && FirstPage(c, rows, now) != []
    requires t.rows == rows && t.now == now
    requires var page := FirstPage(c, rows, now);
             && t.outstanding == HandedOver(rows, now, page).outstanding
             && exists src <- Sources(t) :: src.key == c.own && src.after == CursorAt(page[|page| - 1])
    ensures NoneLost(c, t)
  {
    hide FirstPage, RowOk, HandedOver, Covers;
    forall id | id in t.rows && t.rows[id].key == c.own && Live(t, id) && id !in t.outstanding
      ensures AheadOnDisk(c.own, Sources(t), t.rows[id].job) {
      LiveIsMatching(c, rows, now, id);
      RestIsPastPage(c, rows, now);
      if rows[id].job in FirstPage(c, rows, now) {
        HandedIsOutstanding(rows, now, FirstPage(c, rows, now), id);
      }
    }
  }

  lemma RestCanAttach(c: Config, rows: Rows, now: int)
    requires Recoverable(c, rows, now) && FirstPage(c, rows, now) != []
    requires PendingCount(c, rows, now) > |FirstPage(c, rows, now)|
    ensures var page := FirstPage(c, rows, now);
            CanAttach(c, HandedOver(rows, now, page), c.own, CursorAt(page[|page| - 1]),
                      PendingCount(c, rows, now) - |page|, now + 1)
  {
    hide FirstPage, RowOk, Covers, Fresh, PendingCount, Counted;
    var page := FirstPage(c, rows, now);
    var s := HandedOver(rows, now, page);
    var last := CursorAt(page[|page| - 1]);
    RestIsCounted(c, rows, now);
    forall id | id in rows && Qualifies(rows[id], c.own, last, 0, now) ensures id !in s.owed {
      RestIsNotHanded(c, rows, now, id);
    }
    forall id | id in s.outstanding ensures Covers(last, s.outstanding[id].job) {
      HandedIsCovered(c, rows, now, id);
    }
  }

  lemma RestIsNotHanded(c: Config, rows: Rows, now: int, id: string)
    requires Recoverable(c, rows, now) && FirstPage(c, rows, now) != []
    requires var page := FirstPage(c, rows, now);
             id in rows && Qualifies(rows[id], c.own, CursorAt(page[|page| - 1]), 0, now)
    ensures id !in Ids(FirstPage(c, rows, now))
  {
    hide FirstPage, Covers, RowOk;
    FirstPageOk(c, rows, now);
    forall j | j in FirstPage(c, rows, now) ensures j.id != id { LastCoversPage(c, rows, now, j); }
  }

  lemma HandedIsCovered(c: Config, rows: Rows, now: int, id: string)
    requires Recoverable(c, rows, now) && FirstPage(c, rows, now) != []
    requires id in HandedOver(rows, now, FirstPage(c, rows, now)).outstanding
    ensures var page := FirstPage(c, rows, now); Covers(CursorAt(page[|page| - 1]), rows[id].job)
  {
    hide FirstPage, Covers, RowOk, Qualifies;
    FirstPageOk(c, rows, now);
    var j :| j in FirstPage(c, rows, now) && j.id == id;
    LastCoversPage(c, rows, now, j);
  }

  lemma RestIsCounted(c: Config, rows: Rows, now: int)
    requires Recoverable(c, rows, now) && FirstPage(c, rows, now) != []
    ensures var page := FirstPage(c, rows, now);
            var n := PendingCount(c, rows, now) - |page|;
            |Counted(HandedOver(rows, now, page), Source(c.own, CursorAt(page[|page| - 1]), n, 0, now + 1, START))| <= n
  {
    RecoverableIsKeyed(c, rows, now);
    hide *;
    var page := FirstPage(c, rows, now);
    var last := CursorAt(page[|page| - 1]);
    var src := Source(c.own, last, PendingCount(c, rows, now) - |page|, 0, now + 1, START);
    RestSize(c, rows, now);
    CountedIsRest(c, rows, now, page, src);
    NoMoreIds(Counted(HandedOver(rows, now, page), src), Matching(rows, c.own, last, 0, now));
  }

  lemma NoMoreIds(ids: set<string>, js: set<Job>)
    requires DistinctIds(js) && ids <= set j <- js :: j.id
    ensures |ids| <= |js|
  {
    CountIds(js);
    Smaller(ids, set j <- js :: j.id);
  }

  lemma RestSize(c: Config, rows: Rows, now: int)
    requires WellKeyed(rows) && FirstPage(c, rows, now) != []
    ensures var page := FirstPage(c, rows, now);
            var rest := Matching(rows, c.own, CursorAt(page[|page| - 1]), 0, now);
            |rest| == PendingCount(c, rows, now) - |page| && DistinctIds(rest)
  {
    hide *;
    var page := FirstPage(c, rows, now);
    PendingIsMatching(c, rows, now);
    RestIsPastPage(c, rows, now);
    MatchingDistinct(rows, c.own, CursorAt(page[|page| - 1]), now);
  }

  lemma RecoverableIsKeyed(c: Config, rows: Rows, now: int)
    requires Recoverable(c, rows, now)
    ensures WellKeyed(rows)
  {
    hide RowOk;
  }

  lemma PendingIsMatching(c: Config, rows: Rows, now: int)
    ensures PendingCount(c, rows, now) == |Matching(rows, c.own, START, 0, now)|
  {
    hide Matching;
  }

  lemma CountedIsRest(c: Config, rows: Rows, now: int, page: seq<Job>, src: Source)
    requires Recoverable(c, rows, now) && src.key == c.own && src.cutoff == now + 1
    ensures Counted(HandedOver(rows, now, page), src) <= set j <- Matching(rows, c.own, src.after, 0, now) :: j.id
  {
    hide RowOk, Covers;
    forall id | id in Counted(HandedOver(rows, now, page), src)
      ensures id in (set j <- Matching(rows, c.own, src.after, 0, now) :: j.id)
    {
      assert rows[id].job in Matching(rows, c.own, src.after, 0, now) && rows[id].job.id == id;
    }
  }

  lemma AttachedStarts(c: Config, rows: Rows, now: int)
    requires Recoverable(c, rows, now) && FirstPage(c, rows, now) != []
    requires PendingCount(c, rows, now) > |FirstPage(c, rows, now)|
    ensures var page := FirstPage(c, rows, now);
            Inv(c, Attach(HandedOver(rows, now, page), c.own, CursorAt(page[|page| - 1]),
                          PendingCount(c, rows, now) - |page|, now + 1))
  {
    hide FirstPage, RowsOk, SingleCopies, CacheBelow, MemoryOk, SourcesOk, HandoffsOk, OwedOk, NoneLost, RowOk, PendingCount;
    hide PageOk, Left, CanAttach, Ids;
    var page := FirstPage(c, rows, now);
    var s := HandedOver(rows, now, page);
    var n := PendingCount(c, rows, now) - |page|;
    FirstPageOk(c, rows, now);
    HandedOverOk(c, rows, now, page);
    var last := CursorAt(page[|page| - 1]);
    var src := Source(c.own, last, n, 0, now + 1, START);
    var t := Attach(s, c.own, last, n, now + 1);
    RestCanAttach(c, rows, now);
    AttachRows(s, t);
    MemoryKept(c, s, t);
    AttachSources(c, s, c.own, last, n, now + 1);
    AttachHandoffs(c, s, c.own, last, n, now + 1);
    assert Sources(t) == [src] && src in Sources(t);
    OwedAreHandedOver(c, rows, now, page, t);
    RestRecovered(c, rows, now, t);
    LeftOne(src);
    assert Sources(s) == [];
  }

  /** Recovery starts the queue in a good state. */
  lemma RecoverStarts(c: Config, rows: Rows, now: int)
    requires Recoverable(c, rows, now)
    ensures Inv(c, Recover(c, rows, now))
  {
    hide FirstPage, RowsOk, SingleCopies, CacheBelow, MemoryOk, SourcesOk, HandoffsOk, OwedOk, NoneLost, RowOk, PendingCount;
    hide PageOk, Left, Ids, Attach;
    var page := FirstPage(c, rows, now);
    if |page| < c.size || PendingCount(c, rows, now) <= |page| || page == [] {
      FirstPageOk(c, rows, now);
      HandedOverOk(c, rows, now, page);
      OwedAreHandedOver(c, rows, now, page, HandedOver(rows, now, page));
      WholeRecovered(c, rows, now);
    } else {
      AttachedStarts(c, rows, now);
    }
  }
}
