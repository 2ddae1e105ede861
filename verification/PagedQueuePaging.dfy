/** Attaching sources, loading pages and dropping dry sources keep the invariant. */
module PagedQueuePaging {
  import opened Jobs
  import opened Pages
  import opened PagedQueue
  import opened PagedQueueInv
  import opened PagedQueueFrames
  import opened PagedQueueHandoffs

  // ---- attaching ----

  /**
   * The hypotheses recovery establishes: `remaining` counts the rows attached, those have no hand-off
   * of their own on the way, and jobs handed off since were created at or after the cutoff.
   */
  ghost predicate CanAttach(c: Config, s: State, key: string, after: Cursor, remaining: nat, cutoff: int) {
    && key != ""
    && (forall src <- Sources(s) :: src.key != key)
    && |Counted(s, Source(key, after, remaining, 0, cutoff, START))| <= remaining
    && (forall id <- s.rows :: Qualifies(s.rows[id], key, after, 0, s.now) ==>
          && (id !in s.owed ==> s.rows[id].job.createdAt < cutoff)
          && (id in s.owed && id !in s.present ==> s.rows[id].job.createdAt >= cutoff))
    && (key == c.own ==> forall id <- s.outstanding ::
          Covers(after, s.outstanding[id].job) || (Fresh(s.outstanding[id]) && s.outstanding[id].job.createdAt >= cutoff))
  }

  lemma AttachKeeps(c: Config, s: State, key: string, after: Cursor, remaining: nat, cutoff: int)
    requires Inv(c, s) && CanAttach(c, s, key, after, remaining, cutoff)
    ensures Inv(c, Attach(s, key, after, remaining, cutoff))
  {
    hide RowsOk, SingleCopies, CacheBelow, MemoryOk, SourcesOk, HandoffsOk, OwedOk, NoneLost, Left, CanAttach;
    var t := Attach(s, key, after, remaining, cutoff);
    var src := Source(key, after, remaining, 0, cutoff, START);
    assert Sources(t) == Sources(s) + [src];
    assert RowsOk(t) by { AttachRows(s, t); }
    MemoryKept(c, s, t);
    AttachSources(c, s, key, after, remaining, cutoff);
    AttachHandoffs(c, s, key, after, remaining, cutoff);
    AttachLocations(c, s, key, after, remaining, cutoff);
    LeftConcat(Sources(s), [src]);
    LeftOne(src);
    assert BacklogExact(t);
  }

  lemma AttachRows(s: State, t: State)
    requires RowsOk(s) && t.rows == s.rows && t.now == s.now
    requires t.safeUntil == s.safeUntil || t.safeUntil == s.now + PENDING_ROW_GRACE
    ensures RowsOk(t)
  {
  }

  lemma AttachSources(c: Config, s: State, key: string, after: Cursor, remaining: nat, cutoff: int)
    requires RowsOk(s) && SourcesOk(s) && CanAttach(c, s, key, after, remaining, cutoff)
    ensures SourcesOk(Attach(s, key, after, remaining, cutoff))
  {
    hide Fresh, AheadOnDisk, QueueDeadline;
    var t := Attach(s, key, after, remaining, cutoff);
    var src := Source(key, after, remaining, 0, cutoff, START);
    assert Sources(t) == Sources(s) + [src];
    assert Counted(t, src) == Counted(s, src);
    forall id | id in t.rows ensures !Covers(START, t.rows[id].job) { assert RowOk(s.rows[id]); }
    assert SourceOk(t, src);
    forall x | x in Sources(t) ensures SourceOk(t, x) {
      if x != src {
        assert x in Sources(s);
        SourceKept(s, t, x);
      }
    }
  }

  lemma AttachHandoffs(c: Config, s: State, key: string, after: Cursor, remaining: nat, cutoff: int)
    requires HandoffsOk(c, s) && CanAttach(c, s, key, after, remaining, cutoff)
    ensures HandoffsOk(c, Attach(s, key, after, remaining, cutoff))
  {
    hide Counted, QueueDeadline, Covers;
    var t := Attach(s, key, after, remaining, cutoff);
    assert Sources(t) == Sources(s) + [Source(key, after, remaining, 0, cutoff, START)];
    forall id | id in t.outstanding ensures HandoffOk(c, t, t.outstanding[id]) {
      assert HandoffOk(c, s, s.outstanding[id]);
    }
  }

  lemma AttachLocations(c: Config, s: State, key: string, after: Cursor, remaining: nat, cutoff: int)
    requires OwedOk(c, s) && NoneLost(c, s)
    ensures OwedOk(c, Attach(s, key, after, remaining, cutoff)) && NoneLost(c, Attach(s, key, after, remaining, cutoff))
  {
    hide Covers;
    var t := Attach(s, key, after, remaining, cutoff);
    assert Sources(t) == Sources(s) + [Source(key, after, remaining, 0, cutoff, START)];
    forall x | x in t.owed && x !in t.present && x !in t.outstanding ensures OnDisk(c, t, x) {
      assert OnDisk(c, s, x);
    }
  }

  lemma TakeSpillsKeeps(c: Config, s: State)
    requires Inv(c, s)
    ensures Inv(c, TakeSpills(s))
  {
    hide RowsOk, SingleCopies, CacheBelow, MemoryOk, SourcesOk, HandoffsOk, OnDisk, NoneLost, Left;
    var t := TakeSpills(s);
    assert Sources(t) == Sources(s);
    RowsSame(s, t);
    MemoryKept(c, s, t);
    SourcesKept(s, t);
    forall id | id in s.outstanding ensures HandoffSame(s, t, s.outstanding[id]) { HandoffRow(c, s, id); }
    HandoffsKept(c, s, t);
    forall id | id in s.owed && id !in s.present && id !in s.outstanding ensures id in t.rows { OwedRowIsOnDisk(c, s, id); }
    OwedKept(c, s, t);
    NoneLostKept(c, s, t);
  }

  // ---- loading one row ----

  /** `j` is the next row of the first source: pending, unexpired, past its cursor, and none before it. */
  ghost predicate IsNext(s: State, j: Job) {
    && s.spills != []
    && j.id in s.rows && s.rows[j.id].job == j
    && Qualifies(s.rows[j.id], s.spills[0].key, s.spills[0].after, 0, s.now)
    && (forall id <- s.rows :: Qualifies(s.rows[id], s.spills[0].key, s.spills[0].after, 0, s.now) ==>
          id == j.id || !Covers(CursorAt(j), s.rows[id].job))
  }

  /** Whether a row is counted is decided by who holds it: exactly the rows no one owed are. */
  lemma CountedWhenUnowed(s: State, src: Source, j: Job)
    requires SourceOk(s, src)
    requires j.id in s.rows && s.rows[j.id].job == j && Qualifies(s.rows[j.id], src.key, src.after, 0, s.now)
    ensures j.id !in s.owed ==> Counts(src, j)
    ensures j.id in s.owed && j.id !in s.present ==> !Counts(src, j)
    ensures Counts(src, j) ==> j.id in Counted(s, src)
  {
    if j.id !in s.owed {
      Smaller({j.id}, Counted(s, src));
    }
  }

  /** The first source after its row `j` has been loaded. */
  function Moved(src: Source, j: Job): Source {
    src.(consumed := if Counts(src, j) then src.consumed + 1 else src.consumed, after := CursorAt(j))
  }

  lemma LoadOneKeeps(c: Config, s: State, j: Job)
    requires Inv(c, s) && IsNext(s, j)
    ensures Inv(c, LoadOne(c, s, j))
  {
    hide RowsOk, SingleCopies, CacheBelow, MemoryOk, SourcesOk, HandoffsOk, OnDisk, NoneLost, BacklogExact, Qualifies, Counts, Covers;
    hide Track;
    var t := LoadOne(c, s, j);
    RowsSame(s, t);
    LoadOneMemory(c, s, j);
    LoadOneSources(c, s, j);
    LoadOneHandoffs(c, s, j);
    LoadOneLocations(c, s, j);
    LoadOneBacklog(c, s, j);
  }

  lemma LoadOneMemory(c: Config, s: State, j: Job)
    requires RowsOk(s) && SingleCopy(c, s) && MemoryOk(s) && DeadlineOk(s) && IsNext(s, j)
    ensures SingleCopy(c, LoadOne(c, s, j)) && MemoryOk(LoadOne(c, s, j)) && DeadlineOk(LoadOne(c, s, j))
  {
    hide HeldOk, FlightOk, SingleCopies, CacheBelow, Track, Counts, Covers;
    if j.id !in s.present {
      NextIsHeld(s, j);
      AppendHeld(c, s, LoadOne(c, s, j), j);
    }
  }

  lemma NextIsHeld(s: State, j: Job)
    requires RowsOk(s) && IsNext(s, j)
    ensures HeldOk(s.rows, j)
  {
    assert RowOk(s.rows[j.id]);
  }

  lemma LoadOneSources(c: Config, s: State, j: Job)
    requires SourcesOk(s) && IsNext(s, j)
    ensures SourcesOk(LoadOne(c, s, j))
  {
    hide SourceOk, Counts, Covers;
    var t := LoadOne(c, s, j);
    var src := s.spills[0];
    assert Sources(t) == [Moved(src, j)] + Sources(s)[1..];
    assert Sources(s)[0] == src;
    MovedIsOk(c, s, j);
    forall x | x in Sources(t) ensures SourceOk(t, x) {
      if x != Moved(src, j) {
        assert x in Sources(s)[1..];
        assert x in Sources(s) && x.key != src.key;
        SourceKept(s, t, x);
      }
    }
  }

  lemma MovedIsOk(c: Config, s: State, j: Job)
    requires SourcesOk(s) && IsNext(s, j)
    ensures SourceOk(LoadOne(c, s, j), Moved(s.spills[0], j))
  {
    hide SourceOk, Counts, Covers, Counted;
    var t := LoadOne(c, s, j);
    var src := s.spills[0];
    assert src in Sources(s) && SourceOk(s, src);
    CountedWhenUnowed(s, src, j);
    forall id | id in t.rows && Qualifies(t.rows[id], src.key, CursorAt(j), 0, t.now)
      ensures id != j.id && Qualifies(s.rows[id], src.key, src.after, 0, s.now) {
      CursorOrder(j, j, src.after);
      CursorOrder(j, s.rows[id].job, src.after);
    }
    PastIsOk(s, t, src, j);
  }

  /** Past `j`, the rows of its source are counted as before, one fewer of them if `j` was counted. */
  lemma PastIsOk(s: State, t: State, src: Source, j: Job)
    requires SourceOk(s, src) && t.rows == s.rows && t.now == s.now
    requires t.owed - {j.id} == s.owed - {j.id} && t.present - {j.id} == s.present - {j.id}
    requires Counts(src, j) ==> j.id in Counted(s, src)
    requires forall id <- t.rows :: Qualifies(t.rows[id], src.key, CursorAt(j), 0, t.now) ==>
               id != j.id && Qualifies(s.rows[id], src.key, src.after, 0, s.now)
    ensures SourceOk(t, Moved(src, j))
  {
    hide Qualifies;
    var m := Moved(src, j);
    forall id | id in t.rows && Qualifies(t.rows[id], src.key, CursorAt(j), 0, t.now)
      ensures id != j.id && (id in t.owed <==> id in s.owed) && (id in t.present <==> id in s.present) {
      assert id in t.owed - {j.id} <==> id in t.owed;
      assert id in s.owed - {j.id} <==> id in s.owed;
      assert id in t.present - {j.id} <==> id in t.present;
      assert id in s.present - {j.id} <==> id in s.present;
    }
    assert Counted(t, m) <= Counted(s, src) - {j.id};
    Smaller(Counted(t, m), Counted(s, src) - {j.id});
  }

  lemma LoadOneAdvances(c: Config, s: State, j: Job)
    requires IsNext(s, j)
    ensures Advanced(c.own, Sources(s), Sources(LoadOne(c, s, j)))
  {
    hide Counts;
    var t := LoadOne(c, s, j);
    var src := s.spills[0];
    assert Sources(t) == [Moved(src, j)] + Sources(s)[1..] && src in Sources(s);
    forall k | Covers(src.after, k) ensures Covers(CursorAt(j), k) { CursorOrder(j, k, src.after); }
    assert Follows(src, Moved(src, j));
    forall y | y in Sources(t) ensures exists x <- Sources(s) :: Follows(x, y) {
      if y != Moved(src, j) { assert y in Sources(s)[1..] && y in Sources(s) && Follows(y, y); }
    }
  }

  lemma LoadOneHandoffs(c: Config, s: State, j: Job)
    requires SourcesOk(s) && HandoffsOk(c, s) && s.present <= s.owed && IsNext(s, j)
    ensures HandoffsOk(c, LoadOne(c, s, j))
  {
    hide HandoffOk, Fresh, Counts, SourceOk;
    var t := LoadOne(c, s, j);
    PagedWindowGrows(c, s, j);
    LoadOneAdvances(c, s, j);
    forall x | x in s.outstanding && x != j.id ensures HandoffSame(s, t, s.outstanding[x]) { HandoffRow(c, s, x); }
    OthersKept(c, s, t, j.id);
    if j.id in s.outstanding {
      LoadedHandoff(c, s, j);
    }
  }

  lemma PagedWindowGrows(c: Config, s: State, j: Job)
    requires HandoffsOk(c, s) && s.spills != []
    ensures s.pagedOwnUntil <= LoadOne(c, s, j).pagedOwnUntil <= s.now + RECENT_PAGE_WINDOW
  {
  }

  /** A row loaded while its hand-off is on the way: the queue will know the hand-off by its stored status. */
  lemma LoadedHandoff(c: Config, s: State, j: Job)
    requires SourcesOk(s) && HandoffsOk(c, s) && IsNext(s, j) && j.id in s.outstanding && s.present <= s.owed
    requires Advanced(c.own, Sources(s), Sources(LoadOne(c, s, j)))
    ensures HandoffOk(c, LoadOne(c, s, j), s.outstanding[j.id])
  {
    hide Covers, Counts, Counted;
    var h := s.outstanding[j.id];
    var src := s.spills[0];
    assert HandoffOk(c, s, h);
    assert src in Sources(s) && SourceOk(s, src);
    assert src.key == c.own;
  }

  lemma LoadOneLocations(c: Config, s: State, j: Job)
    requires RowsOk(s) && OwedOk(c, s) && NoneLost(c, s) && IsNext(s, j)
    ensures OwedOk(c, LoadOne(c, s, j)) && NoneLost(c, LoadOne(c, s, j))
  {
    hide Covers, Counts, RowOk;
    var t := LoadOne(c, s, j);
    assert forall id <- t.rows :: t.rows[id] == s.rows[id];
    forall x | x in t.owed && x !in t.present && x !in t.outstanding ensures OnDisk(c, t, x) {
      assert x != j.id && OnDisk(c, s, x);
      StillAhead(c, s, j, x);
    }
    forall x | x in t.rows && t.rows[x].key == c.own && Live(t, x) && x !in t.present && x !in t.outstanding
      ensures AheadOnDisk(c.own, Sources(t), t.rows[x].job) {
      StillAhead(c, s, j, x);
    }
  }

  /** Moving the first source past `j` passes no other live row. */
  lemma StillAhead(c: Config, s: State, j: Job, id: string)
    requires WellKeyed(s.rows) && IsNext(s, j) && Live(s, id) && s.rows[id].key == c.own && id != j.id
    requires AheadOnDisk(c.own, Sources(s), s.rows[id].job)
    ensures AheadOnDisk(c.own, Sources(LoadOne(c, s, j)), s.rows[id].job)
  {
    hide Covers, Counts;
    var t := LoadOne(c, s, j);
    var src := s.spills[0];
    assert Sources(t) == [Moved(src, j)] + Sources(s)[1..];
    var x :| x in Sources(s) && x.key == c.own && !Covers(x.after, s.rows[id].job);
    if x == src {
      assert Moved(src, j) in Sources(t);
    } else {
      assert x in Sources(s)[1..] && x in Sources(t);
    }
  }

  lemma LoadOneBacklog(c: Config, s: State, j: Job)
    requires SourcesOk(s) && s.present <= s.owed && BacklogExact(s) && IsNext(s, j)
    ensures BacklogExact(LoadOne(c, s, j))
  {
    hide Covers, Counts, SourceOk, Counted;
    var t := LoadOne(c, s, j);
    var src := s.spills[0];
    assert src in Sources(s);
    assert Sources(t) == Sources(s)[0 := Moved(src, j)];
    CountedWhenUnowed(s, src, j);
    LeftUpdate(Sources(s), 0, Moved(src, j));
    if j.id in s.owed {
      assert s.owed + {j.id} == s.owed;
    }
  }

  // ---- loading a page ----

  /** A page starts with the next row of its source, and goes on with the page after it. */
  lemma PageHead(s: State, limit: nat)
    requires WellKeyed(s.rows) && s.spills != []
    ensures var src := s.spills[0];
            var page := Page(s.rows, src.key, src.after, 0, limit, s.now);
            if page == [] then limit > 0 ==> Matching(s.rows, src.key, src.after, 0, s.now) == {}
            else limit > 0 && IsNext(s, page[0])
                 && page[1..] == Page(s.rows, src.key, CursorAt(page[0]), 0, limit - 1, s.now)
  {
    hide Matching, IsNext;
    var src := s.spills[0];
    var js := Matching(s.rows, src.key, src.after, 0, s.now);
    if js != {} && limit > 0 {
      SortedFromFirst(s.rows, src.key, src.after, 0, s.now);
      LeastIsNext(s, Least(js));
    }
  }

  /** A page is loaded row by row, each the next one of its source. */
  lemma {:induction false} LoadAllKeeps(c: Config, s: State, page: seq<Job>, limit: nat)
    requires Inv(c, s) && s.spills != [] && WellKeyed(s.rows)
    requires page == Page(s.rows, s.spills[0].key, s.spills[0].after, 0, limit, s.now)
    ensures var t := LoadAll(c, s, page);
            && Inv(c, t) && t.rows == s.rows && t.now == s.now
            && t.spills[0].key == s.spills[0].key
            && (|page| < limit ==> Matching(s.rows, t.spills[0].key, t.spills[0].after, 0, s.now) == {})
    decreases |page|
  {
    hide Inv, Counts, Covers, Page, Matching, IsNext, Track;
    PageHead(s, limit);
    if page != [] {
      LoadOneKeeps(c, s, page[0]);
      LoadAllKeeps(c, LoadOne(c, s, page[0]), page[1..], limit - 1);
    }
  }

  lemma LeastIsNext(s: State, j: Job)
    requires WellKeyed(s.rows) && s.spills != []
    requires var js := Matching(s.rows, s.spills[0].key, s.spills[0].after, 0, s.now);
             js != {} && j == Least(js)
    ensures IsNext(s, j)
  {
    var js := Matching(s.rows, s.spills[0].key, s.spills[0].after, 0, s.now);
    forall id | id in s.rows && Qualifies(s.rows[id], s.spills[0].key, s.spills[0].after, 0, s.now)
      ensures id == j.id || !Covers(CursorAt(j), s.rows[id].job) {
      assert s.rows[id].job in js;
      CursorOrder(j, s.rows[id].job, START);
    }
  }

  // ---- a dry source ----

  lemma FinishKeeps(c: Config, s: State)
    requires Inv(c, s) && s.spills != []
    requires Matching(s.rows, s.spills[0].key, s.spills[0].after, 0, s.now) == {}
    ensures Inv(c, FinishSpill(s, 0))
  {
    hide RowsOk, SingleCopies, CacheBelow, MemoryOk, SourcesOk, HandoffsOk, OwedOk, NoneLost, Left;
    var t := FinishSpill(s, 0);
    RowsSame(s, t);
    MemoryKept(c, s, t);
    assert Sources(t) == Sources(s)[1..];
    FinishSources(s);
    FinishHandoffs(c, s);
    FinishLocations(c, s);
    LeftRemove(Sources(s), 0);
    assert Sources(s)[..0] + Sources(s)[1..] == Sources(t);
    assert s.spills[0].reserved - s.spills[0].consumed >= 0 by { FirstIsOk(s); }
  }

  lemma FirstIsOk(s: State)
    requires SourcesOk(s) && s.spills != []
    ensures SourceOk(s, s.spills[0])
  {
    assert s.spills[0] in Sources(s);
  }

  lemma FinishSources(s: State)
    requires SourcesOk(s) && s.spills != []
    ensures SourcesOk(FinishSpill(s, 0))
  {
    hide SourceOk;
    var t := FinishSpill(s, 0);
    assert Sources(t) == Sources(s)[1..];
    forall x | x in Sources(t) ensures SourceOk(t, x) {
      assert x in Sources(s);
      SourceKept(s, t, x);
    }
  }

  lemma FinishHandoffs(c: Config, s: State)
    requires HandoffsOk(c, s) && s.spills != []
    ensures HandoffsOk(c, FinishSpill(s, 0))
  {
    hide HandoffOk, Fresh;
    var t := FinishSpill(s, 0);
    assert Sources(t) == Sources(s)[1..];
    assert Advanced(c.own, Sources(s), Sources(t)) by {
      forall y | y in Sources(t) ensures y in Sources(s) && Follows(y, y) {}
    }
    forall x | x in s.outstanding ensures HandoffSame(s, t, s.outstanding[x]) { HandoffRow(c, s, x); }
    forall x | x in t.outstanding ensures HandoffOk(c, t, t.outstanding[x]) { HandoffKept(c, s, t, s.outstanding[x]); }
  }

  /** A source is dropped only when nothing lies past its cursor, so nothing was waiting on it. */
  lemma FinishLocations(c: Config, s: State)
    requires RowsOk(s) && OwedOk(c, s) && NoneLost(c, s) && s.spills != []
    requires Matching(s.rows, s.spills[0].key, s.spills[0].after, 0, s.now) == {}
    ensures OwedOk(c, FinishSpill(s, 0)) && NoneLost(c, FinishSpill(s, 0))
  {
    hide Covers, RowOk;
    var t := FinishSpill(s, 0);
    assert Sources(t) == Sources(s)[1..];
    forall x | Live(s, x) && s.rows[x].key == c.own && AheadOnDisk(c.own, Sources(s), s.rows[x].job)
      ensures AheadOnDisk(c.own, Sources(t), s.rows[x].job) {
      var src :| src in Sources(s) && src.key == c.own && !Covers(src.after, s.rows[x].job);
      assert Qualifies(s.rows[x], src.key, src.after, 0, s.now);
      assert s.rows[x].job in Matching(s.rows, src.key, src.after, 0, s.now);
      assert src in Sources(t);
    }
    forall x | x in t.owed && x !in t.present && x !in t.outstanding ensures OnDisk(c, t, x) {
      assert OnDisk(c, s, x) && Live(s, x);
    }
  }

  /** One pass of refill. */
  lemma LoadPageKeeps(c: Config, s: State)
    requires Inv(c, s) && s.spills != [] && WellKeyed(s.rows)
    ensures Inv(c, LoadPage(c, s))
  {
    hide RowsOk, SingleCopies, CacheBelow, MemoryOk, SourcesOk, HandoffsOk, OwedOk, NoneLost, Left, LoadAll, Page;
    LoadAllKeeps(c, s, NextPage(c, s), c.size);
    if |NextPage(c, s)| < c.size {
      FinishKeeps(c, LoadAll(c, s, NextPage(c, s)));
    }
  }

  /** A source leaves the queue's list only once no live row lies past its cursor. */
  lemma RemovedOnlyWhenDry(c: Config, s: State)
    requires Inv(c, s) && s.spills != [] && WellKeyed(s.rows)
    ensures |LoadPage(c, s).spills| < |s.spills| ==>
              var t := LoadAll(c, s, NextPage(c, s));
              && t.rows == s.rows && t.spills[0].key == s.spills[0].key
              && Matching(t.rows, t.spills[0].key, t.spills[0].after, 0, t.now) == {}
  {
    hide Inv, LoadAll, Page, Matching;
    LoadAllKeeps(c, s, NextPage(c, s), c.size);
  }
}
