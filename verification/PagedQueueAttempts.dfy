/** Dispatching, finishing, retrying and failing held jobs keep the invariant. */
module PagedQueueAttempts {
  import opened Jobs
  import opened Pages
  import opened PagedQueue
  import opened PagedQueueInv
  import opened PagedQueueFrames
  import opened PagedQueueHandoffs

  /** A step that moves jobs between queue, waiting and in flight, and touches nothing else. */
  ghost predicate OnlyLists(s: State, t: State) {
    && t.rows == s.rows && t.now == s.now && t.backlog == s.backlog && t.outstanding == s.outstanding
    && t.channel == s.channel && t.present == s.present && t.spills == s.spills && t.pendingSpills == s.pendingSpills
    && t.pagedOwnUntil == s.pagedOwnUntil && t.lastSweep == s.lastSweep && t.owed == s.owed && t.safeUntil == s.safeUntil
  }

  lemma OnlyListsKeeps(c: Config, s: State, t: State)
    requires Inv(c, s) && OnlyLists(s, t)
    requires SingleCopy(c, t) && MemoryOk(t) && DeadlineOk(t)
    ensures Inv(c, t)
  {
    hide RowsOk, SingleCopies, CacheBelow, MemoryOk, SourcesOk, HandoffsOk, OnDisk, NoneLost, Left;
    assert Sources(t) == Sources(s);
    RowsSame(s, t);
    SourcesKept(s, t);
    forall id | id in s.outstanding ensures HandoffSame(s, t, s.outstanding[id]) { HandoffRow(c, s, id); }
    HandoffsKept(c, s, t);
    forall id | id in s.owed && id !in s.present && id !in s.outstanding ensures id in t.rows { OwedRowIsOnDisk(c, s, id); }
    OwedKept(c, s, t);
    NoneLostKept(c, s, t);
  }

  // ---- dispatch ----

  predicate CanDispatch(c: Config, s: State) {
    s.queue != [] && |s.flying| < c.maxConc && !QueueExpired(s.queue[0], s.now)
  }

  lemma DispatchKeeps(c: Config, s: State)
    requires Inv(c, s) && CanDispatch(c, s)
    ensures Inv(c, Dispatch(s))
  {
    hide RowsOk, SourcesOk, HandoffsOk, OwedOk, NoneLost, Left, HeldOk, FlightOk, SingleCopies, CacheBelow, QueueExpired;
    var t := Dispatch(s);
    DispatchSingle(s);
    assert DeadlineOk(t) by { TailBelow(s.queue, s.nextDeadline); }
    assert |t.flying| <= c.maxConc by { OneMore(s); }
    forall j | j in t.queue ensures HeldOk(t.rows, j) { assert j in s.queue; }
    assert s.queue[0] in s.queue;
    HeldFlies(s.rows, s.queue[0]);
    OnlyListsKeeps(c, s, t);
  }

  lemma OneMore(s: State)
    requires s.queue != []
    ensures |Dispatch(s).flying| <= |s.flying| + 1
  {
    assert Dispatch(s).flying.Keys == s.flying.Keys + {s.queue[0].id};
  }

  lemma HeldFlies(rows: Rows, j: Job)
    requires HeldOk(rows, j)
    ensures FlightOk(rows, Flight(j, Running))
  {
  }

  lemma TailBelow(q: seq<Job>, next: int)
    requires CacheBelow(q, next) && q != []
    ensures CacheBelow(q[1..], next)
  {
  }

  lemma DispatchSingle(s: State)
    requires SingleCopies(s.queue, s.waiting, s.flying, s.present) && s.queue != []
    ensures var t := Dispatch(s); SingleCopies(t.queue, t.waiting, t.flying, t.present)
  {
    var t := Dispatch(s);
    var id := s.queue[0].id;
    forall x ensures x in Ids(t.queue) <==> x in Ids(s.queue) - {id} {
      if x in Ids(t.queue) {
        var k :| 0 <= k < |t.queue| && t.queue[k].id == x;
        assert s.queue[k + 1].id == x && s.queue[k + 1] in s.queue;
      }
      if x in Ids(s.queue) - {id} {
        var k :| 0 <= k < |s.queue| && s.queue[k].id == x;
        assert t.queue[k - 1] in t.queue;
      }
    }
    assert s.queue[0] in s.queue;
    assert Ids(t.queue) == Ids(s.queue) - {id};
    assert t.flying.Keys == s.flying.Keys + {id};
  }

  // ---- the attempt's last write ----

  predicate IsRunning(s: State, id: string) { id in s.flying && s.flying[id].phase == Running }

  /** A retry's RecordRetry finds the row as the run left it: queued. */
  lemma AttemptRetriesKeeps(c: Config, s: State, id: string, at: int)
    requires Inv(c, s) && IsRunning(s, id)
    ensures Inv(c, AttemptRetries(s, id, at))
  {
    hide RowsOk, SourcesOk, HandoffsOk, OwedOk, NoneLost, Left, MemoryOk, SingleCopies, CacheBelow;
    var t := AttemptRetries(s, id, at);
    RetryRows(s, id, at);
    assert t.flying.Keys == s.flying.Keys;
    RetryMemory(s, id, at);
    OnlyListsKeeps(c, s, t);
  }

  lemma RetryRows(s: State, id: string, at: int)
    requires RowsOk(s) && MemoryOk(s) && IsRunning(s, id) && SingleCopies(s.queue, s.waiting, s.flying, s.present)
    ensures AttemptRetries(s, id, at).rows == s.rows
  {
    hide QueueDeadline;
    FlyingIsPresent(s, id);
    assert FlightOk(s.rows, s.flying[id]);
    if id in s.rows { assert RowOk(s.rows[id]); }
  }

  lemma RetryMemory(s: State, id: string, at: int)
    requires MemoryOk(s) && IsRunning(s, id) && SingleCopies(s.queue, s.waiting, s.flying, s.present)
    requires AttemptRetries(s, id, at).rows == s.rows
    ensures var t := AttemptRetries(s, id, at); MemoryOk(t) && SingleCopies(t.queue, t.waiting, t.flying, t.present)
  {
    hide HeldOk, Distinct, DistinctWaiting, Known;
    var t := AttemptRetries(s, id, at);
    assert t.flying.Keys == s.flying.Keys;
    forall x | x in t.flying ensures FlightOk(t.rows, t.flying[x]) { assert FlightOk(s.rows, s.flying[x]); }
  }

  lemma AttemptEndsKeeps(c: Config, s: State, id: string, ok: bool)
    requires Inv(c, s) && IsRunning(s, id)
    ensures Inv(c, AttemptEnds(s, id, ok))
  {
    hide RowsOk, SingleCopies, CacheBelow, MemoryOk, SourcesOk, HandoffsOk, OnDisk, NoneLost, Left;
    var t := AttemptEnds(s, id, ok);
    AttemptEndsRows(s, id, ok);
    AttemptEndsMemory(c, s, id, ok);
    SourcesKept(s, t);
    AttemptEndsHandoffs(c, s, id, ok);
    forall x | x in s.owed && x !in s.present && x !in s.outstanding ensures x in t.rows && RowSame(s, t, x) {
      OwedRowIsOnDisk(c, s, x);
      assert x != id by { FlyingIsPresent(s, id); }
    }
    OwedKept(c, s, t);
    NoneLostKept(c, s, t);
  }

  lemma FlyingIsPresent(s: State, id: string)
    requires SingleCopies(s.queue, s.waiting, s.flying, s.present) && id in s.flying
    ensures id in s.present && s.flying[id].job.id == id
  {
  }

  lemma AttemptEndsRows(s: State, id: string, ok: bool)
    requires RowsOk(s) && id in s.flying
    ensures RowsOk(AttemptEnds(s, id, ok))
  {
    hide QueueDeadline;
    var t := AttemptEnds(s, id, ok);
    forall x | x in t.rows ensures RowOk(t.rows[x]) { assert RowOk(s.rows[x]); }
  }

  lemma AttemptEndsMemory(c: Config, s: State, id: string, ok: bool)
    requires SingleCopy(c, s) && MemoryOk(s) && id in s.flying
    ensures SingleCopy(c, AttemptEnds(s, id, ok)) && MemoryOk(AttemptEnds(s, id, ok))
  {
    hide ExpiresAtFor, SingleCopies, HeldOk, FlightOk;
    var t := AttemptEnds(s, id, ok);
    assert t.flying.Keys == s.flying.Keys;
    AttemptEndsSingle(s, id, ok);
    forall j | j in t.queue ensures HeldOk(t.rows, j) {
      QueuedIsNotFlying(s, id, j);
      EndedOther(s, id, ok, j);
    }
    forall w | w in t.waiting ensures HeldOk(t.rows, w.job) {
      WaitingIsNotFlying(s, id, w);
      EndedOther(s, id, ok, w.job);
    }
    forall x | x in t.flying ensures FlightOk(t.rows, t.flying[x]) {
      FlyingIsPresent(s, x);
      EndedFlight(s, id, ok, x);
    }
  }

  lemma AttemptEndsSingle(s: State, id: string, ok: bool)
    requires SingleCopies(s.queue, s.waiting, s.flying, s.present) && id in s.flying
    ensures var t := AttemptEnds(s, id, ok); SingleCopies(t.queue, t.waiting, t.flying, t.present)
  {
    hide ExpiresAtFor, Distinct, DistinctWaiting;
    assert AttemptEnds(s, id, ok).flying.Keys == s.flying.Keys;
  }

  lemma QueuedIsNotFlying(s: State, id: string, j: Job)
    requires SingleCopies(s.queue, s.waiting, s.flying, s.present) && id in s.flying && j in s.queue
    ensures j.id != id
  {
    hide Distinct, DistinctWaiting;
    assert j.id in Ids(s.queue);
  }

  lemma WaitingIsNotFlying(s: State, id: string, w: Waiting)
    requires SingleCopies(s.queue, s.waiting, s.flying, s.present) && id in s.flying && w in s.waiting
    ensures w.job.id != id
  {
    hide Distinct, DistinctWaiting;
    assert w.job.id in WaitingIds(s.waiting);
  }

  lemma EndedOther(s: State, id: string, ok: bool, j: Job)
    requires id in s.flying && HeldOk(s.rows, j) && j.id != id
    ensures HeldOk(AttemptEnds(s, id, ok).rows, j)
  {
  }

  lemma EndedFlight(s: State, id: string, ok: bool, x: string)
    requires id in s.flying && x in s.flying && FlightOk(s.rows, s.flying[x]) && s.flying[x].job.id == x
    ensures FlightOk(AttemptEnds(s, id, ok).rows, AttemptEnds(s, id, ok).flying[x])
  {
  }

  lemma AttemptEndsHandoffs(c: Config, s: State, id: string, ok: bool)
    requires SingleCopy(c, s) && HandoffsOk(c, s) && s.present <= s.owed && id in s.flying
    ensures HandoffsOk(c, AttemptEnds(s, id, ok))
  {
    hide SingleCopies, HandoffOk, Fresh;
    var t := AttemptEnds(s, id, ok);
    FlyingIsPresent(s, id);
    AdvancedIfSame(c.own, Sources(s));
    forall x | x in s.outstanding && x != id ensures HandoffSame(s, t, s.outstanding[x]) { HandoffRow(c, s, x); }
    OthersKept(c, s, t, id);
    if id in s.outstanding { EndedHandoff(c, s, t, id); }
  }

  /** A held job whose row turns terminal keeps it long enough for its own late hand-off to be recognised. */
  lemma EndedHandoff(c: Config, s: State, t: State, id: string)
    requires HandoffsOk(c, s) && id in s.outstanding && id in s.present
    requires t.outstanding == s.outstanding && t.present == s.present && t.owed == s.owed && Sources(t) == Sources(s)
    requires t.now == s.now && t.pagedOwnUntil == s.pagedOwnUntil && s.present <= s.owed
    requires id in s.rows ==> id in t.rows && t.rows[id].job == s.rows[id].job && t.rows[id].key == s.rows[id].key
                              && t.rows[id].expiresAt >= s.now + RECENT_PAGE_WINDOW
    requires id !in s.rows ==> id !in t.rows
    ensures HandoffOk(c, t, t.outstanding[id])
  {
    assert HandoffOk(c, s, s.outstanding[id]);
  }

  // ---- jobs leave memory ----

  /** The jobs `gone` leave for good: their rows are over, and each gives back one count. */
  ghost predicate Leaves(s: State, t: State, gone: set<string>) {
    && gone <= s.present <= s.owed
    && t.present == s.present - gone && t.owed == s.owed - gone && t.backlog == s.backlog - |gone|
    && t.now == s.now && t.outstanding == s.outstanding && t.channel == s.channel
    && t.spills == s.spills && t.pendingSpills == s.pendingSpills
    && t.pagedOwnUntil == s.pagedOwnUntil && t.lastSweep == s.lastSweep && t.safeUntil == s.safeUntil
    && t.rows.Keys == s.rows.Keys
    && (forall id <- s.rows :: if id in gone then RowEnds(s, t, id) else t.rows[id] == s.rows[id])
  }

  predicate RowEnds(s: State, t: State, id: string)
    requires id in s.rows && id in t.rows
  {
    && t.rows[id].job == s.rows[id].job && t.rows[id].key == s.rows[id].key
    && !Pending(t.rows[id].status)
    && (t.rows[id].expiresAt >= s.now + RECENT_PAGE_WINDOW || t.rows[id].expiresAt == s.rows[id].expiresAt)
  }

  lemma LeavesKeeps(c: Config, s: State, t: State, gone: set<string>)
    requires Inv(c, s) && Leaves(s, t, gone)
    requires SingleCopy(c, t) && MemoryOk(t) && DeadlineOk(t)
    ensures Inv(c, t)
  {
    hide RowsOk, SingleCopies, CacheBelow, MemoryOk, SourcesOk, HandoffsOk, OwedOk, NoneLost, Left, RowEnds;
    LeavesRows(s, t, gone);
    LeavesSources(s, t, gone);
    LeavesHandoffs(c, s, t, gone);
    LeavesLocations(c, s, t, gone);
    LeavesBacklog(s, t, gone);
  }

  lemma LeavesBacklog(s: State, t: State, gone: set<string>)
    requires Leaves(s, t, gone) && BacklogExact(s)
    ensures BacklogExact(t)
  {
    hide Left, RowEnds;
    assert s.owed == t.owed + gone;
  }

  lemma LeavesRows(s: State, t: State, gone: set<string>)
    requires RowsOk(s) && Leaves(s, t, gone)
    ensures RowsOk(t)
  {
    hide QueueDeadline;
    forall x | x in t.rows ensures RowOk(t.rows[x]) && t.rows[x].job.id == x { assert RowOk(s.rows[x]); }
  }

  lemma LeavesSources(s: State, t: State, gone: set<string>)
    requires SourcesOk(s) && Leaves(s, t, gone)
    ensures SourcesOk(t)
  {
    hide SourceOk;
    SourcesKept(s, t);
  }

  lemma LeavesHandoffs(c: Config, s: State, t: State, gone: set<string>)
    requires HandoffsOk(c, s) && Leaves(s, t, gone)
    ensures HandoffsOk(c, t)
  {
    hide HandoffOk, RowEnds, Fresh;
    AdvancedIfSame(c.own, Sources(s));
    forall id | id in t.outstanding ensures HandoffOk(c, t, t.outstanding[id]) {
      HandoffRow(c, s, id);
      if id in gone { GoneHandoff(c, s, t, gone, id); } else { HandoffKept(c, s, t, s.outstanding[id]); }
    }
  }

  lemma GoneHandoff(c: Config, s: State, t: State, gone: set<string>, id: string)
    requires HandoffsOk(c, s) && Leaves(s, t, gone) && id in gone && id in s.outstanding
    ensures HandoffOk(c, t, t.outstanding[id])
  {
    assert HandoffOk(c, s, s.outstanding[id]);
    assert id in s.present;
    if id in s.rows { assert RowEnds(s, t, id); }
  }

  lemma LeavesLocations(c: Config, s: State, t: State, gone: set<string>)
    requires OwedOk(c, s) && NoneLost(c, s) && Leaves(s, t, gone)
    ensures OwedOk(c, t) && NoneLost(c, t)
  {
    hide AheadOnDisk;
    forall x | x in t.owed && x !in t.present && x !in t.outstanding ensures OnDisk(c, t, x) {
      assert OnDisk(c, s, x);
    }
  }

  // ---- the run loop reads a report ----

  predicate HasReported(s: State, id: string) { id in s.flying && s.flying[id].phase != Running }

  lemma DoneKeeps(c: Config, s: State, id: string)
    requires Inv(c, s) && HasReported(s, id)
    ensures Inv(c, Done(s, id))
  {
    hide Inv, CacheBelow, MemoryOk, SingleCopies, Leaves, OnlyLists, Done;
    DoneLists(c, s, id);
    DoneLeaves(c, s, id);
    if s.flying[id].phase.Retrying? {
      OnlyListsKeeps(c, s, Done(s, id));
    } else {
      LeavesKeeps(c, s, Done(s, id), {id});
    }
  }

  lemma DoneLeaves(c: Config, s: State, id: string)
    requires Inv(c, s) && HasReported(s, id)
    ensures if s.flying[id].phase.Retrying? then OnlyLists(s, Done(s, id)) else Leaves(s, Done(s, id), {id})
  {
    hide RowsOk, CacheBelow, SourcesOk, HandoffsOk, OnDisk, NoneLost, Left, MemoryOk, SingleCopies, BacklogExact;
    FlyingIsPresent(s, id);
    FlightEnds(s, id);
  }

  lemma DoneLists(c: Config, s: State, id: string)
    requires Inv(c, s) && HasReported(s, id)
    ensures var t := Done(s, id); SingleCopy(c, t) && MemoryOk(t) && DeadlineOk(t)
  {
    hide RowsOk, CacheBelow, SourcesOk, HandoffsOk, OwedOk, NoneLost, Left, MemoryOk, SingleCopies;
    var t := Done(s, id);
    FlyingIsPresent(s, id);
    DoneSingle(s, id);
    Smaller(t.flying.Keys, s.flying.Keys);
    DoneMemory(s, id);
  }

  lemma DoneMemory(s: State, id: string)
    requires MemoryOk(s) && HasReported(s, id) && s.flying[id].job.id == id
    ensures MemoryOk(Done(s, id))
  {
    hide HeldOk, FlightOk;
    FlightEnds(s, id);
    forall w | w in Done(s, id).waiting ensures HeldOk(s.rows, w.job) {
      if w !in s.waiting { assert w.job == s.flying[id].job; }
    }
  }

  lemma FlightEnds(s: State, id: string)
    requires MemoryOk(s) && HasReported(s, id) && s.flying[id].job.id == id
    ensures s.flying[id].phase.Retrying? ==> HeldOk(s.rows, s.flying[id].job)
    ensures s.flying[id].phase.Finished? && id in s.rows ==> RowEnds(s, s, id)
  {
    assert FlightOk(s.rows, s.flying[id]);
  }

  lemma DoneSingle(s: State, id: string)
    requires SingleCopies(s.queue, s.waiting, s.flying, s.present) && HasReported(s, id)
    ensures var t := Done(s, id); SingleCopies(t.queue, t.waiting, t.flying, t.present)
  {
    var t := Done(s, id);
    var f := s.flying[id];
    assert t.flying.Keys == s.flying.Keys - {id};
    if f.phase.Retrying? {
      var w := Waiting(f.job, f.phase.at);
      assert WaitingIds(t.waiting) == WaitingIds(s.waiting) + {id} by {
        forall x ensures x in WaitingIds(t.waiting) <==> x in WaitingIds(s.waiting) + {id} {
          if x in WaitingIds(s.waiting) {
            var y :| y in s.waiting && y.job.id == x;
            assert y in t.waiting;
          }
          assert w in t.waiting;
        }
      }
      forall i, k | 0 <= i < k < |t.waiting| ensures t.waiting[i].job.id != t.waiting[k].job.id {
        if k == |s.waiting| { assert t.waiting[i] in s.waiting; }
      }
    }
  }

  // ---- splitting lists ----

  /** Filtering splits a list of distinct jobs in two. */
  lemma Split(q: seq<Job>, p: Job -> bool)
    requires Distinct(q)
    ensures Distinct(Filter(q, p)) && Distinct(Filter(q, Not(p)))
    ensures Ids(Filter(q, p)) + Ids(Filter(q, Not(p))) == Ids(q)
    ensures Ids(Filter(q, p)) !! Ids(Filter(q, Not(p)))
    ensures forall j <- Filter(q, Not(p)) :: j in q
  {
    FilterKeeps(q, p);
    FilterKeeps(q, Not(p));
    FilterDistinct(q, p);
    FilterDistinct(q, Not(p));
    forall x ensures x in Ids(q) <==> x in Ids(Filter(q, p)) + Ids(Filter(q, Not(p))) {
      if x in Ids(q) {
        var j :| j in q && j.id == x;
        assert j in Filter(q, p) || j in Filter(q, Not(p));
      }
    }
    forall a, b | a in Filter(q, p) && b in Filter(q, Not(p)) ensures a.id != b.id {
      assert a in q && b in q && a != b;
    }
  }

  lemma SplitWaiting(q: seq<Waiting>, p: Waiting -> bool)
    requires DistinctWaiting(q)
    ensures DistinctWaiting(Filter(q, p)) && DistinctWaiting(Filter(q, Not(p)))
    ensures WaitingIds(Filter(q, p)) + WaitingIds(Filter(q, Not(p))) == WaitingIds(q)
    ensures WaitingIds(Filter(q, p)) !! WaitingIds(Filter(q, Not(p)))
    ensures forall j <- Filter(q, Not(p)) :: j in q
    ensures forall j <- Filter(q, p) :: j in q
  {
    FilterKeeps(q, p);
    FilterKeeps(q, Not(p));
    FilterDistinctWaiting(q, p);
    FilterDistinctWaiting(q, Not(p));
    forall x ensures x in WaitingIds(q) <==> x in WaitingIds(Filter(q, p)) + WaitingIds(Filter(q, Not(p))) {
      if x in WaitingIds(q) {
        var j :| j in q && j.job.id == x;
        assert j in Filter(q, p) || j in Filter(q, Not(p));
      }
    }
    forall a, b | a in Filter(q, p) && b in Filter(q, Not(p)) ensures a.job.id != b.job.id {
      assert a in q && b in q && a != b;
    }
  }

  // ---- retries that have come due ----

  lemma {:induction false} TrackAllKeeps(q: seq<Job>, next: int, more: seq<Job>)
    requires CacheBelow(q, next)
    ensures CacheBelow(q + more, TrackAll(next, more))
    decreases |more|
  {
    if more == [] {
      assert q + more == q;
    } else {
      var init := more[..|more| - 1];
      TrackAllKeeps(q, next, init);
      TrackKeeps(q + init, TrackAll(next, init), more[|more| - 1]);
      assert q + more == (q + init) + [more[|more| - 1]];
    }
  }

  lemma RetryDueKeeps(c: Config, s: State)
    requires Inv(c, s)
    ensures Inv(c, RetryDue(s))
  {
    hide RowsOk, CacheBelow, SourcesOk, HandoffsOk, OwedOk, NoneLost, Left, MemoryOk, SingleCopies, TrackAll, Filter;
    TrackAllKeeps(s.queue, s.nextDeadline, JobsOf(Filter(s.waiting, Due(s.now))));
    RetryDueSingle(s);
    RetryDueMemory(s);
    OnlyListsKeeps(c, s, RetryDue(s));
  }

  lemma RetryDueSingle(s: State)
    requires SingleCopies(s.queue, s.waiting, s.flying, s.present)
    ensures var t := RetryDue(s); SingleCopies(t.queue, t.waiting, t.flying, t.present)
  {
    hide TrackAll, Filter;
    var ready := Filter(s.waiting, Due(s.now));
    var due := JobsOf(ready);
    SplitWaiting(s.waiting, Due(s.now));
    assert Ids(due) == WaitingIds(ready) by {
      forall x ensures x in Ids(due) <==> x in WaitingIds(ready) {
        if x in Ids(due) {
          var k :| 0 <= k < |due| && due[k].id == x;
          assert ready[k] in ready;
        }
        if x in WaitingIds(ready) {
          var k :| 0 <= k < |ready| && ready[k].job.id == x;
          assert due[k] in due;
        }
      }
    }
    var q := s.queue + due;
    assert Ids(q) == Ids(s.queue) + Ids(due) by {
      forall x ensures x in Ids(q) <==> x in Ids(s.queue) + Ids(due) {
        if x in Ids(s.queue) + Ids(due) {
          var j :| (j in s.queue || j in due) && j.id == x;
          assert j in q;
        }
      }
    }
    forall i, k | 0 <= i < k < |q| ensures q[i].id != q[k].id {
      if i < |s.queue| <= k {
        assert q[i] in s.queue && q[k] in due;
        assert q[i].id in Ids(s.queue) && q[k].id in Ids(due);
      }
    }
  }

  lemma RetryDueMemory(s: State)
    requires MemoryOk(s)
    ensures MemoryOk(RetryDue(s))
  {
    hide HeldOk, FlightOk, TrackAll;
    var ready := Filter(s.waiting, Due(s.now));
    FilterKeeps(s.waiting, Due(s.now));
    FilterKeeps(s.waiting, Not(Due(s.now)));
    forall j | j in RetryDue(s).queue ensures HeldOk(s.rows, j) {
      if j !in s.queue {
        var k :| 0 <= k < |ready| && JobsOf(ready)[k] == j;
        assert ready[k] in ready;
      }
    }
  }

  // ---- failing held jobs ----

  lemma FailHeldLeaves(c: Config, s: State, ids: set<string>)
    requires OwedOk(c, s) && ids <= s.present
    ensures Leaves(s, FailHeld(s, ids), ids)
  {
  }

  lemma FailedMemory(s: State, t: State, ids: set<string>)
    requires MemoryOk(s) && t.rows == FailRows(s.rows, ids, s.now) && t.flying == s.flying
    requires forall j <- t.queue :: j in s.queue && j.id !in ids
    requires forall w <- t.waiting :: w in s.waiting && w.job.id !in ids
    requires forall id <- s.flying :: s.flying[id].job.id !in ids
    ensures MemoryOk(t)
  {
    forall j | j in t.queue ensures HeldOk(t.rows, j) { assert HeldOk(s.rows, j); }
    forall w | w in t.waiting ensures HeldOk(t.rows, w.job) { assert HeldOk(s.rows, w.job); }
    forall id | id in t.flying ensures FlightOk(t.rows, t.flying[id]) { assert FlightOk(s.rows, s.flying[id]); }
  }

  /** Failing `p` of the queue and `w` of the waiting jobs keeps the rest, each once. */
  lemma FailSome(c: Config, s: State, t: State, p: Job -> bool, w: Waiting -> bool)
    requires Inv(c, s)
    requires var gone := Ids(Filter(s.queue, p)) + WaitingIds(Filter(s.waiting, w));
             t == FailHeld(s, gone).(queue := Filter(s.queue, Not(p)), waiting := Filter(s.waiting, Not(w)),
                                     nextDeadline := t.nextDeadline)
    requires DeadlineOk(t)
    ensures Inv(c, t)
  {
    hide RowsOk, CacheBelow, SourcesOk, HandoffsOk, NoneLost, Left, MemoryOk, SingleCopies, Filter, OnDisk, FailRows;
    var gone := Ids(Filter(s.queue, p)) + WaitingIds(Filter(s.waiting, w));
    FailSomeSingle(s, t, p, w);
    FailHeldLeaves(c, s, gone);
    LeavesKeeps(c, s, t, gone);
  }

  lemma FailSomeSingle(s: State, t: State, p: Job -> bool, w: Waiting -> bool)
    requires SingleCopies(s.queue, s.waiting, s.flying, s.present) && MemoryOk(s)
    requires var gone := Ids(Filter(s.queue, p)) + WaitingIds(Filter(s.waiting, w));
             && t.queue == Filter(s.queue, Not(p)) && t.waiting == Filter(s.waiting, Not(w)) && t.flying == s.flying
             && t.present == s.present - gone && t.rows == FailRows(s.rows, gone, s.now)
    ensures SingleCopies(t.queue, t.waiting, t.flying, t.present)
    ensures MemoryOk(t)
    ensures Ids(Filter(s.queue, p)) + WaitingIds(Filter(s.waiting, w)) <= s.present
  {
    hide MemoryOk, Filter, FailRows;
    var gone := Ids(Filter(s.queue, p)) + WaitingIds(Filter(s.waiting, w));
    Split(s.queue, p);
    SplitWaiting(s.waiting, w);
    forall j | j in t.queue ensures j.id !in gone { assert j.id in Ids(t.queue); }
    forall x | x in t.waiting ensures x.job.id !in gone { assert x.job.id in WaitingIds(t.waiting); }
    FailedMemory(s, t, gone);
  }

  lemma FailDeadTargetKeeps(c: Config, s: State, cutoff: int)
    requires Inv(c, s)
    ensures Inv(c, FailDeadTarget(s, cutoff))
  {
    hide Inv, Filter, FailRows, CacheBelow, Overdue, OfWaiting;
    assert DeadlineOk(s) by { InvDeadline(c, s); }
    FilterBelow(s.queue, s.nextDeadline, Not(Overdue(cutoff)));
    FailSome(c, s, FailDeadTarget(s, cutoff), Overdue(cutoff), OfWaiting(Overdue(cutoff)));
  }

  lemma InvDeadline(c: Config, s: State)
    requires Inv(c, s)
    ensures DeadlineOk(s)
  {
  }

  lemma FilterBelow(q: seq<Job>, next: int, keep: Job -> bool)
    requires CacheBelow(q, next)
    ensures CacheBelow(Filter(q, keep), next)
  {
    FilterKeeps(q, keep);
  }

  lemma {:induction false} FilterNone<T>(q: seq<T>, p: T -> bool)
    requires forall x <- q :: !p(x)
    ensures Filter(q, p) == [] && Filter(q, Not(p)) == q
    decreases |q|
  {
    if q != [] {
      FilterNone(q[..|q| - 1], p);
    }
  }

  function Never<T>(): T -> bool { x => false }

  lemma DropExpiredWaitingKeeps(c: Config, s: State)
    requires Inv(c, s)
    ensures Inv(c, DropExpiredWaiting(s))
  {
    hide Inv, FailRows, CacheBelow, Expired, OfWaiting, Filter;
    assert DeadlineOk(s) by { InvDeadline(c, s); }
    FilterNone(s.queue, Never<Job>());
    assert Ids([]) + WaitingIds(Filter(s.waiting, OfWaiting(Expired(s.now)))) == WaitingIds(Filter(s.waiting, OfWaiting(Expired(s.now))));
    FailSome(c, s, DropExpiredWaiting(s), Never<Job>(), OfWaiting(Expired(s.now)));
  }

  lemma DropExpiredJobsKeeps(c: Config, s: State)
    requires Inv(c, s)
    ensures Inv(c, DropExpiredJobs(s))
  {
    hide Inv, FailRows, CacheBelow, Expired, TrackAll, Filter;
    var t := DropExpiredJobs(s);
    assert DeadlineOk(s) by { InvDeadline(c, s); }
    if s.queue == [] {
      assert CacheBelow([], 0) by { NothingBelow(); }
      ResetDeadline(c, s);
    } else if !(s.nextDeadline == 0 || s.now < s.nextDeadline) {
      var kept := Filter(s.queue, Not(Expired(s.now)));
      NothingBelow();
      TrackAllKeeps([], 0, kept);
      assert [] + kept == kept;
      FilterNone(s.waiting, Never<Waiting>());
      assert Ids(Filter(s.queue, Expired(s.now))) + WaitingIds([]) == Ids(Filter(s.queue, Expired(s.now)));
      FailSome(c, s, t, Expired(s.now), Never<Waiting>());
    }
  }

  lemma NothingBelow()
    ensures CacheBelow([], 0)
  {
  }

  lemma ResetDeadline(c: Config, s: State)
    requires Inv(c, s) && s.queue == []
    ensures Inv(c, s.(nextDeadline := 0))
  {
    hide RowsOk, SourcesOk, HandoffsOk, OwedOk, NoneLost, Left, MemoryOk, SingleCopies;
    assert MemoryOk(s.(nextDeadline := 0)) by { MemoryKept(c, s, s.(nextDeadline := 0)); }
    OnlyListsKeeps(c, s, s.(nextDeadline := 0));
  }
}
