/** What the steps of the paged queue do to jobs and rows, in terms of the jobs' own fields and of plain times. */
module PagedQueueLaws {
  import opened Basics
  import opened Jobs
  import opened Pages
  import opened PagedQueue
  import opened PagedQueueInv
  import opened PagedQueueFrames
  import opened PagedQueueHandoffs
  import opened PagedQueueAttempts
  import opened PagedQueueRuns

  /** A still-queued job has given up: past its execute-before time, or a day old if it has none. */
  predicate TooLate(j: Job, now: int) {
    if j.executeBefore > 0 then now >= j.executeBefore else j.createdAt > 0 && now >= j.createdAt + 86_400_000
  }

  lemma LateIsExpired(j: Job, now: int)
    ensures QueueExpired(j, now) <==> TooLate(j, now)
  {
  }

  /** The jobs `gone` were failed: their rows say so and are kept two hours, one count each is given back. */
  ghost predicate FailsExactly(s: State, t: State, gone: set<string>) {
    && t.rows.Keys == s.rows.Keys
    && (forall id <- s.rows ::
          t.rows[id] == if id in gone then s.rows[id].(status := Failed, expiresAt := s.now + 7_200_000) else s.rows[id])
    && t.backlog == s.backlog - |gone| && t.present == s.present - gone
  }

  /** `a` comes before `b`. */
  ghost predicate Precedes<T(!new)>(q: seq<T>, a: T, b: T) { exists i, k :: 0 <= i < k < |q| && q[i] == a && q[k] == b }

  // ---- filters ----

  lemma PrecedesInit<T(!new)>(q: seq<T>, a: T, b: T)
    requires q != []
    ensures var init, last := q[..|q| - 1], q[|q| - 1]; Precedes(q, a, b) <==> Precedes(init, a, b) || (a in init && b == last)
  {
    var init, last := q[..|q| - 1], q[|q| - 1];
    if Precedes(q, a, b) {
      var i, k :| 0 <= i < k < |q| && q[i] == a && q[k] == b;
      assert init[i] == a;
      if k < |init| { assert init[k] == b; }
    }
    if Precedes(init, a, b) {
      var i, k :| 0 <= i < k < |init| && init[i] == a && init[k] == b;
      assert q[i] == a && q[k] == b;
    }
    if a in init && b == last {
      var i :| 0 <= i < |init| && init[i] == a;
      assert q[i] == a && q[|q| - 1] == b;
    }
  }

  /** A filter keeps exactly what passes, in order. */
  lemma {:induction false} FilterIs<T(!new)>(q: seq<T>, keep: T -> bool)
    ensures forall x :: x in Filter(q, keep) <==> x in q && keep(x)
    ensures forall a, b :: Precedes(Filter(q, keep), a, b) <==> Precedes(q, a, b) && keep(a) && keep(b)
    decreases |q|
  {
    if q != [] {
      var init, last := q[..|q| - 1], q[|q| - 1];
      var f := Filter(q, keep);
      FilterIs(init, keep);
      assert forall x :: x in q <==> x in init || x == last;
      if keep(last) { assert f[..|f| - 1] == Filter(init, keep); }
      hide Precedes, Filter;
      forall a, b ensures Precedes(f, a, b) <==> Precedes(q, a, b) && keep(a) && keep(b) {
        PrecedesInit(q, a, b);
        if keep(last) { PrecedesInit(f, a, b); }
      }
    }
  }

  lemma FailHeldFails(s: State, ids: set<string>)
    ensures FailsExactly(s, FailHeld(s, ids), ids)
  {
  }

  // ---- giving up ----

  /**
   * Whatever the deadline cache says, dropping leaves exactly the jobs that are not too late, in order, and fails
   * exactly the others.
   */
  lemma DropLeavesTheLive(c: Config, s: State)
    requires Inv(c, s)
    ensures var t := DropExpiredJobs(s);
            && (forall j :: j in t.queue <==> j in s.queue && !TooLate(j, s.now))
            && (forall a, b :: Precedes(t.queue, a, b) <==>
                  Precedes(s.queue, a, b) && !TooLate(a, s.now) && !TooLate(b, s.now))
            && FailsExactly(s, t, set j | j in s.queue && TooLate(j, s.now) :: j.id)
            && t.waiting == s.waiting && t.flying == s.flying
  {
    hide *;
    ScanLeavesTheLive(s);
    DropIsScan(c, s);
    SameFails(s, ScanExpired(s), DropExpiredJobs(s), set j | j in s.queue && TooLate(j, s.now) :: j.id);
  }

  lemma DropIsScan(c: Config, s: State)
    requires Inv(c, s)
    ensures var t, u := DropExpiredJobs(s), ScanExpired(s);
            && t.queue == u.queue && t.rows == u.rows && t.backlog == u.backlog && t.present == u.present
            && t.waiting == s.waiting && t.flying == s.flying
  {
    CacheRefinesScan(c, s);
    hide Inv, Filter, FailRows, QueueExpired, DropExpiredJobs;
  }

  lemma SameFails(s: State, t: State, u: State, gone: set<string>)
    requires FailsExactly(s, t, gone) && u.rows == t.rows && u.backlog == t.backlog && u.present == t.present
    ensures FailsExactly(s, u, gone)
  {
  }

  lemma ScanLeavesTheLive(s: State)
    ensures var t := ScanExpired(s);
            && (forall j :: j in t.queue <==> j in s.queue && !TooLate(j, s.now))
            && (forall a, b :: Precedes(t.queue, a, b) <==>
                  Precedes(s.queue, a, b) && !TooLate(a, s.now) && !TooLate(b, s.now))
            && FailsExactly(s, t, set j | j in s.queue && TooLate(j, s.now) :: j.id)
  {
    FilterIs(s.queue, Not(Expired(s.now)));
    FilterIs(s.queue, Expired(s.now));
    forall j ensures QueueExpired(j, s.now) <==> TooLate(j, s.now) { LateIsExpired(j, s.now); }
    var late := Filter(s.queue, Expired(s.now));
    hide Filter, QueueExpired, TooLate, Precedes;
    assert Ids(late) == set j | j in s.queue && TooLate(j, s.now) :: j.id;
    FailHeldFails(s, Ids(late));
  }

  /** The same for jobs waiting to be retried. */
  lemma DropWaitingLeavesTheLive(s: State)
    ensures var t := DropExpiredWaiting(s);
            && (forall w :: w in t.waiting <==> w in s.waiting && !TooLate(w.job, s.now))
            && (forall a, b :: Precedes(t.waiting, a, b) <==>
                  Precedes(s.waiting, a, b) && !TooLate(a.job, s.now) && !TooLate(b.job, s.now))
            && FailsExactly(s, t, set w | w in s.waiting && TooLate(w.job, s.now) :: w.job.id)
            && t.queue == s.queue && t.flying == s.flying
  {
    FilterIs(s.waiting, Not(OfWaiting(Expired(s.now))));
    FilterIs(s.waiting, OfWaiting(Expired(s.now)));
    forall j ensures QueueExpired(j, s.now) <==> TooLate(j, s.now) { LateIsExpired(j, s.now); }
    var late := Filter(s.waiting, OfWaiting(Expired(s.now)));
    hide Filter, QueueExpired, TooLate, Precedes;
    assert WaitingIds(late) == set w | w in s.waiting && TooLate(w.job, s.now) :: w.job.id;
    FailHeldFails(s, WaitingIds(late));
  }

  /** A target dead for long enough fails exactly the held jobs created by the cutoff. */
  lemma DeadTargetFails(s: State, cutoff: int)
    ensures var t := FailDeadTarget(s, cutoff);
            && (forall j :: j in t.queue <==> j in s.queue && !(0 < j.createdAt <= cutoff))
            && (forall w :: w in t.waiting <==> w in s.waiting && !(0 < w.job.createdAt <= cutoff))
            && (forall a, b :: Precedes(t.queue, a, b) ==> Precedes(s.queue, a, b))
            && FailsExactly(s, t, (set j | j in s.queue && 0 < j.createdAt <= cutoff :: j.id)
                                  + (set w | w in s.waiting && 0 < w.job.createdAt <= cutoff :: w.job.id))
            && t.flying == s.flying
  {
    hide *;
    OverdueJobs(s.queue, cutoff);
    OverdueRetries(s.waiting, cutoff);
    var a, b := Filter(s.queue, Overdue(cutoff)), Filter(s.waiting, OfWaiting(Overdue(cutoff)));
    FailHeldFails(s, Ids(a) + WaitingIds(b));
    DeadTargetLists(s, cutoff);
    SameFails(s, FailHeld(s, Ids(a) + WaitingIds(b)), FailDeadTarget(s, cutoff), Ids(a) + WaitingIds(b));
  }

  lemma OverdueJobs(q: seq<Job>, cutoff: int)
    ensures forall j :: j in Filter(q, Not(Overdue(cutoff))) <==> j in q && !(0 < j.createdAt <= cutoff)
    ensures forall a, b :: Precedes(Filter(q, Not(Overdue(cutoff))), a, b) ==> Precedes(q, a, b)
    ensures Ids(Filter(q, Overdue(cutoff))) == set j | j in q && 0 < j.createdAt <= cutoff :: j.id
  {
    FilterIs(q, Not(Overdue(cutoff)));
    FilterIs(q, Overdue(cutoff));
    hide Filter, Precedes;
  }

  lemma OverdueRetries(q: seq<Waiting>, cutoff: int)
    ensures forall w :: w in Filter(q, Not(OfWaiting(Overdue(cutoff)))) <==> w in q && !(0 < w.job.createdAt <= cutoff)
    ensures WaitingIds(Filter(q, OfWaiting(Overdue(cutoff)))) == set w | w in q && 0 < w.job.createdAt <= cutoff :: w.job.id
  {
    FilterIs(q, Not(OfWaiting(Overdue(cutoff))));
    FilterIs(q, OfWaiting(Overdue(cutoff)));
    hide Filter, Precedes;
  }

  lemma DeadTargetLists(s: State, cutoff: int)
    ensures var t := FailDeadTarget(s, cutoff);
            var u := FailHeld(s, Ids(Filter(s.queue, Overdue(cutoff))) + WaitingIds(Filter(s.waiting, OfWaiting(Overdue(cutoff)))));
            && t.queue == Filter(s.queue, Not(Overdue(cutoff))) && t.waiting == Filter(s.waiting, Not(OfWaiting(Overdue(cutoff))))
            && t.flying == s.flying && t.rows == u.rows && t.backlog == u.backlog && t.present == u.present
  {
    hide Filter, FailRows;
  }

  // ---- the sweep ----

  ghost predicate RowsFailed(s: State, t: State, gone: set<string>) {
    && t.rows.Keys == s.rows.Keys
    && forall id <- s.rows ::
         t.rows[id] == if id in gone then s.rows[id].(status := Failed, expiresAt := s.now + 7_200_000) else s.rows[id]
  }

  lemma FailedTwice(s: State, t: State, u: State, some: set<string>, more: set<string>)
    requires RowsFailed(s, t, some) && RowsFailed(t, u, more) && t.now == s.now
    ensures RowsFailed(s, u, some + more)
  {
  }

  /** What a sweep looks at. */
  predicate SameView(s: State, t: State) {
    && t.now == s.now && t.present == s.present && |t.spills| == |s.spills|
    && forall k :: 0 <= k < |s.spills| ==> t.spills[k].key == s.spills[k].key && t.spills[k].after == s.spills[k].after
  }

  /** The jobs of a list that a sweep fails: nobody holds them, and they are too late. */
  function LateIn(js: seq<Job>, s: State): set<string> { set j | j in js && j.id !in s.present && TooLate(j, s.now) :: j.id }

  lemma SweepOneFails(s: State, i: nat, j: Job)
    requires i < |s.spills|
    ensures SameView(s, SweepOne(s, i, j)) && RowsFailed(s, SweepOne(s, i, j), LateIn([j], s))
  {
    LateIsExpired(j, s.now);
    hide QueueExpired, TooLate, Counts;
    assert j in [j];
  }

  lemma {:induction false} SweepAllFails(s: State, i: nat, js: seq<Job>)
    requires i < |s.spills|
    ensures SameView(s, SweepAll(s, i, js)) && RowsFailed(s, SweepAll(s, i, js), LateIn(js, s))
    decreases |js|
  {
    hide SweepOne, TooLate;
    if js == [] {
      assert LateIn(js, s) == {};
    } else {
      var t := SweepOne(s, i, js[0]);
      SweepOneFails(s, i, js[0]);
      SweepAllFails(t, i, js[1..]);
      assert js == [js[0]] + js[1..];
      assert LateIn(js, s) == LateIn([js[0]], s) + LateIn(js[1..], t);
      hide RowsFailed, LateIn;
      FailedTwice(s, t, SweepAll(s, i, js), LateIn([js[0]], s), LateIn(js[1..], t));
    }
  }

  /** Its source has not reached the row, it is a day old, nobody holds it, and its job is too late. */
  predicate OverdueOnDisk(s: State, k: nat, r: Row)
    requires k < |s.spills|
  {
    && r.key == s.spills[k].key && Pending(r.status) && s.now < r.expiresAt && !Covers(s.spills[k].after, r.job)
    && r.job.createdAt < s.now - 86_400_000 && r.job.id !in s.present && TooLate(r.job, s.now)
  }

  /** The rows overdue on disk, of the sources from `i` on. */
  function OverdueFrom(s: State, i: nat): set<string> {
    set id | id in s.rows && exists k :: i <= k < |s.spills| && OverdueOnDisk(s, k, s.rows[id])
  }

  lemma ListIsOverdue(s: State, i: nat)
    requires i < |s.spills| && WellKeyed(s.rows) && 86_400_000 < s.now
    ensures LateIn(SweepList(s, i), s) == set id | id in s.rows && OverdueOnDisk(s, i, s.rows[id])
  {
    hide Covers, TooLate, Sorted;
    var js := SweepList(s, i);
    SortedIsIncreasing(Matching(s.rows, s.spills[i].key, s.spills[i].after, SweepBound(s), s.now));
    forall id | id in s.rows && OverdueOnDisk(s, i, s.rows[id]) ensures id in LateIn(js, s) {
      assert s.rows[id].job in js && s.rows[id].job.id == id;
    }
  }

  /** Sweeping one source does not change what is overdue for the next ones, but for the rows it failed. */
  lemma OverdueNext(s: State, t: State, i: nat, gone: set<string>)
    requires i < |s.spills| && SameView(s, t) && RowsFailed(s, t, gone)
    requires gone == set id | id in s.rows && OverdueOnDisk(s, i, s.rows[id])
    ensures OverdueFrom(s, i) == gone + OverdueFrom(t, i + 1)
  {
    hide Covers, TooLate;
    forall id | id in s.rows && id !in gone ensures id in OverdueFrom(s, i) <==> id in OverdueFrom(t, i + 1) {
      forall k | i < k < |s.spills| ensures OverdueOnDisk(t, k, t.rows[id]) <==> OverdueOnDisk(s, k, s.rows[id]) {}
      if id in OverdueFrom(s, i) {
        var k :| i <= k < |s.spills| && OverdueOnDisk(s, k, s.rows[id]);
        assert OverdueOnDisk(t, k, t.rows[id]);
      }
    }
    forall id | id in gone ensures id in OverdueFrom(s, i) { assert OverdueOnDisk(s, i, s.rows[id]); }
    forall id | id in OverdueFrom(t, i + 1) ensures id in s.rows && (id in gone || id in OverdueFrom(s, i)) {}
  }

  lemma {:induction false} SweepFromFails(s: State, i: nat)
    requires i <= |s.spills| && WellKeyed(s.rows) && 86_400_000 < s.now
    ensures RowsFailed(s, SweepFrom(s, i), OverdueFrom(s, i))
    decreases |s.spills| - i
  {
    if i == |s.spills| {
      assert OverdueFrom(s, i) == {};
    } else {
      var js := SweepList(s, i);
      var t := SweepAll(s, i, js);
      SweepAllKeepsKeys(s, i, js);
      SweepAllFails(s, i, js);
      ListIsOverdue(s, i);
      OverdueNext(s, t, i, LateIn(js, s));
      SweepFromFails(t, i + 1);
      hide SweepAll, SweepList, LateIn, OverdueFrom, RowsFailed, WellKeyed, OverdueOnDisk;
      FailedTwice(s, t, SweepFrom(s, i), LateIn(js, s), OverdueFrom(t, i + 1));
    }
  }

  /** A sweep that is due fails exactly the rows on disk that are a day old and too late, and leaves every other row. */
  lemma SweepFailsTheOverdue(c: Config, s: State)
    requires Inv(c, s) && s.spills != [] && s.now - s.lastSweep >= 60_000
    ensures RowsFailed(s, Sweep(s), OverdueFrom(s, 0)) && Sweep(s).lastSweep == s.now
  {
    assert WellKeyed(s.rows) && 86_400_000 < s.now;
    SweepFromFails(s, 0);
    hide Inv, SweepFrom, OverdueFrom, WellKeyed;
  }

  // ---- attempts ----

  /**
   * An attempt that ends for good takes its job out of memory, gives one count back, and stores the outcome: completed
   * rows are kept half an hour, failed ones two.
   */
  lemma AttemptSettles(c: Config, s: State, ok: bool)
    requires Inv(c, s) && s.queue != []
    ensures var j := s.queue[0];
            var t := Done(AttemptEnds(Dispatch(s), j.id, ok), j.id);
            && t.queue == s.queue[1..] && t.waiting == s.waiting && t.flying == s.flying
            && t.backlog == s.backlog - 1 && t.present == s.present - {j.id}
            && t.rows.Keys == s.rows.Keys
            && (forall id <- s.rows :: t.rows[id] ==
                  if id != j.id then s.rows[id]
                  else if ok then s.rows[id].(status := Completed, expiresAt := s.now + 1_800_000)
                  else s.rows[id].(status := Failed, expiresAt := s.now + 7_200_000))
  {
    HeadIsOnce(c, s);
    hide *;
    MemorySettles(s, ok);
    RowSettles(s, ok);
  }

  lemma MemorySettles(s: State, ok: bool)
    requires s.queue != [] && s.queue[0].id !in s.flying
    ensures var j := s.queue[0];
            var t := Done(AttemptEnds(Dispatch(s), j.id, ok), j.id);
            && t.queue == s.queue[1..] && t.waiting == s.waiting && t.flying == s.flying
            && t.backlog == s.backlog - 1 && t.present == s.present - {j.id}
  {
    hide ExpiresAtFor;
    var j := s.queue[0];
    assert s.flying[j.id := Flight(j, Running)][j.id := Flight(j, Finished)] - {j.id} == s.flying;
  }

  lemma RowSettles(s: State, ok: bool)
    requires s.queue != []
    ensures var j := s.queue[0];
            var t := Done(AttemptEnds(Dispatch(s), j.id, ok), j.id);
            && t.rows.Keys == s.rows.Keys
            && (forall id <- s.rows :: t.rows[id] ==
                  if id != j.id then s.rows[id]
                  else if ok then s.rows[id].(status := Completed, expiresAt := s.now + 1_800_000)
                  else s.rows[id].(status := Failed, expiresAt := s.now + 7_200_000))
  {
    hide PendingExpiresAt;
  }

  /** The head of the queue is nowhere else in memory. */
  lemma HeadIsOnce(c: Config, s: State)
    requires Inv(c, s) && s.queue != []
    ensures var j := s.queue[0]; j.id !in s.flying && j !in s.queue[1..] && forall w <- s.waiting :: w.job != j
  {
    hide RowsOk, MemoryOk, DeadlineOk, SourcesOk, HandoffsOk, OwedOk, NoneLost, Left;
    var j := s.queue[0];
    assert j.id in Ids(s.queue);
    forall w | w in s.waiting ensures w.job != j { assert w.job.id in WaitingIds(s.waiting); }
  }

  /** Due retries go to the end of the queue in order, and the others keep waiting. */
  lemma RetryDueMoves(s: State)
    ensures var t := RetryDue(s);
            && s.queue <= t.queue
            && (forall j :: j in t.queue[|s.queue|..] <==> exists w <- s.waiting :: w.job == j && w.at <= s.now)
            && (forall w :: w in t.waiting <==> w in s.waiting && w.at > s.now)
            && t.rows == s.rows && t.backlog == s.backlog && t.present == s.present
  {
    FilterIs(s.waiting, Due(s.now));
    FilterIs(s.waiting, Not(Due(s.now)));
    var due := Filter(s.waiting, Due(s.now));
    hide Filter, Precedes, TrackAll, JobsOf;
    JobsIn(due, s.waiting, s.now);
    assert RetryDue(s).queue[|s.queue|..] == JobsOf(due);
  }

  lemma JobsIn(due: seq<Waiting>, all: seq<Waiting>, now: int)
    requires forall w :: w in due <==> w in all && w.at <= now
    ensures forall j :: j in JobsOf(due) <==> exists w <- all :: w.job == j && w.at <= now
  {
    forall j ensures j in JobsOf(due) <==> exists w <- all :: w.job == j && w.at <= now {
      if j in JobsOf(due) {
        var k :| 0 <= k < |due| && JobsOf(due)[k] == j;
        assert due[k] in due;
      }
      if w :| w in all && w.job == j && w.at <= now {
        var k :| 0 <= k < |due| && due[k] == w;
        assert JobsOf(due)[k] == j;
      }
    }
  }

  /** After a retryable failure the job is owed as before, and it is back in the queue exactly once its time has come. */
  lemma RetryComesBack(c: Config, s: State, at: int, later: int)
    requires Inv(c, s) && s.queue != []
    ensures var j := s.queue[0];
            var t := Done(AttemptRetries(Dispatch(s), j.id, at), j.id);
            var u := RetryDue(Tick(t, later));
            && t.queue == s.queue[1..] && t.waiting == s.waiting + [Waiting(j, at)] && t.flying == s.flying
            && t.backlog == s.backlog && t.present == s.present
            && t.rows.Keys == s.rows.Keys
            && (forall id <- s.rows :: t.rows[id] == if id == j.id then s.rows[id].(status := Queued) else s.rows[id])
            && (j in u.queue <==> at <= later)
            && (Waiting(j, at) in u.waiting <==> at > later)
  {
    HeadIsOnce(c, s);
    hide *;
    var j := s.queue[0];
    var t := Done(AttemptRetries(Dispatch(s), j.id, at), j.id);
    RetryWaits(s, at);
    BackWhenDue(s, t, j, at, later);
  }

  lemma RetryWaits(s: State, at: int)
    requires s.queue != [] && s.queue[0].id !in s.flying
    ensures var j := s.queue[0];
            var t := Done(AttemptRetries(Dispatch(s), j.id, at), j.id);
            && t.queue == s.queue[1..] && t.waiting == s.waiting + [Waiting(j, at)] && t.flying == s.flying
            && t.backlog == s.backlog && t.present == s.present
            && t.rows.Keys == s.rows.Keys
            && (forall id <- s.rows :: t.rows[id] == if id == j.id then s.rows[id].(status := Queued) else s.rows[id])
  {
    var j := s.queue[0];
    assert s.flying[j.id := Flight(j, Running)][j.id := Flight(j, Retrying(at))] - {j.id} == s.flying;
  }

  lemma BackWhenDue(s: State, t: State, j: Job, at: int, later: int)
    requires j !in t.queue && (forall w <- s.waiting :: w.job != j) && t.waiting == s.waiting + [Waiting(j, at)]
    ensures var u := RetryDue(Tick(t, later)); (j in u.queue <==> at <= later) && (Waiting(j, at) in u.waiting <==> at > later)
  {
    RetryDueMoves(Tick(t, later));
    hide RetryDue;
    var u := RetryDue(Tick(t, later));
    assert u.queue == t.queue + u.queue[|t.queue|..];
    assert forall w :: w in t.waiting <==> w in s.waiting || w == Waiting(j, at);
    assert Waiting(j, at) in t.waiting;
  }

  // ---- accepting and loading ----

  /**
   * With nothing of the queue's own on disk, an accepted job is reserved, stored under the queue's key and ends up last
   * in the queue, with one count.
   */
  lemma AcceptedIsQueued(c: Config, s: State, j: Job)
    requires Inv(c, s) && CanReserve(c, s, j) && s.channel == [] && forall src <- s.spills :: src.key != c.own
    ensures var t := Receive(c, Send(SetKey(c, Reserve(s, j), j.id), j.id));
            && t.queue == s.queue + [j] && t.backlog == s.backlog + 1 && t.channel == [] && t.outstanding == s.outstanding
            && t.rows == s.rows[j.id := s.rows[j.id].(key := c.own)] && t.present == s.present + {j.id}
  {
    hide RowsOk, MemoryOk, DeadlineOk, SourcesOk, HandoffsOk, NoneLost, Left, Track, SingleCopies;
    var r := Send(SetKey(c, Reserve(s, j), j.id), j.id);
    NoOwnSpill(s.spills, c.own);
    assert r.channel == [j] && r.channel[1..] == [];
    assert AcceptHandoff(c, r, j);
    assert r.outstanding - {j.id} == s.outstanding;
  }

  lemma {:induction false} NoOwnSpill(spills: seq<Source>, own: string)
    requires forall src <- spills :: src.key != own
    ensures OwnSpill(spills, own) == None
    decreases |spills|
  {
    if spills != [] {
      assert spills[0] in spills;
      NoOwnSpill(spills[1..], own);
    }
  }

  function NotHeld(s: State): Job -> bool { (j: Job) => j.id !in s.present }

  /** A page goes to the end of the queue in its own order, without the jobs already held. */
  lemma {:induction false} LoadsInOrder(c: Config, s: State, page: seq<Job>)
    requires s.spills != [] && Distinct(page)
    ensures LoadAll(c, s, page).queue == s.queue + Filter(page, NotHeld(s))
    decreases |page|
  {
    hide *;
    if page == [] {
      LoadsNone(c, s);
    } else {
      var j, rest := page[0], page[1..];
      var t := LoadOne(c, s, j);
      LoadAllFirst(c, s, page);
      LoadOneQueues(c, s, j);
      RestDistinct(page);
      LoadsInOrder(c, t, rest);
      NotHeldAfter(s, t, j, rest);
      FilterCons(j, rest, NotHeld(s));
      NotHeldIs(s, j);
      Regroup(s.queue, if j.id in s.present then [] else [j], Filter(rest, NotHeld(s)));
      assert page == [j] + rest;
    }
  }

  lemma LoadsNone(c: Config, s: State)
    requires s.spills != []
    ensures LoadAll(c, s, []).queue == s.queue + Filter([], NotHeld(s))
  {
    assert s.queue + [] == s.queue;
  }

  lemma Regroup<T>(a: seq<T>, b: seq<T>, c: seq<T>)
    ensures (a + b) + c == a + (b + c)
  {
  }

  lemma LoadAllFirst(c: Config, s: State, page: seq<Job>)
    requires s.spills != [] && page != []
    ensures LoadOne(c, s, page[0]).spills != [] && LoadAll(c, s, page) == LoadAll(c, LoadOne(c, s, page[0]), page[1..])
  {
    LoadOneSize(c, s, page[0]);
    hide LoadOne;
  }

  lemma RestDistinct(page: seq<Job>)
    requires Distinct(page) && page != []
    ensures Distinct(page[1..]) && forall x <- page[1..] :: x.id != page[0].id
  {
  }

  lemma NotHeldIs(s: State, j: Job)
    ensures NotHeld(s)(j) <==> j.id !in s.present
  {
  }

  lemma NotHeldAfter(s: State, t: State, j: Job, rest: seq<Job>)
    requires t.present == s.present + {j.id} && forall x <- rest :: x.id != j.id
    ensures Filter(rest, NotHeld(s)) == Filter(rest, NotHeld(t))
  {
    FilterSame(rest, NotHeld(s), NotHeld(t));
  }

  lemma LoadOneQueues(c: Config, s: State, j: Job)
    requires s.spills != []
    ensures var t := LoadOne(c, s, j);
            t.queue == s.queue + (if j.id in s.present then [] else [j]) && t.present == s.present + {j.id}
  {
    hide Counts, Track;
  }

  lemma {:induction false} FilterSame<T>(q: seq<T>, p: T -> bool, r: T -> bool)
    requires forall x <- q :: p(x) == r(x)
    ensures Filter(q, p) == Filter(q, r)
    decreases |q|
  {
    if q != [] {
      FilterSame(q[..|q| - 1], p, r);
    }
  }

  lemma {:induction false} FilterCons<T>(x: T, q: seq<T>, keep: T -> bool)
    ensures Filter([x] + q, keep) == (if keep(x) then [x] else []) + Filter(q, keep)
    decreases |q|
  {
    var all := [x] + q;
    if q == [] {
      assert all[..0] == [];
    } else {
      FilterCons(x, q[..|q| - 1], keep);
      assert all[..|all| - 1] == [x] + q[..|q| - 1];
    }
  }
}
