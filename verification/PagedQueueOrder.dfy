/** First come, first served: no job in the queue is overtaken by one behind it. */
module PagedQueueOrder {
  import opened Jobs
  import opened Pages
  import opened PagedQueue
  import opened PagedQueueInv
  import opened PagedQueueFrames
  import opened PagedQueueAttempts
  import opened PagedQueueRuns
  import opened PagedQueueLaws

  /** `a` is in the queue, and `b` is behind it or not there. */
  ghost predicate Ahead(q: seq<Job>, a: Job, b: Job) { a in q && (b in q ==> Precedes(q, a, b)) }

  // ---- what can happen to the queue ----

  lemma AppendKeeps(q: seq<Job>, more: seq<Job>, a: Job, b: Job)
    requires Ahead(q, a, b) && a != b
    ensures Ahead(q + more, a, b)
  {
    var r := q + more;
    if b in q {
      var i, k :| 0 <= i < k < |q| && q[i] == a && q[k] == b;
      assert r[i] == a && r[k] == b;
    } else if b in r {
      var i :| 0 <= i < |q| && q[i] == a;
      var k :| 0 <= k < |r| && r[k] == b;
      assert k >= |q| by { assert forall l :: 0 <= l < |q| ==> q[l] != b; }
      assert r[i] == a && r[k] == b;
    }
  }

  lemma FilterKeepsOrder(q: seq<Job>, keep: Job -> bool, a: Job, b: Job)
    requires Ahead(q, a, b) && a in Filter(q, keep)
    ensures Ahead(Filter(q, keep), a, b)
  {
    FilterIs(q, keep);
    hide Filter, Precedes;
  }

  lemma TailKeeps(q: seq<Job>, a: Job, b: Job)
    requires Distinct(q) && q != [] && Ahead(q, a, b) && a in q[1..]
    ensures Ahead(q[1..], a, b)
  {
    if b in q[1..] {
      var i, k :| 0 <= i < k < |q| && q[i] == a && q[k] == b;
      var l :| 0 <= l < |q[1..]| && q[1..][l] == a;
      assert i == l + 1;
      assert q[1..][i - 1] == a && q[1..][k - 1] == b;
    }
  }

  lemma {:induction false} LoadAllAppends(c: Config, s: State, page: seq<Job>)
    requires s.spills != []
    ensures s.queue <= LoadAll(c, s, page).queue
    decreases |page|
  {
    if page != [] {
      LoadAllFirst(c, s, page);
      LoadOneQueues(c, s, page[0]);
      hide LoadOne, LoadAll;
      LoadAllAppends(c, LoadOne(c, s, page[0]), page[1..]);
    }
  }

  lemma {:induction false} SweepAllQueue(s: State, i: nat, js: seq<Job>)
    requires i < |s.spills|
    ensures SweepAll(s, i, js).queue == s.queue
    decreases |js|
  {
    hide QueueExpired, Counts;
    if js != [] {
      SweepAllQueue(SweepOne(s, i, js[0]), i, js[1..]);
    }
  }

  lemma {:induction false} SweepFromQueue(s: State, i: nat)
    requires i <= |s.spills| && WellKeyed(s.rows)
    ensures SweepFrom(s, i).queue == s.queue
    decreases |s.spills| - i
  {
    if i < |s.spills| {
      var js := SweepList(s, i);
      SweepAllKeepsKeys(s, i, js);
      SweepAllQueue(s, i, js);
      hide SweepAll, SweepList, WellKeyed;
      SweepFromQueue(SweepAll(s, i, js), i + 1);
    }
  }

  /** A step leaves the queue, adds to its end, takes its head, or takes out what a test says. */
  ghost predicate QueueMoves(q: seq<Job>, r: seq<Job>, step: Step) {
    || q <= r
    || (step.Dispatched? && q != [] && r == q[1..])
    || exists keep: Job -> bool :: r == Filter(q, keep)
  }

  lemma StepMoves(c: Config, s: State, step: Step)
    requires Inv(c, s) && Enabled(c, s, step)
    ensures QueueMoves(s.queue, Apply(c, s, step).queue, step)
  {
    hide Inv, Filter, FailRows, TrackAll, Track, QueueExpired, LoadAll, SweepFrom, Page, ExpiresAtFor, AcceptHandoff;
    match step
    case PageLoaded =>
      LoadAllAppends(c, s, NextPage(c, s));
    case Swept =>
      SweepFromQueue(s, 0);
    case ExpiredDropped =>
      assert Filter(s.queue, Not(Expired(s.now))) == Filter(s.queue, Not(Expired(s.now)));
    case DeadTargetFailed(cutoff) =>
      assert Filter(s.queue, Not(Overdue(cutoff))) == Filter(s.queue, Not(Overdue(cutoff)));
    case _ =>
  }

  lemma OrderStays(q: seq<Job>, r: seq<Job>, step: Step, a: Job, b: Job)
    requires QueueMoves(q, r, step) && Distinct(q) && Ahead(q, a, b) && a in r && a != b
    ensures Ahead(r, a, b)
  {
    hide Ahead, Filter, Distinct;
    if q <= r {
      assert r == q + r[|q|..];
      AppendKeeps(q, r[|q|..], a, b);
    } else if step.Dispatched? && q != [] && r == q[1..] {
      TailKeeps(q, a, b);
    } else {
      var keep: Job -> bool :| r == Filter(q, keep);
      FilterKeepsOrder(q, keep, a, b);
    }
  }

  // ---- runs ----

  /** `a` stays in the queue throughout the run. */
  ghost predicate Stays(c: Config, s: State, steps: seq<Step>, a: Job)
    requires IsRun(c, s, steps)
    decreases |steps|
  {
    a in s.queue && (steps != [] ==> Stays(c, Apply(c, s, steps[0]), steps[1..], a))
  }

  /** Some step of the run starts `b`. */
  ghost predicate Starts(c: Config, s: State, steps: seq<Step>, b: Job)
    requires IsRun(c, s, steps)
    decreases |steps|
  {
    steps != [] && ((steps[0].Dispatched? && s.queue[0] == b) || Starts(c, Apply(c, s, steps[0]), steps[1..], b))
  }

  /**
   * On every run, as long as a job stays in the queue, none that is behind it, or that joins after it, is started:
   * not by a hand-off, a page from disk, or a retry.
   */
  lemma {:induction false} NoOvertaking(c: Config, s: State, steps: seq<Step>, a: Job, b: Job)
    requires Inv(c, s) && IsRun(c, s, steps) && Stays(c, s, steps, a) && Ahead(s.queue, a, b) && a != b
    ensures !Starts(c, s, steps, b)
    decreases |steps|
  {
    if steps != [] {
      var t := Apply(c, s, steps[0]);
      StepKeeps(c, s, steps[0]);
      StepMoves(c, s, steps[0]);
      QueueIsDistinct(c, s);
      NotFirst(s.queue, a, b);
      hide Inv, QueueMoves, Ahead, Distinct;
      assert a in t.queue;
      OrderStays(s.queue, t.queue, steps[0], a, b);
      assert steps[0].Dispatched? ==> s.queue != [];
      hide Enabled, Apply;
      NoOvertaking(c, t, steps[1..], a, b);
    }
  }

  lemma QueueIsDistinct(c: Config, s: State)
    requires Inv(c, s)
    ensures Distinct(s.queue)
  {
    hide RowsOk, MemoryOk, DeadlineOk, SourcesOk, HandoffsOk, OwedOk, NoneLost, Left;
  }

  lemma NotFirst(q: seq<Job>, a: Job, b: Job)
    requires Ahead(q, a, b) && Distinct(q) && a != b && q != []
    ensures q[0] != b
  {
    if b in q {
      var i, k :| 0 <= i < k < |q| && q[i] == a && q[k] == b;
      assert q[0].id != q[k].id;
    }
  }
}
