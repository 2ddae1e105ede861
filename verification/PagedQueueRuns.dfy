/** Whole runs of the paged queue, from recovery on: nothing is lost, doubled or miscounted. */
module PagedQueueRuns {
  import opened Jobs
  import opened Pages
  import opened PagedQueue
  import opened PagedQueueInv
  import opened PagedQueueFrames
  import opened PagedQueueHandoffs
  import opened PagedQueuePaging
  import opened PagedQueueSweeps
  import opened PagedQueueAttempts
  import opened PagedQueueRecovery

  // ---- runs ----

  datatype Step =
    | ClockMoves(to: int)
    | RowWritten(row: Row)
    | RowDropped(id: string)
    | Reserved(job: Job)
    | Keyed(id: string)
    | Sent(id: string)
    | Received
    | Attached(key: string, after: Cursor, remaining: nat, cutoff: int)
    | SpillsTaken
    | PageLoaded
    | Swept
    | ExpiredDropped
    | ExpiredWaitingDropped
    | DeadTargetFailed(cutoff: int)
    | Dispatched
    | Ended(id: string, ok: bool)
    | Retries(id: string, at: int)
    | Reported(id: string)
    | RetriesQueued

  /** When a step can be taken, with the hypotheses on the world and the clock. */
  ghost predicate Enabled(c: Config, s: State, step: Step) {
    match step
    case ClockMoves(to) => CanTick(s, to)
    case RowWritten(r) => CanPutRow(c, s, r)
    case RowDropped(id) => CanDropRow(s, id)
    case Reserved(j) => CanReserve(c, s, j)
    case Keyed(id) => CanSetKey(s, id)
    case Sent(id) => CanSend(s, id)
    case Received => s.channel != []
    case Attached(key, after, remaining, cutoff) => CanAttach(c, s, key, after, remaining, cutoff)
    case PageLoaded => s.spills != [] && Held(s) < LowMark(c) && WellKeyed(s.rows)
    case Swept => WellKeyed(s.rows)
    case Dispatched => CanDispatch(c, s)
    case Ended(id, _) => IsRunning(s, id)
    case Retries(id, _) => IsRunning(s, id)
    case Reported(id) => HasReported(s, id)
    case _ => true
  }

  ghost function Apply(c: Config, s: State, step: Step): State
    requires Enabled(c, s, step)
  {
    match step
    case ClockMoves(to) => Tick(s, to)
    case RowWritten(r) => PutRow(s, r)
    case RowDropped(id) => DropRow(s, id)
    case Reserved(j) => Reserve(s, j)
    case Keyed(id) => SetKey(c, s, id)
    case Sent(id) => Send(s, id)
    case Received => Receive(c, s)
    case Attached(key, after, remaining, cutoff) => Attach(s, key, after, remaining, cutoff)
    case SpillsTaken => TakeSpills(s)
    case PageLoaded => LoadPage(c, s)
    case Swept => Sweep(s)
    case ExpiredDropped => DropExpiredJobs(s)
    case ExpiredWaitingDropped => DropExpiredWaiting(s)
    case DeadTargetFailed(cutoff) => FailDeadTarget(s, cutoff)
    case Dispatched => Dispatch(s)
    case Ended(id, ok) => AttemptEnds(s, id, ok)
    case Retries(id, at) => AttemptRetries(s, id, at)
    case Reported(id) => Done(s, id)
    case RetriesQueued => RetryDue(s)
  }

  lemma StepKeeps(c: Config, s: State, step: Step)
    requires Inv(c, s) && Enabled(c, s, step)
    ensures Inv(c, Apply(c, s, step))
  {
    hide Inv;
    match step
    case ClockMoves(to) => TickKeeps(c, s, to);
    case RowWritten(r) => PutRowKeeps(c, s, r);
    case RowDropped(id) => DropRowKeeps(c, s, id);
    case Reserved(j) => ReserveKeeps(c, s, j);
    case Keyed(id) => SetKeyKeeps(c, s, id);
    case Sent(id) => SendKeeps(c, s, id);
    case Received => ReceiveKeeps(c, s);
    case Attached(key, after, remaining, cutoff) => AttachKeeps(c, s, key, after, remaining, cutoff);
    case SpillsTaken => TakeSpillsKeeps(c, s);
    case PageLoaded => LoadPageKeeps(c, s);
    case Swept => SweepKeeps(c, s);
    case ExpiredDropped => DropExpiredJobsKeeps(c, s);
    case ExpiredWaitingDropped => DropExpiredWaitingKeeps(c, s);
    case DeadTargetFailed(cutoff) => FailDeadTargetKeeps(c, s, cutoff);
    case Dispatched => DispatchKeeps(c, s);
    case Ended(id, ok) => AttemptEndsKeeps(c, s, id, ok);
    case Retries(id, at) => AttemptRetriesKeeps(c, s, id, at);
    case Reported(id) => DoneKeeps(c, s, id);
    case RetriesQueued => RetryDueKeeps(c, s);
  }

  ghost predicate IsRun(c: Config, s: State, steps: seq<Step>)
    decreases |steps|
  {
    steps == [] || (Enabled(c, s, steps[0]) && IsRun(c, Apply(c, s, steps[0]), steps[1..]))
  }

  ghost function After(c: Config, s: State, steps: seq<Step>): State
    requires IsRun(c, s, steps)
    decreases |steps|
  {
    if steps == [] then s else After(c, Apply(c, s, steps[0]), steps[1..])
  }

  lemma {:induction false} RunKeeps(c: Config, s: State, steps: seq<Step>)
    requires Inv(c, s) && IsRun(c, s, steps)
    ensures Inv(c, After(c, s, steps))
    decreases |steps|
  {
    hide Inv, Enabled, Apply;
    if steps != [] {
      StepKeeps(c, s, steps[0]);
      RunKeeps(c, Apply(c, s, steps[0]), steps[1..]);
    }
  }

  // ---- the theorems ----

  /**
   * What the queue owes, read off the state alone: the jobs it holds, the hand-offs on the way whose
   * job is not over, and the rows ahead on disk that no reserved count stands for (declined hand-offs).
   */
  ghost function Owes(c: Config, s: State): set<string> {
    s.present
    + (set id | id in s.outstanding && RowPending(s.rows, id))
    + (set id | id in s.rows && Live(s, id) && Declined(c, s, s.rows[id]))
  }

  ghost predicate Declined(c: Config, s: State, r: Row) {
    r.key == c.own && r.job.id !in s.present
    && exists src <- Sources(s) :: src.key == c.own && !Covers(src.after, r.job) && !Countable(src, r.job)
  }

  lemma OwedIsOwes(c: Config, s: State)
    requires Inv(c, s)
    ensures s.owed == Owes(c, s)
  {
    hide SingleCopies, CacheBelow, MemoryOk, NoneLost, Left, Covers, QueueDeadline, Counted;
    forall id | id in s.owed ensures id in Owes(c, s) {
      if id in s.outstanding {
        assert HandoffOk(c, s, s.outstanding[id]);
      } else if id !in s.present {
        assert OnDisk(c, s, id) && RowOk(s.rows[id]);
        var src :| src in Sources(s) && src.key == c.own && !Covers(src.after, s.rows[id].job);
        assert SourceOk(s, src) && Qualifies(s.rows[id], src.key, src.after, 0, s.now);
      }
    }
    forall id | id in Owes(c, s) ensures id in s.owed {
      if id in s.outstanding { assert HandoffOk(c, s, s.outstanding[id]); }
      if id in s.rows && Live(s, id) && Declined(c, s, s.rows[id]) {
        var src :| src in Sources(s) && src.key == c.own && !Covers(src.after, s.rows[id].job) && !Countable(src, s.rows[id].job);
        assert SourceOk(s, src) && Qualifies(s.rows[id], src.key, src.after, 0, s.now);
      }
    }
  }

  /**
   * No job is lost by paging: on every run from recovery, every pending unexpired row stored under the
   * queue's own key is held, handed off or in the channel, or past the cursor of a source of that key.
   */
  lemma NoJobIsLost(c: Config, rows: Rows, now: int, steps: seq<Step>, id: string)
    requires Recoverable(c, rows, now) && IsRun(c, Recover(c, rows, now), steps)
    requires var s := After(c, Recover(c, rows, now), steps);
             id in s.rows && s.rows[id].key == c.own && Pending(s.rows[id].status) && s.now < s.rows[id].expiresAt
    ensures var s := After(c, Recover(c, rows, now), steps);
            id in s.present || id in s.outstanding
            || exists src <- Sources(s) :: src.key == c.own && !Covers(src.after, s.rows[id].job)
  {
    hide RowOk, IsRun, After, Recover, RowsOk, SingleCopies, MemoryOk, SourcesOk, HandoffsOk, OwedOk, Covers;
    RecoverStarts(c, rows, now);
    RunKeeps(c, Recover(c, rows, now), steps);
  }

  /**
   * The backlog stays exact: on every run it is the number of jobs owed plus what the sources have
   * reserved and not handed over. So it is never negative, and zero exactly when neither is left.
   */
  lemma BacklogStaysExact(c: Config, rows: Rows, now: int, steps: seq<Step>)
    requires Recoverable(c, rows, now) && IsRun(c, Recover(c, rows, now), steps)
    ensures var s := After(c, Recover(c, rows, now), steps);
            && s.backlog == |Owes(c, s)| + Left(Sources(s))
            && s.backlog >= 0
            && (s.backlog == 0 <==> Owes(c, s) == {} && Left(Sources(s)) == 0)
  {
    hide RowOk, IsRun, After, Recover, RowsOk, SingleCopies, MemoryOk, HandoffsOk, OwedOk, NoneLost, CacheBelow, Owes, Counted, Left;
    RecoverStarts(c, rows, now);
    RunKeeps(c, Recover(c, rows, now), steps);
    var s := After(c, Recover(c, rows, now), steps);
    OwedIsOwes(c, s);
    forall src | src in Sources(s) ensures src.consumed <= src.reserved { assert SourceOk(s, src); }
    LeftIsNatural(Sources(s));
  }

  /** One queue never holds two copies of a job, nor runs more than its maximum at once. */
  lemma OneCopyInMemory(c: Config, rows: Rows, now: int, steps: seq<Step>)
    requires Recoverable(c, rows, now) && IsRun(c, Recover(c, rows, now), steps)
    ensures var s := After(c, Recover(c, rows, now), steps);
            SingleCopy(c, s)
  {
    hide RowOk, IsRun, After, Recover, RowsOk, MemoryOk, SourcesOk, HandoffsOk, OwedOk, NoneLost, CacheBelow;
    RecoverStarts(c, rows, now);
    RunKeeps(c, Recover(c, rows, now), steps);
  }

  // ---- the deadline cache ----

  /** The plain scan the cache stands in for. */
  function ScanExpired(s: State): State {
    FailHeld(s, Ids(Filter(s.queue, Expired(s.now)))).(queue := Filter(s.queue, Not(Expired(s.now))))
  }

  /** With the cache, dropping expired jobs does exactly what scanning the whole queue would. */
  lemma CacheRefinesScan(c: Config, s: State)
    requires Inv(c, s)
    ensures DropExpiredJobs(s).(nextDeadline := 0) == ScanExpired(s).(nextDeadline := 0)
    ensures forall j <- DropExpiredJobs(s).queue :: !QueueExpired(j, s.now)
  {
    hide Inv, TrackAll, FailHeld, Filter;
    FilterKeeps(s.queue, Not(Expired(s.now)));
    if s.queue == [] || s.nextDeadline == 0 || s.now < s.nextDeadline {
      NoneExpired(c, s);
      FilterNone(s.queue, Expired(s.now));
      FailNobody(s);
    }
  }

  lemma NoneExpired(c: Config, s: State)
    requires Inv(c, s) && (s.queue == [] || s.nextDeadline == 0 || s.now < s.nextDeadline)
    ensures forall j <- s.queue :: !QueueExpired(j, s.now)
  {
    hide RowsOk, SingleCopies, MemoryOk, SourcesOk, HandoffsOk, OwedOk, NoneLost, Left, QueueDeadline;
  }

  lemma FailNobody(s: State)
    ensures FailHeld(s, Ids([])) == s
  {
    assert Ids([]) == {};
    assert FailRows(s.rows, {}, s.now) == s.rows;
  }

  /** The dispatch loop's drop-and-continue path makes progress: an expired head is always dropped. */
  lemma DropShortensQueue(c: Config, s: State)
    requires Inv(c, s) && s.queue != [] && QueueExpired(s.queue[0], s.now)
    ensures |DropExpiredJobs(s).queue| < |s.queue|
  {
    hide Inv, DropExpiredJobs;
    CacheRefinesScan(c, s);
    assert DropExpiredJobs(s).queue == ScanExpired(s).queue;
    FilterShortens(s.queue, Not(Expired(s.now)), 0);
  }

  lemma {:induction false} FilterShortens(q: seq<Job>, keep: Job -> bool, k: nat)
    requires k < |q| && !keep(q[k])
    ensures |Filter(q, keep)| < |q|
    decreases |q|
  {
    var init := q[..|q| - 1];
    if k < |init| {
      FilterShortens(init, keep, k);
    } else {
      FilterNoLonger(init, keep);
    }
  }

  lemma {:induction false} FilterNoLonger(q: seq<Job>, keep: Job -> bool)
    ensures |Filter(q, keep)| <= |q|
    decreases |q|
  {
    if q != [] {
      FilterNoLonger(q[..|q| - 1], keep);
    }
  }
}
