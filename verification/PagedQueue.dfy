/**
 * One account queue and the store rows it can see, as a state machine
 * (internal/dispatch/paged_recovery.go and the run loop of internal/dispatch/account_queue.go).
 * Every lock-protected call, store call and run-loop case is one step.
 */
module PagedQueue {
  import opened Basics
  import opened Jobs
  import opened Pages

  const RECENT_PAGE_WINDOW := 5 * 60 * 1000
  const SPILL_SWEEP_EVERY := 60 * 1000

  /** `own` is the key this queue stores its jobs under, `size` the page size. */
  datatype Config = Config(own: string, size: nat, maxConc: nat)

  /**
   * Where paging of one key stands: rows up to `after` have been read. `reserved` backlog counts were taken for
   * it, `consumed` of them used up, by rows older than `cutoff` and beyond `consumedThrough`.
   */
  datatype Source = Source(key: string, after: Cursor, reserved: int, consumed: int, cutoff: int, consumedThrough: Cursor)

  predicate Countable(src: Source, j: Job) {
    j.createdAt < src.cutoff && !Covers(src.consumedThrough, j)
  }

  predicate Counts(src: Source, j: Job) {
    Countable(src, j) && src.consumed < src.reserved
  }

  /** A job reserved at `since` whose hand-off the run loop has not received; `keyed` once its row has the queue's key. */
  datatype Handoff = Handoff(job: Job, since: int, keyed: bool)

  /** An attempt runs, then reports that it is over, or that it retries at `at`. */
  datatype Phase = Running | Finished | Retrying(at: int)
  datatype Flight = Flight(job: Job, phase: Phase)
  datatype Waiting = Waiting(job: Job, at: int)

  /**
   * `outstanding` holds every hand-off on its way, `channel` those already sent, in order. `owed` is
   * the set of jobs the queue holds one backlog count of their own for; `safeUntil` is a grace period
   * after the last sweep. The code keeps neither of the last two: they are what the others are
   * measured against.
   */
  datatype State = State(
    rows: Rows,
    now: int,
    backlog: int,
    outstanding: map<string, Handoff>,
    channel: seq<Job>,
    queue: seq<Job>,
    waiting: seq<Waiting>,
    flying: map<string, Flight>,
    present: set<string>,
    spills: seq<Source>,
    pendingSpills: seq<Source>,
    pagedOwnUntil: int,
    nextDeadline: int,
    lastSweep: int,
    owed: set<string>,
    safeUntil: int)

  function Sources(s: State): seq<Source> { s.spills + s.pendingSpills }

  function Ids(q: seq<Job>): set<string> { set j <- q :: j.id }

  function WaitingIds(w: seq<Waiting>): set<string> { set x <- w :: x.job.id }

  function Filter<T>(s: seq<T>, keep: T -> bool): (r: seq<T>) {
    if s == [] then [] else
      var rest := Filter(s[..|s| - 1], keep);
      if keep(s[|s| - 1]) then rest + [s[|s| - 1]] else rest
  }

  // ---- deadlines ----

  function Track(next: int, j: Job): (n: int) {
    var d := QueueDeadline(j);
    if d > 0 && (next == 0 || d < next) then d else next
  }

  function TrackAll(next: int, q: seq<Job>): (n: int) {
    if q == [] then next else Track(TrackAll(next, q[..|q| - 1]), q[|q| - 1])
  }

  // ---- failing jobs ----

  function FailRows(rows: Rows, ids: set<string>, now: int): (r: Rows) {
    map id | id in rows :: if id in ids then rows[id].(status := Failed, expiresAt := now + FAILED_TTL) else rows[id]
  }

  /** Fails held jobs: rows, backlog and `present`; the caller shortens the lists. */
  function FailHeld(s: State, ids: set<string>): State {
    s.(rows := FailRows(s.rows, ids, s.now),
       backlog := s.backlog - |ids|,
       present := s.present - ids,
       owed := s.owed - ids)
  }

  function Not<T>(p: T -> bool): T -> bool { x => !p(x) }

  function Expired(now: int): Job -> bool { (j: Job) => QueueExpired(j, now) }

  /** Created so long ago that a dead target has had its chance. */
  function Overdue(cutoff: int): Job -> bool { (j: Job) => 0 < j.createdAt <= cutoff }

  function OfWaiting(p: Job -> bool): Waiting -> bool { (w: Waiting) => p(w.job) }

  function Due(now: int): Waiting -> bool { (w: Waiting) => w.at <= now }

  /** dropExpiredJobs: skips its scan while the earliest tracked deadline is ahead. */
  function DropExpiredJobs(s: State): State {
    if s.queue == [] then s.(nextDeadline := 0)
    else if s.nextDeadline == 0 || s.now < s.nextDeadline then s
    else
      var kept := Filter(s.queue, Not(Expired(s.now)));
      FailHeld(s, Ids(Filter(s.queue, Expired(s.now)))).(queue := kept, nextDeadline := TrackAll(0, kept))
  }

  function DropExpiredWaiting(s: State): State {
    FailHeld(s, WaitingIds(Filter(s.waiting, OfWaiting(Expired(s.now)))))
      .(waiting := Filter(s.waiting, Not(OfWaiting(Expired(s.now)))))
  }

  /** failDeadTarget, once its target has failed long enough. */
  function FailDeadTarget(s: State, cutoff: int): State {
    FailHeld(s, Ids(Filter(s.queue, Overdue(cutoff))) + WaitingIds(Filter(s.waiting, OfWaiting(Overdue(cutoff)))))
      .(queue := Filter(s.queue, Not(Overdue(cutoff))),
        waiting := Filter(s.waiting, Not(OfWaiting(Overdue(cutoff)))))
  }

  // ---- hand-off ----

  /** A job goes into memory, at the end of the queue. */
  function Hold(s: State, j: Job): State {
    s.(queue := s.queue + [j], present := s.present + {j.id}, nextDeadline := Track(s.nextDeadline, j))
  }

  function Reserve(s: State, j: Job): State {
    s.(backlog := s.backlog + 1,
       owed := s.owed + {j.id},
       outstanding := s.outstanding[j.id := Handoff(j, s.now, false)])
  }

  /** Once the row carries the queue's key, a page can return the job before its hand-off arrives. */
  function SetKey(c: Config, s: State, id: string): State
    requires id in s.outstanding
  {
    s.(outstanding := s.outstanding[id := s.outstanding[id].(keyed := true)],
       rows := if id in s.rows then s.rows[id := s.rows[id].(key := c.own)] else s.rows)
  }

  function Send(s: State, id: string): State
    requires id in s.outstanding
  {
    s.(channel := s.channel + [s.outstanding[id].job])
  }

  function OwnSpill(spills: seq<Source>, own: string): (r: Option<Cursor>) {
    if spills == [] then None
    else if spills[0].key == own then Some(spills[0].after)
    else OwnSpill(spills[1..], own)
  }

  predicate AcceptHandoff(c: Config, s: State, j: Job) {
    && j.id !in s.present
    && (var own := OwnSpill(s.spills, c.own); own.None? || Covers(own.value, j))
    && !(s.now < s.pagedOwnUntil && j.id in s.rows && s.now < s.rows[j.id].expiresAt && s.rows[j.id].status != Queued)
  }

  /** The run loop takes the next hand-off. A declined one keeps its backlog count. */
  function Receive(c: Config, s: State): State
    requires s.channel != []
  {
    var j := s.channel[0];
    var r := s.(channel := s.channel[1..], outstanding := s.outstanding - {j.id});
    if AcceptHandoff(c, s, j) then Hold(r, j) else r
  }

  // ---- paging ----

  function Attach(s: State, key: string, after: Cursor, remaining: nat, cutoff: int): State {
    s.(backlog := s.backlog + remaining,
       pendingSpills := s.pendingSpills + [Source(key, after, remaining, 0, cutoff, START)],
       safeUntil := if Sources(s) == [] then s.now + PENDING_ROW_GRACE else s.safeUntil)
  }

  function TakeSpills(s: State): State {
    s.(spills := s.spills + s.pendingSpills, pendingSpills := [])
  }

  /** Loads the next row of the first source. Its cursor moves with it; the code moves it at the end of the page. */
  function LoadOne(c: Config, s: State, j: Job): State
    requires s.spills != []
  {
    var src := s.spills[0];
    var counted := Counts(src, j);
    var moved := src.(consumed := if counted then src.consumed + 1 else src.consumed, after := CursorAt(j));
    var r := s.(spills := [moved] + s.spills[1..],
                pagedOwnUntil := if src.key == c.own then s.now + RECENT_PAGE_WINDOW else s.pagedOwnUntil);
    if j.id in s.present then
      r.(backlog := if counted then s.backlog - 1 else s.backlog)
    else
      Hold(r, j).(owed := s.owed + {j.id})
  }

  lemma LoadOneSize(c: Config, s: State, j: Job)
    requires s.spills != []
    ensures |LoadOne(c, s, j).spills| == |s.spills|
  {
    hide Counts, Track;
  }

  function LoadAll(c: Config, s: State, page: seq<Job>): (r: State)
    requires s.spills != []
    ensures |r.spills| == |s.spills|
    decreases |page|
  {
    if page == [] then s else LoadAll(c, LoadOne(c, s, page[0]), page[1..])
  }

  function FinishSpill(s: State, i: nat): State
    requires i < |s.spills|
  {
    s.(backlog := s.backlog - Max(s.spills[i].reserved - s.spills[i].consumed, 0),
       spills := s.spills[..i] + s.spills[i + 1..])
  }

  function NextPage(c: Config, s: State): seq<Job>
    requires s.spills != [] && WellKeyed(s.rows)
  {
    Page(s.rows, s.spills[0].key, s.spills[0].after, 0, c.size, s.now)
  }

  /** One pass of refill's loop: a page of the first source, which is removed if the page is short. */
  function LoadPage(c: Config, s: State): State
    requires s.spills != [] && WellKeyed(s.rows)
  {
    var page := NextPage(c, s);
    var r := LoadAll(c, s, page);
    if |page| < c.size then FinishSpill(r, 0) else r
  }

  function Held(s: State): nat { |s.queue| + |s.waiting| + |s.flying| }

  function LowMark(c: Config): nat { if c.size / 4 > 1 then c.size / 4 else 1 }

  // ---- sweeping ----

  function SweepOne(s: State, i: nat, j: Job): State
    requires i < |s.spills|
  {
    if j.id in s.present || !QueueExpired(j, s.now) then s else
      var src := s.spills[i];
      s.(spills := s.spills[i := src.(consumed := if Counts(src, j) then src.consumed + 1 else src.consumed)],
         backlog := s.backlog - 1,
         owed := s.owed - {j.id},
         rows := FailRows(s.rows, {j.id}, s.now))
  }

  function SweepAll(s: State, i: nat, js: seq<Job>): (r: State)
    requires i < |s.spills|
    ensures |r.spills| == |s.spills|
    decreases |js|
  {
    if js == [] then s else SweepAll(SweepOne(s, i, js[0]), i, js[1..])
  }

  function SweepBound(s: State): int { s.now - QUEUED_TTL }

  /** The rows source `i` of the sweep reads: those a day old, past its cursor. */
  function SweepList(s: State, i: nat): seq<Job>
    requires i < |s.spills| && WellKeyed(s.rows)
  {
    Sorted(Matching(s.rows, s.spills[i].key, s.spills[i].after, SweepBound(s), s.now))
  }

  function SweepFrom(s: State, i: nat): (r: State)
    requires i <= |s.spills| && WellKeyed(s.rows)
    decreases |s.spills| - i
  {
    if i == |s.spills| then s else
      var r := SweepAll(s, i, SweepList(s, i));
      SweepAllKeepsKeys(s, i, SweepList(s, i));
      SweepFrom(r, i + 1)
  }

  lemma {:induction false} SweepAllKeepsKeys(s: State, i: nat, js: seq<Job>)
    requires i < |s.spills| && WellKeyed(s.rows)
    ensures WellKeyed(SweepAll(s, i, js).rows)
    decreases |js|
  {
    if js != [] {
      SweepAllKeepsKeys(SweepOne(s, i, js[0]), i, js[1..]);
    }
  }

  /** sweepSpilled, at most once a minute and only with jobs on disk. */
  function Sweep(s: State): State
    requires WellKeyed(s.rows)
  {
    if s.spills == [] || s.now - s.lastSweep < SPILL_SWEEP_EVERY then s
    else
      SweepFrom(s, 0).(lastSweep := s.now,
                       safeUntil := if s.pendingSpills == [] then s.now + PENDING_ROW_GRACE else s.safeUntil)
  }

  // ---- attempts ----

  function Dispatch(s: State): State
    requires s.queue != []
  {
    s.(queue := s.queue[1..], flying := s.flying[s.queue[0].id := Flight(s.queue[0], Running)])
  }

  /** The attempt's last store write: the job completed or failed for good. */
  function AttemptEnds(s: State, id: string, ok: bool): State
    requires id in s.flying
  {
    var row := if ok then Completed else Failed;
    s.(rows := if id in s.rows
               then s.rows[id := s.rows[id].(status := row, expiresAt := ExpiresAtFor(s.rows[id].job, row, s.now))]
               else s.rows,
       flying := s.flying[id := s.flying[id].(phase := Finished)])
  }

  /** The attempt's last store write: RecordRetry puts the row back to queued. */
  function AttemptRetries(s: State, id: string, at: int): State
    requires id in s.flying
  {
    s.(rows := if id in s.rows then s.rows[id := s.rows[id].(status := Queued)] else s.rows,
       flying := s.flying[id := s.flying[id].(phase := Retrying(at))])
  }

  /** The run loop reads an attempt's report. */
  function Done(s: State, id: string): State
    requires id in s.flying
  {
    var f := s.flying[id];
    if f.phase.Retrying? then
      s.(flying := s.flying - {id}, waiting := s.waiting + [Waiting(f.job, f.phase.at)])
    else
      s.(flying := s.flying - {id}, present := s.present - {id}, owed := s.owed - {id}, backlog := s.backlog - 1)
  }

  function JobsOf(w: seq<Waiting>): (q: seq<Job>)
    ensures |q| == |w|
    ensures forall k :: 0 <= k < |w| ==> q[k] == w[k].job
  {
    seq(|w|, k requires 0 <= k < |w| => w[k].job)
  }

  function RetryDue(s: State): State {
    var due := JobsOf(Filter(s.waiting, Due(s.now)));
    s.(queue := s.queue + due,
       waiting := Filter(s.waiting, Not(Due(s.now))),
       nextDeadline := TrackAll(s.nextDeadline, due))
  }
}
