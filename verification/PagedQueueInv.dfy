/** What every step of the paged queue keeps. */
module PagedQueueInv {
  import opened Jobs
  import opened Pages
  import opened PagedQueue

  // ---- rows ----

  /**
   * A pending row is stored as queued (older versions also stored in_flight: see
   * PagedQueueLimits.LegacyInFlightIsLost) and outlives its job's deadline and first day by the grace period.
   */
  predicate RowOk(r: Row) {
    && r.job.createdAt > 0
    && (Pending(r.status) ==>
          && r.status == Queued
          && r.expiresAt >= r.job.createdAt + QUEUED_TTL + PENDING_ROW_GRACE
          && r.expiresAt >= QueueDeadline(r.job) + PENDING_ROW_GRACE)
  }

  ghost predicate RowsOk(s: State) {
    && WellKeyed(s.rows)
    && (forall id <- s.rows :: RowOk(s.rows[id]))
    && QUEUED_TTL < s.now
    && s.safeUntil <= s.now + PENDING_ROW_GRACE
  }

  // ---- memory: single copy ----

  predicate Distinct(q: seq<Job>) {
    forall i, k :: 0 <= i < k < |q| ==> q[i].id != q[k].id
  }

  predicate DistinctWaiting(w: seq<Waiting>) {
    forall i, k :: 0 <= i < k < |w| ==> w[i].job.id != w[k].job.id
  }

  /** `present` is exactly the ids in queue, waiting and in flight, each of them there once. */
  ghost predicate SingleCopies(queue: seq<Job>, waiting: seq<Waiting>, flying: map<string, Flight>, present: set<string>) {
    && Distinct(queue)
    && DistinctWaiting(waiting)
    && (forall id <- flying :: flying[id].job.id == id)
    && Ids(queue) !! WaitingIds(waiting)
    && Ids(queue) !! flying.Keys
    && WaitingIds(waiting) !! flying.Keys
    && present == Ids(queue) + WaitingIds(waiting) + flying.Keys
  }

  ghost predicate SingleCopy(c: Config, s: State) {
    SingleCopies(s.queue, s.waiting, s.flying, s.present) && |s.flying| <= c.maxConc
  }

  /** A job in memory is the job its row holds. */
  predicate Known(rows: Rows, j: Job) {
    j.createdAt > 0 && (j.id in rows ==> rows[j.id].job == j)
  }

  predicate RowPending(rows: Rows, id: string) {
    id in rows ==> Pending(rows[id].status)
  }

  /** A queued or waiting job is pending in the store, if it is still there. */
  predicate HeldOk(rows: Rows, j: Job) {
    Known(rows, j) && RowPending(rows, j.id)
  }

  /** So is a job in flight, until its attempt's last write. */
  predicate FlightOk(rows: Rows, f: Flight) {
    && Known(rows, f.job)
    && (f.job.id in rows ==> (Pending(rows[f.job.id].status) <==> f.phase != Finished))
  }

  ghost predicate MemoryOk(s: State) {
    && (forall j <- s.queue :: HeldOk(s.rows, j))
    && (forall w <- s.waiting :: HeldOk(s.rows, w.job))
    && (forall id <- s.flying :: FlightOk(s.rows, s.flying[id]))
  }

  /** The deadline cache is a lower bound: no queued job can expire before it. */
  ghost predicate CacheBelow(queue: seq<Job>, nextDeadline: int) {
    0 <= nextDeadline && forall j <- queue :: QueueDeadline(j) > 0 ==> 0 < nextDeadline <= QueueDeadline(j)
  }

  ghost predicate DeadlineOk(s: State) {
    CacheBelow(s.queue, s.nextDeadline)
  }

  // ---- sources ----

  ghost predicate DistinctKeys(srcs: seq<Source>) {
    forall i, k :: 0 <= i < k < |srcs| ==> srcs[i].key != srcs[k].key
  }

  /** Rows of a source that one of its reserved counts stands for. */
  ghost function Counted(s: State, src: Source): (ids: set<string>) {
    set id | id in s.rows && Qualifies(s.rows[id], src.key, src.after, 0, s.now)
             && Countable(src, s.rows[id].job) && (id !in s.owed || id in s.present)
  }

  ghost predicate SourceOk(s: State, src: Source) {
    && src.key != ""
    && 0 <= src.consumed <= src.reserved
    && |Counted(s, src)| <= src.reserved - src.consumed
    && (forall id <- s.rows :: Qualifies(s.rows[id], src.key, src.after, 0, s.now) ==>
          && (id !in s.owed ==> Countable(src, s.rows[id].job))
          && (id in s.owed && id !in s.present ==> !Countable(src, s.rows[id].job)))
  }

  ghost predicate SourcesOk(s: State) {
    && DistinctKeys(Sources(s))
    && (forall src <- Sources(s) :: SourceOk(s, src))
  }

  /** Some source of the queue's own key has yet to reach `j`. */
  ghost predicate AheadOnDisk(own: string, srcs: seq<Source>, j: Job) {
    exists src <- srcs :: src.key == own && !Covers(src.after, j)
  }

  // ---- hand-offs ----

  /** Handed off well within a day of its creation, so no sweep reaches it on the way. */
  predicate Fresh(h: Handoff) {
    h.job.createdAt + QUEUED_TTL >= h.since + RECENT_PAGE_WINDOW
  }

  ghost predicate HandoffOk(c: Config, s: State, h: Handoff) {
    var id := h.job.id;
    && Known(s.rows, h.job)
    && (id in s.rows ==> s.rows[id].key == "" || s.rows[id].key == c.own)
    && (h.keyed && id in s.rows ==> s.rows[id].key == c.own)
    && (forall src <- Sources(s) :: src.key == c.own ==> Covers(src.after, h.job) || !Countable(src, h.job))
    && (if Fresh(h) then
          && h.since <= s.now < h.since + RECENT_PAGE_WINDOW
          && id in s.rows
          && s.rows[id].expiresAt >= h.since + RECENT_PAGE_WINDOW
          && (id in s.present || id !in s.owed ==> s.pagedOwnUntil >= h.since + RECENT_PAGE_WINDOW)
          && (id !in s.owed ==> !Pending(s.rows[id].status))
          && (id in s.owed && id !in s.present ==> Pending(s.rows[id].status))
        else
          && id in s.owed && id !in s.present
          && RowPending(s.rows, id)
          && !AheadOnDisk(c.own, Sources(s), h.job))
  }

  ghost predicate HandoffsOk(c: Config, s: State) {
    && c.own != "" && s.pagedOwnUntil <= s.now + RECENT_PAGE_WINDOW
    && (forall id <- s.outstanding :: s.outstanding[id].job.id == id && HandoffOk(c, s, s.outstanding[id]))
    && Distinct(s.channel)
    && (forall j <- s.channel :: j.id in s.outstanding && s.outstanding[j.id].job == j && s.outstanding[j.id].keyed)
  }

  // ---- what is owed, and where ----

  /** The row of `id` waits on disk for its turn, and cannot be cleaned up before the next sweep is due. */
  ghost predicate OnDisk(c: Config, s: State, id: string) {
    && id in s.rows
    && Pending(s.rows[id].status)
    && s.rows[id].key == c.own
    && AheadOnDisk(c.own, Sources(s), s.rows[id].job)
    && s.rows[id].expiresAt >= s.safeUntil
  }

  /** Every job the queue owes is held, handed off, or on disk. */
  ghost predicate OwedOk(c: Config, s: State) {
    && s.present <= s.owed
    && (forall id <- s.owed :: id in s.present || id in s.outstanding || OnDisk(c, s, id))
    && (Sources(s) != [] ==> s.now < s.safeUntil)
  }

  /** No pending job stored under the queue's own key is out of reach. */
  ghost predicate NoneLost(c: Config, s: State) {
    forall id <- s.rows :: s.rows[id].key == c.own && Pending(s.rows[id].status) && s.now < s.rows[id].expiresAt ==>
      id in s.present || id in s.outstanding || AheadOnDisk(c.own, Sources(s), s.rows[id].job)
  }

  // ---- the backlog counter ----

  /** Counts still reserved for rows the sources have not handed over. */
  function Left(srcs: seq<Source>): int {
    if srcs == [] then 0 else srcs[0].reserved - srcs[0].consumed + Left(srcs[1..])
  }

  predicate BacklogExact(s: State) {
    s.backlog == |s.owed| + Left(Sources(s))
  }

  ghost predicate Inv(c: Config, s: State) {
    && c.size > 0
    && RowsOk(s)
    && SingleCopy(c, s)
    && MemoryOk(s)
    && DeadlineOk(s)
    && SourcesOk(s)
    && HandoffsOk(c, s)
    && OwedOk(c, s)
    && NoneLost(c, s)
    && BacklogExact(s)
  }
}
