/** Jobs, page cursors and deadlines (internal/jobs/job.go). Times are Unix milliseconds. */
module Jobs {
  import opened Basics
  import Lex

  datatype Status = Queued | InFlight | Completed | Failed

  predicate Pending(s: Status) { s == Queued || s == InFlight }

  /** The fields of a job that queues and stores decide on. `hash` is its idempotency identity. */
  datatype Job = Job(id: string, createdAt: int, executeBefore: int, hash: string)

  const QUEUED_TTL := 24 * 60 * 60 * 1000
  const PENDING_ROW_GRACE := 15 * 60 * 1000
  const COMPLETED_TTL := 30 * 60 * 1000
  const FAILED_TTL := 2 * 60 * 60 * 1000

  /** How far a queue's rows have been read; START is before them all. */
  datatype Cursor = Cursor(createdAt: int, id: string)

  const START := Cursor(0, "")

  function CursorAt(j: Job): (c: Cursor) { Cursor(j.createdAt, j.id) }

  /** A page read after `c` does not return `j`. */
  predicate Covers(c: Cursor, j: Job) {
    j.createdAt < c.createdAt || (j.createdAt == c.createdAt && !Lex.Less(c.id, j.id))
  }

  /** The order pages are read in. */
  predicate Before(a: Job, b: Job) {
    a.createdAt < b.createdAt || (a.createdAt == b.createdAt && Lex.Less(a.id, b.id))
  }

  function QueueDeadline(j: Job): (d: int) {
    if j.executeBefore > 0 then j.executeBefore
    else if j.createdAt > 0 then j.createdAt + QUEUED_TTL
    else 0
  }

  predicate QueueExpired(j: Job, now: int) {
    QueueDeadline(j) > 0 && now >= QueueDeadline(j)
  }

  function PendingExpiresAt(j: Job, now: int): (e: int) {
    Max(now + QUEUED_TTL, QueueDeadline(j)) + PENDING_ROW_GRACE
  }

  function ExpiresAtFor(j: Job, s: Status, now: int): (e: int) {
    match s
    case Completed => now + COMPLETED_TTL
    case Failed => now + FAILED_TTL
    case _ => PendingExpiresAt(j, now)
  }

  /** The cursor at a job covers exactly the jobs not after it, and moves forward. */
  lemma CursorOrder(a: Job, b: Job, c: Cursor)
    ensures Covers(CursorAt(a), b) <==> !Before(a, b)
    ensures Covers(CursorAt(a), a)
    ensures !Covers(c, a) && Covers(c, b) ==> Before(b, a)
    ensures !Covers(c, a) && Covers(c, b) ==> Covers(CursorAt(a), b)
    ensures !Covers(CursorAt(a), b) && !Covers(c, a) ==> !Covers(c, b)
  {
    Lex.Irreflexive(a.id);
    Lex.Total(c.id, b.id);
    Lex.Total(a.id, b.id);
    if Lex.Less(c.id, a.id) && Lex.Less(a.id, b.id) { Lex.Transitive(c.id, a.id, b.id); }
    if Lex.Less(b.id, c.id) && Lex.Less(c.id, a.id) { Lex.Transitive(b.id, c.id, a.id); }
    if Lex.Less(a.id, b.id) { Lex.Asymmetric(a.id, b.id); }
    if Lex.Less(b.id, a.id) { Lex.Asymmetric(b.id, a.id); }
  }

  /** `Before` is a strict order, total on jobs with different ids. */
  lemma BeforeIsOrder(a: Job, b: Job, c: Job)
    ensures !Before(a, a)
    ensures Before(a, b) && Before(b, c) ==> Before(a, c)
    ensures a.id != b.id ==> Before(a, b) || Before(b, a)
    ensures Before(a, b) ==> !Before(b, a)
  {
    Lex.Irreflexive(a.id);
    Lex.Total(a.id, b.id);
    if Lex.Less(a.id, b.id) { Lex.Asymmetric(a.id, b.id); }
    if Lex.Less(a.id, b.id) && Lex.Less(b.id, c.id) { Lex.Transitive(a.id, b.id, c.id); }
  }

  /**
   * A pending row inserted once its job existed outlives the job's deadline, and the job's first
   * day, by the grace period. So a row that a sweep at `now` leaves alone (its job is not expired,
   * or is younger than a day) cannot be deleted for another grace period.
   */
  lemma RowOutlivesSweep(j: Job, inserted: int, now: int)
    requires 0 < j.createdAt <= inserted
    ensures PendingExpiresAt(j, inserted) >= QueueDeadline(j) + PENDING_ROW_GRACE
    ensures !QueueExpired(j, now) || j.createdAt >= now - QUEUED_TTL
            ==> PendingExpiresAt(j, inserted) >= now + PENDING_ROW_GRACE
  {
  }
}
