/**
 * The two stores agree: the records of the Pebble store are the rows the SQL statements of
 * internal/storage/sqlite.go would hold after the same calls.
 */
module PebbleTable {
  import opened Basics
  import opened Jobs
  import opened Pages
  import opened StoreKeys
  import opened PebbleStore
  import opened PebbleProofs
  import opened PebbleCleanup
  import opened PebblePages
  import opened PebbleRuns
  import Lex

  // ---- the statements, in milliseconds ----

  /** expires_at of a new row. */
  function NewExpiry(j: Job, now: int): int {
    var deadline := if j.executeBefore > 0 then j.executeBefore else if j.createdAt > 0 then j.createdAt + 86_400_000 else 0;
    (if deadline > now + 86_400_000 then deadline else now + 86_400_000) + 900_000
  }

  /** expires_at after a status change; a pending status computes it from the row's own columns. */
  function ExpiryAfter(j: Job, s: Status, now: int): int {
    match s
    case Completed => now + 1_800_000
    case Failed => now + 7_200_000
    case _ =>
      var deadline := if j.executeBefore > 0 then j.executeBefore else j.createdAt + 86_400_000;
      (if deadline > now + 86_400_000 then deadline else now + 86_400_000) + 900_000
  }

  predicate HashTaken(rows: Rows, hash: string) { exists id <- rows :: rows[id].job.hash == hash }

  /** INSERT OR IGNORE: idempotent_key_hash is unique. */
  function InsertInto(rows: Rows, job: Job, now: int): Rows {
    if HashTaken(rows, job.hash) then rows else rows[job.id := Row(job, "", Queued, NewExpiry(job, now))]
  }

  function UpdateKey(rows: Rows, id: string, key: string): Rows {
    if id in rows then rows[id := rows[id].(key := key)] else rows
  }

  function UpdateRow(rows: Rows, id: string, s: Status, now: int): Rows {
    if id in rows then rows[id := rows[id].(status := s, expiresAt := ExpiryAfter(rows[id].job, s, now))] else rows
  }

  function Requeue(rows: Rows, id: string): Rows {
    if id in rows then rows[id := rows[id].(status := Queued)] else rows
  }

  function DeleteOld(rows: Rows, now: int): Rows {
    map id | id in rows && !(rows[id].expiresAt < now) :: rows[id]
  }

  /** What a call does to the table. */
  function Execute(rows: Rows, now: int, op: Op): (Rows, int) {
    match op
    case Inserted(job) => (InsertInto(rows, job, now), now)
    case KeySet(id, key) => (UpdateKey(rows, id, key), now)
    case StatusSet(id, s) => (UpdateRow(rows, id, s, now), now)
    case Retried(id) => (Requeue(rows, id), now)
    case Deleted(id) => (rows - {id}, now)
    case CleanedUp => (DeleteOld(rows, now), now)
    case ClockMoves(to) => (rows, to)
    case _ => (rows, now)
  }

  function ExecuteAll(rows: Rows, now: int, ops: seq<Op>): (Rows, int)
    decreases |ops|
  {
    if ops == [] then (rows, now) else var (t, n) := Execute(rows, now, ops[0]); ExecuteAll(t, n, ops[1..])
  }

  // ---- the query of a page ----

  /** (created_at, id) comes after the cursor's. */
  predicate ComesAfter(createdAt: int, id: string, c: Cursor) {
    createdAt > c.createdAt || (createdAt == c.createdAt && Lex.Less(c.id, id))
  }

  /** The WHERE clause; a bound of 0 is none. */
  predicate Selects(rows: Rows, key: string, after: Cursor, before: int, now: int, id: string) {
    && id in rows && rows[id].key == key && (rows[id].status == Queued || rows[id].status == InFlight)
    && rows[id].expiresAt > now && ComesAfter(rows[id].job.createdAt, id, after) && (before > 0 ==> rows[id].job.createdAt < before)
  }

  /** ORDER BY created_at, id LIMIT. */
  ghost predicate IsSelection(rows: Rows, key: string, after: Cursor, before: int, limit: nat, now: int, p: seq<Job>) {
    && |p| <= limit
    && (forall i, j :: 0 <= i < j < |p| ==> ComesAfter(p[j].createdAt, p[j].id, Cursor(p[i].createdAt, p[i].id)))
    && (forall j <- p :: Selects(rows, key, after, before, now, j.id) && rows[j.id].job == j)
    && (forall id :: Selects(rows, key, after, before, now, id) && rows[id].job !in p ==>
          |p| == limit && forall j <- p :: ComesAfter(rows[id].job.createdAt, id, Cursor(j.createdAt, j.id)))
  }

  lemma SelectsIs(rows: Rows, key: string, after: Cursor, before: int, now: int, id: string)
    requires id in rows && rows[id].job.id == id
    ensures Selects(rows, key, after, before, now, id) <==> Qualifies(rows[id], key, after, before, now)
  {
  }

  lemma OrderIs(a: Job, b: Job)
    ensures Before(a, b) <==> ComesAfter(b.createdAt, b.id, Cursor(a.createdAt, a.id))
  {
  }

  /** A page is what that query returns. */
  lemma PageIsSelection(rows: Rows, key: string, after: Cursor, before: int, limit: nat, now: int)
    requires WellKeyed(rows)
    ensures IsSelection(rows, key, after, before, limit, now, Page(rows, key, after, before, limit, now))
  {
    PageIsPage(rows, key, after, before, limit, now);
    var p := Page(rows, key, after, before, limit, now);
    forall id | id in rows ensures Selects(rows, key, after, before, now, id) <==> Qualifies(rows[id], key, after, before, now) {
      SelectsIs(rows, key, after, before, now, id);
    }
    forall a: Job, b: Job ensures Before(a, b) <==> ComesAfter(b.createdAt, b.id, Cursor(a.createdAt, a.id)) { OrderIs(a, b); }
    hide Page, Before, ComesAfter, Qualifies, Selects;
    forall j | j in p ensures j.id in rows && rows[j.id].job == j && Qualifies(rows[j.id], key, after, before, now) {
      assert j in Matching(rows, key, after, before, now);
    }
  }

  // ---- each call ----

  lemma RecordsAre(db: Db, rows: Rows)
    requires forall id :: Has(db, id) <==> id in rows
    requires forall id <- rows :: Has(db, id) && Get(db, id) == rows[id]
    ensures Records(db) == rows
  {
    hide Has, Get, RecordIds;
  }

  lemma NewExpiryIs(j: Job, now: int)
    ensures PendingExpiresAt(j, now) == NewExpiry(j, now)
  {
  }

  lemma ExpiryAfterIs(j: Job, s: Status, now: int)
    requires 0 <= j.createdAt && 0 <= now
    ensures ExpiresAtFor(j, s, now) == ExpiryAfter(j, s, now)
  {
  }

  /** idem: has the key of a hash exactly if a record has that hash. */
  lemma HashIsTaken(db: Db, hash: string)
    requires IdemOk(db)
    ensures IdemKey(hash) in db <==> HashTaken(Records(db), hash)
    ensures IdemKey(hash) in db ==> db[IdemKey(hash)].Ref? && db[IdemKey(hash)].id in Records(db)
                                    && Records(db)[db[IdemKey(hash)].id].job.hash == hash
  {
    hide Has, Get, RecordIds, IdemKey;
  }

  /**
   * CheckOrInsert answers with the stored job of that hash and changes nothing, or, if no record has the hash, with
   * nothing and adds the job's record.
   */
  lemma InsertAnswers(st: Store, job: Job, now: int)
    requires StoreOk(st, now) && Fits(PendingExpiresAt(job, now))
    ensures var (t, existing) := CheckOrInsert(st, job, now);
            var rows := Records(st.db);
            && (existing.Some? <==> HashTaken(rows, job.hash))
            && (existing.Some? ==> t == st && existing.value in rows && rows[existing.value].job.hash == job.hash)
            && Records(t.db) == InsertInto(rows, job, now)
  {
    StoreParts(st, now);
    HashIsTaken(st.db, job.hash);
    NewExpiryIs(job, now);
    hide StoreOk, WellFormed, IdemOk, ExpOk, IndexOk, EntriesOk, CountsOk, PendingExpiresAt, Fits, RecordIds, NewExpiry;
    if IdemKey(job.hash) !in st.db {
      InsertOverwrites(st.db, job, now);
      hide Has, Get, JobKey, IdemKey, ExpKey, HashTaken;
      RecordsAre(InsertDb(st.db, job, now), Records(st.db)[job.id := InsertRow(job, now)]);
    }
  }

  lemma InsertOverwrites(db: Db, job: Job, now: int)
    requires Fits(PendingExpiresAt(job, now))
    ensures var b := InsertDb(db, job, now);
            && Has(b, job.id) && Get(b, job.id) == InsertRow(job, now)
            && (forall x :: x != job.id ==> (Has(b, x) <==> Has(db, x)))
            && (forall x :: x != job.id && Has(db, x) ==> Get(b, x) == Get(db, x))
  {
    hide JobKey, IdemKey, ExpKey, QueueIndexKey, ExpOf, EntryOf, JobOf, HashOf, Family, Fits, PendingExpiresAt, InsertRow;
    Decodes();
  }

  lemma RewriteIsUpdate(a: Db, b: Db, id: string, r: Row)
    requires Rewrites(a, b, id) && Get(b, id) == r
    ensures Records(b) == Records(a)[id := r]
  {
    hide Get, Has, Fits, NulFree, RecordIds, IdemKey, ExpKey, QueueIndexKey;
    RecordsAre(b, Records(a)[id := r]);
  }

  lemma KeySetAgrees(st: Store, id: string, key: string, now: int)
    requires StoreOk(st, now) && key != "" && NulFree(key) && (Has(st.db, id) ==> Fits(Get(st.db, id).job.createdAt))
    ensures Records(SetQueueKey(st, id, key).db) == UpdateKey(Records(st.db), id, key)
  {
    hide StoreOk, Rewrites, ExpMoved, EntryMoved, WellFormed, Fits, NulFree, RecordIds, QueueIndexKey, JobKey;
    if Has(st.db, id) {
      SetQueueKeyEffect(st, id, key, now);
      hide SetQueueKey;
      RewriteIsUpdate(st.db, SetQueueKey(st, id, key).db, id, Get(st.db, id).(key := key));
    }
  }

  lemma StatusSetAgrees(st: Store, id: string, s: Status, now: int)
    requires StoreOk(st, now) && 0 <= now && CanUpdate(st, id, s, now)
    ensures Records(UpdateStatus(st, id, s, now).db) == UpdateRow(Records(st.db), id, s, now)
  {
    hide StoreOk, Rewrites, ExpMoved, EntryMoved, WellFormed, NulFree, RecordIds, JobKey, PutWithExpiry, ExpiresAtFor, ExpiryAfter;
    if Has(st.db, id) {
      UpdateStatusEffect(st, id, s, now);
      ExpiryAfterIs(Get(st.db, id).job, s, now);
      hide UpdateStatus;
      RewriteIsUpdate(st.db, UpdateStatus(st, id, s, now).db, id, Updated(Get(st.db, id), s, now));
    }
  }

  lemma RetriedAgrees(st: Store, id: string)
    ensures Records(RecordRetry(st, id).db) == Requeue(Records(st.db), id)
  {
    hide RecordIds;
    var t := RecordRetry(st, id);
    if Has(st.db, id) {
      Decodes();
      forall x | x != id ensures JobKey(x) != JobKey(id) { assert JobOf(JobKey(x)) == x && JobOf(JobKey(id)) == id; }
      hide JobKey;
      RecordsAre(t.db, Requeue(Records(st.db), id));
    }
  }

  lemma DeletedAgrees(st: Store, id: string, now: int)
    requires StoreOk(st, now) && (Has(st.db, id) ==> Fits(Get(st.db, id).job.createdAt))
    ensures Records(DeleteJob(st, id).db) == Records(st.db) - {id}
  {
    DeleteJobEffect(st, id, now);
    hide StoreOk, WellFormed, Fits, RecordIds, KeysOf, DeleteJob, Has, Get;
    RecordsAre(DeleteJob(st, id).db, Records(st.db) - {id});
  }

  lemma CleanedUpAgrees(st: Store, now: int)
    requires StoreOk(st, now) && Fits(now) && AllFit(st.db)
    ensures Records(Cleanup(st, now).db) == DeleteOld(Records(st.db), now)
  {
    CleanupKeeps(st, now);
    hide StoreOk, Fits, AllFit, Cleanup, Has, Get, RecordIds;
  }

  lemma CallAgrees(st: Store, now: int, op: Op)
    requires StoreOk(st, now) && 0 <= now && Ready(st.db) && Allowed(st, now, op)
    ensures var (t, n) := Apply(st, now, op); 0 <= n && (Records(t.db), n) == Execute(Records(st.db), now, op)
  {
    hide StoreOk, AllFit, Fits, RecordIds, InsertInto, UpdateKey, UpdateRow, Requeue, DeleteOld, CheckOrInsert, SetQueueKey,
         UpdateStatus, RecordRetry, DeleteJob, Cleanup, CanUpdate, DropsStale, Records;
    match op
    case Inserted(job) => InsertAnswers(st, job, now);
    case KeySet(id, key) => KeySetAgrees(st, id, key, now);
    case StatusSet(id, s) => StatusSetAgrees(st, id, s, now);
    case Retried(id) => RetriedAgrees(st, id);
    case Deleted(id) => DeletedAgrees(st, id, now);
    case PageRead(left) => DropsStaleKeeps(st, st.(db := left), now);
    case EntryLeft(key, c, id) => EntryLeftAgrees(st, key, c, id, now);
    case CleanedUp => CleanedUpAgrees(st, now);
    case ClockMoves(to) =>
  }

  lemma EntryLeftAgrees(st: Store, key: string, c: int, id: string, now: int)
    requires StoreOk(st, now) && NulFree(key) && Fits(c) && id != ""
    ensures Records(st.db[QueueIndexKey(key, c, id) := Mark]) == Records(st.db)
  {
    StoreParts(st, now);
    EntryOnly(st.db, st.db[QueueIndexKey(key, c, id) := Mark], key, c, id);
    hide StoreOk, WellFormed, Fits, NulFree, Has, Get, RecordIds, QueueIndexKey, ExpKey, IdemKey;
    RecordsAre(st.db[QueueIndexKey(key, c, id) := Mark], Records(st.db));
  }

  /**
   * From an empty store, after any run of calls the records are exactly the rows of the table after the same calls,
   * and the running counts are what counting its rows gives.
   */
  lemma StoresAgree(now: int, ops: seq<Op>)
    requires 0 <= now && StoreOk(EMPTY, now) && IsRun(EMPTY, now, ops)
    ensures var (st, n) := After(EMPTY, now, ops);
            var rows := ExecuteAll(map[], now, ops).0;
            && Records(st.db) == rows
            && st.queued == |set id | id in rows && rows[id].status == Queued|
            && st.inFlight == |set id | id in rows && rows[id].status == InFlight|
  {
    hide *;
    RunAgrees(EMPTY, now, ops);
    NoRecords();
    var (st, n) := After(EMPTY, now, ops);
    CountsAreRows(st, n);
  }

  lemma NoRecords()
    ensures Records(EMPTY.db) == map[]
  {
  }

  lemma CountsAreRows(st: Store, now: int)
    requires StoreOk(st, now)
    ensures var rows := Records(st.db);
            && st.queued == |set id | id in rows && rows[id].status == Queued|
            && st.inFlight == |set id | id in rows && rows[id].status == InFlight|
  {
    StoreParts(st, now);
    hide StoreOk, Has, Get, RecordIds, WellFormed;
    var rows := Records(st.db);
    assert WithStatus(st.db, Queued) == set id | id in rows && rows[id].status == Queued;
    assert WithStatus(st.db, InFlight) == set id | id in rows && rows[id].status == InFlight;
  }

  lemma {:induction false} RunAgrees(st: Store, now: int, ops: seq<Op>)
    requires 0 <= now && StoreOk(st, now) && IsRun(st, now, ops)
    ensures var (t, n) := After(st, now, ops); (Records(t.db), n) == ExecuteAll(Records(st.db), now, ops)
    decreases |ops|
  {
    if ops != [] {
      OpKeeps(st, now, ops[0]);
      CallAgrees(st, now, ops[0]);
      hide StoreOk, Allowed, Apply, Execute, Records, Ready;
      var (t, n) := Apply(st, now, ops[0]);
      RunAgrees(t, n, ops[1..]);
    }
  }
}
