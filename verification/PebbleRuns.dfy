/** Runs of store operations, from an empty store. */
module PebbleRuns {
  import opened Basics
  import opened Jobs
  import opened Pages
  import opened StoreKeys
  import opened PebbleStore
  import opened PebbleProofs
  import opened PebbleCleanup
  import opened PebblePages

  /** `PageRead` carries the database a page read leaves, `EntryLeft` a stale entry a crash leaves behind. */
  datatype Op =
    | Inserted(job: Job)
    | KeySet(id: string, key: string)
    | StatusSet(id: string, status: Status)
    | Retried(id: string)
    | Deleted(id: string)
    | PageRead(left: Db)
    | EntryLeft(key: string, createdAt: int, id: string)
    | CleanedUp
    | ClockMoves(to: int)

  ghost predicate Allowed(st: Store, now: int, op: Op) {
    match op
    case Inserted(job) => CanInsert(st, job, now)
    case KeySet(id, key) => key != "" && NulFree(key)
    case StatusSet(id, s) => CanUpdate(st, id, s, now)
    case Retried(id) => Has(st.db, id) ==> Get(st.db, id).status == Queued
    case Deleted(_) => true
    case PageRead(left) => DropsStale(st.db, left, now)
    case EntryLeft(key, c, id) =>
      NulFree(key) && Fits(c) && id != "" && (Has(st.db, id) ==> c == Get(st.db, id).job.createdAt)
    case CleanedUp => Fits(now)
    case ClockMoves(to) => now <= to
  }

  ghost predicate Ready(db: Db) {
    AllFit(db) && forall id :: Has(db, id) ==> Fits(Get(db, id).job.createdAt)
  }

  lemma StoreIsReady(st: Store, now: int)
    requires StoreOk(st, now)
    ensures Ready(st.db)
  {
    hide StoreOk, AllFit, Fits;
    RecordsFit(st, now);
    FitsEach(st.db);
  }

  ghost function Apply(st: Store, now: int, op: Op): (Store, int)
    requires Ready(st.db) && Allowed(st, now, op)
  {
    match op
    case Inserted(job) => (CheckOrInsert(st, job, now).0, now)
    case KeySet(id, key) => (SetQueueKey(st, id, key), now)
    case StatusSet(id, s) => (UpdateStatus(st, id, s, now), now)
    case Retried(id) => (RecordRetry(st, id), now)
    case Deleted(id) => (DeleteJob(st, id), now)
    case PageRead(left) => (st.(db := left), now)
    case EntryLeft(key, c, id) => (st.(db := st.db[QueueIndexKey(key, c, id) := Mark]), now)
    case CleanedUp => (Cleanup(st, now), now)
    case ClockMoves(to) => (st, to)
  }

  lemma OpKeeps(st: Store, now: int, op: Op)
    requires StoreOk(st, now) && Allowed(st, now, op)
    ensures Ready(st.db) && var (t, n) := Apply(st, now, op); StoreOk(t, n)
  {
    hide StoreOk, AllFit, Fits, RecordIds;
    StoreIsReady(st, now);
    match op
    case Inserted(job) => InsertKeeps(st, job, now);
    case KeySet(id, key) => SetQueueKeyKeeps(st, id, key, now);
    case StatusSet(id, s) => UpdateStatusKeeps(st, id, s, now);
    case Retried(id) => RecordRetryKeeps(st, id, now);
    case Deleted(id) => DeleteJobKeeps(st, id, now);
    case PageRead(left) => DropsStaleKeeps(st, st.(db := left), now);
    case EntryLeft(key, c, id) => EntryLeftKeeps(st, key, c, id, now);
    case CleanedUp => CleanupKeeps(st, now);
    case ClockMoves(to) => ClockKeeps(st, now, to);
  }

  lemma FitsEach(db: Db)
    requires AllFit(db)
    ensures forall id :: Has(db, id) ==> Fits(Get(db, id).job.createdAt)
  {
    hide Has, Get, Fits;
    forall id | Has(db, id) ensures Fits(Get(db, id).job.createdAt) { assert id in RecordIds(db); }
  }

  lemma ClockKeeps(st: Store, now: int, to: int)
    requires StoreOk(st, now) && now <= to
    ensures StoreOk(st, to)
  {
    hide WellFormed, IdemOk, ExpOk, EntriesOk, CountsOk, Has, Get, Fits;
  }

  lemma EntryLeftKeeps(st: Store, key: string, c: int, id: string, now: int)
    requires StoreOk(st, now) && NulFree(key) && Fits(c) && id != ""
    requires Has(st.db, id) ==> c == Get(st.db, id).job.createdAt
    ensures StoreOk(st.(db := st.db[QueueIndexKey(key, c, id) := Mark]), now)
  {
    hide StoreOk, Fits, NulFree, RecordIds;
    var t := st.(db := st.db[QueueIndexKey(key, c, id) := Mark]);
    StoreParts(st, now);
    EntryOnly(st.db, t.db, key, c, id);
    hide WellFormed, IdemOk, ExpOk, IndexOk, EntriesOk, CountsOk, Has, Get;
    SameRecords(st.db, t.db);
    SameCounts(st, t);
    EntryOthers(st.db, t.db, key, c, id, now);
    Assemble(t, now);
  }

  /** Adding an entry touches no other family. */
  lemma EntryOnly(a: Db, b: Db, key: string, c: int, id: string)
    requires WellFormed(a) && NulFree(key) && Fits(c) && id != "" && b == a[QueueIndexKey(key, c, id) := Mark]
    ensures WellFormed(b)
    ensures forall x :: (Has(b, x) <==> Has(a, x)) && (Has(b, x) ==> Get(b, x) == Get(a, x))
    ensures forall h :: IdemKey(h) in b <==> IdemKey(h) in a
    ensures forall h :: IdemKey(h) in b ==> b[IdemKey(h)] == a[IdemKey(h)]
    ensures forall e, x :: Fits(e) ==> (ExpKey(e, x) in b <==> ExpKey(e, x) in a)
    ensures forall q, d, x :: NulFree(q) && Fits(d) ==>
              (QueueIndexKey(q, d, x) in b <==> QueueIndexKey(q, d, x) in a || (q == key && d == c && x == id))
  {
    hide JobKey, IdemKey, ExpKey, QueueIndexKey, ExpOf, EntryOf, JobOf, HashOf, Family, Fits, NulFree, RowFits;
    Decodes();
  }

  lemma EntryOthers(a: Db, b: Db, key: string, c: int, id: string, now: int)
    requires WellFormed(a) && IdemOk(a) && ExpOk(a) && IndexOk(a, now) && EntriesOk(a)
    requires Has(a, id) ==> c == Get(a, id).job.createdAt
    requires forall x :: (Has(b, x) <==> Has(a, x)) && (Has(b, x) ==> Get(b, x) == Get(a, x))
    requires forall h :: IdemKey(h) in b <==> IdemKey(h) in a
    requires forall h :: IdemKey(h) in b ==> b[IdemKey(h)] == a[IdemKey(h)]
    requires forall e, x :: Fits(e) ==> (ExpKey(e, x) in b <==> ExpKey(e, x) in a)
    requires forall q, d, x :: NulFree(q) && Fits(d) ==>
              (QueueIndexKey(q, d, x) in b <==> QueueIndexKey(q, d, x) in a || (q == key && d == c && x == id))
    ensures IdemOk(b) && ExpOk(b) && IndexOk(b, now) && EntriesOk(b)
  {
    KeysNulFree(a);
    hide WellFormed, Has, Get, Fits, NulFree, IdemKey, ExpKey, QueueIndexKey;
    assert IdemOk(b) by { hide ExpOk, IndexOk, EntriesOk; }
    assert ExpOk(b) by { hide IdemOk, IndexOk, EntriesOk; }
    assert IndexOk(b, now) && EntriesOk(b) by { hide IdemOk, ExpOk; }
  }

  ghost predicate IsRun(st: Store, now: int, ops: seq<Op>)
    requires StoreOk(st, now)
    decreases |ops|
  {
    ops == [] || (Allowed(st, now, ops[0])
                  && (OpKeeps(st, now, ops[0]); var (t, n) := Apply(st, now, ops[0]); IsRun(t, n, ops[1..])))
  }

  ghost function After(st: Store, now: int, ops: seq<Op>): (r: (Store, int))
    requires StoreOk(st, now) && IsRun(st, now, ops)
    ensures StoreOk(r.0, r.1)
    decreases |ops|
  {
    if ops == [] then (st, now) else
      OpKeeps(st, now, ops[0]);
      var (t, n) := Apply(st, now, ops[0]);
      After(t, n, ops[1..])
  }

  lemma EmptyOk(now: int)
    ensures StoreOk(EMPTY, now)
  {
    assert RecordIds(EMPTY.db) == {};
    assert WithStatus(EMPTY.db, Queued) == {} && WithStatus(EMPTY.db, InFlight) == {};
  }

  /**
   * From an empty store, after any run: idem: and job: are in bijection by hash, every record has exactly
   * one exp: key, at its current expiry, and the running counts equal the records in each pending status.
   */
  lemma IndexesStayExact(now: int, ops: seq<Op>, id: string, h: string)
    requires StoreOk(EMPTY, now) && IsRun(EMPTY, now, ops)
    ensures var st := After(EMPTY, now, ops).0;
            && (Has(st.db, id) && Get(st.db, id).job.hash == h <==> IdemKey(h) in st.db && RefOf(st.db, h) == Some(id))
            && (Has(st.db, id) ==> forall e :: Fits(e) ==> (ExpKey(e, id) in st.db <==> e == Get(st.db, id).expiresAt))
            && st.queued == |WithStatus(st.db, Queued)| && st.inFlight == |WithStatus(st.db, InFlight)|
  {
    hide WellFormed, IndexOk, EntriesOk, WithStatus, IsRun, After, IdemKey, ExpKey, Fits, JobKey;
    var r := After(EMPTY, now, ops);
    assert StoreOk(r.0, r.1);
  }

  function RefOf(db: Db, h: string): Option<string> {
    if IdemKey(h) in db && db[IdemKey(h)].Ref? then Some(db[IdemKey(h)].id) else None
  }

  /** Cleanup after any run deletes exactly the records whose expiry has passed, as a full scan would. */
  lemma CleanupMatchesScan(now: int, ops: seq<Op>)
    requires StoreOk(EMPTY, now) && IsRun(EMPTY, now, ops) && Fits(After(EMPTY, now, ops).1)
    ensures var (st, n) := After(EMPTY, now, ops);
            && AllFit(st.db)
            && (forall id :: Has(Cleanup(st, n).db, id) <==> Has(st.db, id) && Get(st.db, id).expiresAt >= n)
  {
    hide StoreOk, IsRun, After, Fits, RecordIds, Cleanup, AllFit;
    var (st, n) := After(EMPTY, now, ops);
    RecordsFit(st, n);
    CleanupKeeps(st, n);
    forall id ensures Has(Cleanup(st, n).db, id) <==> Has(st.db, id) && Get(st.db, id).expiresAt >= n {
      assert id in Records(Cleanup(st, n).db) <==> id in Records(st.db) && id !in ExpiredIds(st.db, n);
    }
  }
}
