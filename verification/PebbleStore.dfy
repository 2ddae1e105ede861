/**
 * The Pebble store as operations on one ordered key space (internal/storage/pebble.go): job:, idem:, exp:
 * and qk: keys, and two running counts. Batches are atomic; reads and writes do not fail.
 */
module PebbleStore {
  import opened Basics
  import opened Jobs
  import opened Pages
  import opened StoreKeys

  datatype Value = Rec(row: Row) | Ref(id: string) | Mark

  type Db = map<string, Value>

  datatype Store = Store(db: Db, queued: int, inFlight: int)

  const EMPTY := Store(map[], 0, 0)

  // ---- what is stored ----

  predicate Has(db: Db, id: string) { JobKey(id) in db && db[JobKey(id)].Rec? }

  function Get(db: Db, id: string): Row
    requires Has(db, id)
  {
    db[JobKey(id)].row
  }

  function RecordIds(db: Db): (ids: set<string>)
    ensures forall id :: id in ids <==> Has(db, id)
  {
    Decodes();
    set k | k in db && Has(db, JobOf(k)) && k == JobKey(JobOf(k)) :: JobOf(k)
  }

  /** The records themselves: what a plain scan sees. */
  function Records(db: Db): (rows: Rows)
    ensures forall id :: id in rows <==> Has(db, id)
    ensures forall id <- rows :: rows[id] == Get(db, id)
  {
    map id | id in RecordIds(db) :: Get(db, id)
  }

  function WithStatus(db: Db, s: Status): set<string> {
    set id | id in RecordIds(db) && Get(db, id).status == s
  }

  // ---- invariants ----

  predicate RowFits(r: Row, id: string) {
    r.job.id == id && id != "" && Fits(r.job.createdAt) && Fits(r.expiresAt) && NulFree(r.key)
  }

  /** Every key is a well-formed key of one of the four families. */
  ghost predicate WellFormed(db: Db) {
    forall k <- db ::
      match Family(k)
      case 0 => k == JobKey(JobOf(k)) && db[k].Rec? && RowFits(db[k].row, JobOf(k))
      case 1 => k == IdemKey(HashOf(k)) && db[k].Ref?
      case 2 => Fits(ExpOf(k).0) && k == ExpKey(ExpOf(k).0, ExpOf(k).1) && ExpOf(k).1 != ""
      case 3 => var e := EntryOf(k); NulFree(e.0) && Fits(e.1) && e.2 != "" && k == QueueIndexKey(e.0, e.1, e.2)
      case _ => false
  }

  /** job: and idem: are in bijection by hash. */
  ghost predicate IdemOk(db: Db) {
    && (forall id :: Has(db, id) ==> IdemKey(Get(db, id).job.hash) in db && db[IdemKey(Get(db, id).job.hash)] == Ref(id))
    && (forall h :: IdemKey(h) in db ==> db[IdemKey(h)].Ref? && Has(db, db[IdemKey(h)].id)
                                         && Get(db, db[IdemKey(h)].id).job.hash == h)
  }

  /** A record has one exp: key, at its current expiry. Keys of deleted records may be left over. */
  ghost predicate ExpOk(db: Db) {
    && (forall id :: Has(db, id) ==> Fits(Get(db, id).expiresAt) && ExpKey(Get(db, id).expiresAt, id) in db)
    && (forall e, id :: Fits(e) && ExpKey(e, id) in db && Has(db, id) ==> e == Get(db, id).expiresAt)
  }

  /** A pending, unexpired record with a queue key has its qk: entry. Other entries may be stale. */
  ghost predicate IndexOk(db: Db, now: int) {
    forall id :: Has(db, id) && Pending(Get(db, id).status) && Get(db, id).key != "" && now < Get(db, id).expiresAt ==>
      Fits(Get(db, id).job.createdAt) && QueueIndexKey(Get(db, id).key, Get(db, id).job.createdAt, id) in db
  }

  /** An entry for a record still stored carries its creation time. */
  ghost predicate EntriesOk(db: Db) {
    forall q, c, id :: NulFree(q) && Fits(c) && QueueIndexKey(q, c, id) in db && Has(db, id) ==>
      c == Get(db, id).job.createdAt
  }

  predicate CountsOk(st: Store) {
    st.queued == |WithStatus(st.db, Queued)| && st.inFlight == |WithStatus(st.db, InFlight)|
  }

  ghost predicate StoreOk(st: Store, now: int) {
    && WellFormed(st.db)
    && IdemOk(st.db)
    && ExpOk(st.db)
    && IndexOk(st.db, now)
    && EntriesOk(st.db)
    && CountsOk(st)
  }

  // ---- operations ----

  function CountStatus(st: Store, s: Status, delta: int): Store {
    match s
    case Queued => st.(queued := st.queued + delta)
    case InFlight => st.(inFlight := st.inFlight + delta)
    case _ => st
  }

  function MoveStatus(st: Store, from: Status, to: Status): Store {
    if from == to then st else CountStatus(CountStatus(st, from, -1), to, 1)
  }

  function InsertRow(job: Job, now: int): Row { Row(job, "", Queued, PendingExpiresAt(job, now)) }

  /** The id already accepted under the job's hash, or nothing and the job inserted. */
  function CheckOrInsert(st: Store, job: Job, now: int): (Store, Option<string>)
    requires Fits(PendingExpiresAt(job, now))
  {
    if IdemKey(job.hash) in st.db then
      (st, Some(if st.db[IdemKey(job.hash)].Ref? then st.db[IdemKey(job.hash)].id else ""))
    else
      var e := PendingExpiresAt(job, now);
      (CountStatus(st.(db := st.db[JobKey(job.id) := Rec(InsertRow(job, now))]
                               [IdemKey(job.hash) := Ref(job.id)]
                               [ExpKey(e, job.id) := Mark]), Queued, 1),
       None)
  }

  function SetQueueKey(st: Store, id: string, key: string): Store
    requires Has(st.db, id) ==> Fits(Get(st.db, id).job.createdAt)
  {
    if !Has(st.db, id) then st else
      var r := Get(st.db, id);
      var d := st.db[JobKey(id) := Rec(r.(key := key))];
      var e := if r.key != "" && r.key != key then d - {QueueIndexKey(r.key, r.job.createdAt, id)} else d;
      st.(db := if Pending(r.status) then e[QueueIndexKey(key, r.job.createdAt, id) := Mark] else e)
  }

  /** putRecordWithExpiry: the record, its new exp: key, and no qk: entry once it is over. */
  function PutWithExpiry(db: Db, id: string, r: Row, previous: int): Db
    requires Fits(r.job.createdAt) && Fits(r.expiresAt) && Fits(previous)
  {
    var d := db[JobKey(id) := Rec(r)];
    var e := if r.key != "" && !Pending(r.status) then d - {QueueIndexKey(r.key, r.job.createdAt, id)} else d;
    var f := if previous != r.expiresAt then e - {ExpKey(previous, id)} else e;
    f[ExpKey(r.expiresAt, id) := Mark]
  }

  function Updated(r: Row, s: Status, now: int): Row {
    r.(status := s, expiresAt := ExpiresAtFor(r.job, s, now))
  }

  function UpdateStatus(st: Store, id: string, s: Status, now: int): Store
    requires Has(st.db, id) ==>
               && Fits(Get(st.db, id).job.createdAt) && Fits(Get(st.db, id).expiresAt)
               && Fits(ExpiresAtFor(Get(st.db, id).job, s, now))
  {
    if !Has(st.db, id) then st else
      var r := Get(st.db, id);
      MoveStatus(st, r.status, s).(db := PutWithExpiry(st.db, id, Updated(r, s, now), r.expiresAt))
  }

  /** RecordRetry rewrites the record as queued, and leaves the indexes and counts alone. */
  function RecordRetry(st: Store, id: string): Store {
    if !Has(st.db, id) then st else st.(db := st.db[JobKey(id) := Rec(Get(st.db, id).(status := Queued))])
  }

  /** The keys a record is deleted with. Its exp: key is left for cleanup to find. */
  function KeysOf(db: Db, id: string): set<string>
    requires Has(db, id) && Fits(Get(db, id).job.createdAt)
  {
    var r := Get(db, id);
    {JobKey(id), IdemKey(r.job.hash)} + (if r.key != "" then {QueueIndexKey(r.key, r.job.createdAt, id)} else {})
  }

  function DeleteJob(st: Store, id: string): Store
    requires Has(st.db, id) ==> Fits(Get(st.db, id).job.createdAt)
  {
    if !Has(st.db, id) then st.(db := st.db - {JobKey(id)}) else
      CountStatus(st.(db := st.db - KeysOf(st.db, id)), Get(st.db, id).status, -1)
  }

  /** What a scan of the whole store would delete at `now`. */
  function ExpiredIds(db: Db, now: int): set<string> {
    set id | id in RecordIds(db) && Get(db, id).expiresAt < now
  }
}
