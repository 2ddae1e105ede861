/** Where the store's promises end, and runs from an empty store that get there. */
module PebbleLimits {
  import opened Basics
  import opened Jobs
  import opened Pages
  import opened StoreKeys
  import opened PebbleStore
  import opened PebbleProofs
  import opened PebblePages
  import opened PebbleRuns

  /** A retry recorded on anything but a queued record leaves the counts wrong: RecordRetry does not move them. */
  lemma RetryKeepsCountsIff(st: Store, id: string)
    requires CountsOk(st)
    ensures CountsOk(RecordRetry(st, id)) <==> !Has(st.db, id) || Get(st.db, id).status == Queued
  {
    hide RecordIds;
    var t := RecordRetry(st, id);
    if Has(st.db, id) && Get(st.db, id).status == Queued {
      assert t == st;
    } else if Has(st.db, id) {
      assert Has(t.db, id) && Get(t.db, id).status == Queued;
      Decodes();
      forall x | x != id ensures (Has(t.db, x) <==> Has(st.db, x)) && (Has(t.db, x) ==> Get(t.db, x) == Get(st.db, x)) {
        assert JobOf(JobKey(x)) == x && JobOf(JobKey(id)) == id;
      }
      hide JobKey;
      CountOne(st.db, t.db, id, Queued);
    }
  }

  /**
   * Putting a record back to a pending status restores it, but not its index entry: pages return it again
   * exactly if the entry is still there. A terminal status removes the entry, and so does a page read
   * that meets the record expired.
   */
  lemma RevivedWithoutEntry(st: Store, id: string, now: int)
    requires StoreOk(st, now) && Has(st.db, id) && Get(st.db, id).key != ""
    requires Fits(Get(st.db, id).job.createdAt) && Fits(Get(st.db, id).expiresAt) && Fits(PendingExpiresAt(Get(st.db, id).job, now))
    ensures IndexOk(UpdateStatus(st, id, Queued, now).db, now) <==>
            QueueIndexKey(Get(st.db, id).key, Get(st.db, id).job.createdAt, id) in st.db
  {
    KeysNulFree(st.db);
    var row := Get(st.db, id);
    var db := UpdateStatus(st, id, Queued, now).db;
    assert ExpiresAtFor(row.job, Queued, now) == PendingExpiresAt(row.job, now) && now < PendingExpiresAt(row.job, now);
    hide Fits, NulFree, WellFormed, PendingExpiresAt, ExpOk, IdemOk, EntriesOk, CountsOk;
    PutRewrites(st.db, id, Updated(row, Queued, now), row.expiresAt);
    EntryUntouched(st.db, id, Updated(row, Queued, now), row.expiresAt);
    hide PutWithExpiry, JobKey, IdemKey, ExpKey, QueueIndexKey;
    if QueueIndexKey(row.key, row.job.createdAt, id) in st.db {
      hide Has, Get;
      forall x | Has(db, x) && Pending(Get(db, x).status) && Get(db, x).key != "" && now < Get(db, x).expiresAt
        ensures Fits(Get(db, x).job.createdAt) && QueueIndexKey(Get(db, x).key, Get(db, x).job.createdAt, x) in db {}
    }
  }

  lemma EntryUntouched(db: Db, id: string, r: Row, previous: int)
    requires Fits(r.job.createdAt) && Fits(r.expiresAt) && Fits(previous) && Pending(r.status) && NulFree(r.key)
    ensures QueueIndexKey(r.key, r.job.createdAt, id) in PutWithExpiry(db, id, r, previous)
            <==> QueueIndexKey(r.key, r.job.createdAt, id) in db
  {
    hide JobKey, IdemKey, ExpKey, QueueIndexKey, ExpOf, EntryOf, JobOf, HashOf, Family, Fits, NulFree;
    Decodes();
  }

  // ---- pages of the empty key ----

  /** A job not yet given a queue has no index entry: a page of the empty key is the query's exactly if all on it have one. */
  lemma EmptyKeyPage(st: Store, after: Cursor, before: int, limit: nat, now: int)
    requires StoreOk(st, now)
    ensures WellKeyed(Indexed(st.db)) && WellKeyed(Records(st.db))
    ensures Page(Indexed(st.db), "", after, before, limit, now) == Page(Records(st.db), "", after, before, limit, now)
       <==> forall j <- Page(Records(st.db), "", after, before, limit, now) :: j.id in Indexed(st.db)
  {
    StoreParts(st, now);
    IndexedKeyed(st.db);
    RecordsKeyed(st.db);
    hide StoreOk, WellFormed, Page, RecordIds;
    PageOfFewer(Records(st.db), Indexed(st.db), "", after, before, limit, now);
  }

  // ---- runs ----

  predicate Storable(job: Job, now: int) {
    job.id != "" && 0 < job.createdAt && Fits(job.createdAt) && Fits(PendingExpiresAt(job, now))
  }

  lemma Chain(st: Store, now: int, op: Op, rest: seq<Op>)
    requires StoreOk(st, now) && Allowed(st, now, op)
    requires Ready(st.db) && var (t, n) := Apply(st, now, op); StoreOk(t, n) && IsRun(t, n, rest)
    ensures IsRun(st, now, [op] + rest)
    ensures var (t, n) := Apply(st, now, op); After(st, now, [op] + rest) == After(t, n, rest)
  {
    assert ([op] + rest)[1..] == rest;
  }

  /** The store after a first job was inserted. */
  function One(job: Job, now: int): Store
    requires Storable(job, now)
  {
    CheckOrInsert(EMPTY, job, now).0
  }

  lemma FirstInsert(job: Job, now: int)
    requires Storable(job, now)
    ensures StoreOk(EMPTY, now) && Allowed(EMPTY, now, Op.Inserted(job)) && Ready(EMPTY.db)
    ensures StoreOk(One(job, now), now) && Apply(EMPTY, now, Op.Inserted(job)) == (One(job, now), now)
    ensures Has(One(job, now).db, job.id) && Get(One(job, now).db, job.id) == InsertRow(job, now)
    ensures forall q, c, x :: NulFree(q) && Fits(c) ==> QueueIndexKey(q, c, x) !in One(job, now).db
  {
    EmptyOk(now);
    StoreIsReady(EMPTY, now);
    assert CanInsert(EMPTY, job, now);
    OpKeeps(EMPTY, now, Op.Inserted(job));
    StoreParts(EMPTY, now);
    InsertEffect(EMPTY.db, job, now);
    hide StoreOk, WellFormed, Fits, NulFree, QueueIndexKey, ExpKey, JobKey, IdemKey, PendingExpiresAt;
  }

  /** An insert is a run. */
  lemma InsertRuns(job: Job, now: int)
    requires Storable(job, now)
    ensures StoreOk(EMPTY, now) && IsRun(EMPTY, now, [Op.Inserted(job)] + [])
    ensures After(EMPTY, now, [Op.Inserted(job)] + []) == (One(job, now), now)
  {
    FirstInsert(job, now);
    hide StoreOk, Allowed, Apply, Ready;
    Chain(EMPTY, now, Op.Inserted(job), []);
  }

  /** The query finds that job under the empty key; the index does not. */
  lemma UnkeyedExample(job: Job, now: int)
    requires Storable(job, now)
    ensures StoreOk(EMPTY, now) && IsRun(EMPTY, now, [Op.Inserted(job)] + [])
    ensures var st := After(EMPTY, now, [Op.Inserted(job)] + []).0;
            && WellKeyed(Indexed(st.db)) && WellKeyed(Records(st.db))
            && Page(Indexed(st.db), "", START, 0, 1, now) != Page(Records(st.db), "", START, 0, 1, now)
  {
    InsertRuns(job, now);
    FirstInsert(job, now);
    var st := One(job, now);
    hide IsRun, After, Allowed, Apply, Ready;
    EmptyKeyPage(st, START, 0, 1, now);
    OnlyUnkeyed(st.db, job, now);
    PageIsPage(Records(st.db), "", START, 0, 1, now);
    hide StoreOk, One, Page, Indexed, QueueIndexKey;
    var page := Page(Records(st.db), "", START, 0, 1, now);
    assert job in Matching(Records(st.db), "", START, 0, now);
    assert page != [];
    assert page[0] in page;
  }

  /** The job matches, and no record is indexed. */
  lemma OnlyUnkeyed(db: Db, job: Job, now: int)
    requires Storable(job, now) && Has(db, job.id) && Get(db, job.id) == InsertRow(job, now) && WellFormed(db)
    requires forall q, c, x :: NulFree(q) && Fits(c) ==> QueueIndexKey(q, c, x) !in db
    ensures Qualifies(Get(db, job.id), "", START, 0, now) && Indexed(db) == map[]
  {
    KeysNulFree(db);
    hide QueueIndexKey, Fits, NulFree, WellFormed;
    assert forall id :: id !in Indexed(db);
  }

  /** A job in flight. */
  lemma InFlightRuns(job: Job, now: int)
    requires Storable(job, now)
    ensures var ops := [Op.Inserted(job)] + ([StatusSet(job.id, InFlight)] + []);
            && StoreOk(EMPTY, now) && IsRun(EMPTY, now, ops)
            && var st := After(EMPTY, now, ops).0; Has(st.db, job.id) && Get(st.db, job.id).status == InFlight
  {
    FirstInsert(job, now);
    var st := One(job, now);
    assert ExpiresAtFor(job, InFlight, now) == PendingExpiresAt(job, now) > now;
    assert CanUpdate(st, job.id, InFlight, now);
    hide PendingExpiresAt, One, Fits;
    UpdateStatusEffect(st, job.id, InFlight, now);
    StoreIsReady(st, now);
    OpKeeps(st, now, StatusSet(job.id, InFlight));
    hide StoreOk, Ready, CanUpdate, Rewrites, WellFormed;
    Chain(st, now, StatusSet(job.id, InFlight), []);
    hide Allowed, Apply, IsRun, After;
    Chain(EMPTY, now, Op.Inserted(job), [StatusSet(job.id, InFlight)] + []);
  }

  /** A retry recorded for it leaves the counts wrong. */
  lemma RetryBreaksCounts(job: Job, now: int)
    requires Storable(job, now)
    ensures var ops := [Op.Inserted(job)] + ([StatusSet(job.id, InFlight)] + []);
            && StoreOk(EMPTY, now) && IsRun(EMPTY, now, ops)
            && !CountsOk(RecordRetry(After(EMPTY, now, ops).0, job.id))
  {
    InFlightRuns(job, now);
    var ops := [Op.Inserted(job)] + ([StatusSet(job.id, InFlight)] + []);
    var (st, n) := After(EMPTY, now, ops);
    StoreParts(st, n);
    hide *;
    RetryKeepsCountsIff(st, job.id);
  }

  lemma EntryGone(db: Db, id: string, r: Row, previous: int)
    requires Fits(r.job.createdAt) && Fits(r.expiresAt) && Fits(previous) && r.key != "" && NulFree(r.key) && !Pending(r.status)
    ensures QueueIndexKey(r.key, r.job.createdAt, id) !in PutWithExpiry(db, id, r, previous)
  {
    hide JobKey, IdemKey, ExpKey, QueueIndexKey, ExpOf, EntryOf, JobOf, HashOf, Family, Fits, NulFree;
    Decodes();
  }

  /** The steps of a job that is queued and completes. */
  function Completes(job: Job): seq<Op> {
    [Op.Inserted(job)] + ([KeySet(job.id, "k")] + ([StatusSet(job.id, Completed)] + []))
  }

  function Keyed(job: Job, now: int): Store
    requires Storable(job, now)
  {
    SetQueueKey(One(job, now), job.id, "k")
  }

  lemma KeyedStore(job: Job, now: int)
    requires Storable(job, now)
    ensures StoreOk(One(job, now), now) && Ready(One(job, now).db) && Allowed(One(job, now), now, KeySet(job.id, "k"))
    ensures Apply(One(job, now), now, KeySet(job.id, "k")) == (Keyed(job, now), now) && StoreOk(Keyed(job, now), now)
    ensures Has(Keyed(job, now).db, job.id) && Get(Keyed(job, now).db, job.id) == InsertRow(job, now).(key := "k")
  {
    FirstInsert(job, now);
    var st := One(job, now);
    assert NulFree("k");
    StoreIsReady(st, now);
    OpKeeps(st, now, KeySet(job.id, "k"));
    hide One, PendingExpiresAt;
    SetQueueKeyEffect(st, job.id, "k", now);
    hide StoreOk, Fits, Ready, WellFormed, Rewrites, ExpMoved, EntryMoved, SetQueueKey;
  }

  lemma StatusSets(st: Store, now: int, id: string, s: Status)
    requires StoreOk(st, now) && CanUpdate(st, id, s, now)
    ensures Ready(st.db) && Allowed(st, now, StatusSet(id, s))
    ensures Apply(st, now, StatusSet(id, s)) == (UpdateStatus(st, id, s, now), now)
    ensures StoreOk(UpdateStatus(st, id, s, now), now)
  {
    OpKeeps(st, now, StatusSet(id, s));
    hide StoreOk, Ready, CanUpdate, UpdateStatus;
  }

  lemma CanComplete(st: Store, job: Job, now: int)
    requires Has(st.db, job.id) && Get(st.db, job.id) == InsertRow(job, now).(key := "k")
    requires Fits(job.createdAt) && Fits(PendingExpiresAt(job, now)) && Fits(now + COMPLETED_TTL)
    ensures CanUpdate(st, job.id, Completed, now)
  {
    hide Fits, PendingExpiresAt;
  }

  lemma CompletedStore(job: Job, now: int)
    requires Storable(job, now) && Fits(now + COMPLETED_TTL)
    ensures StoreOk(Keyed(job, now), now) && Ready(Keyed(job, now).db) && Allowed(Keyed(job, now), now, StatusSet(job.id, Completed))
    ensures var (t, n) := Apply(Keyed(job, now), now, StatusSet(job.id, Completed));
            && n == now && StoreOk(t, now) && Has(t.db, job.id) && Get(t.db, job.id).key == "k" && Get(t.db, job.id).job == job
            && QueueIndexKey("k", job.createdAt, job.id) !in t.db && Get(t.db, job.id).expiresAt == now + COMPLETED_TTL
  {
    assert Fits(job.createdAt) && Fits(PendingExpiresAt(job, now));
    var st := Keyed(job, now);
    var done := Updated(InsertRow(job, now).(key := "k"), Completed, now);
    assert done.key == "k" && done.job == job && done.expiresAt == now + COMPLETED_TTL;
    hide *;
    KeyedStore(job, now);
    CanComplete(st, job, now);
    StatusSets(st, now, job.id, Completed);
    CompletionEffect(st, job, now);
  }

  lemma CompletionEffect(st: Store, job: Job, now: int)
    requires StoreOk(st, now) && Has(st.db, job.id) && Get(st.db, job.id) == InsertRow(job, now).(key := "k")
    requires Fits(job.createdAt) && Fits(PendingExpiresAt(job, now)) && Fits(now + COMPLETED_TTL)
    ensures var t := UpdateStatus(st, job.id, Completed, now);
            && Has(t.db, job.id) && Get(t.db, job.id) == Updated(Get(st.db, job.id), Completed, now)
            && QueueIndexKey("k", job.createdAt, job.id) !in t.db
  {
    assert NulFree("k");
    var r := Get(st.db, job.id);
    hide PendingExpiresAt, StoreOk, Fits, WellFormed, Rewrites, ExpMoved, EntryMoved, PutWithExpiry, QueueIndexKey;
    EntryGone(st.db, job.id, Updated(r, Completed, now), r.expiresAt);
    UpdateStatusEffect(st, job.id, Completed, now);
  }

  lemma CompletesRuns(job: Job, now: int)
    requires Storable(job, now) && Fits(now + COMPLETED_TTL)
    ensures StoreOk(EMPTY, now) && IsRun(EMPTY, now, Completes(job))
    ensures var (t, n) := After(EMPTY, now, Completes(job));
            && n == now && StoreOk(t, now) && Has(t.db, job.id) && Get(t.db, job.id).key == "k" && Get(t.db, job.id).job == job
            && QueueIndexKey("k", job.createdAt, job.id) !in t.db && Get(t.db, job.id).expiresAt == now + COMPLETED_TTL
  {
    assert Completes(job) == [Op.Inserted(job)] + ([KeySet(job.id, "k")] + ([StatusSet(job.id, Completed)] + []));
    hide *;
    FirstInsert(job, now);
    KeyedStore(job, now);
    CompletedStore(job, now);
    var op := StatusSet(job.id, Completed);
    var (t, n) := Apply(Keyed(job, now), now, op);
    NoOps(t, n);
    Chain(Keyed(job, now), now, op, []);
    Chain(One(job, now), now, KeySet(job.id, "k"), [op] + []);
    Chain(EMPTY, now, Op.Inserted(job), [KeySet(job.id, "k")] + ([op] + []));
  }

  lemma NoOps(st: Store, now: int)
    requires StoreOk(st, now)
    ensures IsRun(st, now, []) && After(st, now, []) == (st, now)
  {
  }

  /** Putting that job back to queued leaves it out of the index. */
  lemma RevivedExample(job: Job, now: int)
    requires Storable(job, now) && Fits(now + COMPLETED_TTL)
    ensures StoreOk(EMPTY, now) && IsRun(EMPTY, now, Completes(job))
    ensures var st := After(EMPTY, now, Completes(job)).0;
            && Has(st.db, job.id) && Get(st.db, job.id).job == job && Get(st.db, job.id).expiresAt == now + COMPLETED_TTL
            && !IndexOk(UpdateStatus(st, job.id, Queued, now).db, now)
  {
    CompletesRuns(job, now);
    assert ExpiresAtFor(job, Queued, now) == PendingExpiresAt(job, now);
    hide Apply, After, IsRun, Keyed, PendingExpiresAt, StoreOk, IndexOk, UpdateStatus, Fits;
    RevivedWithoutEntry(After(EMPTY, now, Completes(job)).0, job.id, now);
  }
}
