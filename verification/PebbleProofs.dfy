/** Every operation of the Pebble store keeps its indexes and counts in step with the records. */
module PebbleProofs {
  import opened Basics
  import opened Jobs
  import opened Pages
  import opened StoreKeys
  import opened PebbleStore

  // ---- counting ----

  /** Records come and go one at a time: `id` is counted under `before` before and `after` after. */
  lemma CountsMove(st: Store, t: Store, id: string, before: Option<Status>, after: Option<Status>)
    requires CountsOk(st)
    requires forall x :: x != id ==> (Has(t.db, x) <==> Has(st.db, x))
    requires forall x :: x != id && Has(t.db, x) ==> Get(t.db, x).status == Get(st.db, x).status
    requires if Has(st.db, id) then before == Some(Get(st.db, id).status) else before == None
    requires if Has(t.db, id) then after == Some(Get(t.db, id).status) else after == None
    requires t.queued == st.queued - (if before == Some(Queued) then 1 else 0) + (if after == Some(Queued) then 1 else 0)
    requires t.inFlight == st.inFlight - (if before == Some(InFlight) then 1 else 0) + (if after == Some(InFlight) then 1 else 0)
    ensures CountsOk(t)
  {
    hide Has, Get;
    CountOne(st.db, t.db, id, Queued);
    CountOne(st.db, t.db, id, InFlight);
  }

  lemma CountOne(a: Db, b: Db, id: string, s: Status)
    requires forall x :: x != id ==> (Has(b, x) <==> Has(a, x))
    requires forall x :: x != id && Has(b, x) ==> Get(b, x).status == Get(a, x).status
    ensures |WithStatus(b, s)| == |WithStatus(a, s)| - (if id in WithStatus(a, s) then 1 else 0)
                                  + (if id in WithStatus(b, s) then 1 else 0)
    ensures id in WithStatus(a, s) <==> Has(a, id) && Get(a, id).status == s
    ensures id in WithStatus(b, s) <==> Has(b, id) && Get(b, id).status == s
  {
    hide Has, Get, RecordIds;
    var x, y := WithStatus(a, s), WithStatus(b, s);
    forall k | k != id ensures k in x <==> k in y {}
    SizesMove(x, y, id);
  }

  lemma SizesMove<T>(x: set<T>, y: set<T>, id: T)
    requires forall k :: k != id ==> (k in x <==> k in y)
    ensures |y| == |x| - (if id in x then 1 else 0) + (if id in y then 1 else 0)
  {
    assert x - {id} == y - {id};
    OneLess(x, id);
    OneLess(y, id);
  }

  lemma OneLess<T>(x: set<T>, id: T)
    ensures |x - {id}| == |x| - (if id in x then 1 else 0)
  {
    if id !in x { assert x - {id} == x; }
  }

  // ---- insert ----

  /** Ids are 128 random bits: none is used twice. */
  ghost predicate Unused(db: Db, id: string) {
    && JobKey(id) !in db
    && (forall e :: Fits(e) ==> ExpKey(e, id) !in db)
    && (forall q, c :: NulFree(q) && Fits(c) ==> QueueIndexKey(q, c, id) !in db)
  }

  ghost predicate CanInsert(st: Store, job: Job, now: int) {
    Unused(st.db, job.id) && job.id != "" && Fits(job.createdAt) && Fits(PendingExpiresAt(job, now))
  }

  lemma InsertKeeps(st: Store, job: Job, now: int)
    requires StoreOk(st, now) && CanInsert(st, job, now)
    ensures StoreOk(CheckOrInsert(st, job, now).0, now)
  {
    hide PendingExpiresAt, Fits, Unused, WellFormed, IdemOk, ExpOk, IndexOk, EntriesOk, CountsOk, Inserted;
    if IdemKey(job.hash) !in st.db {
      var t := CheckOrInsert(st, job, now).0;
      InsertEffect(st.db, job, now);
      InsertIdem(st.db, t.db, job, now);
      InsertExp(st.db, t.db, job, now);
      InsertIndex(st.db, t.db, job, now);
      InsertCounts(st, job, now);
    }
  }

  /** A new record, its idem: and its exp: key; nothing else. */
  ghost predicate Inserted(a: Db, b: Db, job: Job, now: int) {
    && Fits(PendingExpiresAt(job, now))
    && !Has(a, job.id) && Has(b, job.id) && Get(b, job.id) == InsertRow(job, now)
    && (forall x :: x != job.id ==> (Has(b, x) <==> Has(a, x)))
    && (forall x :: x != job.id && Has(a, x) ==> Get(b, x) == Get(a, x))
    && (forall h :: IdemKey(h) in b <==> h == job.hash || IdemKey(h) in a)
    && b[IdemKey(job.hash)] == Ref(job.id)
    && (forall h :: h != job.hash && IdemKey(h) in a ==> b[IdemKey(h)] == a[IdemKey(h)])
    && (forall e, x :: Fits(e) ==> (ExpKey(e, x) in b <==> (e == PendingExpiresAt(job, now) && x == job.id) || ExpKey(e, x) in a))
    && (forall e :: Fits(e) ==> ExpKey(e, job.id) !in a)
    && (forall q, c, x :: NulFree(q) && Fits(c) ==> (QueueIndexKey(q, c, x) in b <==> QueueIndexKey(q, c, x) in a))
    && (forall q, c :: NulFree(q) && Fits(c) ==> QueueIndexKey(q, c, job.id) !in a)
  }

  function InsertDb(db: Db, job: Job, now: int): Db
    requires Fits(PendingExpiresAt(job, now))
  {
    db[JobKey(job.id) := Rec(InsertRow(job, now))][IdemKey(job.hash) := Ref(job.id)][ExpKey(PendingExpiresAt(job, now), job.id) := Mark]
  }

  lemma InsertEffect(db: Db, job: Job, now: int)
    requires WellFormed(db) && Unused(db, job.id) && job.id != "" && Fits(job.createdAt) && Fits(PendingExpiresAt(job, now))
    ensures Inserted(db, InsertDb(db, job, now), job, now) && WellFormed(InsertDb(db, job, now))
  {
    hide InsertDb, JobKey, IdemKey, ExpKey, QueueIndexKey, Fits, PendingExpiresAt, NulFree, WellFormed, Has, Get, InsertRow;
    InsertForm(db, job, now);
    InsertRecords(db, job, now);
    InsertHashes(db, job, now);
    InsertTimes(db, job, now);
  }

  lemma InsertForm(db: Db, job: Job, now: int)
    requires WellFormed(db) && job.id != "" && Fits(job.createdAt) && Fits(PendingExpiresAt(job, now))
    ensures WellFormed(InsertDb(db, job, now))
  {
    assert RowFits(InsertRow(job, now), job.id) by { NothingIsNul(); }
    hide JobKey, IdemKey, ExpKey, QueueIndexKey, ExpOf, EntryOf, JobOf, HashOf, Family, Fits, PendingExpiresAt, NulFree, InsertRow, RowFits;
    Decodes();
  }

  lemma InsertRecords(db: Db, job: Job, now: int)
    requires JobKey(job.id) !in db && Fits(PendingExpiresAt(job, now))
    ensures var b := InsertDb(db, job, now);
            && !Has(db, job.id) && Has(b, job.id) && Get(b, job.id) == InsertRow(job, now)
            && (forall x :: x != job.id ==> (Has(b, x) <==> Has(db, x)))
            && (forall x :: x != job.id && Has(db, x) ==> Get(b, x) == Get(db, x))
  {
    hide JobKey, IdemKey, ExpKey, QueueIndexKey, ExpOf, EntryOf, JobOf, HashOf, Family, Fits, PendingExpiresAt, NulFree, InsertRow;
    Decodes();
  }

  lemma InsertHashes(db: Db, job: Job, now: int)
    requires Fits(PendingExpiresAt(job, now))
    ensures var b := InsertDb(db, job, now);
            && (forall h :: IdemKey(h) in b <==> h == job.hash || IdemKey(h) in db)
            && IdemKey(job.hash) in b && b[IdemKey(job.hash)] == Ref(job.id)
            && (forall h :: h != job.hash && IdemKey(h) in db ==> b[IdemKey(h)] == db[IdemKey(h)])
  {
    hide JobKey, IdemKey, ExpKey, QueueIndexKey, ExpOf, EntryOf, JobOf, HashOf, Family, Fits, PendingExpiresAt, NulFree, InsertRow;
    Decodes();
  }

  lemma InsertTimes(db: Db, job: Job, now: int)
    requires Fits(PendingExpiresAt(job, now))
    ensures var b := InsertDb(db, job, now);
            && (forall e, x :: Fits(e) ==> (ExpKey(e, x) in b <==> (e == PendingExpiresAt(job, now) && x == job.id) || ExpKey(e, x) in db))
            && (forall q, c, x :: NulFree(q) && Fits(c) ==> (QueueIndexKey(q, c, x) in b <==> QueueIndexKey(q, c, x) in db))
  {
    hide JobKey, IdemKey, ExpKey, QueueIndexKey, ExpOf, EntryOf, JobOf, HashOf, Family, Fits, PendingExpiresAt, NulFree, InsertRow;
    Decodes();
  }

  lemma NothingIsNul()
    ensures NulFree("")
  {
  }

  lemma InsertIdem(a: Db, b: Db, job: Job, now: int)
    requires IdemOk(a) && Inserted(a, b, job, now) && IdemKey(job.hash) !in a
    ensures IdemOk(b)
  {
    hide Has, Get, Fits, NulFree, PendingExpiresAt, IdemKey, ExpKey, QueueIndexKey;
  }

  lemma InsertExp(a: Db, b: Db, job: Job, now: int)
    requires ExpOk(a) && Inserted(a, b, job, now)
    ensures ExpOk(b)
  {
    hide Has, Get, Fits, NulFree, PendingExpiresAt, IdemKey, ExpKey, QueueIndexKey;
  }

  lemma InsertIndex(a: Db, b: Db, job: Job, now: int)
    requires WellFormed(a) && IndexOk(a, now) && EntriesOk(a) && Inserted(a, b, job, now)
    ensures IndexOk(b, now) && EntriesOk(b)
  {
    KeysNulFree(a);
    hide Has, Get, Fits, NulFree, PendingExpiresAt, IdemKey, ExpKey, QueueIndexKey, WellFormed;
  }

  lemma InsertCounts(st: Store, job: Job, now: int)
    requires CountsOk(st) && Fits(PendingExpiresAt(job, now)) && Inserted(st.db, InsertDb(st.db, job, now), job, now)
    ensures CountsOk(CountStatus(st.(db := InsertDb(st.db, job, now)), Queued, 1))
  {
    hide CountsOk, Fits, InsertDb, Has, Get, NulFree, IdemKey, ExpKey, QueueIndexKey;
    CountsMove(st, CountStatus(st.(db := InsertDb(st.db, job, now)), Queued, 1), job.id, None, Some(Queued));
  }

  // ---- rewriting one record ----

  /** Only keys of job `id` changed, and it still has its record, hash and creation time. */
  ghost predicate Rewrites(a: Db, b: Db, id: string) {
    && Has(a, id) && Has(b, id) && Get(b, id).job == Get(a, id).job
    && (forall x :: x != id ==> (Has(b, x) <==> Has(a, x)))
    && (forall x :: x != id && Has(a, x) ==> Has(b, x) && Get(b, x) == Get(a, x))
    && (forall h :: IdemKey(h) in b <==> IdemKey(h) in a)
    && (forall h :: IdemKey(h) in b ==> b[IdemKey(h)] == a[IdemKey(h)])
    && (forall e, x :: Fits(e) && x != id ==> (ExpKey(e, x) in b <==> ExpKey(e, x) in a))
    && (forall q, c, x :: NulFree(q) && Fits(c) && x != id ==> (QueueIndexKey(q, c, x) in b <==> QueueIndexKey(q, c, x) in a))
  }

  /** Its one exp: key is at its new expiry. */
  ghost predicate ExpMoved(b: Db, id: string)
    requires Has(b, id)
  {
    forall e :: Fits(e) ==> (ExpKey(e, id) in b <==> e == Get(b, id).expiresAt)
  }

  /** Its entries carry its creation time, and the one it needs is there. */
  ghost predicate EntryMoved(b: Db, id: string, now: int)
    requires Has(b, id)
  {
    && (forall q, c :: NulFree(q) && Fits(c) && QueueIndexKey(q, c, id) in b ==> c == Get(b, id).job.createdAt)
    && (Pending(Get(b, id).status) && Get(b, id).key != "" && now < Get(b, id).expiresAt ==>
          Fits(Get(b, id).job.createdAt) && QueueIndexKey(Get(b, id).key, Get(b, id).job.createdAt, id) in b)
  }

  lemma RewriteKeeps(st: Store, t: Store, id: string, now: int)
    requires StoreOk(st, now) && WellFormed(t.db) && Rewrites(st.db, t.db, id)
    requires Fits(Get(t.db, id).expiresAt) && ExpMoved(t.db, id) && EntryMoved(t.db, id, now)
    requires t.queued == st.queued - (if Get(st.db, id).status == Queued then 1 else 0) + (if Get(t.db, id).status == Queued then 1 else 0)
    requires t.inFlight == st.inFlight - (if Get(st.db, id).status == InFlight then 1 else 0) + (if Get(t.db, id).status == InFlight then 1 else 0)
    ensures StoreOk(t, now)
  {
    KeysNulFree(t.db);
    hide WellFormed, IdemOk, ExpOk, IndexOk, EntriesOk, CountsOk, Has, Get, Fits, NulFree;
    CountsMove(st, t, id, Some(Get(st.db, id).status), Some(Get(t.db, id).status));
    RewriteIdem(st.db, t.db, id);
    RewriteExp(st.db, t.db, id);
    RewriteIndex(st.db, t.db, id, now);
  }

  lemma RewriteIdem(a: Db, b: Db, id: string)
    requires IdemOk(a) && Rewrites(a, b, id)
    ensures IdemOk(b)
  {
    hide Has, Get, Fits, NulFree;
  }

  lemma RewriteExp(a: Db, b: Db, id: string)
    requires ExpOk(a) && Rewrites(a, b, id) && Fits(Get(b, id).expiresAt) && ExpMoved(b, id)
    ensures ExpOk(b)
  {
    hide Has, Get, Fits, NulFree;
  }

  lemma RewriteIndex(a: Db, b: Db, id: string, now: int)
    requires IndexOk(a, now) && EntriesOk(a) && Rewrites(a, b, id) && EntryMoved(b, id, now)
    requires forall x :: Has(b, x) ==> NulFree(Get(b, x).key)
    ensures IndexOk(b, now) && EntriesOk(b)
  {
    hide Has, Get, Fits, NulFree;
  }

  // ---- queue keys ----

  lemma SetQueueKeyKeeps(st: Store, id: string, key: string, now: int)
    requires StoreOk(st, now) && key != "" && NulFree(key)
    requires Has(st.db, id) ==> Fits(Get(st.db, id).job.createdAt)
    ensures StoreOk(SetQueueKey(st, id, key), now)
  {
    hide StoreOk, SetQueueKey, Rewrites, ExpMoved, EntryMoved, WellFormed, Fits, NulFree;
    if Has(st.db, id) {
      SetQueueKeyEffect(st, id, key, now);
      RewriteKeeps(st, SetQueueKey(st, id, key), id, now);
    } else {
      assert SetQueueKey(st, id, key) == st by { NoRecordNoKey(st, id, key); }
    }
  }

  lemma NoRecordNoKey(st: Store, id: string, key: string)
    requires !Has(st.db, id)
    ensures SetQueueKey(st, id, key) == st
  {
  }

  lemma SetQueueKeyEffect(st: Store, id: string, key: string, now: int)
    requires StoreOk(st, now) && key != "" && NulFree(key) && Has(st.db, id) && Fits(Get(st.db, id).job.createdAt)
    ensures var t := SetQueueKey(st, id, key);
            && WellFormed(t.db) && Rewrites(st.db, t.db, id)
            && Get(t.db, id) == Get(st.db, id).(key := key) && t.queued == st.queued && t.inFlight == st.inFlight
            && Fits(Get(t.db, id).expiresAt) && ExpMoved(t.db, id) && EntryMoved(t.db, id, now)
  {
    KeysNulFree(st.db);
    hide WellFormed, IdemOk, ExpOk, IndexOk, EntriesOk, CountsOk, Fits, NulFree, Rewrites, ExpMoved, EntryMoved, SetQueueKey;
    SetKeyForm(st, id, key);
    SetKeyRewrites(st, id, key);
    SetKeyExp(st, id, key);
    SetKeyEntry(st, id, key, now);
  }

  lemma SetKeyForm(st: Store, id: string, key: string)
    requires WellFormed(st.db) && NulFree(key) && Has(st.db, id) && Fits(Get(st.db, id).job.createdAt)
    ensures WellFormed(SetQueueKey(st, id, key).db)
  {
    hide JobKey, IdemKey, ExpKey, QueueIndexKey, ExpOf, EntryOf, JobOf, HashOf, Family, Fits, NulFree;
    Decodes();
    assert JobKey(id) in st.db;
  }

  lemma SetKeyRewrites(st: Store, id: string, key: string)
    requires NulFree(key) && Has(st.db, id) && Fits(Get(st.db, id).job.createdAt) && NulFree(Get(st.db, id).key)
    ensures var t := SetQueueKey(st, id, key);
            && Rewrites(st.db, t.db, id) && Has(t.db, id)
            && Get(t.db, id) == Get(st.db, id).(key := key) && t.queued == st.queued && t.inFlight == st.inFlight
  {
    hide JobKey, IdemKey, ExpKey, QueueIndexKey, ExpOf, EntryOf, JobOf, HashOf, Family, Fits, NulFree;
    Decodes();
  }

  lemma SetKeyExp(st: Store, id: string, key: string)
    requires ExpOk(st.db) && NulFree(key) && Has(st.db, id) && Fits(Get(st.db, id).job.createdAt) && NulFree(Get(st.db, id).key)
    requires var t := SetQueueKey(st, id, key); Has(t.db, id) && Get(t.db, id) == Get(st.db, id).(key := key)
    ensures ExpMoved(SetQueueKey(st, id, key).db, id)
  {
    hide JobKey, IdemKey, ExpKey, QueueIndexKey, ExpOf, EntryOf, JobOf, HashOf, Family, Fits, NulFree, Has, Get;
    Decodes();
  }

  lemma SetKeyEntry(st: Store, id: string, key: string, now: int)
    requires EntriesOk(st.db) && NulFree(key) && Has(st.db, id) && Fits(Get(st.db, id).job.createdAt) && NulFree(Get(st.db, id).key)
    requires var t := SetQueueKey(st, id, key); Has(t.db, id) && Get(t.db, id) == Get(st.db, id).(key := key)
    ensures EntryMoved(SetQueueKey(st, id, key).db, id, now)
  {
    hide JobKey, IdemKey, ExpKey, QueueIndexKey, ExpOf, EntryOf, JobOf, HashOf, Family, Fits, NulFree, Has, Get;
    Decodes();
  }

  // ---- statuses ----

  /**
   * Terminal statuses are final: a record goes back to a pending status only from one, and only while it
   * has not expired (RevivedWithoutEntry says what happens otherwise).
   */
  predicate CanUpdate(st: Store, id: string, s: Status, now: int) {
    Has(st.db, id) ==>
      && Fits(Get(st.db, id).job.createdAt) && Fits(Get(st.db, id).expiresAt)
      && Fits(ExpiresAtFor(Get(st.db, id).job, s, now))
      && (Pending(s) ==> Pending(Get(st.db, id).status) && now < Get(st.db, id).expiresAt)
  }

  lemma UpdateStatusKeeps(st: Store, id: string, s: Status, now: int)
    requires StoreOk(st, now) && CanUpdate(st, id, s, now)
    ensures StoreOk(UpdateStatus(st, id, s, now), now)
  {
    hide StoreOk, Rewrites, ExpMoved, EntryMoved, WellFormed, Fits, NulFree, PutWithExpiry, ExpiresAtFor;
    if Has(st.db, id) {
      UpdateStatusEffect(st, id, s, now);
      RewriteKeeps(st, UpdateStatus(st, id, s, now), id, now);
    }
  }

  lemma UpdateStatusEffect(st: Store, id: string, s: Status, now: int)
    requires StoreOk(st, now) && Has(st.db, id) && CanUpdate(st, id, s, now)
    ensures var t := UpdateStatus(st, id, s, now);
            && WellFormed(t.db) && Rewrites(st.db, t.db, id)
            && Get(t.db, id) == Updated(Get(st.db, id), s, now)
            && ExpMoved(t.db, id) && EntryMoved(t.db, id, now)
  {
    hide Rewrites, ExpMoved, EntryMoved, WellFormed, Fits, NulFree, PutWithExpiry, CountsOk, IdemOk, ExpOk, IndexOk, EntriesOk;
    hide ExpiresAtFor, RowFits;
    assert RowFits(Get(st.db, id), id) by { KeysNulFree(st.db); }
    assert RowFits(Updated(Get(st.db, id), s, now), id) by { UpdatedFits(Get(st.db, id), id, s, now); }
    PutForm(st.db, id, Updated(Get(st.db, id), s, now), Get(st.db, id).expiresAt);
    PutRewrites(st.db, id, Updated(Get(st.db, id), s, now), Get(st.db, id).expiresAt);
    PutExp(st.db, id, Updated(Get(st.db, id), s, now), Get(st.db, id).expiresAt);
    PutEntry(st.db, id, Updated(Get(st.db, id), s, now), Get(st.db, id).expiresAt, now);
  }

  lemma UpdatedFits(r: Row, id: string, s: Status, now: int)
    requires RowFits(r, id) && Fits(ExpiresAtFor(r.job, s, now))
    ensures RowFits(Updated(r, s, now), id)
  {
  }

  lemma PutForm(db: Db, id: string, r: Row, previous: int)
    requires WellFormed(db) && Has(db, id) && RowFits(r, id) && Fits(previous)
    ensures WellFormed(PutWithExpiry(db, id, r, previous))
  {
    hide JobKey, IdemKey, ExpKey, QueueIndexKey, ExpOf, EntryOf, JobOf, HashOf, Family, Fits, NulFree;
    Decodes();
  }

  lemma PutRewrites(db: Db, id: string, r: Row, previous: int)
    requires Has(db, id) && RowFits(r, id) && Fits(previous) && Get(db, id).job == r.job
    ensures Rewrites(db, PutWithExpiry(db, id, r, previous), id)
    ensures Has(PutWithExpiry(db, id, r, previous), id) && Get(PutWithExpiry(db, id, r, previous), id) == r
  {
    hide JobKey, IdemKey, ExpKey, QueueIndexKey, ExpOf, EntryOf, JobOf, HashOf, Family, Fits, NulFree;
    Decodes();
  }

  lemma PutExp(db: Db, id: string, r: Row, previous: int)
    requires ExpOk(db) && Has(db, id) && RowFits(r, id) && Fits(previous) && previous == Get(db, id).expiresAt
    requires Has(PutWithExpiry(db, id, r, previous), id) && Get(PutWithExpiry(db, id, r, previous), id) == r
    ensures ExpMoved(PutWithExpiry(db, id, r, previous), id)
  {
    hide JobKey, IdemKey, ExpKey, QueueIndexKey, ExpOf, EntryOf, JobOf, HashOf, Family, Fits, NulFree, Has, Get;
    Decodes();
  }

  lemma PutEntry(db: Db, id: string, r: Row, previous: int, now: int)
    requires IndexOk(db, now) && EntriesOk(db) && Has(db, id) && RowFits(r, id) && Fits(previous)
    requires Get(db, id).job == r.job && Get(db, id).key == r.key
    requires Pending(r.status) ==> Pending(Get(db, id).status) && now < Get(db, id).expiresAt
    requires Has(PutWithExpiry(db, id, r, previous), id) && Get(PutWithExpiry(db, id, r, previous), id) == r
    ensures EntryMoved(PutWithExpiry(db, id, r, previous), id, now)
  {
    hide JobKey, IdemKey, ExpKey, QueueIndexKey, ExpOf, EntryOf, JobOf, HashOf, Family, Fits, NulFree, Has, Get;
    Decodes();
  }

  lemma RecordRetryKeeps(st: Store, id: string, now: int)
    requires StoreOk(st, now) && (Has(st.db, id) ==> Get(st.db, id).status == Queued)
    ensures StoreOk(RecordRetry(st, id), now)
  {
    hide StoreOk;
    if Has(st.db, id) {
      assert RecordRetry(st, id) == st;
    }
  }

  // ---- deletion ----

  /** The records `gone` are deleted, with their idem: keys; nothing else that matters is. */
  ghost predicate Deletes(a: Db, b: Db, gone: set<string>) {
    && (forall x :: Has(b, x) <==> Has(a, x) && x !in gone)
    && (forall x :: Has(b, x) ==> Get(b, x) == Get(a, x))
    && (forall h :: IdemKey(h) in b <==> IdemKey(h) in a && !(a[IdemKey(h)].Ref? && a[IdemKey(h)].id in gone))
    && (forall h :: IdemKey(h) in b ==> b[IdemKey(h)] == a[IdemKey(h)])
    && (forall e, x :: Fits(e) && ExpKey(e, x) in b ==> ExpKey(e, x) in a)
    && (forall e, x :: Fits(e) && ExpKey(e, x) in a && Has(b, x) ==> ExpKey(e, x) in b)
    && (forall q, c, x :: NulFree(q) && Fits(c) && QueueIndexKey(q, c, x) in b ==> QueueIndexKey(q, c, x) in a)
    && (forall q, c, x :: NulFree(q) && Fits(c) && QueueIndexKey(q, c, x) in a && Has(b, x) ==> QueueIndexKey(q, c, x) in b)
  }

  lemma DeletesKeeps(st: Store, t: Store, gone: set<string>, now: int)
    requires StoreOk(st, now) && WellFormed(t.db) && Deletes(st.db, t.db, gone) && CountsOk(t)
    ensures StoreOk(t, now)
  {
    hide CountsOk, Has, Get, Fits;
    assert forall x :: Has(t.db, x) ==> NulFree(Get(t.db, x).key) by { KeysNulFree(t.db); }
    hide WellFormed, NulFree;
    assert IdemOk(t.db) by { hide ExpOk, IndexOk, EntriesOk; }
    assert ExpOk(t.db) by { hide IdemOk, IndexOk, EntriesOk; }
    assert IndexOk(t.db, now) && EntriesOk(t.db) by { hide IdemOk, ExpOk; }
  }

  lemma KeysNulFree(db: Db)
    requires WellFormed(db)
    ensures forall x :: Has(db, x) ==> NulFree(Get(db, x).key) && RowFits(Get(db, x), x)
  {
    hide JobKey, IdemKey, ExpKey, QueueIndexKey, ExpOf, EntryOf, JobOf, HashOf, Family, Fits, NulFree;
    Decodes();
  }

  lemma DeleteJobKeeps(st: Store, id: string, now: int)
    requires StoreOk(st, now)
    requires Has(st.db, id) ==> Fits(Get(st.db, id).job.createdAt)
    ensures StoreOk(DeleteJob(st, id), now)
  {
    hide StoreOk, Deletes, Fits, KeysOf;
    var t := DeleteJob(st, id);
    DeleteJobEffect(st, id, now);
    assert CountsOk(st) by { StoreCounts(st, now); }
    hide WellFormed, Has, Get, CountsOk;
    if Has(st.db, id) {
      CountsMove(st, t, id, Some(Get(st.db, id).status), None);
    } else {
      CountsMove(st, t, id, None, None);
    }
    DeletesKeeps(st, t, {id}, now);
  }

  lemma StoreCounts(st: Store, now: int)
    requires StoreOk(st, now)
    ensures CountsOk(st)
  {
  }

  lemma DeleteJobEffect(st: Store, id: string, now: int)
    requires StoreOk(st, now)
    requires Has(st.db, id) ==> Fits(Get(st.db, id).job.createdAt)
    ensures var t := DeleteJob(st, id);
            && WellFormed(t.db) && Deletes(st.db, t.db, {id})
            && (forall x :: x != id ==> (Has(t.db, x) <==> Has(st.db, x)))
            && (forall x :: x != id && Has(t.db, x) ==> Get(t.db, x).status == Get(st.db, x).status)
            && !Has(t.db, id)
  {
    hide StoreOk, Fits, NulFree, WellFormed, KeysOf;
    var t := DeleteJob(st, id);
    var ks := if Has(st.db, id) then KeysOf(st.db, id) else {JobKey(id)};
    assert t.db == st.db - ks;
    assert WellFormed(st.db) && IdemOk(st.db) by { StoreForm(st, now); }
    SubForm(st.db, ks);
    DeleteFamilies(st.db, id);
  }

  lemma StoreForm(st: Store, now: int)
    requires StoreOk(st, now)
    ensures WellFormed(st.db) && IdemOk(st.db)
  {
  }

  lemma SubForm(db: Db, ks: set<string>)
    requires WellFormed(db)
    ensures WellFormed(db - ks)
  {
    hide JobKey, IdemKey, ExpKey, QueueIndexKey, ExpOf, EntryOf, JobOf, HashOf, Family, Fits, NulFree, RowFits;
    forall k | k in db - ks ensures k in db && (db - ks)[k] == db[k] {}
  }

  /** Which keys of each family go. */
  lemma KeysGone(db: Db, id: string, ks: set<string>)
    requires ks == if Has(db, id) && Fits(Get(db, id).job.createdAt) then KeysOf(db, id) else {JobKey(id)}
    requires Has(db, id) ==> NulFree(Get(db, id).key)
    ensures forall x :: JobKey(x) in ks <==> x == id
    ensures forall h :: IdemKey(h) in ks ==> Has(db, id) && h == Get(db, id).job.hash
    ensures Has(db, id) && Fits(Get(db, id).job.createdAt) ==> IdemKey(Get(db, id).job.hash) in ks
    ensures forall e, x :: Fits(e) ==> ExpKey(e, x) !in ks
    ensures forall q, c, x :: NulFree(q) && Fits(c) && QueueIndexKey(q, c, x) in ks ==> x == id
  {
    hide JobKey, IdemKey, ExpKey, QueueIndexKey, ExpOf, EntryOf, JobOf, HashOf, Family, Fits, NulFree, Has, Get;
    Decodes();
  }

  lemma DeleteFamilies(db: Db, id: string)
    requires WellFormed(db) && IdemOk(db) && (Has(db, id) ==> Fits(Get(db, id).job.createdAt))
    ensures var b := db - (if Has(db, id) then KeysOf(db, id) else {JobKey(id)});
            Deletes(db, b, {id}) && !Has(b, id)
  {
    KeysNulFree(db);
    var ks := if Has(db, id) then KeysOf(db, id) else {JobKey(id)};
    KeysGone(db, id, ks);
    hide JobKey, IdemKey, ExpKey, QueueIndexKey, Fits, NulFree, WellFormed, KeysOf;
  }
}
