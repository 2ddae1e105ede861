/** The store as the object whose database and counts every call updates, and its two iterating calls. */
module Pebbles {
  import opened Basics
  import opened Jobs
  import opened Pages
  import opened StoreKeys
  import opened PebbleStore
  import opened PebbleProofs
  import opened PebbleCleanup
  import opened PebblePages
  import opened PebbleTable
  import Lex

  const STALE_FLUSH := 1000
  const EXPIRE_BATCH := 512

  class Pebble {
    var db: Db
    var queued: int
    var inFlight: int

    ghost function View(): Store
      reads this
    {
      Store(db, queued, inFlight)
    }

    constructor ()
      ensures View() == EMPTY
    {
      db, queued, inFlight := map[], 0, 0;
    }

    /**
     * Walks the queue's index and reads the record behind each entry. An entry no live record of this queue
     * stands behind is removed, in batches.
     */
    method QueuedPage(key: string, after: Cursor, before: int, limit: nat, now: int) returns (found: seq<Job>)
      requires StoreOk(View(), now) && NulFree(key) && CursorFits(after, before)
      modifies this
      ensures StoreOk(View(), now) && Records(db) == Records(old(db))
      ensures DropsStale(old(db), db, now) && queued == old(queued) && inFlight == old(inFlight)
      ensures WellKeyed(Indexed(old(db))) && found == Page(Indexed(old(db)), key, after, before, limit, now)
      ensures WellKeyed(Records(old(db)))
      ensures key != "" ==> found == Page(Records(old(db)), key, after, before, limit, now)
                            && IsSelection(Records(old(db)), key, after, before, limit, now, found)
    {
      hide StoreOk, WellFormed, IdemOk, ExpOk, IndexOk, EntriesOk, CountsOk, Records, RecordIds, Indexed, Has, Get, Good;
      hide QueueIndexKey, Fits, NulFree, PageKeys, FoundSoFar, Midway, DropsStale, Visited, CursorFits, Lex.InOrder;
      hide Page, Listing, Matching, Sorted, Take, WellKeyed, IsSelection;
      ghost var was := View();
      StoreParts(was, now);
      var keys := Lex.InOrder(PageKeys(db, key, after, before));
      Visits(db, key, after, before, keys);
      found := [];
      var stale: set<string> := {};
      var i := 0;
      Begin(db, key, now, keys);
      while i < |keys| && |found| < limit
        invariant i <= |keys| && |found| <= limit && View() == was.(db := db)
        invariant FoundSoFar(was.db, key, now, keys, i, found)
        invariant Midway(was.db, db, stale, now)
      {
        var k := keys[i];
        Visit(was.db, db, stale, key, after, before, now, keys, i, found);
        var id := k[IdAt(key)..];
        if Good(db, key, id, now) {
          GoodHas(db, key, id, now);
          found := found + [Get(db, id).job];
        } else {
          stale := stale + {k};
        }
        i := i + 1;
        if |stale| >= STALE_FLUSH {
          Flush(was.db, db, stale, now);
          db := db - stale;
          stale := {};
        }
      }
      Flush(was.db, db, stale, now);
      db := db - stale;
      FoundIsPage(was.db, key, after, before, limit, now, keys, i, found);
      Finish(was, View(), now);
      RecordsKeyed(was.db);
      if key != "" {
        IndexedPageIsPage(was.db, key, after, before, limit, now);
        PageIsSelection(Records(was.db), key, after, before, limit, now);
      }
    }

    /**
     * pageAll on the index: reading pages until a short one visits every indexed job of the queue exactly once, in
     * order, whatever the page size and however many stale entries go on the way.
     */
    method PageThrough(key: string, start: Cursor, size: nat, now: int) returns (seen: seq<Job>)
      requires StoreOk(View(), now) && NulFree(key) && CursorFits(start, 0) && size > 0
      modifies this
      ensures StoreOk(View(), now) && Records(db) == Records(old(db))
      ensures WellKeyed(Indexed(old(db))) && seen == Listing(Indexed(old(db)), key, start, now)
      ensures WellKeyed(Records(old(db))) && (key != "" ==> seen == Listing(Records(old(db)), key, start, now))
    {
      hide StoreOk, WellFormed, IdemOk, ExpOk, IndexOk, EntriesOk, CountsOk, Records, RecordIds, Indexed, Has, Get, Good;
      hide QueueIndexKey, Fits, NulFree, PageKeys, FoundSoFar, Midway, DropsStale, Visited, CursorFits, Lex.InOrder;
      hide Page, Listing, Matching, Sorted, Take, WellKeyed;
      ghost var was := db;
      StoreParts(View(), now);
      IndexedKeyed(was);
      RecordsKeyed(was);
      SameStore(was, now);
      seen := [];
      var after := start;
      while true
        invariant StoreOk(View(), now) && CursorFits(after, 0) && Records(db) == Records(was) && DropsStale(was, db, now)
        invariant Listing(Indexed(was), key, start, now) == seen + Listing(Indexed(was), key, after, now)
        decreases |Listing(Indexed(was), key, after, now)|
      {
        ghost var mid := db;
        StoreParts(View(), now);
        IndexedKeyed(mid);
        SamePages(was, mid, key, after, size, now);
        var page := QueuedPage(key, after, 0, size, now);
        DropsStaleTwice(was, mid, db, now);
        PageThenListing(Indexed(was), key, after, size, now);
        seen := seen + page;
        if |page| < size {
          break;
        }
        PageCursorFits(was, key, after, size, now);
        after := CursorAt(page[|page| - 1]);
      }
      if key != "" {
        IndexedListingIsAll(was, key, start, now);
      }
    }

    /** In a sound store the answer is the stored job of that hash; with none, the job's record is added. */
    method CheckAndInsert(job: Job, now: int) returns (existing: Option<string>)
      requires Fits(PendingExpiresAt(job, now))
      modifies this
      ensures (View(), existing) == CheckOrInsert(old(View()), job, now)
      ensures StoreOk(old(View()), now) ==>
                var rows := Records(old(db));
                if existing.Some?
                then View() == old(View()) && existing.value in rows && rows[existing.value].job.hash == job.hash
                else (forall id <- rows :: rows[id].job.hash != job.hash)
                     && Records(db) == rows[job.id := Row(job, "", Queued, NewExpiry(job, now))]
    {
      ghost var was := View();
      if StoreOk(was, now) {
        InsertAnswers(was, job, now);
      }
      hide StoreOk, Records, PendingExpiresAt, Fits, NewExpiry;
      var ik := IdemKey(job.hash);
      if ik in db {
        return Some(if db[ik].Ref? then db[ik].id else "");
      }
      var row := InsertRow(job, now);
      db := db[JobKey(job.id) := Rec(row)][ik := Ref(job.id)][ExpKey(row.expiresAt, job.id) := Mark];
      queued := queued + 1;
      return None;
    }

    method MoveToQueue(id: string, key: string)
      requires Has(db, id) ==> Fits(Get(db, id).job.createdAt)
      modifies this
      ensures View() == SetQueueKey(old(View()), id, key)
    {
      if !Has(db, id) {
        return;
      }
      var row := Get(db, id);
      var previous := row.key;
      var batch := db[JobKey(id) := Rec(row.(key := key))];
      if previous != "" && previous != key {
        batch := batch - {QueueIndexKey(previous, row.job.createdAt, id)};
      }
      if Pending(row.status) {
        batch := batch[QueueIndexKey(key, row.job.createdAt, id) := Mark];
      }
      db := batch;
    }

    method Count(s: Status, delta: int)
      modifies this
      ensures View() == CountStatus(old(View()), s, delta)
    {
      match s {
        case Queued => queued := queued + delta;
        case InFlight => inFlight := inFlight + delta;
        case _ =>
      }
    }

    method ChangeStatus(id: string, s: Status, now: int)
      requires Has(db, id) ==> && Fits(Get(db, id).job.createdAt) && Fits(Get(db, id).expiresAt)
                               && Fits(ExpiresAtFor(Get(db, id).job, s, now))
      modifies this
      ensures View() == UpdateStatus(old(View()), id, s, now)
    {
      hide ExpiresAtFor, Fits;
      if !Has(db, id) {
        return;
      }
      var row := Get(db, id);
      if row.status != s {
        Count(row.status, -1);
        Count(s, 1);
      }
      var changed := row.(status := s, expiresAt := ExpiresAtFor(row.job, s, now));
      var batch := db[JobKey(id) := Rec(changed)];
      if row.key != "" && !Pending(s) {
        batch := batch - {QueueIndexKey(row.key, row.job.createdAt, id)};
      }
      if row.expiresAt != changed.expiresAt {
        batch := batch - {ExpKey(row.expiresAt, id)};
      }
      db := batch[ExpKey(changed.expiresAt, id) := Mark];
    }

    method Remove(id: string)
      requires Has(db, id) ==> Fits(Get(db, id).job.createdAt)
      modifies this
      ensures View() == DeleteJob(old(View()), id)
    {
      if !Has(db, id) {
        db := db - {JobKey(id)};
        return;
      }
      var row := Get(db, id);
      db := db - KeysOf(db, id);
      Count(row.status, -1);
    }

    /** Applies a cleanup batch and its status counts. */
    method Commit(batch: set<string>, statuses: seq<Status>)
      modifies this
      ensures View() == Pendingly(old(db), old(queued), old(inFlight), batch, statuses)
    {
      db := db - batch;
      var i := 0;
      while i < |statuses|
        invariant i <= |statuses|
        invariant View() == Pendingly(old(db), old(queued), old(inFlight), batch, statuses[..i])
      {
        assert statuses[..i + 1] == statuses[..i] + [statuses[i]];
        OccursSnoc(statuses[..i], statuses[i], Queued);
        OccursSnoc(statuses[..i], statuses[i], InFlight);
        match statuses[i] {
          case Queued => queued := queued - 1;
          case InFlight => inFlight := inFlight - 1;
          case _ =>
        }
        i := i + 1;
      }
      assert statuses[..|statuses|] == statuses;
    }

    method DeleteExpired(now: int)
      requires StoreOk(View(), now) && Fits(now)
      modifies this
      ensures AllFit(old(db)) && View() == Cleanup(old(View()), now)
    {
      hide StoreOk, Fits, DueKeys, Lex.InOrder, Swept, PebbleCleanup.Due, ExpiredIds, RecordIds, KeysOf, Occurs, AllFit, Cleanup;
      ghost var was := View();
      FormAndExp(was, now);
      hide WellFormed, ExpOk;
      var keys := Lex.InOrder(DueKeys(db, now));
      DueInOrder(db, now, keys);
      ghost var gone: set<string> := {};
      if |keys| == 0 {
        NothingDue(was, now, keys);
        return;
      }
      var batch: set<string> := {};
      var statuses: seq<Status> := [];
      CleanupBegins(was, now, keys);
      var i := 0;
      while i < |keys|
        invariant i <= |keys|
        invariant Swept(was.db, db, Pendingly(db, queued, inFlight, batch, statuses), batch, now, keys, i, gone)
      {
        SweepNext(was.db, db, Pendingly(db, queued, inFlight, batch, statuses), batch, now, keys, i, gone);
        var id := keys[i][EXP_ID_AT..];
        if Has(db, id) && Get(db, id).expiresAt < now {
          assert db - batch - KeysOf(db, id) == db - (batch + KeysOf(db, id));
          OccursSnoc(statuses, Get(db, id).status, Queued);
          OccursSnoc(statuses, Get(db, id).status, InFlight);
          batch := batch + KeysOf(db, id);
          statuses := statuses + [Get(db, id).status];
          gone := gone + {id};
        }
        i := i + 1;
        if |statuses| == EXPIRE_BATCH {
          Committed(was.db, db, queued, inFlight, batch, statuses, now, keys, i, gone);
          Commit(batch, statuses);
          batch := {};
          statuses := [];
        }
      }
      AllMet(was.db, db, Pendingly(db, queued, inFlight, batch, statuses), batch, now, keys, gone);
      CleanedUp(was, db, Pendingly(db, queued, inFlight, batch, statuses), batch, now, keys, gone);
      assert db - batch - DueKeys(was.db, now) == db - (batch + DueKeys(was.db, now));
      Commit(batch + (set k <- keys :: k), statuses);
      assert (set k <- keys :: k) == DueKeys(was.db, now);
    }
  }

  lemma NothingDue(was: Store, now: int, keys: seq<string>)
    requires StoreOk(was, now) && Fits(now) && keys == [] && forall k :: k in keys <==> k in DueKeys(was.db, now)
    ensures AllFit(was.db) && Cleanup(was, now) == was
  {
    hide StoreOk, DueKeys, Fits, AllFit, Cleanup, ExpiredIds;
    RecordsFit(was, now);
    assert forall k :: k !in DueKeys(was.db, now);
    NoneExpired(was, now);
    CleanNothing(was, now);
  }

  lemma CleanNothing(st: Store, now: int)
    requires Fits(now) && AllFit(st.db) && ExpiredIds(st.db, now) == {} && forall k :: k !in DueKeys(st.db, now)
    ensures Cleanup(st, now) == st
  {
    hide DueKeys, Fits, RecordIds, AllFit, KeysOf, ExpiredIds, WithStatus, Has;
    assert KeysOfAll(st.db, {}) == {};
    assert DueKeys(st.db, now) == {};
    hide KeysOfAll;
    assert st.db - {} - {} == st.db;
    assert WithStatus(st.db, Queued) * {} == {} && WithStatus(st.db, InFlight) * {} == {};
  }

  lemma NoneExpired(was: Store, now: int)
    requires StoreOk(was, now) && Fits(now) && forall k :: k !in DueKeys(was.db, now)
    ensures ExpiredIds(was.db, now) == {}
  {
    hide DueKeys, Fits, WellFormed, CountsOk, IndexOk, IdemOk, EntriesOk, RecordIds, ExpOk;
    forall id | id in ExpiredIds(was.db, now) ensures false { ExpiredIsDue(was.db, now, id); }
  }

  lemma CleanupBegins(was: Store, now: int, keys: seq<string>)
    requires StoreOk(was, now)
    ensures Swept(was.db, was.db, Pendingly(was.db, was.queued, was.inFlight, {}, []), {}, now, keys, 0, {})
  {
    hide *;
    RecordsFit(was, now);
    NothingPending(was);
    NoProgress(was, now);
    NoKeys(was.db);
    SweptNothing(was.db, was, now, keys);
  }

  lemma NothingPending(st: Store)
    ensures Pendingly(st.db, st.queued, st.inFlight, {}, []) == st
  {
    assert st.db - {} == st.db;
  }

  lemma NoProgress(st: Store, now: int)
    requires StoreOk(st, now)
    ensures Progress(st.db, st, {})
  {
    hide WellFormed, IdemOk, CountsOk, ExpOk, IndexOk, EntriesOk, Fits, NulFree, JobKey, IdemKey, ExpKey, QueueIndexKey;
  }

  lemma NoKeys(db: Db)
    requires AllFit(db)
    ensures KeysOfAll(db, {}) == {}
  {
  }

  lemma SweptNothing(was: Db, cur: Store, now: int, keys: seq<string>)
    requires cur.db == was && Progress(was, cur, {}) && AllFit(was) && KeysOfAll(was, {}) == {}
    ensures Swept(was, was, cur, {}, now, keys, 0, {})
  {
    hide Progress, AllFit, KeysOfAll, ExpiredIds, JobKey, Has, Get;
    assert was - {} == was;
  }

  lemma Committed(was: Db, db: Db, queued: int, inFlight: int, batch: set<string>, statuses: seq<Status>,
                  now: int, keys: seq<string>, i: nat, gone: set<string>)
    requires Swept(was, db, Pendingly(db, queued, inFlight, batch, statuses), batch, now, keys, i, gone)
    ensures var t := Pendingly(db, queued, inFlight, batch, statuses);
            Swept(was, t.db, Pendingly(t.db, t.queued, t.inFlight, {}, []), {}, now, keys, i, gone)
  {
    hide Progress, ExpiredIds;
    var t := Pendingly(db, queued, inFlight, batch, statuses);
    assert t.db - {} == t.db;
  }

  lemma CleanedUp(was: Store, db: Db, cur: Store, batch: set<string>, now: int, keys: seq<string>, gone: set<string>)
    requires StoreOk(was, now) && Fits(now) && gone == ExpiredIds(was.db, now)
    requires Swept(was.db, db, cur, batch, now, keys, |keys|, gone)
    ensures AllFit(was.db) && cur.(db := cur.db - DueKeys(was.db, now)) == Cleanup(was, now)
  {
    hide StoreOk, DueKeys, RecordIds, KeysOfAll, AllFit, Fits, Progress, ExpiredIds, WithStatus;
    RecordsFit(was, now);
    GoneAll(was, gone, now);
    var other := Store(was.db - KeysOfAll(was.db, gone), was.queued - |WithStatus(was.db, Queued) * gone|,
                       was.inFlight - |WithStatus(was.db, InFlight) * gone|);
    SameDbSameCounts(was.db, cur, other, gone);
  }

  lemma SameDbSameCounts(was: Db, a: Store, b: Store, gone: set<string>)
    requires Progress(was, a, gone) && Progress(was, b, gone) && a.db == b.db
    ensures a == b
  {
    hide WellFormed, IdemOk, Deletes, WithStatus;
  }
}
