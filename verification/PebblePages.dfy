/** Reading a page from the index, and which entries doing so may drop (internal/storage/pebble.go:497-561). */
module PebblePages {
  import opened Jobs
  import opened Pages
  import opened StoreKeys
  import opened PebbleStore
  import opened PebbleProofs
  import Lex

  // ---- reading a page from the index ----

  /** Where the id starts in an index key: after "qk:", the queue key, NUL, sixteen digits and a colon. */
  function IdAt(key: string): nat { 3 + |key| + 1 + 16 + 1 }

  predicate CursorFits(after: Cursor, before: int) { Fits(after.createdAt) && (before > 0 ==> Fits(before)) }

  function PageKeys(db: Db, key: string, after: Cursor, before: int): set<string>
    requires CursorFits(after, before)
  {
    set k | k in db && InRange(k, PageLower(key, after.createdAt, after.id), PageUpper(key, before))
  }

  /** The creation time of an index key. */
  ghost function TimeOf(k: string): int { EntryOf(k).1 }

  /** Every key the iterator visits is an entry of this queue, after the cursor and before the bound. */
  lemma VisitedEntry(db: Db, key: string, after: Cursor, before: int, k: string)
    requires WellFormed(db) && NulFree(key) && CursorFits(after, before) && k in PageKeys(db, key, after, before)
    ensures IdAt(key) < |k| && Fits(TimeOf(k)) && k == QueueIndexKey(key, TimeOf(k), k[IdAt(key)..])
    ensures var id := k[IdAt(key)..];
            && id != ""
            && (after.createdAt < TimeOf(k) || (after.createdAt == TimeOf(k) && Lex.Less(after.id, id)))
            && (before > 0 ==> TimeOf(k) < before)
  {
    hide Pow16, ExpOf;
    assert k[0] == 'q' by { InRangeOfQ(key, after, before, k); }
    var e := EntryOf(k);
    assert NulFree(e.0) && Fits(e.1) && e.2 != "" && k == QueueIndexKey(e.0, e.1, e.2);
    PageRange(key, after.createdAt, after.id, before, e.0, e.1, e.2);
    IdOfEntry(key, e.1, e.2);
  }

  lemma IdOfEntry(key: string, c: int, id: string)
    requires Fits(c) && id != ""
    ensures var k := QueueIndexKey(key, c, id); IdAt(key) < |k| && k[IdAt(key)..] == id
  {
    hide Hex16, Pow16;
  }

  lemma InRangeOfQ(key: string, after: Cursor, before: int, k: string)
    requires CursorFits(after, before)
    requires InRange(k, PageLower(key, after.createdAt, after.id), PageUpper(key, before))
    ensures k != [] && k[0] == 'q'
  {
    hide Hex16, Pow16;
    assert PageLower(key, after.createdAt, after.id)[0] == 'q' && PageUpper(key, before)[0] == 'q';
  }

  /** The records with an index entry under their own key. */
  function Indexed(db: Db): (rows: Rows)
    ensures forall id <- rows :: Has(db, id) && rows[id] == Get(db, id)
  {
    map id | id in RecordIds(db) && Fits(Get(db, id).job.createdAt)
             && QueueIndexKey(Get(db, id).key, Get(db, id).job.createdAt, id) in db :: Get(db, id)
  }

  /** And every indexed record that matches has its entry among them. */
  lemma MatchingIsVisited(db: Db, key: string, after: Cursor, before: int, now: int, id: string)
    requires WellFormed(db) && NulFree(key) && CursorFits(after, before)
    requires id in Indexed(db) && Qualifies(Get(db, id), key, after, before, now)
    ensures Fits(Get(db, id).job.createdAt) && QueueIndexKey(key, Get(db, id).job.createdAt, id) in PageKeys(db, key, after, before)
  {
    hide Hex16, Pow16, ExpOf, EntryOf;
    KeysNulFree(db);
    PageRange(key, after.createdAt, after.id, before, key, Get(db, id).job.createdAt, id);
  }

  /** Under any key but the empty one, that is every record a page can be about. */
  lemma IndexedIsAll(db: Db, key: string, after: Cursor, before: int, now: int)
    requires WellFormed(db) && IndexOk(db, now) && key != ""
    ensures Matching(Indexed(db), key, after, before, now) == Matching(Records(db), key, after, before, now)
  {
    hide QueueIndexKey, WellFormed, Covers;
    var some, all := Indexed(db), Records(db);
    forall j | j in Matching(all, key, after, before, now) ensures j in Matching(some, key, after, before, now) {
      var id :| id in all && all[id].job == j && Qualifies(all[id], key, after, before, now);
      assert id in some;
    }
  }

  lemma IndexedKeyed(db: Db)
    requires WellFormed(db)
    ensures WellKeyed(Indexed(db))
  {
    hide RecordIds, QueueIndexKey;
    KeysNulFree(db);
  }

  lemma RecordsKeyed(db: Db)
    requires WellFormed(db)
    ensures WellKeyed(Records(db))
  {
    hide RecordIds;
    KeysNulFree(db);
  }

  /** The entry is good: its record is there, pending, unexpired and still under this key. */
  predicate Good(db: Db, key: string, id: string, now: int) {
    Has(db, id) && now < Get(db, id).expiresAt && Get(db, id).key == key && Pending(Get(db, id).status)
  }

  /** What the loop of QueuedPage has found after visiting the first `i` keys. */
  ghost predicate FoundSoFar(db: Db, key: string, now: int, keys: seq<string>, i: nat, found: seq<Job>) {
    && i <= |keys|
    && Increasing(found)
    && (forall j <- found :: Good(db, key, j.id, now) && Get(db, j.id).job == j)
    && (forall j <- found :: exists m :: 0 <= m < i && IdAt(key) <= |keys[m]| && keys[m][IdAt(key)..] == j.id)
    && (forall m :: 0 <= m < i && IdAt(key) <= |keys[m]| && Good(db, key, keys[m][IdAt(key)..], now) ==>
          Get(db, keys[m][IdAt(key)..]).job in found)
  }

  /** Keys visited later are for later jobs. */
  lemma LaterKeyLaterJob(db: Db, key: string, now: int, keys: seq<string>, m: nat, i: nat)
    requires WellFormed(db) && EntriesOk(db) && NulFree(key)
    requires m < i < |keys| && Lex.Less(keys[m], keys[i])
    requires forall k <- keys :: IdAt(key) < |k| && Fits(TimeOf(k)) && k in db && k == QueueIndexKey(key, TimeOf(k), k[IdAt(key)..])
    requires Good(db, key, keys[m][IdAt(key)..], now) && Good(db, key, keys[i][IdAt(key)..], now)
    ensures Before(Get(db, keys[m][IdAt(key)..]).job, Get(db, keys[i][IdAt(key)..]).job)
  {
    hide Hex16, Pow16, ExpOf, EntryOf, QueueIndexKey;
    var x, y := keys[m][IdAt(key)..], keys[i][IdAt(key)..];
    assert keys[m] in keys && keys[i] in keys;
    KeysNulFree(db);
    QueueKeyOrder(key, TimeOf(keys[m]), x, TimeOf(keys[i]), y);
    assert TimeOf(keys[m]) == Get(db, x).job.createdAt && TimeOf(keys[i]) == Get(db, y).job.createdAt;
  }

  lemma FoundOne(db: Db, key: string, now: int, keys: seq<string>, i: nat, found: seq<Job>)
    requires WellFormed(db) && EntriesOk(db) && NulFree(key)
    requires FoundSoFar(db, key, now, keys, i, found) && i < |keys|
    requires forall a, b :: 0 <= a < b < |keys| ==> Lex.Less(keys[a], keys[b])
    requires forall k <- keys :: IdAt(key) < |k| && Fits(TimeOf(k)) && k in db && k == QueueIndexKey(key, TimeOf(k), k[IdAt(key)..])
    ensures var id := keys[i][IdAt(key)..];
            FoundSoFar(db, key, now, keys, i + 1, if Good(db, key, id, now) then found + [Get(db, id).job] else found)
  {
    hide QueueIndexKey, WellFormed, EntriesOk, TimeOf, Before, Pending, Fits;
    var id := keys[i][IdAt(key)..];
    assert keys[i] in keys;
    if Good(db, key, id, now) {
      var j := Get(db, id).job;
      assert j.id == id by { GoodId(db, key, id, now); }
      var more := found + [j];
      forall a, b | 0 <= a < b < |more| ensures Before(more[a], more[b]) {
        if b == |found| {
          assert found[a] in found;
          var m :| 0 <= m < i && IdAt(key) <= |keys[m]| && keys[m][IdAt(key)..] == found[a].id;
          LaterKeyLaterJob(db, key, now, keys, m, i);
        }
      }
      forall x | x in more ensures exists m :: 0 <= m < i + 1 && IdAt(key) <= |keys[m]| && keys[m][IdAt(key)..] == x.id {
        if x in found {
          var m :| 0 <= m < i && IdAt(key) <= |keys[m]| && keys[m][IdAt(key)..] == x.id;
        } else {
          assert keys[i][IdAt(key)..] == x.id;
        }
      }
    }
  }

  lemma GoodId(db: Db, key: string, id: string, now: int)
    requires WellFormed(db) && Good(db, key, id, now)
    ensures Get(db, id).job.id == id
  {
    KeysNulFree(db);
  }

  /** When the loop stops, what it has found is the page the indexed records define. */
  lemma FoundIsPage(db: Db, key: string, after: Cursor, before: int, limit: nat, now: int, keys: seq<string>, i: nat, found: seq<Job>)
    requires WellFormed(db) && EntriesOk(db) && NulFree(key) && CursorFits(after, before)
    requires keys == Lex.InOrder(PageKeys(db, key, after, before))
    requires FoundSoFar(db, key, now, keys, i, found) && |found| <= limit && (i == |keys| || |found| == limit)
    ensures WellKeyed(Indexed(db)) && found == Page(Indexed(db), key, after, before, limit, now)
  {
    hide QueueIndexKey, EntriesOk, PageKeys, Lex.InOrder, RecordIds, Fits, Before, Indexed, WellFormed, FoundSoFar;
    IndexedKeyed(db);
    Lex.InOrderVisits(PageKeys(db, key, after, before));
    assert Increasing(found) by { FoundIncreases(db, key, now, keys, i, found); }
    var rows := Indexed(db);
    forall j | j in found ensures j in Matching(rows, key, after, before, now) {
      FoundMatches(db, key, after, before, now, keys, i, found, j);
    }
    forall j | j in Matching(rows, key, after, before, now) && j !in found
      ensures |found| == limit && forall x <- found :: Before(x, j) {
      MissedIsLater(db, key, after, before, now, keys, i, found, j);
    }
    OnlyPageIsPage(rows, key, after, before, limit, now, found);
  }

  lemma FoundIncreases(db: Db, key: string, now: int, keys: seq<string>, i: nat, found: seq<Job>)
    requires FoundSoFar(db, key, now, keys, i, found)
    ensures Increasing(found)
  {
  }

  lemma FoundMatches(db: Db, key: string, after: Cursor, before: int, now: int, keys: seq<string>, i: nat, found: seq<Job>, j: Job)
    requires WellFormed(db) && EntriesOk(db) && NulFree(key) && CursorFits(after, before)
    requires forall k <- keys :: k in PageKeys(db, key, after, before)
    requires FoundSoFar(db, key, now, keys, i, found) && j in found
    ensures j in Matching(Indexed(db), key, after, before, now)
  {
    hide QueueIndexKey, RecordIds, Before, WellFormed, Pow16;
    var m :| 0 <= m < i && IdAt(key) <= |keys[m]| && keys[m][IdAt(key)..] == j.id;
    assert keys[m] in keys;
    VisitedEntry(db, key, after, before, keys[m]);
    InDb(db, key, after, before, keys[m]);
    assert TimeOf(keys[m]) == j.createdAt;
    assert j.id in Indexed(db);
    assert Qualifies(Get(db, j.id), key, after, before, now);
  }

  lemma MissedIsLater(db: Db, key: string, after: Cursor, before: int, now: int, keys: seq<string>, i: nat, found: seq<Job>, j: Job)
    requires WellFormed(db) && EntriesOk(db) && NulFree(key) && CursorFits(after, before)
    requires forall k :: k in keys <==> k in PageKeys(db, key, after, before)
    requires forall a, b :: 0 <= a < b < |keys| ==> Lex.Less(keys[a], keys[b])
    requires FoundSoFar(db, key, now, keys, i, found)
    requires j in Matching(Indexed(db), key, after, before, now) && j !in found
    ensures i < |keys| && forall x <- found :: Before(x, j)
  {
    hide QueueIndexKey, RecordIds, Before, WellFormed, EntriesOk, Pow16, PageKeys, Indexed;
    var id :| id in Indexed(db) && Indexed(db)[id].job == j && Qualifies(Indexed(db)[id], key, after, before, now);
    assert j.id == id by { IndexedKeyed(db); }
    MatchingIsVisited(db, key, after, before, now, id);
    var mine := QueueIndexKey(key, j.createdAt, id);
    var k :| 0 <= k < |keys| && keys[k] == mine;
    forall x | x in keys ensures IdAt(key) < |x| && Fits(TimeOf(x)) && x in db && x == QueueIndexKey(key, TimeOf(x), x[IdAt(key)..]) {
      VisitedEntry(db, key, after, before, x);
      InDb(db, key, after, before, x);
    }
    assert id != "" by { KeysNulFree(db); }
    IdOfEntry(key, j.createdAt, id);
    assert Good(db, key, keys[k][IdAt(key)..], now);
    assert k >= i;
    forall x | x in found ensures Before(x, j) {
      var m :| 0 <= m < i && IdAt(key) <= |keys[m]| && keys[m][IdAt(key)..] == x.id;
      LaterKeyLaterJob(db, key, now, keys, m, k);
    }
  }

  lemma InDb(db: Db, key: string, after: Cursor, before: int, k: string)
    requires CursorFits(after, before) && k in PageKeys(db, key, after, before)
    ensures k in db
  {
  }

  // ---- dropping index entries ----

  /** Some qk: entries are dropped, none of which a live record needs. */
  ghost predicate DropsStale(a: Db, b: Db, now: int) {
    && b.Keys <= a.Keys
    && (forall k <- b :: b[k] == a[k])
    && (forall k <- a :: k !in b ==> Family(k) == 3 && NulFree(EntryOf(k).0) && !Good(a, EntryOf(k).0, EntryOf(k).2, now))
  }

  lemma DropsStaleKeeps(st: Store, t: Store, now: int)
    requires StoreOk(st, now) && DropsStale(st.db, t.db, now) && t.queued == st.queued && t.inFlight == st.inFlight
    ensures StoreOk(t, now) && Records(t.db) == Records(st.db)
  {
    hide StoreOk, Fits;
    assert WellFormed(t.db) by { StoreForm(st, now); StaleForm(st.db, t.db, now); }
    StaleDeletes(st.db, t.db, now);
    StoreParts(st, now);
    SameRecords(st.db, t.db);
    StaleIndex(st.db, t.db, now);
    StaleOthers(st.db, t.db, now);
    assert CountsOk(t) by { SameCounts(st, t); }
    Assemble(t, now);
  }

  /** Dropping stale entries leaves every page as it was. */
  lemma DropsStaleKeepsPages(a: Db, b: Db, key: string, after: Cursor, before: int, now: int)
    requires WellFormed(a) && DropsStale(a, b, now)
    ensures Matching(Indexed(b), key, after, before, now) == Matching(Indexed(a), key, after, before, now)
  {
    StaleDeletes(a, b, now);
    KeysNulFree(a);
    Decodes();
    hide QueueIndexKey, EntryOf, Family, JobKey, Fits, NulFree, WellFormed, Covers, Has, Get, RecordIds;
    forall id ensures id in Indexed(b) ==> id in Indexed(a) {
    }
    forall id | id in Indexed(a) && Qualifies(Indexed(a)[id], key, after, before, now) ensures id in Indexed(b) {
      assert Good(a, key, id, now);
    }
  }

  lemma StoreParts(st: Store, now: int)
    requires StoreOk(st, now)
    ensures WellFormed(st.db) && IdemOk(st.db) && ExpOk(st.db) && IndexOk(st.db, now) && EntriesOk(st.db) && CountsOk(st)
  {
  }

  lemma Assemble(st: Store, now: int)
    requires WellFormed(st.db) && IdemOk(st.db) && ExpOk(st.db) && IndexOk(st.db, now) && EntriesOk(st.db) && CountsOk(st)
    ensures StoreOk(st, now)
  {
  }

  lemma StaleForm(a: Db, b: Db, now: int)
    requires WellFormed(a) && DropsStale(a, b, now)
    ensures WellFormed(b)
  {
    hide JobKey, IdemKey, ExpKey, QueueIndexKey, ExpOf, EntryOf, JobOf, HashOf, Fits, NulFree, RowFits, Family, Good;
  }

  /** Keys of the other families are all still there. */
  lemma StaleDeletes(a: Db, b: Db, now: int)
    requires DropsStale(a, b, now)
    ensures forall x :: JobKey(x) in b <==> JobKey(x) in a
    ensures forall x :: Has(b, x) <==> Has(a, x)
    ensures forall x :: Has(b, x) ==> Get(b, x) == Get(a, x)
    ensures forall h :: IdemKey(h) in b <==> IdemKey(h) in a
    ensures forall e, x :: Fits(e) ==> (ExpKey(e, x) in b <==> ExpKey(e, x) in a)
  {
    hide JobKey, IdemKey, ExpKey, QueueIndexKey, ExpOf, EntryOf, JobOf, HashOf, Fits, NulFree, Family, Good;
    Decodes();
  }

  lemma SameRecords(a: Db, b: Db)
    requires forall x :: Has(b, x) <==> Has(a, x)
    requires forall x :: Has(b, x) ==> Get(b, x) == Get(a, x)
    ensures Records(b) == Records(a)
    ensures forall s :: WithStatus(b, s) == WithStatus(a, s)
  {
    hide Has, Get, RecordIds;
  }

  lemma SameCounts(st: Store, t: Store)
    requires CountsOk(st) && t.queued == st.queued && t.inFlight == st.inFlight
    requires forall s :: WithStatus(t.db, s) == WithStatus(st.db, s)
    ensures CountsOk(t)
  {
    hide WithStatus;
  }

  lemma StaleIndex(a: Db, b: Db, now: int)
    requires WellFormed(a) && IndexOk(a, now) && EntriesOk(a) && DropsStale(a, b, now)
    ensures IndexOk(b, now) && EntriesOk(b)
  {
    StaleDeletes(a, b, now);
    KeysNulFree(a);
    hide JobKey, IdemKey, ExpKey, QueueIndexKey, ExpOf, EntryOf, JobOf, HashOf, Fits, NulFree, Family, Has, Get, WellFormed;
    Decodes();
  }

  lemma StaleOthers(a: Db, b: Db, now: int)
    requires IdemOk(a) && ExpOk(a) && DropsStale(a, b, now)
    ensures IdemOk(b) && ExpOk(b)
  {
    StaleDeletes(a, b, now);
    hide JobKey, IdemKey, ExpKey, QueueIndexKey, ExpOf, EntryOf, JobOf, HashOf, Fits, NulFree, Family, Has, Get;
  }

  /** Between flushes: entries already dropped, plus those waiting in the batch, are all stale. */
  ghost predicate Midway(a: Db, d: Db, batch: set<string>, now: int) {
    && DropsStale(a, d - batch, now)
    && (forall x :: Has(d, x) <==> Has(a, x))
    && (forall x :: Has(d, x) ==> Get(d, x) == Get(a, x))
  }

  /** The iterator's keys: in order, and all of them entries of this queue. */
  ghost predicate Visited(db: Db, key: string, after: Cursor, before: int, keys: seq<string>)
    requires CursorFits(after, before)
  {
    && (forall k <- keys :: k in PageKeys(db, key, after, before))
    && (forall a, b :: 0 <= a < b < |keys| ==> Lex.Less(keys[a], keys[b]))
    && (forall k <- keys :: IdAt(key) < |k| && Fits(TimeOf(k)) && k in db && k == QueueIndexKey(key, TimeOf(k), k[IdAt(key)..]))
  }

  lemma Visits(db: Db, key: string, after: Cursor, before: int, keys: seq<string>)
    requires WellFormed(db) && NulFree(key) && CursorFits(after, before)
    requires keys == Lex.InOrder(PageKeys(db, key, after, before))
    ensures Visited(db, key, after, before, keys)
  {
    hide PageKeys, WellFormed, QueueIndexKey, Fits, Lex.InOrder;
    Lex.InOrderVisits(PageKeys(db, key, after, before));
    VisitedAll(db, key, after, before, keys);
  }

  lemma Begin(db: Db, key: string, now: int, keys: seq<string>)
    ensures FoundSoFar(db, key, now, keys, 0, [])
    ensures Midway(db, db, {}, now)
  {
  }

  lemma Visit(a: Db, d: Db, batch: set<string>, key: string, after: Cursor, before: int, now: int,
              keys: seq<string>, i: nat, found: seq<Job>)
    requires WellFormed(a) && EntriesOk(a) && NulFree(key) && CursorFits(after, before)
    requires Visited(a, key, after, before, keys) && FoundSoFar(a, key, now, keys, i, found) && i < |keys|
    requires Midway(a, d, batch, now)
    ensures IdAt(key) < |keys[i]|
    ensures var id := keys[i][IdAt(key)..];
            if Good(d, key, id, now)
            then FoundSoFar(a, key, now, keys, i + 1, found + [Get(d, id).job])
            else FoundSoFar(a, key, now, keys, i + 1, found) && Midway(a, d, batch + {keys[i]}, now)
  {
    hide FoundSoFar, PageKeys, WellFormed, EntriesOk, QueueIndexKey, Fits, NulFree, DropsStale, TimeOf;
    assert keys[i] in keys;
    var id := keys[i][IdAt(key)..];
    FoundOne(a, key, now, keys, i, found);
    if !Good(d, key, id, now) {
      MoreStale(a, d - batch, key, after, before, now, keys[i]);
      assert d - batch - {keys[i]} == d - (batch + {keys[i]});
    }
  }

  lemma Flush(a: Db, d: Db, batch: set<string>, now: int)
    requires Midway(a, d, batch, now)
    ensures Midway(a, d - batch, {}, now)
  {
    hide Has, Get, Fits, NulFree;
    StaleDeletes(a, d - batch, now);
    assert d - batch - {} == d - batch;
  }

  lemma Finish(was: Store, t: Store, now: int)
    requires StoreOk(was, now) && Midway(was.db, t.db, {}, now) && t.queued == was.queued && t.inFlight == was.inFlight
    ensures StoreOk(t, now) && Records(t.db) == Records(was.db) && DropsStale(was.db, t.db, now)
  {
    hide StoreOk, DropsStale, RecordIds;
    assert t.db - {} == t.db;
    DropsStaleKeeps(was, t, now);
  }

  lemma VisitedAll(db: Db, key: string, after: Cursor, before: int, keys: seq<string>)
    requires WellFormed(db) && NulFree(key) && CursorFits(after, before)
    requires forall k <- keys :: k in PageKeys(db, key, after, before)
    ensures forall k <- keys :: IdAt(key) < |k| && Fits(TimeOf(k)) && k in db && k == QueueIndexKey(key, TimeOf(k), k[IdAt(key)..])
  {
    hide PageKeys, WellFormed, QueueIndexKey, Fits;
    forall k | k in keys ensures IdAt(key) < |k| && Fits(TimeOf(k)) && k in db && k == QueueIndexKey(key, TimeOf(k), k[IdAt(key)..]) {
      VisitedEntry(db, key, after, before, k);
      InDb(db, key, after, before, k);
    }
  }

  /** One more entry the loop found stale can go. */
  lemma MoreStale(a: Db, b: Db, key: string, after: Cursor, before: int, now: int, k: string)
    requires WellFormed(a) && NulFree(key) && CursorFits(after, before) && k in PageKeys(a, key, after, before)
    requires DropsStale(a, b, now) && IdAt(key) <= |k| && !Good(a, key, k[IdAt(key)..], now)
    ensures DropsStale(a, b - {k}, now)
  {
    hide PageKeys, WellFormed, QueueIndexKey, Fits, Good;
    VisitedEntry(a, key, after, before, k);
    Decodes();
    assert EntryOf(k) == (key, TimeOf(k), k[IdAt(key)..]);
  }

  lemma GoodHas(db: Db, key: string, id: string, now: int)
    requires Good(db, key, id, now)
    ensures Has(db, id)
  {
  }

  lemma IndexedPageIsPage(db: Db, key: string, after: Cursor, before: int, limit: nat, now: int)
    requires WellFormed(db) && IndexOk(db, now) && key != "" && WellKeyed(Indexed(db)) && WellKeyed(Records(db))
    ensures Page(Indexed(db), key, after, before, limit, now) == Page(Records(db), key, after, before, limit, now)
  {
    hide WellFormed, IndexOk, Matching, Sorted, Indexed, RecordIds;
    IndexedIsAll(db, key, after, before, now);
  }

  lemma IndexedListingIsAll(db: Db, key: string, after: Cursor, now: int)
    requires WellFormed(db) && IndexOk(db, now) && key != "" && WellKeyed(Indexed(db)) && WellKeyed(Records(db))
    ensures Listing(Indexed(db), key, after, now) == Listing(Records(db), key, after, now)
  {
    hide WellFormed, IndexOk, Matching, Sorted, Indexed, RecordIds;
    IndexedIsAll(db, key, after, 0, now);
  }

  lemma SameStore(db: Db, now: int)
    ensures DropsStale(db, db, now)
  {
  }

  lemma DropsStaleTwice(a: Db, b: Db, c: Db, now: int)
    requires DropsStale(a, b, now) && DropsStale(b, c, now)
    ensures DropsStale(a, c, now)
  {
    StaleDeletes(a, b, now);
    hide Family, EntryOf, NulFree, JobKey, IdemKey, ExpKey, Fits;
  }

  lemma SamePages(a: Db, b: Db, key: string, after: Cursor, size: nat, now: int)
    requires WellFormed(a) && DropsStale(a, b, now) && WellKeyed(Indexed(a)) && WellKeyed(Indexed(b))
    ensures Page(Indexed(b), key, after, 0, size, now) == Page(Indexed(a), key, after, 0, size, now)
  {
    hide WellFormed, DropsStale, Matching, Sorted, Indexed;
    DropsStaleKeepsPages(a, b, key, after, 0, now);
  }

  /** The cursor at the end of a page can be read on from. */
  lemma PageCursorFits(db: Db, key: string, after: Cursor, size: nat, now: int)
    requires WellKeyed(Indexed(db))
    ensures var p := Page(Indexed(db), key, after, 0, size, now); p != [] ==> CursorFits(CursorAt(p[|p| - 1]), 0)
  {
    hide *;
    var p := Page(Indexed(db), key, after, 0, size, now);
    PageIsPage(Indexed(db), key, after, 0, size, now);
    if p != [] {
      MatchingFits(db, key, after, now, p[|p| - 1]);
    }
  }

  lemma MatchingFits(db: Db, key: string, after: Cursor, now: int, j: Job)
    requires j in Matching(Indexed(db), key, after, 0, now)
    ensures CursorFits(CursorAt(j), 0)
  {
    hide Fits, QueueIndexKey, Qualifies;
  }
}
