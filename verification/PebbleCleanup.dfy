/** deleteExpired reads only the exp: keys that are due, and deletes exactly what a full scan would. */
module PebbleCleanup {
  import opened Basics
  import opened Jobs
  import opened Pages
  import opened StoreKeys
  import opened PebbleStore
  import opened PebbleProofs
  import Lex

  /** Where the id starts in an exp: key. */
  const EXP_ID_AT := 21

  function DueKeys(db: Db, now: int): set<string>
    requires Fits(now)
  {
    set k | k in db && InRange(k, "exp:", ExpBound(now))
  }

  lemma DueKey(db: Db, now: int, k: string)
    requires WellFormed(db) && Fits(now) && k in DueKeys(db, now)
    ensures EXP_ID_AT < |k| && Fits(ExpOf(k).0) && ExpOf(k).0 < now && k == ExpKey(ExpOf(k).0, k[EXP_ID_AT..])
  {
    hide Pow16, EntryOf, Hex16;
    assert ExpBound(now)[0] == 'e' && "exp:"[0] == 'e' && k != [];
    assert k[0] == 'e';
    var e := ExpOf(k);
    ExpBoundOrder(e.0, e.1, now);
    assert k[EXP_ID_AT..] == e.1;
  }

  lemma ExpiredIsDue(db: Db, now: int, id: string)
    requires WellFormed(db) && ExpOk(db) && Fits(now) && Has(db, id) && Get(db, id).expiresAt < now
    ensures Fits(Get(db, id).expiresAt) && ExpKey(Get(db, id).expiresAt, id) in DueKeys(db, now)
  {
    hide Pow16, Hex16;
    var e := Get(db, id).expiresAt;
    ExpBoundOrder(e, id, now);
    assert ExpKey(e, id) == "exp:" + (Hex16(e) + ":" + id);
    PrefixIsFirst("exp:", Hex16(e) + ":" + id);
  }

  function Occurs(statuses: seq<Status>, s: Status): nat {
    if statuses == [] then 0 else Occurs(statuses[..|statuses| - 1], s) + if statuses[|statuses| - 1] == s then 1 else 0
  }

  lemma OccursSnoc(statuses: seq<Status>, x: Status, s: Status)
    ensures Occurs(statuses + [x], s) == Occurs(statuses, s) + if x == s then 1 else 0
  {
    assert (statuses + [x])[..|statuses|] == statuses;
  }

  /** The store as it will be once the batch and its status counts are applied. */
  function Pendingly(db: Db, queued: int, inFlight: int, batch: set<string>, statuses: seq<Status>): Store {
    Store(db - batch, queued - Occurs(statuses, Queued), inFlight - Occurs(statuses, InFlight))
  }

  /** Midway: the records `gone` are out, the rest of the store and its counts agree. */
  ghost predicate Progress(was: Db, cur: Store, gone: set<string>) {
    WellFormed(cur.db) && IdemOk(cur.db) && CountsOk(cur) && Deletes(was, cur.db, gone)
  }

  lemma DeletesTrans(a: Db, b: Db, c: Db, gone: set<string>, id: string)
    requires Deletes(a, b, gone) && Deletes(b, c, {id})
    ensures Deletes(a, c, gone + {id})
  {
    hide Has, Get, Fits, NulFree, IdemKey, ExpKey, QueueIndexKey;
  }

  lemma DeletesIdem(a: Db, b: Db, gone: set<string>)
    requires IdemOk(a) && Deletes(a, b, gone)
    ensures IdemOk(b)
  {
    hide Has, Get, Fits, NulFree, IdemKey, ExpKey, QueueIndexKey;
  }

  /** One more expired record goes. */
  lemma ProgressOne(was: Db, cur: Store, gone: set<string>, id: string)
    requires Progress(was, cur, gone) && Has(cur.db, id) && Fits(Get(cur.db, id).job.createdAt)
    ensures Progress(was, CountStatus(cur.(db := cur.db - KeysOf(cur.db, id)), Get(cur.db, id).status, -1), gone + {id})
  {
    hide WellFormed, IdemOk, Deletes, Fits, KeysOf, CountsOk;
    var next := CountStatus(cur.(db := cur.db - KeysOf(cur.db, id)), Get(cur.db, id).status, -1);
    DeleteFamilies(cur.db, id);
    SubForm(cur.db, KeysOf(cur.db, id));
    DeletesTrans(was, cur.db, next.db, gone, id);
    DeletesIdem(cur.db, next.db, {id});
    DeletedOthers(cur.db, next.db, id);
    CountsMove(cur, next, id, Some(Get(cur.db, id).status), None);
  }

  lemma DeletedOthers(a: Db, b: Db, id: string)
    requires Deletes(a, b, {id})
    ensures forall x :: x != id ==> (Has(b, x) <==> Has(a, x))
    ensures forall x :: x != id && Has(b, x) ==> Get(b, x).status == Get(a, x).status
    ensures !Has(b, id)
  {
    hide Has, Get;
  }

  /** Every record's creation time prints in sixteen digits. */
  predicate AllFit(db: Db) {
    forall id <- RecordIds(db) :: Fits(Get(db, id).job.createdAt)
  }

  /** The keys that go with the records `gone`. */
  function KeysOfAll(db: Db, gone: set<string>): set<string>
    requires AllFit(db)
  {
    set id, k | id in gone && id in RecordIds(db) && k in KeysOf(db, id) :: k
  }

  lemma KeysOfOneMore(db: Db, gone: set<string>, id: string)
    requires AllFit(db) && Has(db, id)
    ensures KeysOfAll(db, gone + {id}) == KeysOfAll(db, gone) + KeysOf(db, id)
  {
    hide RecordIds, KeysOf, Has;
  }

  /** What a full scan would do: delete the records expired by `now`, and every exp: key that is due. */
  function Cleanup(st: Store, now: int): Store
    requires Fits(now) && AllFit(st.db)
  {
    var gone := ExpiredIds(st.db, now);
    Store(st.db - KeysOfAll(st.db, gone) - DueKeys(st.db, now),
          st.queued - |WithStatus(st.db, Queued) * gone|,
          st.inFlight - |WithStatus(st.db, InFlight) * gone|)
  }

  /** Deleting any set of records keeps the rest in step. */
  lemma {:induction false} GoneAll(st: Store, gone: set<string>, now: int)
    requires StoreOk(st, now) && AllFit(st.db) && gone <= RecordIds(st.db)
    ensures Progress(st.db, Store(st.db - KeysOfAll(st.db, gone), st.queued - |WithStatus(st.db, Queued) * gone|,
                                  st.inFlight - |WithStatus(st.db, InFlight) * gone|), gone)
    decreases |gone|
  {
    hide StoreOk, Fits, KeysOf, KeysOfAll, Deletes, WellFormed, IdemOk, CountsOk, AllFit;
    if gone == {} {
      NoneGone(st, now);
    } else {
      var id :| id in gone;
      var rest := gone - {id};
      assert gone == rest + {id};
      GoneAll(st, rest, now);
      var cur := Store(st.db - KeysOfAll(st.db, rest), st.queued - |WithStatus(st.db, Queued) * rest|,
                       st.inFlight - |WithStatus(st.db, InFlight) * rest|);
      GoneOne(st, cur, rest, id);
    }
  }

  lemma NoneGone(st: Store, now: int)
    requires StoreOk(st, now) && AllFit(st.db)
    ensures Progress(st.db, Store(st.db - KeysOfAll(st.db, {}), st.queued - |WithStatus(st.db, Queued) * {}|,
                                  st.inFlight - |WithStatus(st.db, InFlight) * {}|), {})
  {
    hide Fits, WellFormed, IdemOk, CountsOk, RecordIds, Has, Get;
    assert KeysOfAll(st.db, {}) == {};
    assert st.db - {} == st.db;
    assert WithStatus(st.db, Queued) * {} == {} && WithStatus(st.db, InFlight) * {} == {};
  }

  lemma GoneOne(st: Store, cur: Store, rest: set<string>, id: string)
    requires AllFit(st.db) && Progress(st.db, cur, rest) && Has(st.db, id) && id !in rest
    requires cur == Store(st.db - KeysOfAll(st.db, rest), st.queued - |WithStatus(st.db, Queued) * rest|,
                          st.inFlight - |WithStatus(st.db, InFlight) * rest|)
    ensures Progress(st.db, Store(st.db - KeysOfAll(st.db, rest + {id}), st.queued - |WithStatus(st.db, Queued) * (rest + {id})|,
                                  st.inFlight - |WithStatus(st.db, InFlight) * (rest + {id})|), rest + {id})
  {
    hide Fits, KeysOfAll, Progress, KeysOf, RecordIds;
    StillThere(st.db, cur, rest, id);
    ProgressOne(st.db, cur, rest, id);
    KeysOfOneMore(st.db, rest, id);
    assert st.db - KeysOfAll(st.db, rest) - KeysOf(st.db, id) == st.db - (KeysOfAll(st.db, rest) + KeysOf(st.db, id));
    MeetOneMore(WithStatus(st.db, Queued), rest, id);
    MeetOneMore(WithStatus(st.db, InFlight), rest, id);
    assert id in WithStatus(st.db, Queued) <==> Get(st.db, id).status == Queued;
    assert id in WithStatus(st.db, InFlight) <==> Get(st.db, id).status == InFlight;
    hide WithStatus, Has, Get;
  }

  lemma StillThere(was: Db, cur: Store, gone: set<string>, id: string)
    requires AllFit(was) && Progress(was, cur, gone) && Has(was, id) && id !in gone
    ensures Has(cur.db, id) && Get(cur.db, id) == Get(was, id) && Fits(Get(was, id).job.createdAt)
    ensures KeysOf(cur.db, id) == KeysOf(was, id)
  {
    hide Fits, WellFormed, IdemOk, CountsOk;
    assert id in RecordIds(was);
  }

  lemma MeetOneMore(x: set<string>, rest: set<string>, id: string)
    requires id !in rest
    ensures |x * (rest + {id})| == |x * rest| + (if id in x then 1 else 0)
  {
    if id in x {
      assert x * (rest + {id}) == x * rest + {id};
    } else {
      assert x * (rest + {id}) == x * rest;
    }
  }

  lemma RecordsFit(st: Store, now: int)
    requires StoreOk(st, now)
    ensures AllFit(st.db)
  {
    hide IdemOk, ExpOk, IndexOk, EntriesOk, CountsOk, RecordIds;
    KeysNulFree(st.db);
  }

  lemma CleanupKeeps(st: Store, now: int)
    requires StoreOk(st, now) && Fits(now) && AllFit(st.db)
    ensures StoreOk(Cleanup(st, now), now)
    ensures Records(Cleanup(st, now).db) == Records(st.db) - ExpiredIds(st.db, now)
  {
    hide StoreOk, Fits, KeysOfAll, Progress, AllFit, WithStatus, RecordIds, DueKeys;
    var gone := ExpiredIds(st.db, now);
    GoneAll(st, gone, now);
    var cur := Store(st.db - KeysOfAll(st.db, gone), st.queued - |WithStatus(st.db, Queued) * gone|,
                     st.inFlight - |WithStatus(st.db, InFlight) * gone|);
    CleanupEnds(st, cur, gone, now);
  }

  /** Removing the due exp: keys too leaves a store in order, without any expired record. */
  lemma CleanupEnds(was: Store, cur: Store, gone: set<string>, now: int)
    requires StoreOk(was, now) && Fits(now) && Progress(was.db, cur, gone) && gone == ExpiredIds(was.db, now)
    ensures var t := cur.(db := cur.db - DueKeys(was.db, now));
            StoreOk(t, now) && Records(t.db) == Records(was.db) - ExpiredIds(was.db, now)
  {
    hide StoreOk, DueKeys, Fits, CountsOk, Deletes, WellFormed, IdemOk, RecordIds;
    var t := cur.(db := cur.db - DueKeys(was.db, now));
    assert WellFormed(was.db) && ExpOk(was.db) by { FormAndExp(was, now); }
    SubForm(cur.db, DueKeys(was.db, now));
    DueAreExp(was.db, now);
    DropDue(was.db, cur.db, gone, now);
    assert CountsOk(t) by { DueCounts(cur, t, was.db, now); }
    DeletesKeeps(was, t, gone, now);
    LeftRecords(was.db, t.db, gone);
  }

  lemma FormAndExp(st: Store, now: int)
    requires StoreOk(st, now)
    ensures WellFormed(st.db) && ExpOk(st.db)
  {
  }

  lemma DueAreExp(db: Db, now: int)
    requires WellFormed(db) && Fits(now)
    ensures forall x :: JobKey(x) !in DueKeys(db, now)
    ensures forall h :: IdemKey(h) !in DueKeys(db, now)
    ensures forall q, c, x :: NulFree(q) && Fits(c) ==> QueueIndexKey(q, c, x) !in DueKeys(db, now)
    ensures forall e, x :: Fits(e) && ExpKey(e, x) in DueKeys(db, now) ==> e < now
  {
    hide DueKeys, Fits, JobKey, IdemKey, QueueIndexKey, ExpKey, NulFree, WellFormed, JobOf, HashOf, ExpOf, EntryOf, Family;
    Decodes();
    forall k | k in DueKeys(db, now) ensures Family(k) == 2 && ExpOf(k).0 < now {
      DueKey(db, now, k);
    }
  }

  lemma DropDue(was: Db, cur: Db, gone: set<string>, now: int)
    requires WellFormed(was) && ExpOk(was) && Fits(now) && Deletes(was, cur, gone) && gone == ExpiredIds(was, now)
    requires forall x :: JobKey(x) !in DueKeys(was, now)
    requires forall h :: IdemKey(h) !in DueKeys(was, now)
    requires forall q, c, x :: NulFree(q) && Fits(c) ==> QueueIndexKey(q, c, x) !in DueKeys(was, now)
    requires forall e, x :: Fits(e) && ExpKey(e, x) in DueKeys(was, now) ==> e < now
    ensures Deletes(was, cur - DueKeys(was, now), gone)
  {
    hide DueKeys, Fits, JobKey, IdemKey, QueueIndexKey, ExpKey, NulFree, WellFormed, RecordIds;
    var due := DueKeys(was, now);
    var t := cur - due;
    forall x ensures (Has(t, x) <==> Has(cur, x)) && (Has(t, x) ==> Get(t, x) == Get(cur, x)) {
      assert JobKey(x) !in due;
    }
    forall e, x | Fits(e) && ExpKey(e, x) in was && Has(t, x) ensures ExpKey(e, x) in t {
      assert Has(was, x) && x !in gone;
      assert e == Get(was, x).expiresAt;
    }
  }

  lemma DueCounts(cur: Store, t: Store, was: Db, now: int)
    requires Fits(now) && CountsOk(cur) && t == cur.(db := cur.db - DueKeys(was, now))
    requires forall x :: JobKey(x) !in DueKeys(was, now)
    ensures CountsOk(t)
  {
    hide DueKeys, Fits, JobKey, RecordIds;
    forall x ensures (Has(t.db, x) <==> Has(cur.db, x)) && (Has(t.db, x) ==> Get(t.db, x) == Get(cur.db, x)) {
      assert JobKey(x) !in DueKeys(was, now);
    }
    hide Has, Get;
    assert WithStatus(t.db, Queued) == WithStatus(cur.db, Queued);
    assert WithStatus(t.db, InFlight) == WithStatus(cur.db, InFlight);
  }

  lemma LeftRecords(a: Db, b: Db, gone: set<string>)
    requires Deletes(a, b, gone)
    ensures Records(b) == Records(a) - gone
  {
    hide Has, Get, RecordIds;
  }

  // ---- the loop ----

  /** The loop's state after `i` due keys. */
  ghost predicate Swept(was: Db, db: Db, cur: Store, batch: set<string>, now: int, keys: seq<string>, i: nat, gone: set<string>) {
    && i <= |keys|
    && Progress(was, cur, gone) && cur.db == db - batch
    && AllFit(was) && cur.db == was - KeysOfAll(was, gone)
    && gone <= ExpiredIds(was, now)
    && (forall x :: x !in gone ==> JobKey(x) !in batch)
    && (forall x <- gone :: Has(was, x) && exists m :: 0 <= m < i && EXP_ID_AT <= |keys[m]| && keys[m][EXP_ID_AT..] == x)
    && (forall m :: 0 <= m < i && EXP_ID_AT <= |keys[m]| ==>
          var id := keys[m][EXP_ID_AT..]; Has(was, id) && Get(was, id).expiresAt < now ==> id in gone)
  }

  ghost predicate Due(was: Db, now: int, keys: seq<string>) {
    && (forall a, b :: 0 <= a < b < |keys| ==> Lex.Less(keys[a], keys[b]))
    && (forall k <- keys :: k in was && EXP_ID_AT < |k| && Fits(ExpOf(k).0) && k == ExpKey(ExpOf(k).0, k[EXP_ID_AT..]))
  }

  lemma DueInOrder(was: Db, now: int, keys: seq<string>)
    requires WellFormed(was) && Fits(now) && keys == Lex.InOrder(DueKeys(was, now))
    ensures Due(was, now, keys) && (forall k :: k in keys <==> k in DueKeys(was, now))
  {
    hide Lex.InOrder, DueKeys, WellFormed, Fits, ExpKey, ExpOf;
    Lex.InOrderVisits(DueKeys(was, now));
    forall k | k in keys ensures k in was && EXP_ID_AT < |k| && Fits(ExpOf(k).0) && k == ExpKey(ExpOf(k).0, k[EXP_ID_AT..]) {
      DueKey(was, now, k);
      DueInDb(was, now, k);
    }
  }

  lemma DueInDb(db: Db, now: int, k: string)
    requires Fits(now) && k in DueKeys(db, now)
    ensures k in db
  {
  }

  /** A live record is met under one key only. */
  lemma MetOnce(was: Db, now: int, keys: seq<string>, m: nat, i: nat)
    requires ExpOk(was) && Due(was, now, keys) && m < i < |keys|
    requires keys[m][EXP_ID_AT..] == keys[i][EXP_ID_AT..]
    ensures !Has(was, keys[i][EXP_ID_AT..])
  {
    hide ExpKey, Fits, Has, Get, ExpOf;
    var id := keys[i][EXP_ID_AT..];
    assert keys[m] in keys && keys[i] in keys;
    Lex.Irreflexive(keys[m]);
    assert keys[m] != keys[i];
  }

  lemma SweepNext(was: Db, db: Db, cur: Store, batch: set<string>, now: int, keys: seq<string>, i: nat, gone: set<string>)
    requires WellFormed(was) && ExpOk(was) && Due(was, now, keys) && i < |keys|
    requires Swept(was, db, cur, batch, now, keys, i, gone)
    ensures EXP_ID_AT < |keys[i]|
    ensures var id := keys[i][EXP_ID_AT..];
            if Has(db, id) && Get(db, id).expiresAt < now then
              && Fits(Get(db, id).job.createdAt)
              && Swept(was, db, CountStatus(cur.(db := cur.db - KeysOf(db, id)), Get(db, id).status, -1),
                       batch + KeysOf(db, id), now, keys, i + 1, gone + {id})
            else Swept(was, db, cur, batch, now, keys, i + 1, gone)
  {
    hide WellFormed, ExpOk, Fits, KeysOf, CountsOk, JobKey, ExpOf, ExpKey, Deletes, IdemOk, RecordIds, Lex.Less, KeysOfAll, AllFit;
    assert keys[i] in keys;
    var id := keys[i][EXP_ID_AT..];
    assert id in gone ==> false by {
      if id in gone {
        var m :| 0 <= m < i && EXP_ID_AT <= |keys[m]| && keys[m][EXP_ID_AT..] == id;
        MetOnce(was, now, keys, m, i);
      }
    }
    CurrentRecord(was, db, cur, batch, gone, id);
    if Has(db, id) && Get(db, id).expiresAt < now {
      var ks := KeysOfSame(was, db, cur, id);
      ProgressOne(was, cur, gone, id);
      KeysOfOneMore(was, gone, id);
      assert was - KeysOfAll(was, gone) - ks == was - (KeysOfAll(was, gone) + ks);
      assert db - batch - ks == db - (batch + ks);
      forall x | x !in gone + {id} ensures JobKey(x) !in batch + ks { OnlyItsKey(cur.db, id, x); }
    }
  }

  /** Outside the batch, the database is as the batch will leave it. */
  lemma CurrentRecord(was: Db, db: Db, cur: Store, batch: set<string>, gone: set<string>, id: string)
    requires Deletes(was, cur.db, gone) && cur.db == db - batch && id !in gone && JobKey(id) !in batch
    ensures Has(db, id) <==> Has(was, id)
    ensures Has(db, id) ==> Has(cur.db, id) && Get(db, id) == Get(was, id) && Get(cur.db, id) == Get(was, id)
  {
    hide JobKey;
  }

  lemma KeysOfSame(was: Db, db: Db, cur: Store, id: string) returns (ks: set<string>)
    requires WellFormed(was) && Has(db, id) && Has(cur.db, id) && Has(was, id)
    requires Get(db, id) == Get(was, id) && Get(cur.db, id) == Get(was, id)
    ensures Fits(Get(db, id).job.createdAt) && ks == KeysOf(db, id) && ks == KeysOf(cur.db, id) && ks == KeysOf(was, id)
  {
    KeysNulFree(was);
    hide WellFormed;
    ks := KeysOf(db, id);
  }

  lemma OnlyItsKey(db: Db, id: string, x: string)
    requires WellFormed(db) && Has(db, id) && Fits(Get(db, id).job.createdAt) && x != id
    ensures JobKey(x) !in KeysOf(db, id)
  {
    KeysNulFree(db);
    KeysGone(db, id, KeysOf(db, id));
  }

  /** Once every due key has been met, every expired record is gone. */
  lemma AllMet(was: Db, db: Db, cur: Store, batch: set<string>, now: int, keys: seq<string>, gone: set<string>)
    requires WellFormed(was) && ExpOk(was) && Fits(now)
    requires Swept(was, db, cur, batch, now, keys, |keys|, gone)
    requires Due(was, now, keys) && forall k :: k in keys <==> k in DueKeys(was, now)
    ensures gone == ExpiredIds(was, now)
  {
    hide WellFormed, ExpOk, Fits, Progress, DueKeys, ExpKey, Lex.Less, RecordIds;
    forall id | id in ExpiredIds(was, now) ensures id in gone {
      ExpiredIsDue(was, now, id);
      var m :| 0 <= m < |keys| && keys[m] == ExpKey(Get(was, id).expiresAt, id);
      ExpIdAt(Get(was, id).expiresAt, id);
    }
  }

  lemma ExpIdAt(e: int, id: string)
    requires Fits(e)
    ensures EXP_ID_AT <= |ExpKey(e, id)| && ExpKey(e, id)[EXP_ID_AT..] == id
  {
  }
}
