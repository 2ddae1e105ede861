/** Sweeping keeps the invariant, and leaves no row on disk that cleanup could reach within a grace period. */
module PagedQueueSweeps {
  import opened Jobs
  import opened Pages
  import opened PagedQueue
  import opened PagedQueueInv
  import opened PagedQueueFrames
  import opened PagedQueuePaging

  /** `j` is a live row, a day old, past the cursor of source `i`. */
  ghost predicate Sweepable(s: State, i: nat, j: Job) {
    && i < |s.spills|
    && j.id in s.rows && s.rows[j.id].job == j
    && Qualifies(s.rows[j.id], s.spills[i].key, s.spills[i].after, SweepBound(s), s.now)
  }

  predicate Fails(s: State, j: Job) { j.id !in s.present && QueueExpired(j, s.now) }

  /** Source `i` after the sweep failed its row `j`. */
  function Charged(src: Source, j: Job): Source {
    src.(consumed := if Counts(src, j) then src.consumed + 1 else src.consumed)
  }

  lemma SweepOneKeeps(c: Config, s: State, i: nat, j: Job)
    requires Inv(c, s) && Sweepable(s, i, j)
    ensures Inv(c, SweepOne(s, i, j))
  {
    hide RowsOk, SingleCopies, CacheBelow, MemoryOk, SourcesOk, HandoffsOk, OnDisk, NoneLost, Left, Qualifies, Counts, Covers;
    hide QueueExpired;
    if Fails(s, j) {
      var t := SweepOne(s, i, j);
      SweepOneRows(s, i, j);
      MemoryKept(c, s, t);
      SweepOneSources(s, i, j);
      SweepOneHandoffs(c, s, i, j);
      SweepOneLocations(c, s, i, j);
      SweepOneBacklog(s, i, j);
    }
  }

  lemma SweepOneRows(s: State, i: nat, j: Job)
    requires RowsOk(s) && i < |s.spills|
    ensures RowsOk(SweepOne(s, i, j))
  {
    hide QueueDeadline;
    forall x | x in s.rows ensures RowOk(SweepOne(s, i, j).rows[x]) { assert RowOk(s.rows[x]); }
  }

  lemma SweepOneSourceList(s: State, i: nat, j: Job)
    requires i < |s.spills| && Fails(s, j)
    ensures Sources(SweepOne(s, i, j)) == Sources(s)[i := Charged(s.spills[i], j)]
    ensures Sources(s)[i] == s.spills[i]
  {
  }

  lemma SweepOneSources(s: State, i: nat, j: Job)
    requires SourcesOk(s) && Sweepable(s, i, j) && Fails(s, j)
    ensures SourcesOk(SweepOne(s, i, j))
  {
    hide SourceOk, Counts, Covers, QueueExpired;
    var t := SweepOne(s, i, j);
    SweepOneSourceList(s, i, j);
    ChargedIsOk(s, i, j);
    forall k | 0 <= k < |Sources(t)| ensures SourceOk(t, Sources(t)[k]) {
      if k != i {
        assert Sources(t)[k] == Sources(s)[k] && Sources(s)[k] in Sources(s);
        SourceKept(s, t, Sources(s)[k]);
      }
    }
  }

  lemma ChargedIsOk(s: State, i: nat, j: Job)
    requires SourcesOk(s) && Sweepable(s, i, j) && Fails(s, j)
    ensures SourceOk(SweepOne(s, i, j), Charged(s.spills[i], j))
  {
    hide Covers, QueueExpired;
    var t := SweepOne(s, i, j);
    var src := s.spills[i];
    assert src in Sources(s) && SourceOk(s, src);
    CountedWhenUnowed(s, src, j);
    assert Counted(t, Charged(src, j)) <= Counted(s, src) - {j.id};
    Smaller(Counted(t, Charged(src, j)), Counted(s, src) - {j.id});
  }

  /** A row the sweep reaches has no hand-off on the way. */
  lemma SweptIsNotOutstanding(c: Config, s: State, i: nat, j: Job)
    requires RowsOk(s) && SourcesOk(s) && HandoffsOk(c, s) && Sweepable(s, i, j)
    ensures j.id !in s.outstanding
  {
    hide Covers, Counted;
    assert s.spills[i] in Sources(s) && SourceOk(s, s.spills[i]);
    assert j.id in s.outstanding ==> HandoffOk(c, s, s.outstanding[j.id]);
  }

  lemma SweepOneHandoffs(c: Config, s: State, i: nat, j: Job)
    requires RowsOk(s) && SourcesOk(s) && HandoffsOk(c, s) && Sweepable(s, i, j) && Fails(s, j)
    ensures HandoffsOk(c, SweepOne(s, i, j))
  {
    hide HandoffOk, Fresh, Counts, Covers, SourceOk, QueueExpired, Qualifies, RowOk;
    var t := SweepOne(s, i, j);
    SweptIsNotOutstanding(c, s, i, j);
    SweepOneSourceList(s, i, j);
    forall y | y in Sources(t) ensures exists x <- Sources(s) :: Follows(x, y) {
      var k :| 0 <= k < |Sources(t)| && Sources(t)[k] == y;
      assert Sources(s)[k] in Sources(s) && Follows(Sources(s)[k], y);
    }
    forall x | x in s.outstanding ensures HandoffSame(s, t, s.outstanding[x]) { HandoffRow(c, s, x); }
    forall x | x in t.outstanding ensures HandoffOk(c, t, t.outstanding[x]) { HandoffKept(c, s, t, s.outstanding[x]); }
  }

  lemma SweepOneLocations(c: Config, s: State, i: nat, j: Job)
    requires OwedOk(c, s) && NoneLost(c, s) && Sweepable(s, i, j) && Fails(s, j)
    ensures OwedOk(c, SweepOne(s, i, j)) && NoneLost(c, SweepOne(s, i, j))
  {
    hide Counts, Covers, QueueExpired, Qualifies, AheadOnDisk;
    var t := SweepOne(s, i, j);
    SweepOneSourceList(s, i, j);
    forall x | x in s.rows && AheadOnDisk(c.own, Sources(s), s.rows[x].job) ensures AheadOnDisk(c.own, Sources(t), s.rows[x].job) {
      SameCursors(c.own, Sources(s), i, Charged(s.spills[i], j), s.rows[x].job);
    }
    forall x | x in t.owed && x !in t.present && x !in t.outstanding ensures OnDisk(c, t, x) {
      assert OnDisk(c, s, x);
    }
  }

  lemma SameCursors(own: string, srcs: seq<Source>, i: nat, src: Source, j: Job)
    requires i < |srcs| && src.key == srcs[i].key && src.after == srcs[i].after
    requires AheadOnDisk(own, srcs, j)
    ensures AheadOnDisk(own, srcs[i := src], j)
  {
    hide Covers;
    var x :| x in srcs && x.key == own && !Covers(x.after, j);
    var k :| 0 <= k < |srcs| && srcs[k] == x;
    assert srcs[i := src][k] in srcs[i := src];
  }

  /** A row failed on disk gives back the single count that stands for it, wherever that was taken. */
  lemma SweepOneBacklog(s: State, i: nat, j: Job)
    requires SourcesOk(s) && BacklogExact(s) && Sweepable(s, i, j) && Fails(s, j)
    ensures BacklogExact(SweepOne(s, i, j))
  {
    hide Covers, Counts, SourceOk, Counted, QueueExpired;
    var src := s.spills[i];
    assert src in Sources(s);
    SweepOneSourceList(s, i, j);
    CountedWhenUnowed(s, src, j);
    LeftUpdate(Sources(s), i, Charged(src, j));
    if j.id !in s.owed {
      assert s.owed - {j.id} == s.owed;
    }
  }

  // ---- a whole source ----

  /** What sweeping some rows of a source leaves alone. */
  ghost predicate SweepFrame(s: State, t: State) {
    && t.now == s.now && t.present == s.present && t.outstanding == s.outstanding && t.pendingSpills == s.pendingSpills
    && t.lastSweep == s.lastSweep && t.safeUntil == s.safeUntil
    && |t.spills| == |s.spills|
    && (forall k :: 0 <= k < |s.spills| ==> t.spills[k].key == s.spills[k].key && t.spills[k].after == s.spills[k].after)
    && t.rows.Keys == s.rows.Keys
    && (forall id <- t.rows :: t.rows[id].job == s.rows[id].job)
    && (forall id <- t.rows :: Pending(t.rows[id].status) ==> t.rows[id] == s.rows[id])
  }

  lemma SweepOneFrame(s: State, i: nat, j: Job)
    requires i < |s.spills|
    ensures SweepFrame(s, SweepOne(s, i, j))
    ensures var t := SweepOne(s, i, j); forall id <- s.rows :: id != j.id ==> id in t.rows && t.rows[id] == s.rows[id]
    ensures j.id in s.rows && Fails(s, j) ==> RowOver(SweepOne(s, i, j), j.id)
  {
    hide QueueExpired;
  }

  lemma {:induction false} SweepAllKeeps(c: Config, s: State, i: nat, js: seq<Job>)
    requires Inv(c, s) && i < |s.spills| && Distinct(js)
    requires forall j <- js :: Sweepable(s, i, j)
    ensures Inv(c, SweepAll(s, i, js)) && SweepFrame(s, SweepAll(s, i, js))
    ensures forall j <- js :: Fails(s, j) ==> RowOver(SweepAll(s, i, js), j.id)
    decreases |js|
  {
    hide Inv, Fails, SweepFrame, Sweepable, RowOver;
    if js == [] {
      FrameSelf(s);
    } else {
      var j := js[0];
      var t := SweepOne(s, i, j);
      hide SweepOne;
      SweepOneKeeps(c, s, i, j);
      SweepOneFrame(s, i, j);
      assert j.id in s.rows by { InRows(s, i, j); }
      FrameSize(s, t);
      forall x | x in js[1..] ensures Sweepable(t, i, x) {
        assert x in js && x.id != j.id;
        StaysSweepable(s, t, i, j, x);
      }
      SweepAllKeeps(c, t, i, js[1..]);
      var u := SweepAll(t, i, js[1..]);
      FrameTrans(s, t, u);
      forall x | x in js && Fails(s, x) ensures RowOver(u, x.id) {
        SameFails(s, t, x);
        if x == j { StaysOver(t, u, x.id); } else { assert x in js[1..]; }
      }
    }
  }

  predicate RowOver(s: State, id: string) { id in s.rows && !Pending(s.rows[id].status) }

  lemma FrameSelf(s: State)
    ensures SweepFrame(s, s)
  {
  }

  lemma FrameSize(s: State, t: State)
    requires SweepFrame(s, t)
    ensures |t.spills| == |s.spills|
  {
  }

  lemma FrameTrans(s: State, t: State, u: State)
    requires SweepFrame(s, t) && SweepFrame(t, u)
    ensures SweepFrame(s, u)
  {
  }

  lemma StaysOver(t: State, u: State, id: string)
    requires SweepFrame(t, u) && RowOver(t, id)
    ensures RowOver(u, id)
  {
    assert id in u.rows;
  }

  lemma StaysSweepable(s: State, t: State, i: nat, j: Job, x: Job)
    requires SweepFrame(s, t) && Sweepable(s, i, x) && x.id != j.id
    requires forall id <- s.rows :: id != j.id ==> id in t.rows && t.rows[id] == s.rows[id]
    ensures Sweepable(t, i, x)
  {
  }

  lemma SameFails(s: State, t: State, x: Job)
    requires SweepFrame(s, t)
    ensures Fails(t, x) == Fails(s, x)
  {
  }

  lemma InRows(s: State, i: nat, j: Job)
    requires Sweepable(s, i, j)
    ensures j.id in s.rows
  {
  }

  /** The list a sweep reads is exactly the sweepable rows, each once. */
  lemma SweepListReads(s: State, i: nat)
    requires i < |s.spills| && WellKeyed(s.rows)
    ensures Distinct(SweepList(s, i))
    ensures forall j :: j in SweepList(s, i) <==> Sweepable(s, i, j)
  {
    hide Covers;
    var js := Matching(s.rows, s.spills[i].key, s.spills[i].after, SweepBound(s), s.now);
    var list := SweepList(s, i);
    SortedIsIncreasing(js);
    forall a, b | 0 <= a < b < |list| ensures list[a].id != list[b].id {
      assert list[a] in js && list[b] in js;
      BeforeIsOrder(list[a], list[b], list[b]);
    }
  }

  /** Nothing past the cursor of source `k` is left that a sweep should have failed. */
  ghost predicate Cleared(s: State, k: nat) {
    forall j :: Sweepable(s, k, j) ==> !Fails(s, j)
  }

  lemma SweepAllClears(c: Config, s: State, i: nat)
    requires Inv(c, s) && i < |s.spills| && WellKeyed(s.rows)
    ensures var t := SweepAll(s, i, SweepList(s, i));
            Inv(c, t) && SweepFrame(s, t) && Cleared(t, i)
  {
    hide Inv, Fails, SweepList, SweepAll, Qualifies;
    SweepListReads(s, i);
    SweepAllKeeps(c, s, i, SweepList(s, i));
    var t := SweepAll(s, i, SweepList(s, i));
    forall j | Sweepable(t, i, j) ensures !Fails(t, j) {
      WasSweepable(s, t, i, j);
      SameFails(s, t, j);
      assert j in SweepList(s, i);
      assert Pending(t.rows[j.id].status) by { SweepablePends(t, i, j); }
    }
  }

  lemma SweepablePends(s: State, i: nat, j: Job)
    requires Sweepable(s, i, j)
    ensures Pending(s.rows[j.id].status)
  {
  }

  lemma WasSweepable(s: State, t: State, i: nat, j: Job)
    requires SweepFrame(s, t) && Sweepable(t, i, j)
    ensures Sweepable(s, i, j)
  {
    assert s.rows[j.id] == t.rows[j.id];
  }

  lemma {:induction false} SweepFromKeeps(c: Config, s: State, i: nat)
    requires Inv(c, s) && i <= |s.spills| && WellKeyed(s.rows)
    requires forall k :: 0 <= k < i ==> Cleared(s, k)
    ensures var t := SweepFrom(s, i);
            Inv(c, t) && SweepFrame(s, t) && forall k :: 0 <= k < |s.spills| ==> Cleared(t, k)
    decreases |s.spills| - i
  {
    hide Inv, Cleared, SweepFrame, SweepList, SweepAll;
    if i == |s.spills| {
      FrameSelf(s);
    } else {
      SweepAllKeepsKeys(s, i, SweepList(s, i));
      SweepAllClears(c, s, i);
      var t := SweepAll(s, i, SweepList(s, i));
      FrameSize(s, t);
      forall k | 0 <= k < i ensures Cleared(t, k) { StaysCleared(s, t, k); }
      SweepFromKeeps(c, t, i + 1);
      FrameTrans(s, t, SweepFrom(t, i + 1));
    }
  }

  lemma StaysCleared(s: State, t: State, k: nat)
    requires SweepFrame(s, t) && Cleared(s, k)
    ensures Cleared(t, k)
  {
    hide Fails, Sweepable;
    forall j | Sweepable(t, k, j) ensures !Fails(t, j) {
      WasSweepable(s, t, k, j);
      SameFails(s, t, j);
    }
  }

  /** A row still owed on disk after a sweep outlives the next grace period. */
  lemma SweptRowsLast(c: Config, s: State, id: string)
    requires RowsOk(s) && OwedOk(c, s) && s.pendingSpills == []
    requires forall k :: 0 <= k < |s.spills| ==> Cleared(s, k)
    requires id in s.owed && id !in s.present && id !in s.outstanding
    ensures OnDisk(c, s, id) && s.rows[id].expiresAt >= s.now + PENDING_ROW_GRACE
  {
    hide Covers;
    assert OnDisk(c, s, id);
    var j := s.rows[id].job;
    var src :| src in Sources(s) && src.key == c.own && !Covers(src.after, j);
    var k :| 0 <= k < |s.spills| && s.spills[k] == src;
    assert RowOk(s.rows[id]) && j.id == id;
    if j.createdAt < SweepBound(s) {
      assert Sweepable(s, k, j) && Cleared(s, k);
      assert !Fails(s, j);
    }
  }

  lemma SweepKeeps(c: Config, s: State)
    requires Inv(c, s) && WellKeyed(s.rows)
    ensures Inv(c, Sweep(s))
  {
    hide RowsOk, SingleCopies, CacheBelow, MemoryOk, SourcesOk, HandoffsOk, OwedOk, NoneLost, Left, SweepFrom, SweepFrame, Cleared;
    if s.spills != [] && s.now - s.lastSweep >= SPILL_SWEEP_EVERY {
      SweepFromKeeps(c, s, 0);
      StampKeeps(c, s, SweepFrom(s, 0));
    }
  }

  lemma StampKeeps(c: Config, s: State, t: State)
    requires Inv(c, t) && SweepFrame(s, t)
    requires forall k :: 0 <= k < |s.spills| ==> Cleared(t, k)
    ensures Inv(c, t.(lastSweep := s.now,
                      safeUntil := if s.pendingSpills == [] then s.now + PENDING_ROW_GRACE else s.safeUntil))
  {
    hide SingleCopies, CacheBelow, MemoryOk, SourcesOk, HandoffsOk, NoneLost, Left, RowOk, OnDisk, Cleared;
    var u := t.(lastSweep := s.now,
                safeUntil := if s.pendingSpills == [] then s.now + PENDING_ROW_GRACE else s.safeUntil);
    MemoryKept(c, t, u);
    SourcesKept(t, u);
    forall id | id in t.outstanding ensures HandoffSame(t, u, t.outstanding[id]) { HandoffRow(c, t, id); }
    HandoffsKept(c, t, u);
    NoneLostKept(c, t, u);
    forall id | id in u.owed && id !in u.present && id !in u.outstanding ensures OnDisk(c, u, id) {
      OwedRowIsOnDisk(c, t, id);
      if s.pendingSpills == [] { SweptRowsLast(c, t, id); }
      StampOnDisk(c, t, u, id);
    }
  }

  lemma StampOnDisk(c: Config, t: State, u: State, id: string)
    requires OnDisk(c, t, id) && u.rows == t.rows && Sources(u) == Sources(t)
    requires t.rows[id].expiresAt >= u.safeUntil
    ensures OnDisk(c, u, id)
  {
  }
}
