/** What a step leaves alone, and the steps of the clock and of the rest of the world. */
module PagedQueueFrames {
  import opened Jobs
  import opened Pages
  import opened PagedQueue
  import opened PagedQueueInv

  // ---- lists ----

  lemma {:induction false} LeftConcat(a: seq<Source>, b: seq<Source>)
    ensures Left(a + b) == Left(a) + Left(b)
    decreases |a|
  {
    if a == [] {
      assert a + b == b;
    } else {
      assert (a + b)[1..] == a[1..] + b;
      LeftConcat(a[1..], b);
    }
  }

  /** Replacing source `i` changes what is left by the difference. */
  lemma LeftUpdate(srcs: seq<Source>, i: nat, src: Source)
    requires i < |srcs|
    ensures Left(srcs[i := src]) == Left(srcs) - (srcs[i].reserved - srcs[i].consumed) + (src.reserved - src.consumed)
  {
    hide Left;
    LeftRemove(srcs, i);
    LeftRemove(srcs[i := src], i);
    assert srcs[i := src][..i] + srcs[i := src][i + 1..] == srcs[..i] + srcs[i + 1..];
  }

  lemma LeftRemove(srcs: seq<Source>, i: nat)
    requires i < |srcs|
    ensures Left(srcs[..i] + srcs[i + 1..]) == Left(srcs) - (srcs[i].reserved - srcs[i].consumed)
  {
    hide Left;
    assert srcs == srcs[..i] + ([srcs[i]] + srcs[i + 1..]);
    LeftConcat(srcs[..i], [srcs[i]] + srcs[i + 1..]);
    LeftConcat([srcs[i]], srcs[i + 1..]);
    LeftConcat(srcs[..i], srcs[i + 1..]);
    LeftOne(srcs[i]);
  }

  lemma LeftOne(src: Source)
    ensures Left([src]) == src.reserved - src.consumed && Left([]) == 0
  {
  }

  lemma {:induction false} LeftIsNatural(srcs: seq<Source>)
    requires forall src <- srcs :: src.consumed <= src.reserved
    ensures Left(srcs) >= 0
    decreases |srcs|
  {
    if srcs != [] {
      LeftIsNatural(srcs[1..]);
    }
  }

  lemma {:induction false} OwnSpillFinds(spills: seq<Source>, own: string)
    ensures OwnSpill(spills, own).Some? ==>
              exists src <- spills :: src.key == own && src.after == OwnSpill(spills, own).value
    ensures OwnSpill(spills, own).None? ==> forall src <- spills :: src.key != own
    decreases |spills|
  {
    if spills != [] && spills[0].key != own {
      OwnSpillFinds(spills[1..], own);
    }
  }

  lemma {:induction false} FilterKeeps<T>(s: seq<T>, keep: T -> bool)
    ensures forall x :: x in Filter(s, keep) <==> x in s && keep(x)
    decreases |s|
  {
    if s != [] {
      FilterKeeps(s[..|s| - 1], keep);
      assert s == s[..|s| - 1] + [s[|s| - 1]];
    }
  }

  lemma {:induction false} FilterDistinct(s: seq<Job>, keep: Job -> bool)
    requires Distinct(s)
    ensures Distinct(Filter(s, keep))
    decreases |s|
  {
    if s != [] {
      var init := s[..|s| - 1];
      FilterDistinct(init, keep);
      FilterKeeps(init, keep);
      forall k | 0 <= k < |Filter(init, keep)| ensures Filter(init, keep)[k].id != s[|s| - 1].id {
        assert Filter(init, keep)[k] in init;
      }
    }
  }

  lemma {:induction false} FilterDistinctWaiting(s: seq<Waiting>, keep: Waiting -> bool)
    requires DistinctWaiting(s)
    ensures DistinctWaiting(Filter(s, keep))
    decreases |s|
  {
    if s != [] {
      var init := s[..|s| - 1];
      FilterDistinctWaiting(init, keep);
      FilterKeeps(init, keep);
      forall k | 0 <= k < |Filter(init, keep)| ensures Filter(init, keep)[k].job.id != s[|s| - 1].job.id {
        assert Filter(init, keep)[k] in init;
      }
    }
  }

  // ---- sources seen from two states ----

  predicate Live(s: State, id: string) {
    id in s.rows && Pending(s.rows[id].status) && s.now < s.rows[id].expiresAt
  }

  /** Row `id` of the later state was already there, held the same way or now in memory. */
  predicate RowKept(s: State, t: State, id: string)
    requires id in t.rows
  {
    && Live(s, id)
    && s.rows[id].job == t.rows[id].job
    && s.rows[id].key == t.rows[id].key
    && (id in s.owed <==> id in t.owed)
    && (id in s.present ==> id in t.present)
  }

  /** Row `id` is owed, and no reserved count of `src` stands for it. */
  predicate Settled(t: State, src: Source, id: string)
    requires id in t.rows
  {
    id in t.owed && (Covers(src.after, t.rows[id].job) || !Countable(src, t.rows[id].job))
  }

  lemma SourceKept(s: State, t: State, src: Source)
    requires SourceOk(s, src)
    requires forall id <- t.rows :: Live(t, id) && t.rows[id].key == src.key ==> RowKept(s, t, id) || Settled(t, src, id)
    ensures SourceOk(t, src)
  {
    Smaller(Counted(t, src), Counted(s, src));
  }

  lemma Smaller<T>(a: set<T>, b: set<T>)
    requires a <= b
    ensures |a| <= |b|
  {
    assert b == a + (b - a);
  }

  lemma SourcesKept(s: State, t: State)
    requires SourcesOk(s) && Sources(s) == Sources(t)
    requires forall id <- t.rows, src <- Sources(t) :: Live(t, id) && t.rows[id].key == src.key ==>
               RowKept(s, t, id) || Settled(t, src, id)
    ensures SourcesOk(t)
  {
    forall src | src in Sources(t) ensures SourceOk(t, src) {
      SourceKept(s, t, src);
    }
  }

  // ---- frames: what a step leaves alone ----

  /** Row `id` is untouched, or gone. */
  predicate RowSame(s: State, t: State, id: string) {
    id in t.rows ==> id in s.rows && t.rows[id] == s.rows[id]
  }

  /** Row `id` holds the same job, and is pending if it was, or is gone. */
  predicate RowAlike(s: State, t: State, id: string) {
    id in t.rows ==> id in s.rows && t.rows[id].job == s.rows[id].job
                     && (Pending(t.rows[id].status) <==> Pending(s.rows[id].status))
  }

  lemma MemoryKept(c: Config, s: State, t: State)
    requires SingleCopy(c, s) && MemoryOk(s)
    requires t.queue == s.queue && t.waiting == s.waiting && t.flying == s.flying
    requires forall id <- s.present :: RowAlike(s, t, id)
    ensures MemoryOk(t)
  {
    hide Distinct, DistinctWaiting, Known;
    forall j | j in t.queue ensures HeldOk(t.rows, j) {
      assert HeldOk(s.rows, j) && j.id in Ids(s.queue);
      HeldKept(s, t, j);
    }
    forall w | w in t.waiting ensures HeldOk(t.rows, w.job) {
      assert HeldOk(s.rows, w.job) && w.job.id in WaitingIds(s.waiting);
      HeldKept(s, t, w.job);
    }
    forall id | id in t.flying ensures FlightOk(t.rows, t.flying[id]) {
      assert FlightOk(s.rows, s.flying[id]) && s.flying[id].job.id == id;
      FlightKept(s, t, s.flying[id]);
    }
  }

  lemma HeldKept(s: State, t: State, j: Job)
    requires HeldOk(s.rows, j) && RowAlike(s, t, j.id)
    ensures HeldOk(t.rows, j)
  {
  }

  lemma FlightKept(s: State, t: State, f: Flight)
    requires FlightOk(s.rows, f) && RowAlike(s, t, f.job.id)
    ensures FlightOk(t.rows, f)
  {
  }

  /** A job not held joins the queue. */
  lemma AppendSingle(s: State, j: Job)
    requires SingleCopies(s.queue, s.waiting, s.flying, s.present) && j.id !in s.present
    ensures SingleCopies(s.queue + [j], s.waiting, s.flying, s.present + {j.id})
  {
    var q := s.queue + [j];
    forall i, k | 0 <= i < k < |q| ensures q[i].id != q[k].id {
      if k == |s.queue| { assert q[i] in s.queue; }
    }
    forall id ensures id in Ids(q) <==> id in Ids(s.queue) + {j.id} {
      if id in Ids(s.queue) {
        var x :| x in s.queue && x.id == id;
        assert x in q;
      }
      assert j in q;
    }
    assert Ids(q) == Ids(s.queue) + {j.id};
  }

  lemma AppendHeld(c: Config, s: State, t: State, j: Job)
    requires SingleCopy(c, s) && MemoryOk(s) && DeadlineOk(s)
    requires j.id !in s.present && HeldOk(s.rows, j)
    requires t.rows == s.rows && t.waiting == s.waiting && t.flying == s.flying
    requires t.queue == s.queue + [j] && t.present == s.present + {j.id} && t.nextDeadline == Track(s.nextDeadline, j)
    ensures SingleCopy(c, t) && MemoryOk(t) && DeadlineOk(t)
  {
    hide HeldOk, FlightOk, SingleCopies, CacheBelow, Track;
    AppendSingle(s, j);
    TrackKeeps(s.queue, s.nextDeadline, j);
    forall x | x in t.queue ensures HeldOk(t.rows, x) {
      if x != j { assert x in s.queue; }
    }
  }

  lemma TrackKeeps(q: seq<Job>, next: int, j: Job)
    requires CacheBelow(q, next)
    ensures CacheBelow(q + [j], Track(next, j))
  {
    hide QueueDeadline;
    forall x | x in q + [j] && QueueDeadline(x) > 0 ensures 0 < Track(next, j) <= QueueDeadline(x) {
      if x != j { assert x in q; }
    }
  }

  /** Sources of the queue's own key only move forward. */
  ghost predicate Advanced(own: string, a: seq<Source>, b: seq<Source>) {
    forall y <- b :: y.key == own ==> exists x <- a :: Follows(x, y)
  }

  ghost predicate Follows(x: Source, y: Source) {
    && x.key == y.key && x.cutoff == y.cutoff && x.consumedThrough == y.consumedThrough
    && forall j :: Covers(x.after, j) ==> Covers(y.after, j)
  }

  lemma AdvancedIfSame(own: string, a: seq<Source>)
    ensures Advanced(own, a, a)
  {
    forall y | y in a ensures Follows(y, y) {}
  }

  /** Nothing about a hand-off changed but the clock. */
  predicate HandoffSame(s: State, t: State, h: Handoff) {
    var id := h.job.id;
    && RowSame(s, t, id)
    && (id in s.owed <==> id in t.owed)
    && (id in s.present <==> id in t.present)
    && (Fresh(h) ==> id in t.rows && s.now <= t.now < h.since + RECENT_PAGE_WINDOW)
  }

  lemma HandoffKept(c: Config, s: State, t: State, h: Handoff)
    requires HandoffOk(c, s, h) && HandoffSame(s, t, h)
    requires Advanced(c.own, Sources(s), Sources(t)) && s.pagedOwnUntil <= t.pagedOwnUntil
    ensures HandoffOk(c, t, h)
  {
    hide Covers, QueueDeadline, Fresh;
  }

  lemma HandoffsKept(c: Config, s: State, t: State)
    requires HandoffsOk(c, s)
    requires t.outstanding == s.outstanding && t.channel == s.channel
    requires Sources(t) == Sources(s) && s.pagedOwnUntil == t.pagedOwnUntil && s.now <= t.now
    requires forall id <- s.outstanding :: HandoffSame(s, t, s.outstanding[id])
    ensures HandoffsOk(c, t)
  {
    hide HandoffOk, HandoffSame;
    AdvancedIfSame(c.own, Sources(s));
    forall id | id in t.outstanding ensures HandoffOk(c, t, t.outstanding[id]) {
      HandoffKept(c, s, t, s.outstanding[id]);
    }
  }

  /** A fresh hand-off's row cannot have expired, or be deleted, before it arrives. */
  lemma HandoffRow(c: Config, s: State, id: string)
    requires HandoffsOk(c, s) && id in s.outstanding
    ensures s.outstanding[id].job.id == id
    ensures Fresh(s.outstanding[id]) ==> s.now < s.outstanding[id].since + RECENT_PAGE_WINDOW
    ensures Fresh(s.outstanding[id]) ==> id in s.rows && s.rows[id].expiresAt > s.now
  {
    assert HandoffOk(c, s, s.outstanding[id]);
  }

  lemma OwedKept(c: Config, s: State, t: State)
    requires OwedOk(c, s)
    requires t.owed == s.owed && t.present == s.present && t.outstanding == s.outstanding
    requires Sources(t) == Sources(s) && t.safeUntil == s.safeUntil
    requires Sources(t) != [] ==> t.now < t.safeUntil
    requires forall id <- s.owed :: id !in s.present && id !in s.outstanding ==> id in t.rows && RowSame(s, t, id)
    ensures OwedOk(c, t)
  {
    hide AheadOnDisk;
    forall id | id in t.owed && id !in t.present && id !in t.outstanding ensures OnDisk(c, t, id) {
      assert OnDisk(c, s, id);
    }
  }

  lemma NoneLostKept(c: Config, s: State, t: State)
    requires NoneLost(c, s)
    requires t.present == s.present && t.outstanding == s.outstanding && Sources(t) == Sources(s)
    requires forall id <- t.rows :: t.rows[id].key == c.own && Live(t, id) ==> RowSame(s, t, id) && Live(s, id)
    ensures NoneLost(c, t)
  {
    hide AheadOnDisk;
  }

  // ---- time and the rest of the world ----

  /**
   * Time passes. Two hypotheses: a fresh hand-off is received within the recent-page window, and
   * while jobs are on disk the run loop sweeps at least once a grace period.
   */
  ghost predicate CanTick(s: State, to: int) {
    && s.now <= to
    && (forall id <- s.outstanding :: Fresh(s.outstanding[id]) ==> to < s.outstanding[id].since + RECENT_PAGE_WINDOW)
    && (Sources(s) != [] ==> to < s.safeUntil)
  }

  function Tick(s: State, to: int): State { s.(now := to) }

  lemma TickKeeps(c: Config, s: State, to: int)
    requires Inv(c, s) && CanTick(s, to)
    ensures Inv(c, Tick(s, to))
  {
    hide SingleCopies, CacheBelow, MemoryOk, SourcesOk, HandoffsOk, OnDisk, NoneLost, Left, Fresh, RowOk;
    var t := Tick(s, to);
    SourcesKept(s, t);
    MemoryKept(c, s, t);
    forall id | id in s.outstanding ensures HandoffSame(s, t, s.outstanding[id]) { HandoffRow(c, s, id); }
    HandoffsKept(c, s, t);
    forall id | id in s.owed && id !in s.present && id !in s.outstanding ensures id in t.rows { OwedRowIsOnDisk(c, s, id); }
    OwedKept(c, s, t);
    NoneLostKept(c, s, t);
  }

  /** Another queue, or intake, writes a row: never one this queue owes, never under a key it reads. */
  ghost predicate CanPutRow(c: Config, s: State, r: Row) {
    && r.job.id !in s.owed && r.job.id !in s.outstanding
    && r.key != c.own
    && (forall src <- Sources(s) :: src.key != r.key)
    && RowOk(r)
  }

  function PutRow(s: State, r: Row): State { s.(rows := s.rows[r.job.id := r]) }

  lemma PutRowKeeps(c: Config, s: State, r: Row)
    requires Inv(c, s) && CanPutRow(c, s, r)
    ensures Inv(c, PutRow(s, r))
  {
    hide SingleCopies, CacheBelow, MemoryOk, SourcesOk, HandoffsOk, OnDisk, NoneLost, Left, Fresh, RowOk;
    var t := PutRow(s, r);
    SourcesKept(s, t);
    MemoryKept(c, s, t);
    forall id | id in s.outstanding ensures HandoffSame(s, t, s.outstanding[id]) { HandoffRow(c, s, id); }
    HandoffsKept(c, s, t);
    forall id | id in s.owed && id !in s.present && id !in s.outstanding ensures id in t.rows { OwedRowIsOnDisk(c, s, id); }
    OwedKept(c, s, t);
    NoneLostKept(c, s, t);
  }

  lemma OwedRowIsOnDisk(c: Config, s: State, id: string)
    requires OwedOk(c, s) && id in s.owed && id !in s.present && id !in s.outstanding
    ensures OnDisk(c, s, id) && s.now < s.safeUntil <= s.rows[id].expiresAt
  {
    assert OnDisk(c, s, id);
  }

  /** Cleanup deletes an expired row, or a pending row nobody owes is deleted or moved away. */
  ghost predicate CanDropRow(s: State, id: string) {
    && id in s.rows
    && (s.rows[id].expiresAt < s.now || (Pending(s.rows[id].status) && id !in s.owed && id !in s.outstanding))
  }

  function DropRow(s: State, id: string): State { s.(rows := s.rows - {id}) }

  lemma BacklogSame(s: State, t: State)
    requires BacklogExact(s) && t.backlog == s.backlog && t.owed == s.owed && Sources(t) == Sources(s)
    ensures BacklogExact(t)
  {
  }

  lemma DropRowKeeps(c: Config, s: State, id: string)
    requires Inv(c, s) && CanDropRow(s, id)
    ensures Inv(c, DropRow(s, id))
  {
    hide SingleCopies, CacheBelow, MemoryOk, SourcesOk, HandoffsOk, OnDisk, NoneLost, Left, Fresh, RowOk, BacklogExact;
    var t := DropRow(s, id);
    assert BacklogExact(t) by { BacklogSame(s, t); }
    SourcesKept(s, t);
    MemoryKept(c, s, t);
    forall x | x in s.outstanding ensures HandoffSame(s, t, s.outstanding[x]) { HandoffRow(c, s, x); }
    HandoffsKept(c, s, t);
    forall x | x in s.owed && x !in s.present && x !in s.outstanding ensures x in t.rows { OwedRowIsOnDisk(c, s, x); }
    OwedKept(c, s, t);
    NoneLostKept(c, s, t);
  }
}
