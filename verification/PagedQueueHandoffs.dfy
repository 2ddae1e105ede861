/** Reserving, keying, sending and receiving a hand-off keep the invariant. */
module PagedQueueHandoffs {
  import opened Jobs
  import opened Pages
  import opened PagedQueue
  import opened PagedQueueInv
  import opened PagedQueueFrames

  /**
   * A job is reserved once, soon after it is stored and before its row has a key. Hypothesis: it was
   * created at or after the cutoff of any source of the queue's own key.
   */
  ghost predicate CanReserve(c: Config, s: State, j: Job) {
    && j.id !in s.owed && j.id !in s.outstanding
    && j.id in s.rows && s.rows[j.id].job == j && s.rows[j.id].status == Queued && s.rows[j.id].key == ""
    && Fresh(Handoff(j, s.now, false))
    && (forall src <- Sources(s) :: src.key == c.own ==> j.createdAt >= src.cutoff)
  }

  lemma ReserveKeeps(c: Config, s: State, j: Job)
    requires Inv(c, s) && CanReserve(c, s, j)
    ensures Inv(c, Reserve(s, j))
  {
    hide RowsOk, SingleCopies, CacheBelow, MemoryOk, SourcesOk, HandoffsOk, OwedOk, NoneLost, Left, CanReserve;
    var t := Reserve(s, j);
    assert RowsOk(t) by { RowsSame(s, t); }
    MemoryKept(c, s, t);
    ReserveSources(c, s, j);
    ReserveHandoffs(c, s, j);
    ReserveOwed(c, s, j);
    OutstandingGrows(c, s, t);
    assert j.id !in s.owed by { NotYetOwed(c, s, j); }
  }

  lemma RowsSame(s: State, t: State)
    requires RowsOk(s) && t.rows == s.rows && t.now == s.now && t.safeUntil == s.safeUntil
    ensures RowsOk(t)
  {
  }

  lemma NotYetOwed(c: Config, s: State, j: Job)
    requires CanReserve(c, s, j)
    ensures j.id !in s.owed
  {
  }

  lemma ReserveSources(c: Config, s: State, j: Job)
    requires SourcesOk(s) && CanReserve(c, s, j)
    ensures SourcesOk(Reserve(s, j))
  {
    hide Counted, Fresh, Covers, QueueDeadline;
    forall src | src in Sources(s) ensures src.key != "" { assert SourceOk(s, src); }
    SourcesKept(s, Reserve(s, j));
  }

  lemma ReserveHandoffs(c: Config, s: State, j: Job)
    requires RowsOk(s) && HandoffsOk(c, s) && OwedOk(c, s) && CanReserve(c, s, j)
    ensures HandoffsOk(c, Reserve(s, j))
  {
    hide HandoffOk, OnDisk, Fresh, RowOk;
    var t := Reserve(s, j);
    ReservedIsOk(c, s, j);
    AdvancedIfSame(c.own, Sources(s));
    forall x | x in s.outstanding && x != j.id ensures HandoffSame(s, t, s.outstanding[x]) { HandoffRow(c, s, x); }
    OthersKept(c, s, t, j.id);
  }

  lemma ReserveOwed(c: Config, s: State, j: Job)
    requires OwedOk(c, s)
    ensures OwedOk(c, Reserve(s, j))
  {
    hide AheadOnDisk;
    var t := Reserve(s, j);
    forall id | id in t.owed && id !in t.present && id !in t.outstanding ensures OnDisk(c, t, id) {
      assert OnDisk(c, s, id);
    }
  }

  lemma ReservedIsOk(c: Config, s: State, j: Job)
    requires RowsOk(s) && CanReserve(c, s, j) && s.present <= s.owed
    ensures HandoffOk(c, Reserve(s, j), Handoff(j, s.now, false))
  {
    assert RowOk(s.rows[j.id]);
  }

  /** Every hand-off but `id` is as it was. */
  lemma OthersKept(c: Config, s: State, t: State, id: string)
    requires HandoffsOk(c, s)
    requires t.outstanding.Keys <= s.outstanding.Keys + {id}
    requires forall x <- t.outstanding :: x != id ==> t.outstanding[x] == s.outstanding[x]
    requires forall x <- s.outstanding :: x != id ==> HandoffSame(s, t, s.outstanding[x])
    requires Advanced(c.own, Sources(s), Sources(t)) && s.pagedOwnUntil <= t.pagedOwnUntil
    ensures forall x <- t.outstanding :: x != id ==> t.outstanding[x].job.id == x && HandoffOk(c, t, t.outstanding[x])
  {
    hide HandoffOk, HandoffSame, Advanced;
    forall x | x in t.outstanding && x != id ensures HandoffOk(c, t, t.outstanding[x]) {
      HandoffKept(c, s, t, s.outstanding[x]);
    }
  }

  lemma OutstandingGrows(c: Config, s: State, t: State)
    requires NoneLost(c, s)
    requires t.rows == s.rows && t.now == s.now && t.present == s.present && Sources(t) == Sources(s)
    requires s.outstanding.Keys <= t.outstanding.Keys
    ensures NoneLost(c, t)
  {
  }

  // ---- SetQueueKey ----

  predicate CanSetKey(s: State, id: string) { id in s.outstanding && !s.outstanding[id].keyed }

  lemma SetKeyKeeps(c: Config, s: State, id: string)
    requires Inv(c, s) && CanSetKey(s, id)
    ensures Inv(c, SetKey(c, s, id))
  {
    hide RowsOk, SingleCopies, CacheBelow, MemoryOk, SourcesOk, HandoffsOk, OwedOk, NoneLost, Left;
    var t := SetKey(c, s, id);
    SetKeyRows(c, s, id);
    MemoryKept(c, s, t);
    SetKeySources(c, s, id);
    SetKeyHandoffs(c, s, id);
    SetKeyLocations(c, s, id);
  }

  lemma SetKeyRows(c: Config, s: State, id: string)
    requires RowsOk(s) && id in s.outstanding
    ensures RowsOk(SetKey(c, s, id))
  {
    hide QueueDeadline;
    forall x | x in SetKey(c, s, id).rows ensures RowOk(SetKey(c, s, id).rows[x]) { assert RowOk(s.rows[x]); }
  }

  lemma SetKeySources(c: Config, s: State, id: string)
    requires SourcesOk(s) && HandoffsOk(c, s) && CanSetKey(s, id)
    ensures SourcesOk(SetKey(c, s, id))
  {
    hide Counted, Fresh, QueueDeadline, AheadOnDisk;
    var t := SetKey(c, s, id);
    assert HandoffOk(c, s, s.outstanding[id]);
    forall src | src in Sources(t) && id in t.rows && Live(t, id) && t.rows[id].key == src.key ensures Settled(t, src, id) {
      assert src in Sources(s);
    }
    SourcesKept(s, t);
  }

  lemma SetKeyHandoffs(c: Config, s: State, id: string)
    requires HandoffsOk(c, s) && CanSetKey(s, id)
    ensures HandoffsOk(c, SetKey(c, s, id))
  {
    hide HandoffOk, Fresh;
    var t := SetKey(c, s, id);
    AdvancedIfSame(c.own, Sources(s));
    forall x | x in s.outstanding && x != id ensures HandoffSame(s, t, s.outstanding[x]) { HandoffRow(c, s, x); }
    OthersKept(c, s, t, id);
    KeyedIsOk(c, s, id);
  }

  lemma KeyedIsOk(c: Config, s: State, id: string)
    requires HandoffsOk(c, s) && CanSetKey(s, id)
    ensures HandoffOk(c, SetKey(c, s, id), SetKey(c, s, id).outstanding[id])
  {
    assert HandoffOk(c, s, s.outstanding[id]);
  }

  lemma SetKeyLocations(c: Config, s: State, id: string)
    requires OwedOk(c, s) && NoneLost(c, s) && CanSetKey(s, id)
    ensures OwedOk(c, SetKey(c, s, id)) && NoneLost(c, SetKey(c, s, id))
  {
    hide AheadOnDisk;
    var t := SetKey(c, s, id);
    forall x | x in t.owed && x !in t.present && x !in t.outstanding ensures OnDisk(c, t, x) {
      assert OnDisk(c, s, x);
    }
  }

  // ---- the channel ----

  predicate CanSend(s: State, id: string) {
    id in s.outstanding && s.outstanding[id].keyed && id !in Ids(s.channel)
  }

  lemma SendKeeps(c: Config, s: State, id: string)
    requires Inv(c, s) && CanSend(s, id)
    ensures Inv(c, Send(s, id))
  {
    hide RowsOk, SingleCopies, CacheBelow, MemoryOk, SourcesOk, HandoffsOk, OwedOk, NoneLost, Left;
    var t := Send(s, id);
    RowsSame(s, t);
    MemoryKept(c, s, t);
    SourcesKept(s, t);
    assert OwedOk(c, t) by { SendLocations(c, s, id); }
    NoneLostKept(c, s, t);
    SendHandoffs(c, s, id);
  }

  lemma SendLocations(c: Config, s: State, id: string)
    requires OwedOk(c, s) && CanSend(s, id)
    ensures OwedOk(c, Send(s, id))
  {
    hide AheadOnDisk;
    var t := Send(s, id);
    forall x | x in t.owed && x !in t.present && x !in t.outstanding ensures OnDisk(c, t, x) {
      assert OnDisk(c, s, x);
    }
  }

  lemma SendHandoffs(c: Config, s: State, id: string)
    requires HandoffsOk(c, s) && CanSend(s, id)
    ensures HandoffsOk(c, Send(s, id))
  {
    hide HandoffOk, Fresh;
    var t := Send(s, id);
    AdvancedIfSame(c.own, Sources(s));
    forall x | x in s.outstanding ensures HandoffSame(s, t, s.outstanding[x]) { HandoffRow(c, s, x); }
    forall x | x in t.outstanding ensures HandoffOk(c, t, t.outstanding[x]) { HandoffKept(c, s, t, s.outstanding[x]); }
    assert s.outstanding[id].job.id == id;
  }

  // ---- the run loop receives ----

  /**
   * Receiving decides rightly: a job goes into memory only if it is still owed and not held, and one
   * turned away is already held, still ahead on disk, or finished.
   */
  lemma ReceiveDecides(c: Config, s: State)
    requires RowsOk(s) && HandoffsOk(c, s) && s.channel != []
    ensures var j := s.channel[0];
            AcceptHandoff(c, s, j) ==> j.id in s.owed && j.id !in s.present && HeldOk(s.rows, j)
    ensures var j := s.channel[0];
            !AcceptHandoff(c, s, j) && j.id !in s.present ==>
              if j.id in s.owed then
                && j.id in s.rows && s.rows[j.id].job == j && Pending(s.rows[j.id].status) && s.rows[j.id].key == c.own
                && s.rows[j.id].expiresAt >= s.safeUntil
                && AheadOnDisk(c.own, Sources(s), j)
              else j.id in s.rows && !Pending(s.rows[j.id].status)
  {
    hide QueueDeadline, Countable;
    var j := s.channel[0];
    var h := s.outstanding[j.id];
    assert HandoffOk(c, s, h);
    if j.id in s.rows { assert RowOk(s.rows[j.id]); }
    OwnSpillFinds(s.spills, c.own);
  }

  lemma ReceiveKeeps(c: Config, s: State)
    requires Inv(c, s) && s.channel != []
    ensures Inv(c, Receive(c, s))
  {
    hide RowsOk, SingleCopies, CacheBelow, MemoryOk, SourcesOk, HandoffsOk, OwedOk, NoneLost, Left, AcceptHandoff;
    var t := Receive(c, s);
    RowsSame(s, t);
    ReceiveDecides(c, s);
    ReceiveMemory(c, s);
    ReceiveSources(c, s);
    ReceiveHandoffs(c, s);
    ReceiveLocations(c, s);
  }

  lemma ReceiveMemory(c: Config, s: State)
    requires SingleCopy(c, s) && MemoryOk(s) && DeadlineOk(s) && RowsOk(s) && HandoffsOk(c, s) && s.channel != []
    ensures SingleCopy(c, Receive(c, s)) && MemoryOk(Receive(c, s)) && DeadlineOk(Receive(c, s))
  {
    hide HandoffsOk, AcceptHandoff, HeldOk, FlightOk, RowsOk, SingleCopies, CacheBelow, Track;
    ReceiveDecides(c, s);
    if AcceptHandoff(c, s, s.channel[0]) {
      AppendHeld(c, s, Receive(c, s), s.channel[0]);
    }
  }

  lemma ReceiveSources(c: Config, s: State)
    requires SourcesOk(s) && RowsOk(s) && HandoffsOk(c, s) && s.channel != []
    ensures SourcesOk(Receive(c, s))
  {
    hide Counted, SourceOk, HandoffOk, AcceptHandoff, RowOk;
    SourcesKept(s, Receive(c, s));
  }

  lemma ReceiveHandoffs(c: Config, s: State)
    requires HandoffsOk(c, s) && s.channel != []
    ensures HandoffsOk(c, Receive(c, s))
  {
    hide HandoffOk, HandoffSame, Advanced, Receive, Distinct;
    var t := Receive(c, s);
    var j := s.channel[0];
    ReceiveFrame(c, s);
    ReceiveOthers(c, s);
    ReceiveChannel(c, s);
    AdvancedIfSame(c.own, Sources(s));
    OthersKept(c, s, t, j.id);
  }

  lemma ReceiveFrame(c: Config, s: State)
    requires s.channel != []
    ensures var t := Receive(c, s);
            && t.channel == s.channel[1..] && t.outstanding == s.outstanding - {s.channel[0].id}
            && Sources(t) == Sources(s) && t.pagedOwnUntil == s.pagedOwnUntil && t.now == s.now
  {
    hide AcceptHandoff;
  }

  lemma ReceiveOthers(c: Config, s: State)
    requires HandoffsOk(c, s) && s.channel != []
    ensures forall x <- s.outstanding :: x != s.channel[0].id ==> HandoffSame(s, Receive(c, s), s.outstanding[x])
  {
    hide HandoffOk, Fresh, AcceptHandoff;
    forall x | x in s.outstanding && x != s.channel[0].id ensures HandoffSame(s, Receive(c, s), s.outstanding[x]) {
      HandoffRow(c, s, x);
    }
  }

  lemma ReceiveChannel(c: Config, s: State)
    requires HandoffsOk(c, s) && s.channel != []
    ensures var rest := s.channel[1..];
            && Distinct(rest)
            && (forall x <- rest :: x.id in s.outstanding && x.id != s.channel[0].id
                                    && s.outstanding[x.id].job == x && s.outstanding[x.id].keyed)
  {
    hide HandoffOk;
    forall x | x in s.channel[1..] ensures x.id != s.channel[0].id && x in s.channel {
      var k :| 0 < k < |s.channel| && s.channel[k] == x;
    }
  }

  lemma ReceiveLocations(c: Config, s: State)
    requires RowsOk(s) && HandoffsOk(c, s) && OwedOk(c, s) && NoneLost(c, s) && s.channel != []
    ensures OwedOk(c, Receive(c, s)) && NoneLost(c, Receive(c, s))
  {
    hide AheadOnDisk, HandoffOk, AcceptHandoff, RowOk;
    var t := Receive(c, s);
    ReceiveDecides(c, s);
    forall x | x in t.owed && x !in t.present && x !in t.outstanding ensures OnDisk(c, t, x) {
      if x != s.channel[0].id { assert OnDisk(c, s, x); }
    }
  }
}
