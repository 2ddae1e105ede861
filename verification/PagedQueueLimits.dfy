/** Where the paged queue's promises end: each hypothesis of the runs is needed, and exactly this far. */
module PagedQueueLimits {
  import opened Jobs
  import opened Pages
  import opened PagedQueue
  import opened PagedQueueInv
  import opened PagedQueueFrames
  import opened PagedQueueRuns

  /** The next hand-off is for a live job of the queue that only this hand-off can bring into memory. */
  ghost predicate OnlyByHandoff(c: Config, s: State) {
    && s.channel != []
    && var j := s.channel[0];
       && j.id !in s.present
       && !AheadOnDisk(c.own, Sources(s), j)
       && Live(s, j.id) && s.rows[j.id].job == j && s.rows[j.id].key == c.own
  }

  /** The job is still within reach: held, handed off, or ahead on disk. */
  ghost predicate Reachable(c: Config, s: State, j: Job) {
    j.id in s.present || j.id in s.outstanding || AheadOnDisk(c.own, Sources(s), j)
  }

  /**
   * A job whose row an older version stored as in_flight is lost by its own hand-off exactly while the
   * recent-page window is open. Recovery hands such rows over like any other, and a refill that runs
   * before the hand-off is received opens the window.
   */
  lemma LegacyInFlightIsLost(c: Config, s: State)
    requires OnlyByHandoff(c, s)
    ensures var j := s.channel[0];
            Reachable(c, Receive(c, s), j) <==> !(s.rows[j.id].status == InFlight && s.now < s.pagedOwnUntil)
  {
    hide Covers;
    var j := s.channel[0];
    OwnSpillFinds(s.spills, c.own);
    assert Sources(Receive(c, s)) == Sources(s);
    assert OwnSpill(s.spills, c.own).Some? ==> Covers(OwnSpill(s.spills, c.own).value, j) by {
      if OwnSpill(s.spills, c.own).Some? {
        var src :| src in s.spills && src.key == c.own && src.after == OwnSpill(s.spills, c.own).value;
        assert src in Sources(s);
      }
    }
  }

  /**
   * The hand-off of a job that a page loaded and that has finished since is taken into memory, to run
   * again, exactly when it arrives after the recent-page window or after its row is gone.
   */
  lemma LateHandoffRunsAgain(c: Config, s: State)
    requires s.channel != []
    requires var j := s.channel[0];
             && j.id !in s.present && !AheadOnDisk(c.own, Sources(s), j)
             && (j.id in s.rows ==> !Pending(s.rows[j.id].status))
    ensures var j := s.channel[0];
            j in Receive(c, s).queue[|s.queue|..] <==>
            s.now >= s.pagedOwnUntil || j.id !in s.rows || s.now >= s.rows[j.id].expiresAt
  {
    hide Covers;
    var j := s.channel[0];
    OwnSpillFinds(s.spills, c.own);
    assert OwnSpill(s.spills, c.own).Some? ==> Covers(OwnSpill(s.spills, c.own).value, j) by {
      if OwnSpill(s.spills, c.own).Some? {
        var src :| src in s.spills && src.key == c.own && src.after == OwnSpill(s.spills, c.own).value;
        assert src in Sources(s);
      }
    }
    if AcceptHandoff(c, s, j) {
      assert Receive(c, s).queue[|s.queue|..] == [j];
    } else {
      assert Receive(c, s).queue[|s.queue|..] == [];
    }
  }

  /**
   * When a live row disappears from under the queue, the counter stays exact if and only if the job was not
   * waiting on disk with a count of its own, declined there by its hand-off: nothing gives that count back.
   */
  lemma VanishedRowLeaksItsCount(c: Config, s: State, id: string)
    requires Inv(c, s) && id in s.rows && Pending(s.rows[id].status) && s.now < s.rows[id].expiresAt
    requires id !in s.outstanding
    ensures var t := DropRow(s, id);
            t.backlog == |Owes(c, t)| + Left(Sources(t)) <==> !Declined(c, s, s.rows[id])
  {
    hide Inv, Left, Owes, DropRow, Declined, Sources;
    DeclinedIsOwed(c, s, id);
    OwedIsOwes(c, s);
    InvExact(c, s);
    OwesWithout(c, s, id);
    assert DropRow(s, id).backlog == s.backlog && Sources(DropRow(s, id)) == Sources(s) by { DropRowFrame(s, id); }
    if id in s.owed && id !in s.present {
      assert |s.owed - {id}| == |s.owed| - 1;
    } else if id !in s.owed {
      assert s.owed - {id} == s.owed;
    }
  }

  lemma DeclinedIsOwed(c: Config, s: State, id: string)
    requires Inv(c, s) && id in s.rows && Live(s, id) && id !in s.outstanding
    ensures Declined(c, s, s.rows[id]) <==> id in s.owed && id !in s.present
  {
    OwedIsOwes(c, s);
    hide SingleCopies, MemoryOk, SourcesOk, HandoffsOk, OwedOk, NoneLost, CacheBelow, Left, Covers, Countable, Counted;
    assert s.rows[id].job.id == id;
  }

  lemma DropRowFrame(s: State, id: string)
    ensures DropRow(s, id).backlog == s.backlog && Sources(DropRow(s, id)) == Sources(s)
  {
  }

  lemma OwesWithout(c: Config, s: State, id: string)
    requires WellKeyed(s.rows) && id in s.rows && id !in s.outstanding
    ensures Owes(c, DropRow(s, id)) == if id in s.present then Owes(c, s) else Owes(c, s) - {id}
  {
    hide Declined;
    var t := DropRow(s, id);
    forall x | x in t.rows ensures Declined(c, t, t.rows[x]) == Declined(c, s, s.rows[x]) { SameDeclined(c, s, t, s.rows[x]); }
    assert Declined(c, s, s.rows[id]) ==> id !in s.present by {
      if Declined(c, s, s.rows[id]) { DeclinedIsNotHeld(c, s, s.rows[id]); }
    }
  }

  lemma InvExact(c: Config, s: State)
    requires Inv(c, s)
    ensures BacklogExact(s) && WellKeyed(s.rows)
  {
  }

  lemma SameDeclined(c: Config, s: State, t: State, r: Row)
    requires t.present == s.present && Sources(t) == Sources(s)
    ensures Declined(c, t, r) == Declined(c, s, r)
  {
  }

  lemma DeclinedIsNotHeld(c: Config, s: State, r: Row)
    requires Declined(c, s, r)
    ensures r.job.id !in s.present
  {
  }
}
