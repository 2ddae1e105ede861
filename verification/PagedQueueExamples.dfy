/** Runs of the paged queue, from recovery, that end where its promises do. */
module PagedQueueExamples {
  import opened Basics
  import opened Jobs
  import opened Pages
  import opened PagedQueue
  import opened PagedQueueInv
  import opened PagedQueueFrames
  import opened PagedQueueHandoffs
  import opened PagedQueuePaging
  import opened PagedQueueAttempts
  import opened PagedQueueRecovery
  import opened PagedQueueRuns
  import opened PagedQueueLimits

  const OWN := "target|tenant"
  const C := Config(OWN, 1, 1)
  const NOW := 100_000_000
  const EXPIRES := NOW + 1 + QUEUED_TTL + PENDING_ROW_GRACE

  // Two jobs found at recovery, and one that comes right after it.
  const A := Job("a", NOW - 2, 0, "hash a")
  const B := Job("b", NOW - 1, 0, "hash b")
  const J := Job("j", NOW + 1, 0, "hash j")

  /** What recovery finds, with the status of the first row as stored. */
  function Found(status: Status): Rows {
    map["a" := Row(A, OWN, status, EXPIRES), "b" := Row(B, OWN, Queued, EXPIRES)]
  }

  /** The rest, left on disk behind the first job. */
  const REST := Source(OWN, CursorAt(A), 1, 0, NOW + 1, START)

  /** The first job is on its way, the second is on disk. */
  function Recovered(status: Status): State {
    State(Found(status), NOW, 2, map["a" := Handoff(A, NOW, true)], [A], [], [], map[], {}, [], [REST], 0, 0, 0, {"a"},
          NOW + PENDING_ROW_GRACE)
  }

  /** A page of one is the first job that matches. */
  lemma PageOfOne(rows: Rows, key: string, after: Cursor, now: int, j: Job)
    requires WellKeyed(rows) && j in Matching(rows, key, after, 0, now)
    requires forall x <- Matching(rows, key, after, 0, now) :: x == j || Before(j, x)
    ensures Page(rows, key, after, 0, 1, now) == [j]
  {
    OnlyPageIsPage(rows, key, after, 0, 1, now, [j]);
  }

  lemma FoundMatches(status: Status)
    requires Pending(status)
    ensures WellKeyed(Found(status))
    ensures Matching(Found(status), OWN, START, 0, NOW) == {A, B}
    ensures Matching(Found(status), OWN, CursorAt(A), 0, NOW) == {B}
    ensures Before(A, B)
  {
    var rows := Found(status);
    assert rows["a"].job == A && rows["b"].job == B;
    assert Qualifies(rows["a"], OWN, START, 0, NOW) && Qualifies(rows["b"], OWN, START, 0, NOW);
    assert !Qualifies(rows["a"], OWN, CursorAt(A), 0, NOW) && Qualifies(rows["b"], OWN, CursorAt(A), 0, NOW);
  }

  lemma RecoversTo(status: Status)
    requires Pending(status)
    ensures WellKeyed(Found(status)) && Recover(C, Found(status), NOW) == Recovered(status)
  {
    FoundMatches(status);
    PageOfOne(Found(status), OWN, START, NOW, A);
    assert PendingCount(C, Found(status), NOW) == |{A, B}| == 2;
    HandsOver(status);
    hide Page, Matching, Covers, HandedOver, Found;
  }

  lemma HandsOver(status: Status)
    ensures HandedOver(Found(status), NOW, [A]) ==
            Recovered(status).(pendingSpills := [], backlog := 1, safeUntil := HandedOver(Found(status), NOW, [A]).safeUntil)
  {
    assert Ids([A]) == {"a"};
    assert (map id | id in Ids([A]) && id in Found(status) :: Handoff(Found(status)[id].job, NOW, true)) == map["a" := Handoff(A, NOW, true)];
  }

  lemma Chain(s: State, t: State, step: Step, rest: seq<Step>)
    requires Enabled(C, s, step) && t == Apply(C, s, step) && IsRun(C, t, rest)
    ensures IsRun(C, s, [step] + rest) && After(C, s, [step] + rest) == After(C, t, rest)
  {
    assert ([step] + rest)[1..] == rest;
  }

  lemma NoSteps(s: State)
    ensures IsRun(C, s, []) && After(C, s, []) == s
  {
  }

  // ---- the row an older version stored as in_flight ----

  /** A page read before the hand-off arrives. */
  function PageFirst(): seq<Step> { [SpillsTaken] + ([PageLoaded] + []) }

  function Taken(status: Status): State { Recovered(status).(spills := [REST], pendingSpills := []) }

  lemma Takes(status: Status)
    ensures Enabled(C, Recovered(status), SpillsTaken) && Apply(C, Recovered(status), SpillsTaken) == Taken(status)
  {
  }

  /** The second job is loaded, and the recent-page window is open. */
  function Loaded(status: Status): State {
    Taken(status).(spills := [REST.(consumed := 1, after := CursorAt(B))], pagedOwnUntil := NOW + RECENT_PAGE_WINDOW,
                   queue := [B], present := {"b"}, nextDeadline := QueueDeadline(B), owed := {"a", "b"})
  }

  lemma LoadsB(status: Status)
    requires Pending(status)
    ensures Enabled(C, Taken(status), PageLoaded) && Apply(C, Taken(status), PageLoaded) == Loaded(status)
  {
    hide *;
    NextIsB(status);
    LoadsOne(Taken(status), B);
    HoldsB(status);
  }

  /** The next page is this job alone, and nothing is held. */
  ghost predicate OnlyNext(s: State, j: Job) {
    && s.spills != [] && Held(s) == 0 && WellKeyed(s.rows)
    && Page(s.rows, s.spills[0].key, s.spills[0].after, 0, 1, s.now) == [j]
  }

  lemma NextIsB(status: Status)
    requires Pending(status)
    ensures OnlyNext(Taken(status), B)
  {
    FoundMatches(status);
    PageOfOne(Found(status), OWN, CursorAt(A), NOW, B);
    hide Page, Matching, Covers, WellKeyed, Found;
  }

  lemma HoldsB(status: Status)
    ensures Taken(status).spills != [] && LoadOne(C, Taken(status), B) == Loaded(status)
  {
    hide Found;
  }

  /** Loading that page is loading the job. */
  lemma LoadsOne(s: State, j: Job)
    requires OnlyNext(s, j)
    ensures s.spills != [] && Enabled(C, s, PageLoaded) && Apply(C, s, PageLoaded) == LoadOne(C, s, j)
  {
    hide Page, Matching, LoadOne;
    assert NextPage(C, s) == [j] && [j][1..] == [];
    assert |LoadOne(C, s, j).spills| == |s.spills| by { LoadOneSize(C, s, j); }
    assert LoadAll(C, LoadOne(C, s, j), []) == LoadOne(C, s, j);
  }

  lemma PageFirstRuns(status: Status)
    requires Pending(status)
    ensures WellKeyed(Found(status)) && IsRun(C, Recover(C, Found(status), NOW), PageFirst())
    ensures After(C, Recover(C, Found(status), NOW), PageFirst()) == Loaded(status)
  {
    assert PageFirst() == [SpillsTaken] + ([PageLoaded] + []);
    hide *;
    RecoversTo(status);
    LoadsB(status);
    Takes(status);
    NoSteps(Loaded(status));
    Chain(Taken(status), Loaded(status), PageLoaded, []);
    Chain(Recovered(status), Taken(status), SpillsTaken, [PageLoaded] + []);
  }

  /** Recovered as in_flight, the first job is out of reach once its hand-off has been received. */
  lemma LegacyExample()
    ensures WellKeyed(Found(InFlight)) && IsRun(C, Recover(C, Found(InFlight), NOW), PageFirst())
    ensures var s := After(C, Recover(C, Found(InFlight), NOW), PageFirst());
            s.channel != [] && Live(s, "a") && s.rows["a"].key == OWN && !Reachable(C, Receive(C, s), A)
  {
    PageFirstRuns(InFlight);
    var s := Loaded(InFlight);
    assert Covers(CursorAt(B), A);
    assert OnlyByHandoff(C, s) by {
      assert Sources(s) == [REST.(consumed := 1, after := CursorAt(B))];
    }
    LegacyInFlightIsLost(C, s);
    hide *;
  }

  // ---- a job that comes while the rest is on disk ----

  const TAKEN := Taken(Queued)
  const LATER := TAKEN.(now := NOW + 1)
  const STORED := LATER.(rows := LATER.rows["j" := Row(J, "", Queued, EXPIRES)])
  const RESERVED := STORED.(backlog := 3, owed := {"a", "j"},
                            outstanding := STORED.outstanding["j" := Handoff(J, NOW + 1, false)])
  const KEYED := RESERVED.(outstanding := RESERVED.outstanding["j" := Handoff(J, NOW + 1, true)],
                           rows := RESERVED.rows["j" := Row(J, OWN, Queued, EXPIRES)])
  const SENT := KEYED.(channel := [A, J])

  /** Its hand-off is in the channel behind the first one's. */
  function HandedOff(rest: seq<Step>): seq<Step> {
    [SpillsTaken] + ([ClockMoves(NOW + 1)] + ([RowWritten(Row(J, "", Queued, EXPIRES))]
    + ([Step.Reserved(J)] + ([Step.Keyed("j")] + ([Step.Sent("j")] + rest)))))
  }

  lemma Waits()
    ensures Enabled(C, TAKEN, ClockMoves(NOW + 1)) && Apply(C, TAKEN, ClockMoves(NOW + 1)) == LATER
  {
  }

  lemma Stores()
    ensures Enabled(C, LATER, RowWritten(Row(J, "", Queued, EXPIRES)))
    ensures Apply(C, LATER, RowWritten(Row(J, "", Queued, EXPIRES))) == STORED
  {
  }

  lemma Reserves()
    ensures Enabled(C, STORED, Step.Reserved(J)) && Apply(C, STORED, Step.Reserved(J)) == RESERVED
  {
    assert STORED.owed + {"j"} == {"a", "j"};
  }

  lemma Keys()
    ensures Enabled(C, RESERVED, Step.Keyed("j")) && Apply(C, RESERVED, Step.Keyed("j")) == KEYED
  {
  }

  lemma Sends()
    ensures Enabled(C, KEYED, Step.Sent("j")) && Apply(C, KEYED, Step.Sent("j")) == SENT
  {
  }

  lemma HandedOffRuns(rest: seq<Step>)
    requires IsRun(C, SENT, rest)
    ensures WellKeyed(Found(Queued)) && IsRun(C, Recover(C, Found(Queued), NOW), HandedOff(rest))
    ensures After(C, Recover(C, Found(Queued), NOW), HandedOff(rest)) == After(C, SENT, rest)
  {
    RecoversTo(Queued);
    var s5 := [Step.Sent("j")] + rest;
    var s4 := [Step.Keyed("j")] + s5;
    var s3 := [Step.Reserved(J)] + s4;
    var s2 := [RowWritten(Row(J, "", Queued, EXPIRES))] + s3;
    var s1 := [ClockMoves(NOW + 1)] + s2;
    assert HandedOff(rest) == [SpillsTaken] + s1;
    hide *;
    Sends();
    Chain(KEYED, SENT, Step.Sent("j"), rest);
    Keys();
    Chain(RESERVED, KEYED, Step.Keyed("j"), s5);
    Reserves();
    Chain(STORED, RESERVED, Step.Reserved(J), s4);
    Stores();
    Chain(LATER, STORED, RowWritten(Row(J, "", Queued, EXPIRES)), s3);
    Waits();
    Chain(TAKEN, LATER, ClockMoves(NOW + 1), s2);
    Takes(Queued);
    Chain(Recovered(Queued), TAKEN, SpillsTaken, s1);
  }

  lemma FoundIsRecoverable()
    ensures Recoverable(C, Found(Queued), NOW)
  {
    var rows := Found(Queued);
    assert rows["a"].job == A && rows["b"].job == B;
  }

  // ---- its row vanishes after its hand-off was declined ----

  const RECEIVED := SENT.(channel := [J], outstanding := map["j" := Handoff(J, NOW + 1, true)],
                          queue := [A], present := {"a"}, nextDeadline := QueueDeadline(A))
  const DECLINED := RECEIVED.(channel := [], outstanding := map[])

  lemma ReceivesNext(s: State)
    requires s.channel != []
    ensures Enabled(C, s, Received) && Apply(C, s, Received) == Receive(C, s)
  {
  }

  lemma ReceivesA()
    ensures Enabled(C, SENT, Received) && Apply(C, SENT, Received) == RECEIVED
  {
    ReceivesNext(SENT);
    hide Enabled, Apply;
    assert SENT.channel[1..] == [J];
    assert SENT.outstanding - {"a"} == map["j" := Handoff(J, NOW + 1, true)];
    assert AcceptHandoff(C, SENT, A) by {
      assert OwnSpill(SENT.spills, OWN) == Some(CursorAt(A));
    }
    hide AcceptHandoff, OwnSpill, Covers;
  }

  lemma DeclinesJ()
    ensures Enabled(C, RECEIVED, Received) && Apply(C, RECEIVED, Received) == DECLINED
  {
    ReceivesNext(RECEIVED);
    hide Enabled, Apply;
    assert RECEIVED.channel[1..] == [];
    assert RECEIVED.outstanding - {"j"} == map[];
    assert OwnSpill(RECEIVED.spills, OWN) == Some(CursorAt(A));
    assert !AcceptHandoff(C, RECEIVED, J);
  }

  function BothReceived(): seq<Step> { [Received] + ([Received] + []) }

  lemma DeclinedRuns()
    ensures WellKeyed(Found(Queued)) && IsRun(C, Recover(C, Found(Queued), NOW), HandedOff(BothReceived()))
    ensures After(C, Recover(C, Found(Queued), NOW), HandedOff(BothReceived())) == DECLINED
  {
    assert BothReceived() == [Received] + ([Received] + []);
    hide *;
    NoSteps(DECLINED);
    DeclinesJ();
    Chain(RECEIVED, DECLINED, Received, []);
    ReceivesA();
    Chain(SENT, RECEIVED, Received, [Received] + []);
    HandedOffRuns(BothReceived());
  }

  lemma JIsDeclined()
    ensures "j" in DECLINED.rows && Live(DECLINED, "j") && "j" !in DECLINED.outstanding
    ensures Declined(C, DECLINED, DECLINED.rows["j"])
  {
    assert REST in Sources(DECLINED);
  }

  /** Then the counter is off by the one it held for the row. */
  lemma VanishedExample()
    ensures WellKeyed(Found(Queued)) && IsRun(C, Recover(C, Found(Queued), NOW), HandedOff(BothReceived()))
    ensures var s := After(C, Recover(C, Found(Queued), NOW), HandedOff(BothReceived()));
            && "j" in s.rows && Live(s, "j")
            && var t := DropRow(s, "j"); t.backlog != |Owes(C, t)| + Left(Sources(t))
  {
    DeclinedRuns();
    FoundIsRecoverable();
    RecoverStarts(C, Found(Queued), NOW);
    RunKeeps(C, Recover(C, Found(Queued), NOW), HandedOff(BothReceived()));
    JIsDeclined();
    assert Pending(DECLINED.rows["j"].status) && DECLINED.now < DECLINED.rows["j"].expiresAt;
    hide *;
    VanishedRowLeaksItsCount(C, DECLINED, "j");
  }

  // ---- its hand-off arrives after the job has run ----

  const DROPPED := SENT.(rows := map["a" := Row(A, OWN, Queued, EXPIRES), "j" := Row(J, OWN, Queued, EXPIRES)])
  const PAGED := DROPPED.(spills := [REST.(after := CursorAt(J))], pagedOwnUntil := NOW + 1 + RECENT_PAGE_WINDOW,
                          queue := [J], present := {"j"}, nextDeadline := QueueDeadline(J))
  const RUNNING := PAGED.(queue := [], flying := map["j" := Flight(J, Running)])
  const ENDED := RUNNING.(flying := map["j" := Flight(J, Finished)],
                          rows := DROPPED.rows["j" := Row(J, OWN, Completed, NOW + 1 + COMPLETED_TTL)])
  const OVER := ENDED.(flying := map[], present := {}, owed := {"a"}, backlog := 2)
  const HELD := OVER.(channel := [J], outstanding := map["j" := Handoff(J, NOW + 1, true)],
                      queue := [A], present := {"a"}, nextDeadline := QueueDeadline(A))

  lemma DropsB()
    ensures Enabled(C, SENT, RowDropped("b")) && Apply(C, SENT, RowDropped("b")) == DROPPED
  {
    DropsNext(SENT, "b");
    hide Enabled, Apply;
    assert SENT.rows - {"b"} == DROPPED.rows;
  }

  lemma DropsNext(s: State, id: string)
    requires CanDropRow(s, id)
    ensures Enabled(C, s, RowDropped(id)) && Apply(C, s, RowDropped(id)) == DropRow(s, id)
  {
  }

  lemma LoadsJ()
    ensures Enabled(C, DROPPED, PageLoaded) && Apply(C, DROPPED, PageLoaded) == PAGED
  {
    hide *;
    NextIsJ();
    LoadsOne(DROPPED, J);
    HoldsJ();
  }

  lemma NextIsJ()
    ensures OnlyNext(DROPPED, J)
  {
    var s := DROPPED;
    assert s.rows["a"].job == A && s.rows["j"].job == J;
    assert !Qualifies(s.rows["a"], OWN, CursorAt(A), 0, s.now) && Qualifies(s.rows["j"], OWN, CursorAt(A), 0, s.now);
    assert Matching(s.rows, OWN, CursorAt(A), 0, s.now) == {J};
    PageOfOne(s.rows, OWN, CursorAt(A), s.now, J);
    hide Page, Matching, Covers, WellKeyed;
  }

  lemma HoldsJ()
    ensures DROPPED.spills != [] && LoadOne(C, DROPPED, J) == PAGED
  {
    assert DROPPED.owed + {"j"} == DROPPED.owed;
  }

  lemma StartsJ()
    ensures Enabled(C, PAGED, Dispatched) && Apply(C, PAGED, Dispatched) == RUNNING
  {
    assert PAGED.queue[1..] == [];
    assert !QueueExpired(J, NOW + 1);
  }

  lemma EndsJ()
    ensures Enabled(C, RUNNING, Ended("j", true)) && Apply(C, RUNNING, Ended("j", true)) == ENDED
  {
  }

  lemma ReportsJ()
    ensures Enabled(C, ENDED, Reported("j")) && Apply(C, ENDED, Reported("j")) == OVER
  {
    assert ENDED.flying - {"j"} == map[];
    assert ENDED.present - {"j"} == {} && ENDED.owed - {"j"} == {"a"};
  }

  lemma HoldsA()
    ensures Enabled(C, OVER, Received) && Apply(C, OVER, Received) == HELD
  {
    ReceivesNext(OVER);
    hide Enabled, Apply;
    assert OVER.channel[1..] == [J];
    assert OVER.outstanding - {"a"} == map["j" := Handoff(J, NOW + 1, true)];
    assert AcceptHandoff(C, OVER, A) by {
      assert OwnSpill(OVER.spills, OWN) == Some(CursorAt(J));
    }
    hide AcceptHandoff, OwnSpill, Covers;
  }

  function RunsFirst(): seq<Step> {
    [RowDropped("b")] + ([PageLoaded] + ([Dispatched] + ([Ended("j", true)] + ([Reported("j")] + ([Received] + [])))))
  }

  lemma RunsFirstRuns()
    ensures WellKeyed(Found(Queued)) && IsRun(C, Recover(C, Found(Queued), NOW), HandedOff(RunsFirst()))
    ensures After(C, Recover(C, Found(Queued), NOW), HandedOff(RunsFirst())) == HELD
  {
    var s5 := [Received] + [];
    var s4 := [Reported("j")] + s5;
    var s3 := [Ended("j", true)] + s4;
    var s2 := [Dispatched] + s3;
    var s1 := [PageLoaded] + s2;
    assert RunsFirst() == [RowDropped("b")] + s1;
    hide *;
    NoSteps(HELD);
    HoldsA();
    Chain(OVER, HELD, Received, []);
    ReportsJ();
    Chain(ENDED, OVER, Reported("j"), s5);
    EndsJ();
    Chain(RUNNING, ENDED, Ended("j", true), s4);
    StartsJ();
    Chain(PAGED, RUNNING, Dispatched, s3);
    LoadsJ();
    Chain(DROPPED, PAGED, PageLoaded, s2);
    DropsB();
    Chain(SENT, DROPPED, RowDropped("b"), s1);
    HandedOffRuns(RunsFirst());
  }

  /** The job has completed; its hand-off, received once the window is over, puts it in the queue to run again. */
  lemma LateHandoffExample()
    ensures WellKeyed(Found(Queued)) && IsRun(C, Recover(C, Found(Queued), NOW), HandedOff(RunsFirst()))
    ensures var s := After(C, Recover(C, Found(Queued), NOW), HandedOff(RunsFirst()));
            var late := Tick(s, s.pagedOwnUntil);
            && "j" in s.rows && s.rows["j"].status == Completed && s.channel == [J]
            && J in Receive(C, late).queue
  {
    hide *;
    RunsFirstRuns();
    HeldIsLate();
  }

  lemma HeldIsLate()
    ensures "j" in HELD.rows && HELD.rows["j"].status == Completed && HELD.channel == [J]
    ensures J in Receive(C, Tick(HELD, HELD.pagedOwnUntil)).queue
  {
    var late := Tick(HELD, HELD.pagedOwnUntil);
    assert Sources(late) == [REST.(after := CursorAt(J))] && Covers(CursorAt(J), J);
    LateHandoffRunsAgain(C, late);
    var q := Receive(C, late).queue;
    assert J in q[|late.queue|..];
  }
}
