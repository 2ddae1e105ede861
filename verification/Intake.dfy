/**
 * Idempotent enqueue (internal/core/aquifer.go): any number of callers, each taking its key's claim, inserting
 * a row or finding one, being refused or accepted, and giving the claim back. Every access to the claims or
 * the store is one step, so callers interleave between any two of them.
 */
module Intake {

  datatype Result =
    | Fresh(id: string)
    | LocalDuplicate(id: string)
    | RemoteDuplicate
    | Refused
    | Panicked

  datatype Phase =
    | Waiting
    | Claimed
    | Inserted
    | Approved
    | Rejecting(outcome: Result)
    | Done(result: Result)

  /** A call of Enqueue: its idempotency hash, the job it made, and whether it holds the hash's claim. */
  datatype Caller = Caller(hash: string, id: string, phase: Phase, holding: bool)

  /** `accepted`, `deleted` and `expired` only record what has happened. */
  datatype State = State(
    callers: map<nat, Caller>,
    held: set<string>,
    rows: map<string, string>,
    idem: map<string, string>,
    accepted: map<string, string>,
    deleted: set<string>,
    expired: set<string>)

  const EMPTY := State(map[], {}, map[], map[], map[], {}, {})

  datatype Step =
    | Begin(who: nat, hash: string, id: string)
    | Claim(who: nat)
    | CheckOrInsert(who: nat)
    | Proceed(who: nat, to: Phase)
    | Accept(who: nat)
    | DispatchPanics(who: nat)
    | DeleteRow(who: nat)
    | Release(who: nat)
    | Expire(gone: string)

  predicate At(s: State, who: nat, phase: Phase) { who in s.callers && s.callers[who].phase == phase }

  /**
   * What a call may decide without touching the store: after the insert, that the job is a duplicate elsewhere,
   * fails validation or admission, panics, or passes; after that, that the queue refuses it; before it, a panic.
   */
  predicate MayProceed(from: Phase, to: Phase) {
    match from
    case Claimed => to == Done(Panicked)
    case Inserted => to == Approved || to == Rejecting(RemoteDuplicate) || to == Rejecting(Refused) || to == Rejecting(Panicked)
    case Approved => to == Rejecting(Refused)
    case _ => false
  }

  predicate Enabled(s: State, step: Step) {
    match step
    case Begin(who, _, id) => who !in s.callers && id !in s.rows && id !in s.accepted && id !in s.deleted
                              && forall c <- s.callers :: s.callers[c].id != id
    case Claim(who) => At(s, who, Waiting) && s.callers[who].hash !in s.held
    case CheckOrInsert(who) => At(s, who, Claimed)
    case Proceed(who, to) => who in s.callers && MayProceed(s.callers[who].phase, to)
    case Accept(who) => At(s, who, Approved)
    case DispatchPanics(who) => At(s, who, Approved)
    case DeleteRow(who) => who in s.callers && s.callers[who].phase.Rejecting?
    case Release(who) => who in s.callers && s.callers[who].phase.Done? && s.callers[who].holding
    case Expire(id) => id in s.accepted && id in s.rows
  }

  function Moved(s: State, who: nat, phase: Phase): State
    requires who in s.callers
  {
    s.(callers := s.callers[who := s.callers[who].(phase := phase)])
  }

  /** DeleteJob: the row and its idempotency entry. */
  function Without(s: State, id: string): State {
    s.(rows := s.rows - {id}, idem := if id in s.rows then s.idem - {s.rows[id]} else s.idem)
  }

  function Insert(s: State, who: nat): State
    requires who in s.callers
  {
    var c := s.callers[who];
    if c.hash in s.idem then Moved(s, who, Done(LocalDuplicate(s.idem[c.hash])))
    else Moved(s, who, Inserted).(rows := s.rows[c.id := c.hash], idem := s.idem[c.hash := c.id])
  }

  function Apply(s: State, step: Step): State
    requires Enabled(s, step)
  {
    match step
    case Begin(who, hash, id) => s.(callers := s.callers[who := Caller(hash, id, Waiting, false)])
    case Claim(who) =>
      var c := s.callers[who];
      s.(callers := s.callers[who := c.(phase := Claimed, holding := true)], held := s.held + {c.hash})
    case CheckOrInsert(who) => Insert(s, who)
    case Proceed(who, to) => Moved(s, who, to)
    case Accept(who) =>
      Moved(s, who, Done(Fresh(s.callers[who].id))).(accepted := s.accepted[s.callers[who].id := s.callers[who].hash])
    case DispatchPanics(who) => Moved(s, who, Done(Panicked))
    case DeleteRow(who) =>
      var c := s.callers[who];
      Without(Moved(s, who, Done(c.phase.outcome)), c.id).(deleted := s.deleted + {c.id})
    case Release(who) =>
      var c := s.callers[who];
      s.(callers := s.callers[who := c.(holding := false)], held := s.held - {c.hash})
    case Expire(id) => Without(s, id).(expired := s.expired + {id})
  }

  // ---- the invariant ----

  /** The row of this call is in the store, and may still be deleted. */
  predicate Provisional(c: Caller) { c.phase.Inserted? || c.phase.Approved? || c.phase.Rejecting? }

  predicate Holds(s: State, who: nat, hash: string) {
    who in s.callers && s.callers[who].holding && s.callers[who].hash == hash
  }

  /** A claim is held by exactly one caller, and by every one that is past it and has not finished. */
  ghost predicate ClaimsOk(s: State) {
    && (forall c <- s.callers :: s.callers[c].holding ==> s.callers[c].hash in s.held)
    && (forall c <- s.callers, d <- s.callers :: Holds(s, c, s.callers[d].hash) && Holds(s, d, s.callers[d].hash) ==> c == d)
    && (forall c <- s.callers :: (s.callers[c].phase.Claimed? || Provisional(s.callers[c])) ==> s.callers[c].holding)
    && (forall c <- s.callers :: s.callers[c].phase.Waiting? ==> !s.callers[c].holding)
    && (forall h <- s.held :: exists c :: Holds(s, c, h))
  }

  /** Rows and idempotency entries are in bijection by hash. */
  ghost predicate StoreOk(s: State) {
    && (forall id <- s.rows :: s.rows[id] in s.idem && s.idem[s.rows[id]] == id)
    && (forall h <- s.idem :: s.idem[h] in s.rows && s.rows[s.idem[h]] == h)
  }

  predicate Inserter(s: State, who: nat, id: string) {
    who in s.callers && s.callers[who].id == id && Provisional(s.callers[who])
  }

  /** A row not accepted is the provisional row of a caller; an accepted job is in the store until it expires. */
  ghost predicate RowsOk(s: State) {
    && (forall id <- s.rows :: id !in s.accepted ==> exists c :: Inserter(s, c, id))
    && (forall c <- s.callers :: Provisional(s.callers[c]) ==>
          var id := s.callers[c].id; id in s.rows && s.rows[id] == s.callers[c].hash && id !in s.accepted)
    && (forall id <- s.accepted :: if id in s.rows then s.rows[id] == s.accepted[id] else id in s.expired)
    && s.accepted.Keys !! s.deleted
  }

  /** Every caller has a job of its own, not used before it starts. */
  ghost predicate IdsOk(s: State) {
    && (forall c <- s.callers, d <- s.callers :: s.callers[c].id == s.callers[d].id ==> c == d)
    && (forall c <- s.callers :: (s.callers[c].phase.Waiting? || s.callers[c].phase.Claimed?) ==>
          s.callers[c].id !in s.rows && s.callers[c].id !in s.accepted)
    && (forall c <- s.callers :: Provisional(s.callers[c]) ==> s.callers[c].id !in s.deleted)
    && (forall c <- s.callers :: (s.callers[c].phase.Waiting? || s.callers[c].phase.Claimed?) ==> s.callers[c].id !in s.deleted)
  }

  predicate Real(s: State, c: Caller) {
    match c.phase
    case Done(Fresh(id)) => id in s.accepted && s.accepted[id] == c.hash && id == c.id
    case Done(LocalDuplicate(id)) => id in s.accepted && s.accepted[id] == c.hash
    case Done(_) => true
    case Rejecting(outcome) => !outcome.Fresh? && !outcome.LocalDuplicate?
    case _ => true
  }

  ghost predicate ResultsOk(s: State) { forall c <- s.callers :: Real(s, s.callers[c]) }

  ghost predicate Inv(s: State) { ClaimsOk(s) && StoreOk(s) && RowsOk(s) && IdsOk(s) && ResultsOk(s) }

  // ---- every step keeps it ----

  /** A row found for a hash whose claim the finder holds has been accepted. */
  lemma FoundIsAccepted(s: State, who: nat)
    requires ClaimsOk(s) && StoreOk(s) && RowsOk(s) && At(s, who, Claimed) && s.callers[who].hash in s.idem
    ensures var id := s.idem[s.callers[who].hash]; id in s.accepted && s.accepted[id] == s.callers[who].hash
  {
    var hash := s.callers[who].hash;
    var id := s.idem[hash];
    assert Holds(s, who, hash);
    assert forall c :: Inserter(s, c, id) ==> Holds(s, c, hash);
    assert forall c :: !Inserter(s, c, id);
  }

  /** The steps that leave claims and callers' hashes alone keep the claims. */
  lemma ClaimsKept(s: State, t: State, who: nat)
    requires ClaimsOk(s) && who in s.callers && t.held == s.held && t.callers.Keys == s.callers.Keys
    requires forall c <- s.callers :: c != who ==> t.callers[c] == s.callers[c]
    requires t.callers[who].hash == s.callers[who].hash && t.callers[who].holding == s.callers[who].holding
    requires s.callers[who].holding && !t.callers[who].phase.Waiting?
    ensures ClaimsOk(t)
  {
    forall h | h in t.held ensures exists c :: Holds(t, c, h) {
      var c :| Holds(s, c, h);
      assert Holds(t, c, h);
    }
    assert forall c <- s.callers, h :: Holds(t, c, h) <==> Holds(s, c, h);
  }

  lemma ClaimKeepsClaims(s: State, who: nat)
    requires ClaimsOk(s) && Enabled(s, Claim(who))
    ensures ClaimsOk(Apply(s, Claim(who)))
  {
    var t := Apply(s, Claim(who));
    forall h | h in t.held ensures exists c :: Holds(t, c, h) {
      if h == s.callers[who].hash {
        assert Holds(t, who, h);
      } else {
        var c :| Holds(s, c, h);
        assert Holds(t, c, h);
      }
    }
    assert forall c <- s.callers, h :: c != who ==> (Holds(t, c, h) <==> Holds(s, c, h));
  }

  lemma ReleaseKeepsClaims(s: State, who: nat)
    requires ClaimsOk(s) && Enabled(s, Release(who))
    ensures ClaimsOk(Apply(s, Release(who)))
  {
    var t := Apply(s, Release(who));
    var mine := s.callers[who].hash;
    assert Holds(s, who, mine);
    assert forall c <- s.callers :: c != who && s.callers[c].hash == mine ==> !s.callers[c].holding by {
      forall c | c in s.callers && c != who && s.callers[c].hash == mine ensures !Holds(s, c, mine) {
      }
    }
    assert forall c <- s.callers, h :: c != who ==> (Holds(t, c, h) <==> Holds(s, c, h));
    forall h | h in t.held ensures exists c :: Holds(t, c, h) {
      var c :| Holds(s, c, h);
      assert Holds(t, c, h);
    }
  }

  lemma BeginKeepsClaims(s: State, who: nat, hash: string, id: string)
    requires ClaimsOk(s) && Enabled(s, Begin(who, hash, id))
    ensures ClaimsOk(Apply(s, Begin(who, hash, id)))
  {
    var t := Apply(s, Begin(who, hash, id));
    assert forall c <- s.callers, h :: Holds(t, c, h) <==> Holds(s, c, h);
    forall h | h in t.held ensures exists c :: Holds(t, c, h) {
      var c :| Holds(s, c, h);
      assert Holds(t, c, h);
    }
  }

  /** What a step of a caller may touch: that caller, and its own job. */
  ghost predicate Touched(s: State, t: State, who: nat) {
    && who in s.callers && t.callers.Keys == s.callers.Keys
    && (forall c <- s.callers :: c != who ==> t.callers[c] == s.callers[c])
    && var c, d := s.callers[who], t.callers[who];
    && d.id == c.id && d.hash == c.hash
    && t.rows.Keys <= s.rows.Keys + {c.id}
    && t.accepted.Keys <= s.accepted.Keys + {c.id}
    && t.deleted <= s.deleted + {c.id}
    && (d.phase.Claimed? ==> c.phase.Waiting? && t.rows == s.rows && t.accepted == s.accepted && t.deleted == s.deleted)
    && (Provisional(d) ==> (Provisional(c) || c.phase.Claimed?) && t.deleted == s.deleted)
    && !d.phase.Waiting?
  }

  lemma Touches(s: State, step: Step)
    requires Enabled(s, step) && !step.Begin? && !step.Expire?
    ensures Touched(s, Apply(s, step), step.who)
    ensures !step.Claim? && !step.Release? ==>
              Apply(s, step).held == s.held && Apply(s, step).callers[step.who].holding == s.callers[step.who].holding
  {
  }

  lemma StepKeepsClaims(s: State, step: Step)
    requires ClaimsOk(s) && Enabled(s, step)
    ensures ClaimsOk(Apply(s, step))
  {
    match step
    case Begin(who, hash, id) => BeginKeepsClaims(s, who, hash, id);
    case Claim(who) => ClaimKeepsClaims(s, who);
    case Release(who) => ReleaseKeepsClaims(s, who);
    case Expire(id) => ExpireKeepsClaims(s, id);
    case _ =>
      Touches(s, step);
      assert s.callers[step.who].holding;
      hide Apply, ClaimsOk;
      ClaimsKept(s, Apply(s, step), step.who);
  }

  lemma ExpireKeepsClaims(s: State, id: string)
    requires ClaimsOk(s) && Enabled(s, Expire(id))
    ensures ClaimsOk(Apply(s, Expire(id)))
  {
    var t := Apply(s, Expire(id));
    assert forall c <- s.callers, h :: Holds(t, c, h) <==> Holds(s, c, h);
    forall h | h in t.held ensures exists c :: Holds(t, c, h) {
      var c :| Holds(s, c, h);
      assert Holds(t, c, h);
    }
  }

  lemma WithoutKeepsStore(s: State, id: string)
    requires StoreOk(s)
    ensures StoreOk(Without(s, id))
  {
  }

  lemma InsertKeepsStore(s: State, who: nat)
    requires StoreOk(s) && who in s.callers && s.callers[who].id !in s.rows
    ensures StoreOk(Insert(s, who))
  {
  }

  lemma StepKeepsStore(s: State, step: Step)
    requires StoreOk(s) && IdsOk(s) && Enabled(s, step)
    ensures StoreOk(Apply(s, step))
  {
    match step
    case CheckOrInsert(who) => InsertKeepsStore(s, who);
    case DeleteRow(who) =>
      WithoutKeepsStore(Moved(s, who, Done(s.callers[who].phase.outcome)), s.callers[who].id);
    case Expire(id) => WithoutKeepsStore(s, id);
    case _ =>
  }

  /** Rows stay accounted for when only callers change, and none starts or stops being provisional. */
  lemma SameRows(s: State, t: State)
    requires RowsOk(s) && t.rows == s.rows && t.accepted == s.accepted && t.deleted == s.deleted && t.expired == s.expired
    requires s.callers.Keys <= t.callers.Keys
    requires forall c <- t.callers :: if c in s.callers
               then t.callers[c].id == s.callers[c].id && t.callers[c].hash == s.callers[c].hash
                    && (Provisional(t.callers[c]) <==> Provisional(s.callers[c]))
               else !Provisional(t.callers[c])
    ensures RowsOk(t)
  {
    forall id | id in t.rows && id !in t.accepted ensures exists c :: Inserter(t, c, id) {
      var c :| Inserter(s, c, id);
      assert Inserter(t, c, id);
    }
  }

  lemma InsertKeepsRows(s: State, who: nat)
    requires RowsOk(s) && IdsOk(s) && At(s, who, Claimed) && s.callers[who].hash !in s.idem
    ensures RowsOk(Insert(s, who))
  {
    var t := Insert(s, who);
    forall id | id in t.rows && id !in t.accepted ensures exists c :: Inserter(t, c, id) {
      if id == s.callers[who].id {
        assert Inserter(t, who, id);
      } else {
        var c :| Inserter(s, c, id);
        assert Inserter(t, c, id);
      }
    }
  }

  lemma AcceptKeepsRows(s: State, who: nat)
    requires RowsOk(s) && IdsOk(s) && Enabled(s, Accept(who))
    ensures RowsOk(Apply(s, Accept(who)))
  {
    var t := Apply(s, Accept(who));
    forall id | id in t.rows && id !in t.accepted ensures exists c :: Inserter(t, c, id) {
      var c :| Inserter(s, c, id);
      assert Inserter(t, c, id);
    }
  }

  lemma DeleteKeepsRows(s: State, who: nat)
    requires RowsOk(s) && IdsOk(s) && Enabled(s, DeleteRow(who))
    ensures RowsOk(Apply(s, DeleteRow(who)))
  {
    var t := Apply(s, DeleteRow(who));
    forall id | id in t.rows && id !in t.accepted ensures exists c :: Inserter(t, c, id) {
      var c :| Inserter(s, c, id);
      assert Inserter(t, c, id);
    }
  }

  lemma ExpireKeepsRows(s: State, gone: string)
    requires RowsOk(s) && Enabled(s, Expire(gone))
    ensures RowsOk(Apply(s, Expire(gone)))
  {
    var t := Apply(s, Expire(gone));
    forall id | id in t.rows && id !in t.accepted ensures exists c :: Inserter(t, c, id) {
      var c :| Inserter(s, c, id);
      assert Inserter(t, c, id);
    }
  }

  lemma StepKeepsRows(s: State, step: Step)
    requires RowsOk(s) && IdsOk(s) && Enabled(s, step) && !step.DispatchPanics?
    ensures RowsOk(Apply(s, step))
  {
    hide RowsOk, IdsOk;
    match step
    case CheckOrInsert(who) =>
      if s.callers[who].hash in s.idem { SameRows(s, Apply(s, step)); } else { InsertKeepsRows(s, who); }
    case Accept(who) => AcceptKeepsRows(s, who);
    case DeleteRow(who) => DeleteKeepsRows(s, who);
    case Expire(gone) => ExpireKeepsRows(s, gone);
    case DispatchPanics(_) =>
    case _ => SameRows(s, Apply(s, step));
  }

  lemma IdsKept(s: State, t: State, who: nat)
    requires IdsOk(s) && Touched(s, t, who)
    ensures IdsOk(t)
  {
    assert forall c <- s.callers :: c != who ==> s.callers[c].id != s.callers[who].id;
    assert forall c <- s.callers :: t.callers[c].id == s.callers[c].id;
    hide IdsOk;
    assert forall c <- t.callers :: c != who ==> t.callers[c] == s.callers[c];
  }

  lemma StepKeepsIds(s: State, step: Step)
    requires IdsOk(s) && Enabled(s, step)
    ensures IdsOk(Apply(s, step))
  {
    if !step.Begin? && !step.Expire? {
      Touches(s, step);
      hide Apply, IdsOk, Touched;
      IdsKept(s, Apply(s, step), step.who);
    }
  }

  lemma AcceptedStays(s: State, step: Step, id: string)
    requires RowsOk(s) && Enabled(s, step) && id in s.accepted
    ensures id in Apply(s, step).accepted && Apply(s, step).accepted[id] == s.accepted[id]
  {
    assert step.Accept? ==> Provisional(s.callers[step.who]);
  }

  /** What one call returned stays real while accepted jobs stay accepted. */
  lemma RealKept(s: State, t: State, c: Caller)
    requires Real(s, c) && forall id <- s.accepted :: id in t.accepted && t.accepted[id] == s.accepted[id]
    ensures Real(t, c)
  {
  }

  /** The acting caller's own result is real. */
  lemma OwnReal(s: State, step: Step)
    requires ClaimsOk(s) && StoreOk(s) && RowsOk(s) && Enabled(s, step) && !step.Expire?
    requires !step.Begin? ==> Real(s, s.callers[step.who])
    ensures Real(Apply(s, step), Apply(s, step).callers[step.who])
  {
    hide ClaimsOk, StoreOk, RowsOk;
    match step
    case CheckOrInsert(who) =>
      if s.callers[who].hash in s.idem {
        FoundIsAccepted(s, who);
      }
    case DeleteRow(who) =>
    case Release(who) =>
    case _ =>
  }

  lemma StepKeepsResults(s: State, step: Step)
    requires Inv(s) && Enabled(s, step)
    ensures ResultsOk(Apply(s, step))
  {
    var t := Apply(s, step);
    forall id | id in s.accepted ensures id in t.accepted && t.accepted[id] == s.accepted[id] {
      AcceptedStays(s, step, id);
    }
    if !step.Begin? && !step.Expire? {
      Touches(s, step);
    }
    if !step.Expire? {
      OwnReal(s, step);
    }
    assert forall c <- t.callers :: (if step.Expire? then true else c != step.who) ==> c in s.callers && t.callers[c] == s.callers[c];
    hide Apply, Real, ClaimsOk, StoreOk, RowsOk, IdsOk;
    forall c | c in t.callers ensures Real(t, t.callers[c]) {
      if (if step.Expire? then true else c != step.who) {
        RealKept(s, t, s.callers[c]);
      }
    }
  }

  lemma StepKeeps(s: State, step: Step)
    requires Inv(s) && Enabled(s, step) && !step.DispatchPanics?
    ensures Inv(Apply(s, step))
  {
    StepKeepsClaims(s, step);
    StepKeepsStore(s, step);
    StepKeepsRows(s, step);
    StepKeepsIds(s, step);
    StepKeepsResults(s, step);
  }

  // ---- runs ----

  predicate IsRun(s: State, steps: seq<Step>)
    decreases |steps|
  {
    steps != [] ==> Enabled(s, steps[0]) && IsRun(Apply(s, steps[0]), steps[1..])
  }

  function After(s: State, steps: seq<Step>): State
    requires IsRun(s, steps)
    decreases |steps|
  {
    if steps == [] then s else After(Apply(s, steps[0]), steps[1..])
  }

  predicate NoDispatchPanic(steps: seq<Step>) { forall step <- steps :: !step.DispatchPanics? }

  lemma {:induction false} RunKeeps(s: State, steps: seq<Step>)
    requires Inv(s) && IsRun(s, steps) && NoDispatchPanic(steps)
    ensures Inv(After(s, steps))
    decreases |steps|
  {
    hide Inv, Apply, Enabled;
    if steps != [] {
      assert steps[0] in steps;
      StepKeeps(s, steps[0]);
      RunKeeps(Apply(s, steps[0]), steps[1..]);
    }
  }

  lemma EmptyOk()
    ensures Inv(EMPTY)
  {
  }

  /** The job ID a finished call gave its caller, fresh or as a duplicate found in the local store. */
  predicate Returned(s: State, who: nat, id: string) {
    At(s, who, Done(Fresh(id))) || At(s, who, Done(LocalDuplicate(id)))
  }

  /**
   * Every job ID a call returns names a job accepted under that call's own key, which no call ever deletes:
   * it is in the store until it expires.
   */
  lemma ReturnedIdIsReal(steps: seq<Step>, who: nat, id: string)
    requires IsRun(EMPTY, steps) && NoDispatchPanic(steps) && Returned(After(EMPTY, steps), who, id)
    ensures var s := After(EMPTY, steps);
            && id in s.accepted && s.accepted[id] == s.callers[who].hash && id !in s.deleted
            && (if id in s.rows then s.rows[id] == s.callers[who].hash else id in s.expired)
  {
    EmptyOk();
    RunKeeps(EMPTY, steps);
    hide Apply, Enabled, IsRun, After;
    assert Real(After(EMPTY, steps), After(EMPTY, steps).callers[who]);
  }

  /** An accepted job stays accepted, and no later call deletes it. */
  lemma {:induction false} AcceptedForGood(s: State, steps: seq<Step>, id: string)
    requires Inv(s) && IsRun(s, steps) && NoDispatchPanic(steps) && id in s.accepted
    ensures var t := After(s, steps); id in t.accepted && t.accepted[id] == s.accepted[id] && id !in t.deleted
    decreases |steps|
  {
    if steps != [] {
      assert steps[0] in steps;
      StepKeeps(s, steps[0]);
      AcceptedStays(s, steps[0], id);
      hide Inv, Apply, Enabled;
      AcceptedForGood(Apply(s, steps[0]), steps[1..], id);
    }
  }

  /** No two accepted jobs in the store have the same key. */
  lemma OneAcceptedPerKey(steps: seq<Step>, id: string, other: string)
    requires IsRun(EMPTY, steps) && NoDispatchPanic(steps)
    requires var s := After(EMPTY, steps);
             id in s.accepted && id in s.rows && other in s.accepted && other in s.rows && s.accepted[id] == s.accepted[other]
    ensures id == other
  {
    EmptyOk();
    RunKeeps(EMPTY, steps);
    hide Apply, Enabled, IsRun, After;
    var s := After(EMPTY, steps);
    assert s.idem[s.rows[id]] == id && s.idem[s.rows[other]] == other;
  }

  /** A row not yet accepted exists only while the call that inserted it holds the claim of its key. */
  lemma ProvisionalRowIsClaimed(steps: seq<Step>, id: string) returns (who: nat)
    requires IsRun(EMPTY, steps) && NoDispatchPanic(steps)
    requires var s := After(EMPTY, steps); id in s.rows && id !in s.accepted
    ensures var s := After(EMPTY, steps);
            && Inserter(s, who, id) && Holds(s, who, s.rows[id])
            && forall other :: Holds(s, other, s.rows[id]) ==> other == who
  {
    EmptyOk();
    RunKeeps(EMPTY, steps);
    hide Apply, Enabled, IsRun, After;
    var s := After(EMPTY, steps);
    who :| Inserter(s, who, id);
    assert Holds(s, who, s.callers[who].hash);
  }

  // ---- a panic while dispatching ----

  /** A step keeps the rows accounted for exactly when it is not a panic inside Dispatch. */
  lemma OnlyDispatchPanicBreaks(s: State, step: Step)
    requires Inv(s) && Enabled(s, step)
    ensures Inv(Apply(s, step)) <==> !step.DispatchPanics?
  {
    if step.DispatchPanics? {
      var t := Apply(s, step);
      var id := s.callers[step.who].id;
      assert Provisional(s.callers[step.who]);
      hide ClaimsOk, StoreOk, ResultsOk;
      assert forall c :: !Inserter(t, c, id);
    } else {
      StepKeeps(s, step);
    }
  }

  function PanicThenRetry(who: nat, next: nat, hash: string, id: string): seq<Step> {
    [DispatchPanics(who)] + ([Release(who)] + ([Begin(next, hash, id)] + ([Claim(next)] + ([CheckOrInsert(next)] + []))))
  }

  /**
   * A panic inside Dispatch gives the claim back but keeps the row: the next call with that key is told it is
   * a duplicate of a job that was never accepted.
   */
  lemma PanickedDispatchMisleads(s: State, who: nat, next: nat, id: string)
    requires Inv(s) && Enabled(s, DispatchPanics(who))
    requires Enabled(s, Begin(next, s.callers[who].hash, id))
    ensures var steps := PanicThenRetry(who, next, s.callers[who].hash, id);
            && IsRun(s, steps) && Returned(After(s, steps), next, s.callers[who].id)
            && s.callers[who].id !in After(s, steps).accepted
  {
    var hash := s.callers[who].hash;
    var b := Begin(next, hash, id);
    assert PanicThenRetry(who, next, hash, id) ==
           [DispatchPanics(who)] + ([Release(who)] + ([b] + ([Claim(next)] + ([CheckOrInsert(next)] + []))));
    hide *;
    PanicLetsBegin(s, who, next, id);
    var s1 := Apply(s, DispatchPanics(who));
    var s2 := Apply(s1, Release(who));
    NextIsTold(s2, next, hash, id);
    var s3 := Apply(s2, b);
    var s4 := Apply(s3, Claim(next));
    var s5 := Apply(s4, CheckOrInsert(next));
    NoSteps(s5);
    Chain(s4, s5, CheckOrInsert(next), []);
    Chain(s3, s4, Claim(next), [CheckOrInsert(next)] + []);
    Chain(s2, s3, b, [Claim(next)] + ([CheckOrInsert(next)] + []));
    Chain(s1, s2, Release(who), [b] + ([Claim(next)] + ([CheckOrInsert(next)] + [])));
    Chain(s, s1, DispatchPanics(who), [Release(who)] + ([b] + ([Claim(next)] + ([CheckOrInsert(next)] + []))));
  }

  lemma NoSteps(s: State)
    ensures IsRun(s, []) && After(s, []) == s
  {
  }

  /** A call that could begin before still can, and finds the claim free and the row there. */
  lemma PanicLetsBegin(s: State, who: nat, next: nat, id: string)
    requires Inv(s) && Enabled(s, DispatchPanics(who)) && Enabled(s, Begin(next, s.callers[who].hash, id))
    ensures var hash := s.callers[who].hash;
            var s1 := Apply(s, DispatchPanics(who));
            && Enabled(s1, Release(who))
            && var s2 := Apply(s1, Release(who));
            && Enabled(s2, Begin(next, hash, id)) && hash !in s2.held && hash in s2.idem
            && s2.idem[hash] == s.callers[who].id && s.callers[who].id !in s2.accepted
  {
    hide Inv, Apply;
    PanicFrees(s, who);
  }

  /** After the panic and the release, the claim is free and the row still there. */
  lemma PanicFrees(s: State, who: nat)
    requires Inv(s) && Enabled(s, DispatchPanics(who))
    ensures var s1 := Apply(s, DispatchPanics(who));
            && Enabled(s1, Release(who))
            && var s2 := Apply(s1, Release(who));
            && s2.callers.Keys == s.callers.Keys && (forall c <- s.callers :: s2.callers[c].id == s.callers[c].id)
            && s2.held == s.held - {s.callers[who].hash} && s2.rows == s.rows && s2.idem == s.idem
            && s2.accepted == s.accepted && s2.deleted == s.deleted
            && s.callers[who].id !in s.accepted
            && s.callers[who].hash in s.idem && s.idem[s.callers[who].hash] == s.callers[who].id
  {
    assert Provisional(s.callers[who]);
  }

  lemma NextIsTold(s: State, next: nat, hash: string, id: string)
    requires Enabled(s, Begin(next, hash, id)) && hash !in s.held && hash in s.idem
    ensures var s1 := Apply(s, Begin(next, hash, id));
            && Enabled(s1, Claim(next))
            && var s2 := Apply(s1, Claim(next));
            && Enabled(s2, CheckOrInsert(next))
            && var s3 := Apply(s2, CheckOrInsert(next));
            Returned(s3, next, s.idem[hash]) && s3.accepted == s.accepted
  {
  }

  lemma Chain(s: State, t: State, step: Step, rest: seq<Step>)
    requires Enabled(s, step) && t == Apply(s, step)
    ensures IsRun(s, [step] + rest) <==> IsRun(t, rest)
    ensures IsRun(t, rest) ==> After(s, [step] + rest) == After(t, rest)
  {
    assert ([step] + rest)[1..] == rest;
  }
}
