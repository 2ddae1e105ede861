/**
 * A target's worker (internal/dispatch/url_worker.go): the backlog of each of its queues, the running counters
 * the queues keep for it, and admission against its budget. Each counter is its own atomic, so every update of
 * one is a step of its own. Admitted reservations and budget changes hold the worker's lock; releases and the
 * reservations for jobs attached on disk do not.
 */
module Workers {
  import opened Basics
  import opened Sums
  import opened FairAdmission

  datatype Worker = Worker(
    backlogs: map<string, int>,
    active: int,
    backlog: int,
    maxBacklog: int,
    floor: int,
    // Counter updates that a call in progress has still to make.
    addingActive: nat, droppingActive: nat, addingBacklog: nat, droppingBacklog: nat)

  function Fresh(maxBacklog: int): Worker { Worker(map[], 0, 0, maxBacklog, 0, 0, 0, 0, 0) }

  /** No reservation is half way. */
  predicate Unlocked(w: Worker) { w.addingActive == 0 && w.addingBacklog == 0 }

  predicate Quiet(w: Worker) { Unlocked(w) && w.droppingActive == 0 && w.droppingBacklog == 0 }

  // ---- admission ----

  /** What reading the counters one by one may return, while releases go on. */
  predicate Seen(w: Worker, seen: map<string, int>) {
    seen.Keys == w.backlogs.Keys && forall k <- seen :: w.backlogs[k] <= seen[k]
  }

  /** The queues counted as active, the requesting one included. */
  function ActiveWith(seen: map<string, int>, key: string): nat {
    |Positive(seen)| + if At(seen, key) > 0 then 0 else 1
  }

  /** The shrink floor lasts until the backlog is within the budget again. */
  ghost function FloorNow(w: Worker, seen: map<string, int>): int {
    if w.floor > 0 && Sum(seen) <= w.maxBacklog then 0 else w.floor
  }

  ghost function Ask(w: Worker, seen: map<string, int>, key: string, perAccount: bool, draw: real): Decision {
    if perAccount then
      Decide(At(seen, key), Sum(seen), ActiveWith(seen, key), w.maxBacklog, FloorNow(w, seen), draw)
    else Decide(Sum(seen), Sum(seen), 1, w.maxBacklog, FloorNow(w, seen), draw)
  }

  /** reserveBacklog's first update; the worker's counters follow. */
  function Reserve(w: Worker, key: string): Worker {
    w.(backlogs := w.backlogs[key := At(w.backlogs, key) + 1],
       addingActive := w.addingActive + (if At(w.backlogs, key) == 0 then 1 else 0),
       addingBacklog := w.addingBacklog + 1)
  }

  ghost function Admit(w: Worker, seen: map<string, int>, key: string, perAccount: bool, draw: real): Worker {
    var v := w.(floor := FloorNow(w, seen));
    if Ask(w, seen, key, perAccount, draw).allowed then Reserve(v, key) else v
  }

  /** releaseBacklog's first update. */
  function Release(w: Worker, key: string): Worker
    requires key in w.backlogs
  {
    w.(backlogs := w.backlogs[key := w.backlogs[key] - 1],
       droppingActive := w.droppingActive + (if w.backlogs[key] == 1 then 1 else 0),
       droppingBacklog := w.droppingBacklog + 1)
  }

  /** setMaxBacklog. */
  function SetMax(w: Worker, v: int): Worker {
    var floor :=
      if v < w.maxBacklog && w.backlog > v then w.backlog
      else if v > w.maxBacklog then (if w.floor > 0 && w.backlog > v then Min(w.floor, w.backlog) else 0)
      else w.floor;
    w.(floor := floor, maxBacklog := v)
  }

  // ---- runs ----

  datatype Step =
    | Admission(key: string, perAccount: bool, seen: map<string, int>, draw: real)
    | Unadmitted(key: string)
    | Completion(key: string)
    | AddActive
    | AddBacklog
    | DropActive
    | DropBacklog
    | Budget(max: int)
    | Retire(key: string)

  predicate Enabled(w: Worker, step: Step) {
    match step
    case Admission(_, _, _, _) => true
    case Unadmitted(_) => true
    case Completion(key) => At(w.backlogs, key) > 0
    case AddActive => w.addingActive > 0
    case AddBacklog => w.addingBacklog > 0
    case DropActive => w.droppingActive > 0
    case DropBacklog => w.droppingBacklog > 0
    case Budget(_) => true
    case Retire(key) => key in w.backlogs && w.backlogs[key] <= 0
  }

  ghost function Apply(w: Worker, step: Step): Worker
    requires Enabled(w, step)
  {
    match step
    case Admission(key, perAccount, seen, draw) => Admit(w, seen, key, perAccount, draw)
    case Unadmitted(key) => Reserve(w, key)
    case Completion(key) => Release(w, key)
    case AddActive => w.(active := w.active + 1, addingActive := w.addingActive - 1)
    case AddBacklog => w.(backlog := w.backlog + 1, addingBacklog := w.addingBacklog - 1)
    case DropActive => w.(active := w.active - 1, droppingActive := w.droppingActive - 1)
    case DropBacklog => w.(backlog := w.backlog - 1, droppingBacklog := w.droppingBacklog - 1)
    case Budget(max) => SetMax(w, max)
    case Retire(key) => w.(backlogs := w.backlogs - {key})
  }

  ghost predicate IsRun(w: Worker, steps: seq<Step>)
    decreases |steps|
  {
    steps != [] ==> Enabled(w, steps[0]) && IsRun(Apply(w, steps[0]), steps[1..])
  }

  ghost function After(w: Worker, steps: seq<Step>): Worker
    requires IsRun(w, steps)
    decreases |steps|
  {
    if steps == [] then w else After(Apply(w, steps[0]), steps[1..])
  }

  // ---- the counters agree with the queues ----

  /** The worker's counters are the sum and the number of active queues, up to the updates still to come. */
  ghost predicate Counted(w: Worker) {
    && NonNegative(w.backlogs)
    && w.backlog + w.addingBacklog - w.droppingBacklog == Sum(w.backlogs)
    && w.active + w.addingActive - w.droppingActive == |Positive(w.backlogs)|
  }

  lemma PositiveUpdate(m: map<string, int>, k: string, v: int)
    ensures |Positive(m[k := v])| == |Positive(m)| - (if At(m, k) > 0 then 1 else 0) + (if v > 0 then 1 else 0)
  {
    PositiveRemove(m[k := v], k);
    assert m[k := v] - {k} == m - {k};
    if k in m {
      PositiveRemove(m, k);
    } else {
      assert m - {k} == m;
    }
  }

  lemma ReserveCounted(w: Worker, key: string)
    requires Counted(w)
    ensures Counted(Reserve(w, key))
  {
    SumUpdate(w.backlogs, key, At(w.backlogs, key) + 1);
    PositiveUpdate(w.backlogs, key, At(w.backlogs, key) + 1);
  }

  lemma StepCounted(w: Worker, step: Step)
    requires Counted(w) && Enabled(w, step)
    ensures Counted(Apply(w, step))
  {
    match step
    case Admission(key, perAccount, seen, draw) =>
      hide Reserve, Ask, Sum, Positive;
      ReserveCounted(w.(floor := FloorNow(w, seen)), key);
    case Unadmitted(key) =>
      ReserveCounted(w, key);
    case Completion(key) =>
      SumUpdate(w.backlogs, key, w.backlogs[key] - 1);
      PositiveUpdate(w.backlogs, key, w.backlogs[key] - 1);
    case Retire(key) =>
      SumRemove(w.backlogs, key);
      PositiveRemove(w.backlogs, key);
    case _ =>
  }

  /**
   * After any interleaving of calls, the worker's counters differ from its queues by exactly the updates in
   * progress; whenever none is, its backlog is the sum over the queues and its active count the queues with
   * a positive backlog.
   */
  lemma {:induction false} CountersStayExact(w: Worker, steps: seq<Step>)
    requires Counted(w) && IsRun(w, steps)
    ensures var v := After(w, steps);
            Counted(v) && (Quiet(v) ==> v.backlog == Sum(v.backlogs) && v.active == |Positive(v.backlogs)|)
    decreases |steps|
  {
    hide Apply, Enabled;
    if steps != [] {
      StepCounted(w, steps[0]);
      CountersStayExact(Apply(w, steps[0]), steps[1..]);
    }
  }

  // ---- the ceiling ----

  /** The total is at most 1.25 times the larger of the budget and the shrink floor. */
  ghost predicate BelowCeiling(w: Worker) {
    w.maxBacklog > 0 && 4 * Sum(w.backlogs) <= 5 * Max(w.maxBacklog, w.floor)
  }

  /**
   * The steps the ceiling is promised for: everything admitted, and every budget positive. Admitted reservations
   * make all their updates under the worker's lock, so nothing grows while one reads the counters, and
   * none is half way when the budget changes.
   */
  predicate Bounded(w: Worker, step: Step) {
    match step
    case Admission(_, _, seen, _) => Seen(w, seen)
    case Unadmitted(_) => false
    case Budget(max) => max > 0 && Unlocked(w)
    case _ => true
  }

  ghost predicate AllBounded(w: Worker, steps: seq<Step>)
    requires IsRun(w, steps)
    decreases |steps|
  {
    steps != [] ==> Bounded(w, steps[0]) && AllBounded(Apply(w, steps[0]), steps[1..])
  }

  /** A request let in leaves the total it was decided on within the ceiling. */
  lemma AllowedBelow(queue: int, total: int, active: int, maxBacklog: int, floor: int, draw: real)
    requires maxBacklog > 0 && Decide(queue, total, active, maxBacklog, floor, draw).allowed
    ensures 4 * (total + 1) <= 5 * Max(maxBacklog, floor)
  {
  }

  lemma ReserveSum(w: Worker, key: string)
    ensures Sum(Reserve(w, key).backlogs) == Sum(w.backlogs) + 1
  {
    SumUpdate(w.backlogs, key, At(w.backlogs, key) + 1);
  }

  lemma AdmitBelow(w: Worker, seen: map<string, int>, key: string, perAccount: bool, draw: real)
    requires BelowCeiling(w) && Seen(w, seen)
    ensures BelowCeiling(Admit(w, seen, key, perAccount, draw))
  {
    SumMonotone(w.backlogs, seen);
    hide Decide, Sum, At, Positive;
    var floor := FloorNow(w, seen);
    assert 4 * Sum(w.backlogs) <= 5 * Max(w.maxBacklog, floor);
    if Ask(w, seen, key, perAccount, draw).allowed {
      if perAccount {
        AllowedBelow(At(seen, key), Sum(seen), ActiveWith(seen, key), w.maxBacklog, floor, draw);
      } else {
        AllowedBelow(Sum(seen), Sum(seen), 1, w.maxBacklog, floor, draw);
      }
      ReserveSum(w.(floor := floor), key);
    }
  }

  lemma StepBelow(w: Worker, step: Step)
    requires Counted(w) && BelowCeiling(w) && Enabled(w, step) && Bounded(w, step)
    ensures BelowCeiling(Apply(w, step))
  {
    match step
    case Admission(key, perAccount, seen, draw) =>
      AdmitBelow(w, seen, key, perAccount, draw);
    case Completion(key) =>
      SumUpdate(w.backlogs, key, w.backlogs[key] - 1);
    case Budget(max) =>
      hide Sum, Positive;
    case Retire(key) =>
      SumRemove(w.backlogs, key);
    case _ =>
  }

  /**
   * The ceiling is inductive: through any interleaving of admitted requests, completions and positive budget
   * changes, the total never exceeds 1.25 times the larger of the budget and the shrink floor.
   */
  lemma {:induction false} CeilingHolds(w: Worker, steps: seq<Step>)
    requires Counted(w) && BelowCeiling(w) && IsRun(w, steps) && AllBounded(w, steps)
    ensures BelowCeiling(After(w, steps))
    decreases |steps|
  {
    hide Apply, Enabled, BelowCeiling, Counted, Bounded;
    if steps != [] {
      StepCounted(w, steps[0]);
      StepBelow(w, steps[0]);
      CeilingHolds(Apply(w, steps[0]), steps[1..]);
    }
  }

  /** A new worker meets both. */
  lemma FreshWorker(maxBacklog: int)
    requires maxBacklog > 0
    ensures Counted(Fresh(maxBacklog)) && BelowCeiling(Fresh(maxBacklog)) && Quiet(Fresh(maxBacklog))
  {
    assert Positive(Fresh(maxBacklog).backlogs) == {};
  }

  // ---- small tenants ----

  /** A tenant that stays at or under its share is let in whatever the draw while the total is within the ceiling. */
  lemma SmallTenantEnters(w: Worker, key: string, draw: real)
    requires w.maxBacklog > 0 && NonNegative(w.backlogs) && ActiveWith(w.backlogs, key) > 1
    requires (At(w.backlogs, key) + 1) * ActiveWith(w.backlogs, key) <= w.maxBacklog
    requires 4 * (Sum(w.backlogs) + 1) <= 5 * Max(w.maxBacklog, FloorNow(w, w.backlogs))
    ensures Ask(w, w.backlogs, key, true, draw).allowed
  {
    var b := w.backlogs;
    AdmittedForEveryDraw(At(b, key), Sum(b), ActiveWith(b, key), w.maxBacklog, FloorNow(w, b));
    assert AlwaysAdmitted(At(b, key), Sum(b), ActiveWith(b, key), w.maxBacklog, FloorNow(w, b));
  }

  /**
   * A target that shrinks its budget below what it already holds does not lock its small tenants out: one under
   * its share of the new budget is still let in whatever the draw, up to a quarter past what was held.
   */
  lemma ShrinkingKeepsSmallTenants(w: Worker, v: int, key: string, draw: real)
    requires Counted(w) && Quiet(w) && 0 < v < w.maxBacklog && Sum(w.backlogs) > v && Sum(w.backlogs) >= 4
    requires ActiveWith(w.backlogs, key) > 1 && (At(w.backlogs, key) + 1) * ActiveWith(w.backlogs, key) <= v
    ensures Ask(SetMax(w, v), w.backlogs, key, true, draw).allowed
  {
    hide Sum, Positive, Share;
    var t := SetMax(w, v);
    assert t.floor == Sum(w.backlogs) && FloorNow(t, t.backlogs) == t.floor;
    SmallTenantEnters(t, key, draw);
  }

  /** Once the budget is used up, some active queue is over its share, and is refused whatever the draw. */
  lemma SomeTenantIsRefused(w: Worker) returns (key: string)
    requires NonNegative(w.backlogs) && 0 < w.maxBacklog <= Sum(w.backlogs)
    ensures key in Positive(w.backlogs)
    ensures (w.backlogs[key] + 1) * ActiveWith(w.backlogs, key) > w.maxBacklog
    ensures forall draw: real :: !Ask(w, w.backlogs, key, true, draw).allowed
  {
    var b := w.backlogs;
    key := SomeAtLeastAverage(b, w.maxBacklog);
    var n := ActiveWith(b, key);
    assert n == |Positive(b)| && n >= 1;
    assert (b[key] + 1) * n == b[key] * n + n;
    RefusedForEveryDraw(b[key], Sum(b), n, w.maxBacklog, FloorNow(w, b));
    assert AlwaysRefused(b[key], Sum(b), n, w.maxBacklog, FloorNow(w, b));
  }

  /** The queues a share is taken over are those active once the request is in. */
  lemma ActiveOnceIn(seen: map<string, int>, key: string)
    requires NonNegative(seen)
    ensures ActiveWith(seen, key) == |Positive(seen[key := At(seen, key) + 1])|
  {
    PositiveUpdate(seen, key, At(seen, key) + 1);
  }

  /** A queue that is not shared by tenants takes a request exactly if there is no budget or it is within it. */
  lemma SharedQueueTakes(w: Worker, seen: map<string, int>, key: string, draw: real)
    ensures Ask(w, seen, key, false, draw).allowed <==> w.maxBacklog <= 0 || Sum(seen) + 1 <= w.maxBacklog
  {
    hide Sum;
  }

  /**
   * The extra room a shrunk budget leaves lasts until the backlog is back within the budget: from then on what is let in
   * stays within 1.25 times the budget itself.
   */
  lemma FloorEndsWhenDrained(w: Worker, seen: map<string, int>, key: string, perAccount: bool, draw: real)
    requires w.maxBacklog > 0 && w.floor >= 0
    ensures Admit(w, seen, key, perAccount, draw).floor == if Sum(seen) <= w.maxBacklog then 0 else w.floor
    ensures Sum(seen) <= w.maxBacklog && Ask(w, seen, key, perAccount, draw).allowed ==> 4 * (Sum(seen) + 1) <= 5 * w.maxBacklog
  {
    hide Sum, At, Positive, Decide;
    var floor := FloorNow(w, seen);
    if Ask(w, seen, key, perAccount, draw).allowed {
      if perAccount {
        AllowedBelow(At(seen, key), Sum(seen), ActiveWith(seen, key), w.maxBacklog, floor, draw);
      } else {
        AllowedBelow(Sum(seen), Sum(seen), 1, w.maxBacklog, floor, draw);
      }
    }
  }

  /** A shrink below the backlog leaves room for what is held; a raise takes that room back, as far as it is not needed. */
  lemma BudgetMovesFloor(w: Worker, v: int)
    requires w.floor >= 0
    ensures var t := SetMax(w, v);
            && t.maxBacklog == v && t.backlogs == w.backlogs
            && (v < w.maxBacklog && w.backlog > v ==> t.floor == w.backlog)
            && (v > w.maxBacklog && w.backlog <= v ==> t.floor == 0)
            && (v > w.maxBacklog ==> t.floor <= w.floor && t.floor <= Max(w.backlog, 0))
  {
  }

  // ---- the object ----

  class URLWorker {
    var queues: map<string, int>
    var active: int
    var backlog: int
    var maxBacklog: int
    var shrinkFloor: int
    var perAccount: bool

    ghost function View(): Worker
      reads this
    {
      Worker(queues, active, backlog, maxBacklog, shrinkFloor, 0, 0, 0, 0)
    }

    constructor (maxBacklog: int)
      ensures View() == Fresh(maxBacklog)
    {
      queues, active, backlog, this.maxBacklog, shrinkFloor, perAccount := map[], 0, 0, maxBacklog, 0, false;
    }

    /** Adds up the queues' backlogs. */
    method Tally(key: string) returns (total: int, activeQueues: nat, pending: int)
      requires NonNegative(queues)
      ensures total == Sum(queues) && activeQueues == |Positive(queues)| && pending == At(queues, key)
    {
      total, activeQueues, pending := 0, 0, 0;
      var keys := queues.Keys;
      ghost var done: map<string, int> := map[];
      while keys != {}
        invariant keys <= queues.Keys && done == queues - keys
        invariant total == Sum(done) && activeQueues == |Positive(done)| && pending == At(done, key)
        decreases |keys|
      {
        var k :| k in keys;
        SumUpdate(done, k, queues[k]);
        PositiveUpdate(done, k, queues[k]);
        keys := keys - {k};
        done := done[k := queues[k]];
        assert done == queues - keys;
        if queues[k] > 0 {
          total := total + queues[k];
          activeQueues := activeQueues + 1;
          if k == key {
            pending := queues[k];
          }
        }
      }
      assert done == queues;
    }

    method ReserveBacklog(key: string)
      requires Counted(View())
      modifies this
      ensures Counted(View())
      ensures var w := Reserve(old(View()), key);
              View() == w.(active := w.active + w.addingActive, addingActive := 0, backlog := w.backlog + 1, addingBacklog := 0)
      ensures perAccount == old(perAccount)
    {
      ReserveCounted(View(), key);
      queues := queues[key := (if key in queues then queues[key] else 0) + 1];
      if queues[key] == 1 {
        active := active + 1;
      }
      backlog := backlog + 1;
    }

    method ReleaseBacklog(key: string)
      requires Counted(View()) && At(queues, key) > 0
      modifies this
      ensures Counted(View())
      ensures var w := Release(old(View()), key);
              View() == w.(active := w.active - w.droppingActive, droppingActive := 0, backlog := w.backlog - 1, droppingBacklog := 0)
      ensures perAccount == old(perAccount)
    {
      StepCounted(View(), Completion(key));
      queues := queues[key := queues[key] - 1];
      if queues[key] == 0 {
        active := active - 1;
      }
      backlog := backlog - 1;
    }

    /** An admitted enqueue: the decision and the reservation, under the lock. */
    method AdmitAndReserve(key: string, draw: real) returns (d: Decision)
      requires Counted(View())
      modifies this
      ensures Counted(View())
      ensures d == old(Ask(View(), queues, key, perAccount, draw))
      ensures var w := Admit(old(View()), old(queues), key, perAccount, draw);
              View() == w.(active := w.active + w.addingActive, addingActive := 0,
                           backlog := w.backlog + w.addingBacklog, addingBacklog := 0)
    {
      hide Decide;
      var total, activeQueues, pending := Tally(key);
      if pending == 0 {
        activeQueues := activeQueues + 1;
      }
      if !perAccount {
        activeQueues, pending := 1, total;
      }
      var floor := shrinkFloor;
      if floor > 0 && total <= maxBacklog {
        shrinkFloor := 0;
        floor := 0;
      }
      d := Decide(pending, total, activeQueues, maxBacklog, floor, draw);
      if d.allowed {
        ReserveBacklog(key);
      }
    }

    method SetMaxBacklog(v: int)
      modifies this`maxBacklog, this`shrinkFloor
      ensures View() == SetMax(old(View()), v)
    {
      if v < maxBacklog && backlog > v {
        shrinkFloor := backlog;
      } else if v > maxBacklog {
        if shrinkFloor > 0 && backlog > v {
          shrinkFloor := Min(shrinkFloor, backlog);
        } else {
          shrinkFloor := 0;
        }
      }
      maxBacklog := v;
    }
  }
}
