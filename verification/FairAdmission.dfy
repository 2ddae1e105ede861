/** Whether a target takes one more request (internal/admission/fair.go). Rates and shares are reals. */
module FairAdmission {
  import opened Basics

  const FAIR_START := 0.70
  const FAIR_CEILING := 1.25
  // The largest 64-bit float below 1.
  const BELOW_ONE := 1.0 - 1.0 / 9007199254740992.0

  datatype Snapshot = Snapshot(
    activeQueues: int, upstreamBacklog: int, queueBacklog: int, maxBacklog: int, pressure: real, rejection: real)

  datatype Decision = Decision(allowed: bool, reason: string, snapshot: Snapshot)

  function Clamp(value: real, low: real, high: real): (r: real)
    ensures low <= high ==> low <= r <= high && (low <= value <= high ==> r == value)
  {
    var v := if value < high then value else high;
    if v > low then v else low
  }

  /** A draw forced into [0, 1). */
  function InUnit(draw: real): (r: real)
    ensures 0.0 <= r < 1.0 && (0.0 <= draw < 1.0 ==> r == draw)
  {
    if draw < 0.0 then 0.0 else if draw >= 1.0 then BELOW_ONE else draw
  }

  function Queues(active: int): int { if active < 1 then 1 else active }

  function Share(active: int, maxBacklog: int): real {
    maxBacklog as real / Queues(active) as real
  }

  function Ceiling(maxBacklog: int, floor: int): real {
    FAIR_CEILING * Max(maxBacklog, floor) as real
  }

  function Pressure(total: int, maxBacklog: int): real
    requires maxBacklog > 0
  {
    var start := FAIR_START * maxBacklog as real;
    Clamp((total as real - start) / (maxBacklog as real - start), 0.0, 1.0)
  }

  function Excess(queue: int, share: real): real
    requires share > 0.0
  {
    Clamp((queue as real - share) / share, 0.0, 1.0)
  }

  lemma SharePositive(active: int, maxBacklog: int)
    requires maxBacklog > 0
    ensures Share(active, maxBacklog) > 0.0
  {
  }

  /** DecideFairWithFloor. */
  function Decide(queuePending: int, totalPending: int, active: int, maxBacklog: int, floor: int, draw: real): Decision
  {
    var queue := queuePending + 1;
    var total := totalPending + 1;
    var snapshot := Snapshot(Queues(active), total, queue, maxBacklog, 0.0, 0.0);
    if maxBacklog <= 0 then Decision(true, "", snapshot)
    else
      var share := Share(active, maxBacklog);
      if total > maxBacklog then
        var under := Queues(active) > 1 && queue as real <= share;
        if under && total as real <= Ceiling(maxBacklog, floor) then Decision(true, "", snapshot.(pressure := 1.0))
        else Decision(false, "upstream_queue", snapshot.(pressure := 1.0, rejection := 1.0))
      else if Queues(active) == 1 then Decision(true, "", snapshot)
      else
        SharePositive(active, maxBacklog);
        var pressure := Pressure(total, maxBacklog);
        var probability := pressure * Excess(queue, share);
        var s := snapshot.(pressure := pressure, rejection := probability);
        if probability > 0.0 && InUnit(draw) < probability
        then Decision(false, "queue_fair_share", s) else Decision(true, "", s)
  }

  ghost predicate AlwaysAdmitted(queuePending: int, totalPending: int, active: int, maxBacklog: int, floor: int) {
    forall draw: real :: Decide(queuePending, totalPending, active, maxBacklog, floor, draw).allowed
  }

  ghost predicate AlwaysRefused(queuePending: int, totalPending: int, active: int, maxBacklog: int, floor: int) {
    forall draw: real :: !Decide(queuePending, totalPending, active, maxBacklog, floor, draw).allowed
  }

  lemma DivSign(x: real, d: real)
    requires d > 0.0
    ensures x / d > 0.0 <==> x > 0.0
    ensures x / d >= 1.0 <==> x >= d
  {
    var q := x / d;
    assert q * d == x;
    assert q > 0.0 ==> q * d > 0.0;
    assert q <= 0.0 ==> q * d <= 0.0;
    assert q >= 1.0 ==> q * d >= d;
    assert q < 1.0 ==> q * d < d;
  }

  /** Pressure starts past 70% of the budget and is full at the budget. */
  lemma PressureRange(total: int, maxBacklog: int)
    requires 0 < maxBacklog && total <= maxBacklog
    ensures 0.0 <= Pressure(total, maxBacklog) <= 1.0
    ensures Pressure(total, maxBacklog) > 0.0 <==> total as real > FAIR_START * maxBacklog as real
    ensures Pressure(total, maxBacklog) == 1.0 <==> total == maxBacklog
  {
    var start := FAIR_START * maxBacklog as real;
    DivSign(total as real - start, maxBacklog as real - start);
  }

  /** Excess starts past the fair share and is full at twice the share. */
  lemma ExcessRange(queue: int, share: real)
    requires share > 0.0
    ensures 0.0 <= Excess(queue, share) <= 1.0
    ensures Excess(queue, share) > 0.0 <==> queue as real > share
    ensures Excess(queue, share) == 1.0 <==> queue as real >= 2.0 * share
  {
    DivSign(queue as real - share, share);
  }

  lemma ProductRange(a: real, b: real)
    requires 0.0 <= a <= 1.0 && 0.0 <= b <= 1.0
    ensures 0.0 <= a * b <= 1.0
    ensures a * b > 0.0 <==> a > 0.0 && b > 0.0
    ensures a * b == 1.0 <==> a == 1.0 && b == 1.0
  {
    assert a * b <= a && a * b <= b;
  }

  lemma AdmittedByShare(queuePending: int, totalPending: int, active: int, maxBacklog: int, floor: int)
    ensures var queue, total := queuePending + 1, totalPending + 1;
            AlwaysAdmitted(queuePending, totalPending, active, maxBacklog, floor) <==>
            || maxBacklog <= 0
            || (total > maxBacklog && active > 1 && queue as real <= Share(active, maxBacklog)
                && total as real <= Ceiling(maxBacklog, floor))
            || (total <= maxBacklog
                && (active <= 1 || queue as real <= Share(active, maxBacklog)
                    || total as real <= FAIR_START * maxBacklog as real))
  {
    var queue, total := queuePending + 1, totalPending + 1;
    if maxBacklog > 0 && total <= maxBacklog && active > 1 {
      SharePositive(active, maxBacklog);
      PressureRange(total, maxBacklog);
      ExcessRange(queue, Share(active, maxBacklog));
      hide Pressure, Excess, Share;
      ProductRange(Pressure(total, maxBacklog), Excess(queue, Share(active, maxBacklog)));
      var d := Decide(queuePending, totalPending, active, maxBacklog, floor, 0.0);
      assert d.allowed <==> d.snapshot.rejection == 0.0;
      assert d.snapshot.rejection == Pressure(total, maxBacklog) * Excess(queue, Share(active, maxBacklog));
    } else {
      var d := Decide(queuePending, totalPending, active, maxBacklog, floor, 0.0);
      assert forall draw: real :: Decide(queuePending, totalPending, active, maxBacklog, floor, draw) == d;
    }
  }

  lemma RefusedByShare(queuePending: int, totalPending: int, active: int, maxBacklog: int, floor: int)
    ensures var queue, total := queuePending + 1, totalPending + 1;
            AlwaysRefused(queuePending, totalPending, active, maxBacklog, floor) <==>
            maxBacklog > 0 &&
            (|| (total > maxBacklog && (active <= 1 || queue as real > Share(active, maxBacklog)
                                        || total as real > Ceiling(maxBacklog, floor)))
             || (total == maxBacklog && active > 1 && queue as real >= 2.0 * Share(active, maxBacklog)))
  {
    var queue, total := queuePending + 1, totalPending + 1;
    if maxBacklog > 0 && total <= maxBacklog && active > 1 {
      SharePositive(active, maxBacklog);
      PressureRange(total, maxBacklog);
      ExcessRange(queue, Share(active, maxBacklog));
      hide Pressure, Excess, Share;
      var p := Pressure(total, maxBacklog) * Excess(queue, Share(active, maxBacklog));
      ProductRange(Pressure(total, maxBacklog), Excess(queue, Share(active, maxBacklog)));
      if p < 1.0 {
        assert Decide(queuePending, totalPending, active, maxBacklog, floor, p).allowed;
      }
    } else {
      var d := Decide(queuePending, totalPending, active, maxBacklog, floor, 0.0);
      assert forall draw: real :: Decide(queuePending, totalPending, active, maxBacklog, floor, draw) == d;
    }
  }

  // ---- in terms of the counts ----

  /** A queue is within its share exactly if all active queues together could hold as much. */
  lemma ShareReads(queue: int, active: int, maxBacklog: int)
    requires active >= 1
    ensures queue as real <= Share(active, maxBacklog) <==> queue * active <= maxBacklog
    ensures queue as real >= 2.0 * Share(active, maxBacklog) <==> queue * active >= 2 * maxBacklog
    ensures Share(active, maxBacklog) * active as real == maxBacklog as real
  {
    var q, n, m := queue as real, active as real, maxBacklog as real;
    var share := Share(active, maxBacklog);
    assert share * n == m;
    assert (queue * active) as real == q * n && (2 * maxBacklog) as real == 2.0 * m;
    hide Share;
    ProductOrder(share, q, n);
    ProductOrder(q, 2.0 * share, n);
    assert (2.0 * share) * n == 2.0 * (share * n);
  }

  /**
   * A request is let in whatever the draw exactly when there is no budget; or it is over budget, but not alone, its queue
   * under its share and the total within 1.25 times the larger of budget and floor; or it is within budget
   * and alone, or its queue under its share, or the total at most 70% of the budget.
   */
  lemma AdmittedForEveryDraw(queuePending: int, totalPending: int, active: int, maxBacklog: int, floor: int)
    ensures var queue, total := queuePending + 1, totalPending + 1;
            AlwaysAdmitted(queuePending, totalPending, active, maxBacklog, floor) <==>
            || maxBacklog <= 0
            || (total > maxBacklog && active > 1 && queue * active <= maxBacklog
                && (4 * total <= 5 * maxBacklog || 4 * total <= 5 * floor))
            || (total <= maxBacklog && (active <= 1 || queue * active <= maxBacklog || 10 * total <= 7 * maxBacklog))
  {
    AdmittedByShare(queuePending, totalPending, active, maxBacklog, floor);
    if active >= 1 { ShareReads(queuePending + 1, active, maxBacklog); }
    hide AlwaysAdmitted, Share;
  }

  /**
   * It is refused whatever the draw exactly when it is over budget, and alone, its queue over its share or the total
   * past that ceiling; or it would fill the budget to the brim with its queue at twice its share.
   */
  lemma RefusedForEveryDraw(queuePending: int, totalPending: int, active: int, maxBacklog: int, floor: int)
    ensures var queue, total := queuePending + 1, totalPending + 1;
            AlwaysRefused(queuePending, totalPending, active, maxBacklog, floor) <==>
            maxBacklog > 0 &&
            (|| (total > maxBacklog && (active <= 1 || queue * active > maxBacklog
                                        || (4 * total > 5 * maxBacklog && 4 * total > 5 * floor)))
             || (total == maxBacklog && active > 1 && queue * active >= 2 * maxBacklog))
  {
    RefusedByShare(queuePending, totalPending, active, maxBacklog, floor);
    if active >= 1 { ShareReads(queuePending + 1, active, maxBacklog); }
    hide AlwaysRefused, Share;
  }

  /** The draw is below `more` / 3m times `over` / m. */
  predicate DrawBelow(draw: real, more: real, over: real, m: real) { draw * (3.0 * (m * m)) < more * over }

  /**
   * In between the draw decides: with n active queues and budget m, a queue of q in a total of t is refused exactly if
   * the draw is below (10 t - 7 m) / 3m times the part of m by which q n exceeds m, at most all of it.
   */
  lemma DrawDecides(queuePending: int, totalPending: int, active: int, maxBacklog: int, floor: int, draw: real)
    requires maxBacklog > 0 && active > 1 && 0.0 <= draw < 1.0
    requires var queue, total := queuePending + 1, totalPending + 1;
             total <= maxBacklog && 10 * total > 7 * maxBacklog && queue * active > maxBacklog
    ensures var queue, total := queuePending + 1, totalPending + 1;
            var over := Min(queue * active - maxBacklog, maxBacklog);
            !Decide(queuePending, totalPending, active, maxBacklog, floor, draw).allowed <==>
            DrawBelow(draw, (10 * total - 7 * maxBacklog) as real, over as real, maxBacklog as real)
  {
    hide *;
    var queue, total := queuePending + 1, totalPending + 1;
    var over := Min(queue * active - maxBacklog, maxBacklog);
    DecidedBy(queuePending, totalPending, active, maxBacklog, floor, draw);
    PressureIs(total, maxBacklog);
    ExcessIs(queue, active, maxBacklog);
    var p, e := Pressure(total, maxBacklog), Excess(queue, Share(active, maxBacklog));
    Compare(draw, p, e, (10 * total - 7 * maxBacklog) as real, over as real, maxBacklog as real);
  }

  lemma DecidedBy(queuePending: int, totalPending: int, active: int, maxBacklog: int, floor: int, draw: real)
    requires maxBacklog > 0 && active > 1 && 0.0 <= draw < 1.0 && totalPending + 1 <= maxBacklog
    ensures Share(active, maxBacklog) > 0.0
    ensures var p := Pressure(totalPending + 1, maxBacklog) * Excess(queuePending + 1, Share(active, maxBacklog));
            Decide(queuePending, totalPending, active, maxBacklog, floor, draw).allowed <==> !(p > 0.0 && draw < p)
  {
    SharePositive(active, maxBacklog);
    hide Share, Pressure, Excess;
  }

  lemma Compare(draw: real, p: real, e: real, more: real, over: real, m: real)
    requires m > 0.0 && p * (3.0 * m) == more && e * m == over && draw >= 0.0
    ensures p * e > 0.0 && draw < p * e <==> DrawBelow(draw, more, over, m)
  {
    hide IsPositive;
    SquarePositive(m);
    Regroup(p, e, m);
    InOrder(draw, p * e, 3.0 * (m * m));
  }

  predicate IsPositive(x: real) { x > 0.0 }

  lemma InOrder(draw: real, x: real, k: real)
    requires IsPositive(k) && draw >= 0.0
    ensures x > 0.0 && draw < x <==> draw * k < x * k
  {
    ProductOrder(draw, x, k);
  }

  lemma SquarePositive(m: real)
    requires m > 0.0
    ensures IsPositive(3.0 * (m * m))
  {
    ProductPositive(m, m);
  }

  lemma ProductPositive(a: real, b: real)
    requires a > 0.0 && b > 0.0
    ensures a * b > 0.0
  {
  }

  lemma Regroup(p: real, e: real, m: real)
    ensures (p * (3.0 * m)) * (e * m) == (p * e) * (3.0 * (m * m))
  {
  }

  lemma PressureIs(total: int, maxBacklog: int)
    requires 0 < maxBacklog && total <= maxBacklog && 10 * total > 7 * maxBacklog
    ensures Pressure(total, maxBacklog) * (3.0 * maxBacklog as real) == (10 * total - 7 * maxBacklog) as real
  {
    var t, m := total as real, maxBacklog as real;
    var d := m - FAIR_START * m;
    var q := (t - FAIR_START * m) / d;
    assert d == 0.3 * m && q * d == t - 0.7 * m;
    DivSign(t - FAIR_START * m, d);
    assert t <= m && q <= 1.0 by {
      if q > 1.0 { ProductOrder(1.0, q, d); }
    }
    assert Pressure(total, maxBacklog) == q;
    assert q * (3.0 * m) == 10.0 * (q * d);
  }

  lemma ExcessIs(queue: int, active: int, maxBacklog: int)
    requires maxBacklog > 0 && active >= 1 && queue * active > maxBacklog && Share(active, maxBacklog) > 0.0
    ensures Excess(queue, Share(active, maxBacklog)) * maxBacklog as real == Min(queue * active - maxBacklog, maxBacklog) as real
  {
    var share := Share(active, maxBacklog);
    ShareReads(queue, active, maxBacklog);
    ExcessRange(queue, share);
    var q, n, m := queue as real, active as real, maxBacklog as real;
    assert (queue * active) as real == q * n;
    if queue * active >= 2 * maxBacklog {
      assert Excess(queue, share) == 1.0;
    } else {
      var x := (q - share) / share;
      assert x * share == q - share;
      DivSign(q - share, share);
      assert x <= 1.0 by {
        if x > 1.0 { ProductOrder(1.0, x, share); }
      }
      assert Excess(queue, share) == x;
      assert x * m == (x * share) * n;
      assert (q - share) * n == q * n - m;
    }
  }

  /** A refusal names the budget exactly if the total is past it; the caller is told what it was decided on. */
  lemma DecisionReports(queuePending: int, totalPending: int, active: int, maxBacklog: int, floor: int, draw: real)
    ensures var d := Decide(queuePending, totalPending, active, maxBacklog, floor, draw);
            && d.snapshot.upstreamBacklog == totalPending + 1 && d.snapshot.queueBacklog == queuePending + 1
            && d.snapshot.maxBacklog == maxBacklog && d.snapshot.activeQueues == (if active < 1 then 1 else active)
            && d.reason == (if d.allowed then "" else if totalPending + 1 > maxBacklog then "upstream_queue" else "queue_fair_share")
            && (!d.allowed && totalPending + 1 > maxBacklog ==> d.snapshot.pressure == 1.0 && d.snapshot.rejection == 1.0)
  {
    hide Pressure, Excess, Share, Ceiling;
  }
}
