/** The rate advertised to callers (internal/admission/inbound_rate.go), one tick a second. Rates are reals. */
module InboundRate {
  import opened Basics

  const CUT := 0.7
  const FAST_GROWTH := 1.5
  const CAREFUL_GROWTH := 1.05
  const CUT_COOLDOWN_TICKS := 3
  const EPISODE_RECUT_TICKS := 10
  const BACKLOG_GROWTH_TICKS := 3
  const OVERSHOOT := 1.5
  const USED := 0.8
  const MIN_SAMPLES := 20
  const LATENCY_SLACK := 2_000_000

  /** What a tick reads: the inserts and latency samples since the last, the backlog, and how far the disk is behind. */
  datatype Reading = Reading(inserts: nat, samples: nat, p95: nat, backlog: Option<nat>, diskBehind: bool)

  datatype Control = Control(
    floor: real, ceiling: real,
    rate: real, threshold: real, cooldown: int, congested: bool, episode: int,
    prevBacklog: Option<nat>, backlogGrows: int, baseline: nat)

  datatype Reason = InsertLatency | DiskBehind | BacklogGrowing

  datatype Adjustment = Cut(reason: Reason) | WaitForCut | HoldBacklog | HoldOvershoot | Raise | Hold

  function StartRate(benchmark: real, percent: real): real { MaxReal(benchmark * percent / 100.0, 1.0) }

  /** newInboundRateController. */
  function Start(benchmark: real, startPercent: real): Control {
    var b := if benchmark <= 0.0 then 400.0 else benchmark;
    Control(1.0, b * 10.0, StartRate(b, startPercent), b, 0, false, 0, None, 0, 0)
  }

  // ---- health ----

  function Baseline(c: Control, r: Reading): nat {
    if r.samples < MIN_SAMPLES then c.baseline
    else if c.baseline == 0 || r.p95 < c.baseline then r.p95
    else (c.baseline as real * 0.99 + r.p95 as real * 0.01).Floor
  }

  predicate LatencyHealthy(c: Control, r: Reading) {
    r.samples < MIN_SAMPLES || r.p95 <= (Baseline(c, r) as real * 1.5).Floor + LATENCY_SLACK
  }

  predicate BacklogGrew(c: Control, r: Reading) {
    c.prevBacklog.Some? && r.backlog.Some?
    && (r.backlog.value - c.prevBacklog.value) as real > MaxReal(10.0, 0.1 * r.inserts as real)
  }

  function Grows(c: Control, r: Reading): int { if BacklogGrew(c, r) then c.backlogGrows + 1 else 0 }

  predicate Healthy(c: Control, r: Reading) {
    LatencyHealthy(c, r) && Grows(c, r) < BACKLOG_GROWTH_TICKS && !r.diskBehind
  }

  // ---- the tick ----

  /** The counters, brought up to this tick. */
  function Noted(c: Control, r: Reading): Control {
    var congested := c.congested && !Healthy(c, r);
    c.(baseline := Baseline(c, r), backlogGrows := Grows(c, r), prevBacklog := r.backlog, congested := congested,
       cooldown := if c.cooldown > 0 then c.cooldown - 1 else c.cooldown,
       episode := if congested then c.episode + 1 else c.episode)
  }

  function ReasonFor(c: Control, r: Reading): Reason {
    if !LatencyHealthy(c, r) then InsertLatency else if r.diskBehind then DiskBehind else BacklogGrowing
  }

  /** `n` is `c` brought up to this tick. */
  function Decide(c: Control, n: Control, r: Reading): Adjustment {
    if !Healthy(c, r) then
      if (!n.congested || n.episode >= EPISODE_RECUT_TICKS) && n.cooldown == 0 then Cut(ReasonFor(c, r)) else WaitForCut
    else if BacklogGrew(c, r) then HoldBacklog
    else if r.inserts as real > n.rate * OVERSHOOT then HoldOvershoot
    else if r.inserts as real >= n.rate * USED then Raise
    else Hold
  }

  function Adjusted(n: Control, a: Adjustment): Control {
    match a
    case Cut(_) =>
      n.(threshold := if n.congested then n.threshold else MaxReal(n.rate * 0.9, n.floor),
         congested := true, episode := 0, rate := MaxReal(n.rate * CUT, n.floor), cooldown := CUT_COOLDOWN_TICKS)
    case Raise =>
      n.(congested := false,
         rate := MinReal(n.rate * (if n.rate >= n.threshold then CAREFUL_GROWTH else FAST_GROWTH), n.ceiling))
    case _ => n
  }

  function Adjustments(c: Control, r: Reading): Adjustment { Decide(c, Noted(c, r), r) }

  function Tick(c: Control, r: Reading): Control { Adjusted(Noted(c, r), Adjustments(c, r)) }

  function After(c: Control, rs: seq<Reading>): Control
    decreases |rs|
  {
    if rs == [] then c else After(Tick(c, rs[0]), rs[1..])
  }

  /** What each tick of a run did. */
  function Log(c: Control, rs: seq<Reading>): (log: seq<Adjustment>)
    ensures |log| == |rs|
    decreases |rs|
  {
    if rs == [] then [] else [Adjustments(c, rs[0])] + Log(Tick(c, rs[0]), rs[1..])
  }

  // ---- the rate stays in range ----

  /** In range, and below the learned threshold while congested. */
  predicate Valid(c: Control) {
    && 0.0 < c.floor <= c.rate <= c.ceiling && (c.congested ==> c.rate <= c.threshold)
    && 0 <= c.cooldown && 0 <= c.episode && 0 <= c.backlogGrows
  }

  lemma TickKeeps(c: Control, r: Reading)
    requires Valid(c)
    ensures Valid(Tick(c, r)) && Tick(c, r).floor == c.floor && Tick(c, r).ceiling == c.ceiling
  {
    assert Grows(c, r) >= 0;
    hide Healthy, Baseline, Grows, ReasonFor, BacklogGrew;
  }

  /**
   * From a valid start the rate stays between floor and ceiling on every run, and at or below the learned
   * threshold throughout a congestion episode.
   */
  lemma {:induction false} RateStaysInRange(c: Control, rs: seq<Reading>)
    requires Valid(c)
    ensures var t := After(c, rs);
            Valid(t) && c.floor <= t.rate <= c.ceiling && (t.congested ==> t.rate <= t.threshold)
    decreases |rs|
  {
    if rs != [] {
      TickKeeps(c, rs[0]);
      hide Tick;
      RateStaysInRange(Tick(c, rs[0]), rs[1..]);
    }
  }

  /** The start is valid exactly when the benchmark leaves room above the floor and the start is at most tenfold. */
  lemma ValidStart(benchmark: real, startPercent: real)
    requires benchmark > 0.0
    ensures Valid(Start(benchmark, startPercent)) <==> benchmark >= 0.1 && startPercent <= 1000.0
  {
    assert benchmark * startPercent / 100.0 <= benchmark * 10.0 <==> startPercent <= 1000.0 by {
      assert benchmark * startPercent <= benchmark * 1000.0 <==> startPercent <= 1000.0;
    }
  }

  /** It starts at the given part of the benchmark, at least one a second, with the benchmark as its first threshold. */
  lemma StartsAtPercent(benchmark: real, startPercent: real)
    ensures var b := if benchmark > 0.0 then benchmark else 400.0;
            var c := Start(benchmark, startPercent);
            && 100.0 * c.rate == (if b * startPercent > 100.0 then b * startPercent else 100.0)
            && c.threshold == b && c.ceiling == 10.0 * b && c.floor == 1.0 && !c.congested && c.cooldown == 0
  {
    var b := if benchmark > 0.0 then benchmark else 400.0;
    Hundredth(b * startPercent);
    assert Start(benchmark, startPercent).rate == StartRate(b, startPercent);
  }

  lemma Hundredth(x: real)
    ensures 100.0 * MaxReal(x / 100.0, 1.0) == if x > 100.0 then x else 100.0
  {
  }

  /**
   * The rate falls only on an unhealthy tick, by at most 30%, and rises only on a healthy one whose callers use
   * at least 80% and at most 150% of it: by at most half below the threshold, and 5% at or above it.
   */
  lemma WhenTheRateMoves(c: Control, r: Reading)
    requires Valid(c)
    ensures var t := Tick(c, r).rate;
            && (t < c.rate ==> !Healthy(c, r) && t >= CUT * c.rate)
            && (t > c.rate ==>
                  && Healthy(c, r) && !BacklogGrew(c, r)
                  && USED * c.rate <= r.inserts as real <= OVERSHOOT * c.rate
                  && t <= (if c.rate >= c.threshold then CAREFUL_GROWTH else FAST_GROWTH) * c.rate)
  {
    hide Healthy, Baseline, Grows, ReasonFor, BacklogGrew;
  }

  /** Inserts are as fast as they were, the disk keeps up, and the backlog has not grown three ticks running. */
  predicate KeepsUp(c: Control, r: Reading) {
    && (r.samples >= 20 ==>
          var baseline := if c.baseline == 0 || r.p95 < c.baseline then r.p95
                          else (0.99 * c.baseline as real + 0.01 * r.p95 as real).Floor;
          r.p95 <= (1.5 * baseline as real).Floor + 2_000_000)
    && !r.diskBehind
    && !(Grew(c, r) && c.backlogGrows >= 2)
  }

  /** By more than ten, and more than a tenth of the inserts. */
  predicate Grew(c: Control, r: Reading) {
    && c.prevBacklog.Some? && r.backlog.Some?
    && var growth := (r.backlog.value - c.prevBacklog.value) as real;
    growth > 10.0 && growth > 0.1 * r.inserts as real
  }

  lemma HealthIs(c: Control, r: Reading)
    requires c.backlogGrows >= 0
    ensures Healthy(c, r) <==> KeepsUp(c, r)
    ensures BacklogGrew(c, r) <==> Grew(c, r)
  {
  }

  /**
   * The rate is cut exactly on an unhealthy tick outside the cooldown that begins an episode or is its tenth, by 30% but
   * not below the floor. It is raised exactly on a healthy tick on which the backlog does not grow and
   * callers use at least 80% and at most 150% of it: by half below the learned threshold and by 5% from there
   * on, up to the ceiling. On any other tick it stays.
   */
  lemma RateMovesExactly(c: Control, r: Reading)
    requires Valid(c)
    ensures var cut := !KeepsUp(c, r) && c.cooldown <= 1 && (!c.congested || c.episode >= 9);
            var raise := KeepsUp(c, r) && !Grew(c, r) && 0.8 * c.rate <= r.inserts as real <= 1.5 * c.rate;
            Tick(c, r).rate ==
              if cut then (if 0.7 * c.rate < c.floor then c.floor else 0.7 * c.rate)
              else if raise then
                var more := (if c.rate >= c.threshold then 1.05 else 1.5) * c.rate;
                if more > c.ceiling then c.ceiling else more
              else c.rate
    ensures Adjustments(c, r).Cut? <==> !KeepsUp(c, r) && c.cooldown <= 1 && (!c.congested || c.episode >= 9)
    ensures Adjustments(c, r).Raise? <==> KeepsUp(c, r) && !Grew(c, r) && 0.8 * c.rate <= r.inserts as real <= 1.5 * c.rate
  {
    HealthIs(c, r);
    hide Healthy, Baseline, Grows, ReasonFor, BacklogGrew, KeepsUp, Grew;
  }

  /** A cut outside an episode begins one, and remembers 90% of the rate it was at; every cut starts a cooldown. */
  lemma CutRemembers(c: Control, r: Reading)
    requires Valid(c) && Adjustments(c, r).Cut?
    ensures var t := Tick(c, r);
            && t.congested && t.episode == 0 && t.cooldown == 3
            && (!c.congested ==> t.threshold == if 0.9 * c.rate < c.floor then c.floor else 0.9 * c.rate)
  {
    hide Healthy, Baseline, Grows, ReasonFor, BacklogGrew;
  }

  // ---- how often it cuts ----

  /** No cut during the cooldown. */
  lemma {:induction false} NoCutWhileCooling(c: Control, rs: seq<Reading>, i: nat)
    requires c.cooldown >= 0 && i < |rs| && i + 1 < c.cooldown
    ensures !Log(c, rs)[i].Cut?
    decreases i
  {
    hide Healthy, Baseline, Grows, ReasonFor, BacklogGrew;
    assert !Adjustments(c, rs[0]).Cut?;
    if i > 0 {
      assert Tick(c, rs[0]).cooldown == c.cooldown - 1;
      NoCutWhileCooling(Tick(c, rs[0]), rs[1..], i - 1);
    }
  }

  /** Cuts are at least three ticks apart. */
  lemma {:induction false} CutsAreApart(c: Control, rs: seq<Reading>, i: nat, j: nat)
    requires c.cooldown >= 0 && i < j < |rs| && Log(c, rs)[i].Cut? && Log(c, rs)[j].Cut?
    ensures j - i >= CUT_COOLDOWN_TICKS
    decreases i
  {
    hide Healthy, Baseline, Grows, ReasonFor, BacklogGrew;
    var t := Tick(c, rs[0]);
    assert t.cooldown >= 0;
    if i == 0 {
      assert t.cooldown == CUT_COOLDOWN_TICKS;
      if j < CUT_COOLDOWN_TICKS {
        NoCutWhileCooling(t, rs[1..], j - 1);
      }
    } else {
      CutsAreApart(t, rs[1..], i - 1, j - 1);
    }
  }

  function Cuts(log: seq<Adjustment>): nat {
    if log == [] then 0 else (if log[0].Cut? then 1 else 0) + Cuts(log[1..])
  }

  predicate AllUnhealthy(c: Control, rs: seq<Reading>)
    decreases |rs|
  {
    rs != [] ==> !Healthy(c, rs[0]) && AllUnhealthy(Tick(c, rs[0]), rs[1..])
  }

  lemma FirstCut(c: Control, rs: seq<Reading>)
    requires rs != []
    ensures Cuts(Log(c, rs)) == (if Adjustments(c, rs[0]).Cut? then 1 else 0) + Cuts(Log(Tick(c, rs[0]), rs[1..]))
  {
    hide Tick, Adjustments;
    assert Log(c, rs)[1..] == Log(Tick(c, rs[0]), rs[1..]);
  }

  /** In an episode, one cut per ten ticks. */
  lemma {:induction false} CutsInEpisode(c: Control, rs: seq<Reading>)
    requires c.congested && c.episode >= 0 && AllUnhealthy(c, rs)
    ensures Cuts(Log(c, rs)) <= (c.episode + |rs|) / EPISODE_RECUT_TICKS
    decreases |rs|
  {
    if rs != [] {
      FirstCut(c, rs);
      hide Baseline, Grows, ReasonFor, BacklogGrew, Healthy, Log, Cuts;
      CutsInEpisode(Tick(c, rs[0]), rs[1..]);
    }
  }

  lemma {:induction false} CutsWhenCalm(c: Control, rs: seq<Reading>)
    requires !c.congested && rs != [] && AllUnhealthy(c, rs)
    ensures Cuts(Log(c, rs)) <= 1 + (|rs| - 1) / EPISODE_RECUT_TICKS
    decreases |rs|
  {
    FirstCut(c, rs);
    var t := Tick(c, rs[0]);
    if Adjustments(c, rs[0]).Cut? {
      CutsInEpisode(t, rs[1..]);
    } else if |rs| > 1 {
      CutsWhenCalm(t, rs[1..]);
    } else {
      assert Cuts(Log(t, rs[1..])) == 0;
    }
  }

  /** After a healthy tick, n unhealthy ones cause at most 1 + (n - 1) / 10 cuts. */
  lemma CutsAfterHealthy(c: Control, healthy: Reading, rs: seq<Reading>)
    requires Healthy(c, healthy) && rs != [] && AllUnhealthy(Tick(c, healthy), rs)
    ensures Cuts(Log(Tick(c, healthy), rs)) <= 1 + (|rs| - 1) / EPISODE_RECUT_TICKS
  {
    assert !Tick(c, healthy).congested;
    hide Tick, Healthy;
    CutsWhenCalm(Tick(c, healthy), rs);
  }

  /** Only the first cut of an episode learns the threshold. */
  lemma ThresholdKeptInEpisode(c: Control, r: Reading)
    requires c.congested && !Healthy(c, r)
    ensures Tick(c, r).threshold == c.threshold && Tick(c, r).congested
  {
    hide Healthy;
  }

  // ---- the object ----

  class InboundRateController {
    const floor: real
    const ceiling: real
    var rate: real
    var threshold: real
    var cooldown: int
    var congested: bool
    var episode: int
    var prevBacklog: Option<nat>
    var backlogGrows: int
    var baseline: nat

    ghost function View(): Control
      reads this
    {
      Control(floor, ceiling, rate, threshold, cooldown, congested, episode, prevBacklog, backlogGrows, baseline)
    }

    constructor (benchmark: real, startPercent: real)
      ensures View() == Start(benchmark, startPercent)
    {
      hide StartRate;
      var b := if benchmark <= 0.0 then 400.0 else benchmark;
      floor, ceiling, threshold := 1.0, b * 10.0, b;
      rate := StartRate(b, startPercent);
      cooldown, congested, episode, prevBacklog, backlogGrows, baseline := 0, false, 0, None, 0, 0;
    }

    /** The first half of a tick: is Aquifer keeping up? */
    method Judge(r: Reading) returns (healthy: bool, latencyHealthy: bool, growing: bool)
      modifies this`baseline, this`backlogGrows, this`prevBacklog
      ensures healthy == Healthy(old(View()), r) && latencyHealthy == LatencyHealthy(old(View()), r)
      ensures growing == BacklogGrew(old(View()), r)
      ensures baseline == Baseline(old(View()), r) && backlogGrows == Grows(old(View()), r) && prevBacklog == r.backlog
    {
      var enough := r.samples >= MIN_SAMPLES;
      if enough {
        if baseline == 0 || r.p95 < baseline {
          baseline := r.p95;
        } else {
          baseline := (baseline as real * 0.99 + r.p95 as real * 0.01).Floor;
        }
      }
      latencyHealthy := !enough || r.p95 <= (baseline as real * 1.5).Floor + LATENCY_SLACK;
      growing := prevBacklog.Some? && r.backlog.Some?
                 && (r.backlog.value - prevBacklog.value) as real > MaxReal(10.0, 0.1 * r.inserts as real);
      if growing {
        backlogGrows := backlogGrows + 1;
      } else {
        backlogGrows := 0;
      }
      prevBacklog := r.backlog;
      healthy := latencyHealthy && backlogGrows < BACKLOG_GROWTH_TICKS && !r.diskBehind;
    }

    method TickOnce(r: Reading) returns (a: Adjustment)
      modifies this
      ensures View() == Tick(old(View()), r) && a == Adjustments(old(View()), r)
    {
      hide Healthy, LatencyHealthy, BacklogGrew, Baseline, Grows;
      var healthy, latencyHealthy, growing := Judge(r);
      var overshoot := r.inserts as real > rate * OVERSHOOT;
      var used := r.inserts as real >= rate * USED;
      a := Hold;
      if healthy {
        congested := false;
      }
      if cooldown > 0 {
        cooldown := cooldown - 1;
      }
      if congested {
        episode := episode + 1;
      }
      if !healthy && (!congested || episode >= EPISODE_RECUT_TICKS) && cooldown == 0 {
        if !congested {
          threshold := MaxReal(rate * 0.9, floor);
          congested := true;
        }
        episode := 0;
        rate := MaxReal(rate * CUT, floor);
        cooldown := CUT_COOLDOWN_TICKS;
        a := Cut(if !latencyHealthy then InsertLatency else if r.diskBehind then DiskBehind else BacklogGrowing);
      } else if !healthy {
        a := WaitForCut;
      } else if growing {
        a := HoldBacklog;
      } else if overshoot {
        a := HoldOvershoot;
      } else if used {
        congested := false;
        var growth := FAST_GROWTH;
        if rate >= threshold {
          growth := CAREFUL_GROWTH;
        }
        rate := MinReal(rate * growth, ceiling);
        a := Raise;
      }
    }
  }
}
