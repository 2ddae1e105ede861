/** When the WebSocket scheduler grants, and how fast, against what is configured and what the target advertised. */
module SchedulerLaws {
  import opened Basics
  import opened Schedulers

  /** `n` nanoseconds are at least the whole ones that `rps` leaves between grants. */
  predicate AtLeastInterval(n: int, rps: real) { (n as real + 1.0) * rps > 1000000000.0 }

  /** They are at most a tenth more, rounded up. */
  predicate AtMostTenthMore(n: int, rps: real) { (n as real - 1.0) * rps <= 1100000000.0 }

  /** An interval is the whole nanoseconds a rate leaves between grants. */
  lemma IntervalIs(rps: real)
    requires rps > 0.0
    ensures var x := Interval(rps) as real; x * rps <= 1000000000.0 < (x + 1.0) * rps
  {
    var q := 1000000000.0 / rps;
    Quotient(1000000000.0, rps);
    var x := Interval(rps) as real;
    Around(1000000000.0, x, x + 1.0, q, rps);
  }

  /** The rates a grant must respect: the configured one, the ramp's, and the advertised one if there is any. */
  predicate IsLimit(cfg: Config, s: State, rps: real) {
    rps > 0.0 && (rps == cfg.connectRPS || rps == s.rampRPS || rps == s.advertisedRPS)
  }

  /** A slot is free, by the configured and by the advertised maximum, somebody waits, and the time has come. */
  predicate MayGrant(cfg: Config, s: State) {
    && s.queue != [] && s.nextGrant <= s.now
    && s.active < cfg.maxUpstreams && (s.advertisedMax > 0 ==> s.active < s.advertisedMax)
  }

  lemma EffectiveIsLimit(cfg: Config, s: State)
    requires cfg.connectRPS > 0.0
    ensures IsLimit(cfg, s, EffectiveRPS(cfg, s))
    ensures forall rps :: IsLimit(cfg, s, rps) ==> EffectiveRPS(cfg, s) <= rps
  {
  }

  /** The next grant is then at least an interval of the slowest of those rates away, and at most a tenth more. */
  lemma JitterIs(cfg: Config, s: State, d: int)
    requires cfg.connectRPS > 0.0 && Jittered(Interval(EffectiveRPS(cfg, s)), d)
    ensures forall rps :: IsLimit(cfg, s, rps) ==> AtLeastInterval(d, rps)
    ensures exists rps :: IsLimit(cfg, s, rps) && AtMostTenthMore(d, rps)
  {
    EffectiveIsLimit(cfg, s);
    hide *;
    var r := EffectiveRPS(cfg, s);
    IntervalIs(r);
    JitterBounds(Interval(r), d, r);
    forall rps | IsLimit(cfg, s, rps) ensures AtLeastInterval(d, rps) {
      FasterIsMore(d, r, rps);
    }
    assert AtMostTenthMore(d, r);
  }

  lemma JitterRange(i: int, d: int)
    requires i >= 0 && Jittered(i, d)
    ensures i <= d && d as real - 1.0 <= 1.1 * i as real
  {
  }

  lemma JitterBounds(i: int, d: int, r: real)
    requires r > 0.0 && Jittered(i, d) && i as real * r <= 1000000000.0 < (i as real + 1.0) * r
    ensures d >= 0 && AtLeastInterval(d, r) && AtMostTenthMore(d, r)
  {
    hide Jittered;
    Positive(1000000000.0, i as real + 1.0, r);
    JitterRange(i, d);
    Bounds(1000000000.0, i as real, d as real, r);
  }

  lemma Bounds(n: real, x: real, y: real, r: real)
    requires r > 0.0 && x * r <= n < (x + 1.0) * r && x <= y && y - 1.0 <= 1.1 * x
    ensures (y + 1.0) * r > n && (y - 1.0) * r <= 1.1 * n
  {
    Larger(x + 1.0, y + 1.0, r);
    Larger(y - 1.0, 1.1 * x, r);
    Tenth(x, r);
  }

  lemma Positive(n: real, a: real, r: real)
    requires r > 0.0 && a * r > n > 0.0
    ensures a > 0.0
  {
    ProductOrder(0.0, a, r);
  }

  lemma Larger(a: real, b: real, r: real)
    requires r > 0.0 && a <= b
    ensures a * r <= b * r
  {
    if a < b { ProductOrder(a, b, r); }
  }

  lemma Tenth(x: real, r: real)
    ensures (1.1 * x) * r == 1.1 * (x * r)
  {
  }

  lemma FasterIsMore(d: int, r: real, rps: real)
    requires d >= 0 && r <= rps && AtLeastInterval(d, r)
    ensures AtLeastInterval(d, rps)
  {
    var y := d as real + 1.0;
    assert y * (rps - r) >= 0.0;
  }

  lemma NobodyCanceled(cfg: Config, s: State)
    requires GoodConfig(cfg) && Inv(cfg, s)
    ensures Known(s) && DropCanceled(s) == s
  {
    NoneCanceled(s, cfg.maxWaiting);
  }

  lemma GrantsFirst(cfg: Config, s: State, d: int)
    requires GoodConfig(cfg) && Inv(cfg, s) && s.queue != []
    ensures Known(s) && s.queue[0] in s.waiters
    ensures var t := GrantFirst(cfg, s, d);
            && t.queue == s.queue[1..] && t.active == s.active + 1 && s.queue[0] in t.waiters && t.waiters[s.queue[0]].granted
            && t.nextGrant == s.now + d && |t.log| == |s.log| + 1 && t.log[|s.log|].id == s.queue[0]
  {
    NoneCanceled(s, cfg.maxWaiting);
    hide Inv;
  }

  /**
   * A pass grants exactly if somebody waits, the time has come and a slot is free by both maxima: then the one who came
   * first gets it, and the next grant waits for the slowest of the rates in force. Otherwise nothing changes.
   */
  lemma GrantsExactly(cfg: Config, s: State, d: int)
    requires GoodConfig(cfg) && Inv(cfg, s) && Enabled(cfg, s, Granting(d))
    ensures var t := GrantReady(cfg, s, d);
            if MayGrant(cfg, s) then
              && t.queue == s.queue[1..] && t.active == s.active + 1
              && s.queue[0] in t.waiters && t.waiters[s.queue[0]].granted && |t.log| == |s.log| + 1
              && (forall rps :: IsLimit(cfg, s, rps) ==> AtLeastInterval(t.nextGrant - s.now, rps))
              && (exists rps :: IsLimit(cfg, s, rps) && AtMostTenthMore(t.nextGrant - s.now, rps))
            else t == s
  {
    hide *;
    assert cfg.connectRPS > 0.0 by { Rates(cfg); }
    NobodyCanceled(cfg, s);
    DueIsMayGrant(cfg, s);
    JitterGranted(cfg, s, d);
    ReadyIs(cfg, s, d);
    if Due(cfg, s) {
      DueWaits(cfg, s);
      GrantsFirst(cfg, s, d);
      assert GrantReady(cfg, s, d).nextGrant - s.now == d;
    }
  }

  lemma Rates(cfg: Config)
    requires GoodConfig(cfg)
    ensures cfg.connectRPS > 0.0
  {
  }

  lemma DueIsMayGrant(cfg: Config, s: State)
    ensures Due(cfg, s) <==> MayGrant(cfg, s)
  {
  }

  lemma JitterGranted(cfg: Config, s: State, d: int)
    requires GoodConfig(cfg) && Enabled(cfg, s, Granting(d))
    ensures forall rps :: IsLimit(cfg, s, rps) ==> AtLeastInterval(d, rps)
    ensures exists rps :: IsLimit(cfg, s, rps) && AtMostTenthMore(d, rps)
  {
    hide IsLimit, Interval, Jittered, AtLeastInterval, AtMostTenthMore;
    JitterIs(cfg, s, d);
  }

  lemma ReadyIs(cfg: Config, s: State, d: int)
    requires GoodConfig(cfg) && Known(s) && DropCanceled(s) == s
    ensures GrantReady(cfg, s, d) == (if Due(cfg, s) then DueWaits(cfg, s); GrantFirst(cfg, s, d) else s)
  {
    hide DropCanceled, GrantFirst;
  }

  lemma DueWaits(cfg: Config, s: State)
    requires Due(cfg, s)
    ensures s.queue != []
  {
  }

  /** A target that advertises no more than it already has gets no more, until a slot is given back. */
  lemma AdvertisedFull(cfg: Config, s: State, max: int, rps: real, d: int)
    requires GoodConfig(cfg) && Inv(cfg, s) && 0 < max <= s.active && Enabled(cfg, Update(s, max, rps), Granting(d))
    ensures GrantReady(cfg, Update(s, max, rps), d) == Update(s, max, rps)
  {
    var t := Update(s, max, rps);
    assert Inv(cfg, t);
    hide Inv;
    GrantsExactly(cfg, t, d);
  }

  /** Somebody who comes when nobody waits, with a slot free and the time come, is granted at once; a full queue takes nobody. */
  lemma ComesAndIsGranted(cfg: Config, s: State, d: int)
    requires GoodConfig(cfg) && Inv(cfg, s)
    ensures |s.queue| >= cfg.maxWaiting ==> Enqueue(cfg, s) == s
    ensures var e := Enqueue(cfg, s);
            s.queue == [] && MayGrant(cfg, e) && Enabled(cfg, e, Granting(d)) ==>
              var t := GrantReady(cfg, e, d);
              t.queue == [] && t.active == s.active + 1 && s.next in t.waiters && t.waiters[s.next].granted
  {
    var e := Enqueue(cfg, s);
    if s.queue == [] && MayGrant(cfg, e) && Enabled(cfg, e, Granting(d)) {
      EnqueueKeeps(cfg, s);
      GrantsExactly(cfg, e, d);
      assert e.queue == [s.next] && e.queue[1..] == [];
    }
  }

  /** After a failure those who wait do so for at least an interval of the slow start, and no grant comes sooner than it would have. */
  lemma FailureDelays(cfg: Config, s: State, d: int)
    requires GoodConfig(cfg) && Enabled(cfg, s, Failing(d))
    ensures var t := Failure(cfg, s, d);
            && t.rampRPS == cfg.slowStartRPS && t.nextGrant >= s.nextGrant
            && (s.queue != [] ==> AtLeastInterval(t.nextGrant - s.now, cfg.slowStartRPS))
            && (s.queue == [] ==> t.nextGrant == s.nextGrant)
  {
    var u := s.(rampRPS := cfg.slowStartRPS);
    JitterIs(cfg, u, d);
    assert IsLimit(cfg, u, cfg.slowStartRPS);
    hide IsLimit, Jittered, Interval;
    var t := Failure(cfg, s, d);
    if s.queue != [] {
      Longer(d, t.nextGrant - s.now, cfg.slowStartRPS);
    }
  }

  lemma Longer(d: int, n: int, rps: real)
    requires rps > 0.0 && d <= n && AtLeastInterval(d, rps)
    ensures AtLeastInterval(n, rps)
  {
    Larger(d as real + 1.0, n as real + 1.0, rps);
  }

  // ---- the advertised rate, over runs ----

  /** In every state of the run the target advertises a rate of at most `rps`. */
  predicate Advertises(cfg: Config, s: State, steps: seq<Step>, rps: real)
    requires cfg.connectRPS > 0.0 && IsRun(cfg, s, steps)
    decreases |steps|
  {
    0.0 < s.advertisedRPS <= rps && (steps != [] ==> Advertises(cfg, Apply(cfg, s, steps[0]), steps[1..], rps))
  }

  predicate SlowFrom(log: seq<Grant>, n: nat, least: int) { forall k :: n <= k < |log| ==> log[k].interval >= least }

  lemma StepLogs(cfg: Config, s: State, step: Step, rps: real)
    requires GoodConfig(cfg) && Inv(cfg, s) && Enabled(cfg, s, step) && 0.0 < s.advertisedRPS <= rps
    ensures var t := Apply(cfg, s, step); s.log <= t.log && SlowFrom(t.log, |s.log|, Interval(rps))
  {
    match step
    case Granting(d) =>
      NobodyCanceled(cfg, s);
      SlowerIsLonger(EffectiveRPS(cfg, s), rps);
      hide Inv, DropCanceled, Publish, Interval;
    case GivingUp(id) => hide Publish, Removed, Inv;
    case Quitting(id) => hide Publish, Removed, Inv;
    case Canceling(id) => hide Publish, Removed, Inv;
    case _ =>
      hide Inv;
  }

  lemma {:induction false} RunLogs(cfg: Config, s: State, steps: seq<Step>, rps: real)
    requires GoodConfig(cfg) && Inv(cfg, s) && IsRun(cfg, s, steps) && Advertises(cfg, s, steps, rps)
    ensures var t := After(cfg, s, steps); Inv(cfg, t) && s.log <= t.log && SlowFrom(t.log, |s.log|, Interval(rps))
    decreases |steps|
  {
    if steps != [] {
      StepLogs(cfg, s, steps[0], rps);
      StepKeeps(cfg, s, steps[0]);
      hide Inv, Apply, Enabled, Interval;
      RunLogs(cfg, Apply(cfg, s, steps[0]), steps[1..], rps);
    }
  }

  /** While the target advertises a rate, any n consecutive grants take at least n - 1 of its intervals. */
  lemma GrantsKeepAdvertisedRate(cfg: Config, s: State, steps: seq<Step>, rps: real, i: nat, j: nat)
    requires GoodConfig(cfg) && Inv(cfg, s) && IsRun(cfg, s, steps) && Advertises(cfg, s, steps, rps)
    requires |s.log| <= i <= j < |After(cfg, s, steps).log|
    ensures var log := After(cfg, s, steps).log; log[j].at - log[i].at >= (j - i) * Interval(rps)
  {
    RunLogs(cfg, s, steps, rps);
    var t := After(cfg, s, steps);
    assert Spaced(t.log, t.now, t.nextGrant, Interval(cfg.connectRPS));
    hide Inv, After, IsRun, Advertises, Interval;
    ApartFrom(t.log, t.now, t.nextGrant, Interval(cfg.connectRPS), |s.log|, Interval(rps), i, j);
  }

  lemma {:induction false} ApartFrom(log: seq<Grant>, now: int, nextGrant: int, any: int, n: nat, least: int, i: nat, j: nat)
    requires Spaced(log, now, nextGrant, any) && SlowFrom(log, n, least) && n <= i <= j < |log|
    ensures log[j].at - log[i].at >= (j - i) * least
    decreases j - i
  {
    if i < j {
      ApartFrom(log, now, nextGrant, any, n, least, i, j - 1);
      assert (j - i) * least == (j - 1 - i) * least + least;
    }
  }

  // ---- the ramp ----

  function Successes(cfg: Config, s: State, n: nat): State { if n == 0 then s else Success(cfg, Successes(cfg, s, n - 1)) }

  function Doubled(rps: real, n: nat): real { if n == 0 then rps else 2.0 * Doubled(rps, n - 1) }

  /** After a failure the ramp starts slow, and doubles with every success up to the configured rate. */
  lemma {:induction false} RampDoubles(cfg: Config, s: State, d: int, n: nat)
    requires GoodConfig(cfg)
    ensures var ramp := Doubled(cfg.slowStartRPS, n);
            Successes(cfg, Failure(cfg, s, d), n).rampRPS == if ramp > cfg.connectRPS then cfg.connectRPS else ramp
    ensures Doubled(cfg.slowStartRPS, n) > 0.0
    decreases n
  {
    if n > 0 { RampDoubles(cfg, s, d, n - 1); }
  }
}
