/** The pace all queues of one target share (internal/dispatch/shared_pace.go). Times in nanoseconds. */
module SharedPaces {
  import opened Basics

  const SECOND := 1_000_000_000
  const MILLISECOND := 1_000_000
  const MIN_RPS := 0.5

  datatype Waiter = Waiter(since: int, asked: int)

  /** `last` is when the newest slot started; `waiting` the queues turned away, and when they first and last asked. */
  datatype Pace = Pace(last: int, granted: bool, waiting: map<string, Waiter>)

  const FRESH := Pace(0, false, map[])

  /** The slot length at a positive rate. */
  function Interval(rate: real): (i: int)
    requires rate > 0.0
    ensures 0 <= i <= 2 * SECOND
  {
    var r := if rate < MIN_RPS then MIN_RPS else rate;
    assert 0.0 <= 1000000000.0 / r <= 2000000000.0 by {
      assert r >= 0.5;
      assert 2000000000.0 * r >= 1000000000.0;
      AtMost(1000000000.0, r, 2000000000.0);
    }
    (1000000000.0 / r).Floor
  }

  lemma AtMost(x: real, r: real, y: real)
    requires r > 0.0 && x >= 0.0 && y * r >= x
    ensures 0.0 <= x / r <= y
  {
    var q := x / r;
    assert q * r == x;
    assert q > y ==> q * r > y * r;
    assert q < 0.0 ==> q * r < 0.0;
  }

  /** The intervals a rate can give are those up to two seconds. */
  lemma IntervalsOfRates(i: int)
    ensures (exists rate: real :: rate > 0.0 && Interval(rate) == i) <==> 0 <= i <= 2 * SECOND
  {
    if 0 < i <= 2 * SECOND {
      var x := i as real;
      var rate := 1000000000.0 / x;
      assert rate * x == 1000000000.0;
      assert rate > 0.0 && rate >= MIN_RPS by {
        assert rate <= 0.0 ==> rate * x <= 0.0;
        assert rate < 0.5 ==> rate * x < 0.5 * x;
      }
      OnlyQuotient(1000000000.0, rate, x);
      assert Interval(rate) == i;
    } else if i == 0 {
      assert Interval(2000000000.0) == 0;
    }
  }

  lemma OnlyQuotient(x: real, r: real, q: real)
    requires r > 0.0 && r * q == x
    ensures x / r == q
  {
  }

  function Stale(interval: int): int { 2 * interval + 100 * MILLISECOND }

  /** The queues that have not stopped asking. */
  function Current(waiting: map<string, Waiter>, now: int, interval: int): map<string, Waiter> {
    map k | k in waiting && now - waiting[k].asked <= Stale(interval) :: waiting[k]
  }

  /** Another queue has waited longer than `who`. */
  predicate Behind(waiting: map<string, Waiter>, who: string) {
    exists k <- waiting :: k != who && (who !in waiting || waiting[k].since < waiting[who].since)
  }

  predicate SlotTaken(s: Pace, now: int, interval: int) { s.granted && now < s.last + interval }

  function Joined(waiting: map<string, Waiter>, who: string, now: int): map<string, Waiter> {
    waiting[who := Waiter(if who in waiting then waiting[who].since else now, now)]
  }

  function Start(s: Pace, now: int, interval: int): int {
    if s.granted && s.last + interval > now - interval then s.last + interval else now - interval
  }

  /** Whether `who` gets the next slot. */
  predicate Grants(s: Pace, who: string, now: int, interval: int) {
    !SlotTaken(s, now, interval) && !Behind(Current(s.waiting, now, interval), who)
  }

  /** reserve: the next state, and 0 for a slot or the delay until the next attempt. */
  function Reserve(s: Pace, who: string, now: int, interval: int): (r: (Pace, int))
  {
    var w := Current(s.waiting, now, interval);
    if Grants(s, who, now, interval) then (Pace(Start(s, now, interval), true, w - {who}), 0)
    else
      (s.(waiting := Joined(w, who, now)),
       if SlotTaken(s, now, interval) then s.last + interval - now else Min(interval, 5 * MILLISECOND))
  }

  /** A rate of at least one in two seconds has the interval of its own whole nanoseconds; a lower one, two seconds. */
  lemma IntervalIs(rate: real)
    requires rate > 0.0
    ensures rate < 0.5 ==> Interval(rate) == 2_000_000_000
    ensures rate >= 0.5 ==>
              Interval(rate) as real * rate <= 1000000000.0 < (Interval(rate) as real + 1.0) * rate
  {
    if rate >= 0.5 {
      var q := 1000000000.0 / rate;
      assert q * rate == 1000000000.0;
      var x := Interval(rate) as real;
      Around(1000000000.0, x, x + 1.0, q, rate);
    } else {
      OnlyQuotient(1000000000.0, 0.5, 2000000000.0);
    }
  }

  /** Another queue is still asking, at most two intervals and 100 ms ago, and has waited longer than `who`. */
  predicate AheadStillAsking(s: Pace, who: string, other: string, now: int, interval: int) {
    && other != who && other in s.waiting && now - s.waiting[other].asked <= 2 * interval + 100_000_000
    && (who in s.waiting && now - s.waiting[who].asked <= 2 * interval + 100_000_000 ==>
          s.waiting[other].since < s.waiting[who].since)
  }

  /**
   * A slot is granted exactly if the last one began at least an interval ago and no queue that is still asking has waited
   * longer. It then begins an interval after the last one, or an interval ago if that is later. A queue that
   * meets a taken slot is told when it is over, and one that is not first asks again within 5 ms.
   */
  lemma GrantsExactly(s: Pace, who: string, now: int, interval: int)
    requires interval >= 0
    ensures var (t, wait) := Reserve(s, who, now, interval);
            var taken := s.granted && now < s.last + interval;
            if !taken && !(exists other :: AheadStillAsking(s, who, other, now, interval)) then
              && t.granted && wait == 0 && who !in t.waiting
              && t.last == (if s.granted && s.last + interval > now - interval then s.last + interval else now - interval)
            else
              && t.granted == s.granted && t.last == s.last
              && who in t.waiting && t.waiting[who].asked == now
              && (if taken then now + wait == s.last + interval else wait <= interval && wait <= 5_000_000)
    ensures forall k :: k != who ==>
              (k in Reserve(s, who, now, interval).0.waiting <==>
               k in s.waiting && now - s.waiting[k].asked <= 2 * interval + 100_000_000)
  {
    var w := Current(s.waiting, now, interval);
    assert Behind(w, who) <==> exists other :: AheadStillAsking(s, who, other, now, interval) by {
      if Behind(w, who) {
        var k :| k in w && k != who && (who !in w || w[k].since < w[who].since);
        assert AheadStillAsking(s, who, k, now, interval);
      }
      if other :| AheadStillAsking(s, who, other, now, interval) {
        assert other in w;
      }
    }
  }

  // ---- runs of calls ----

  datatype Call = Call(who: string, now: int, interval: int)

  function After(s: Pace, calls: seq<Call>): Pace
    decreases |calls|
  {
    if calls == [] then s else After(Reserve(s, calls[0].who, calls[0].now, calls[0].interval).0, calls[1..])
  }

  /** Every call is at an interval some rate gives. */
  predicate Rated(calls: seq<Call>) { forall c <- calls :: 0 <= c.interval <= 2 * SECOND }

  datatype Grant = Grant(who: string, at: int, start: int, interval: int)

  /** The slots granted by a run of calls, in order. */
  function Log(s: Pace, calls: seq<Call>): (log: seq<Grant>)
    decreases |calls|
  {
    if calls == [] then [] else
      var c := calls[0];
      var rest := Log(Reserve(s, c.who, c.now, c.interval).0, calls[1..]);
      if Grants(s, c.who, c.now, c.interval) then [Grant(c.who, c.now, Start(s, c.now, c.interval), c.interval)] + rest
      else rest
  }

  // ---- the rate bound ----

  /** Every slot starts within one interval before it is granted, and at least one interval after the one before. */
  predicate Spaced(log: seq<Grant>) {
    && (forall k :: 0 <= k < |log| ==> log[k].at - log[k].interval <= log[k].start <= log[k].at)
    && (forall k :: 1 <= k < |log| ==> log[k - 1].start + log[k].interval <= log[k].start)
  }

  /** Slots are spaced on every run, for any queues, call times and rates. */
  lemma {:induction false} SlotsAreSpaced(s: Pace, calls: seq<Call>)
    requires forall c <- calls :: c.interval >= 0
    ensures Spaced(Log(s, calls))
    ensures s.granted && Log(s, calls) != [] ==> s.last + Log(s, calls)[0].interval <= Log(s, calls)[0].start
    decreases |calls|
  {
    if calls != [] {
      var c := calls[0];
      var t := Reserve(s, c.who, c.now, c.interval).0;
      SlotsAreSpaced(t, calls[1..]);
      assert c in calls;
    }
  }

  /** Starts within a run of slots are that many least intervals apart. */
  lemma {:induction false} StartsApart(log: seq<Grant>, i: nat, j: nat, least: int)
    requires Spaced(log) && i <= j < |log|
    requires forall k :: i <= k <= j ==> log[k].interval >= least
    ensures log[i].start + (j - i) * least <= log[j].start
    decreases j - i
  {
    if i < j {
      StartsApart(log, i, j - 1, least);
      assert (j - i) * least == (j - 1 - i) * least + least;
    }
  }

  /**
   * The rate bound: if slots `i` to `j` are granted within a window of length `window`, then all but one of
   * them fit in the window and the first one's interval. At a constant interval I that is at most
   * window / I + 2 slots.
   */
  lemma WindowBound(s: Pace, calls: seq<Call>, i: nat, j: nat, from: int, window: int, least: int)
    requires forall c <- calls :: c.interval >= 0
    requires var log := Log(s, calls);
             && i <= j < |log|
             && (forall k :: i <= k <= j ==> from <= log[k].at <= from + window && log[k].interval >= least)
    ensures var log := Log(s, calls);
            && (j - i) * least <= window + log[i].interval
            && (log[i].interval == least ==> (j - i - 1) * least <= window)
  {
    hide Log;
    SlotsAreSpaced(s, calls);
    var log := Log(s, calls);
    StartsApart(log, i, j, least);
    assert (j - i) * least == (j - i - 1) * least + least;
  }

  /** Slots `i` to `j`, the first at interval `first` and none below `least`, all granted within the window. */
  ghost predicate InWindow(s: Pace, calls: seq<Call>, i: nat, j: nat, from: int, window: int, first: int, least: int) {
    var log := Log(s, calls);
    && i <= j < |log| && log[i].interval == first
    && forall k :: i <= k <= j ==> from <= log[k].at <= from + window && log[k].interval >= least
  }

  /** On every run, any slots in a window are at most window / least + 2. */
  ghost predicate WindowHolds(first: int, least: int) {
    forall s, calls, i: nat, j: nat, from, window ::
      Rated(calls) && InWindow(s, calls, i, j, from, window, first, least) ==> (j - i - 1) * least <= window
  }

  /**
   * That bound holds on every run if and only if the first interval of the window is the least in force: it fails
   * as soon as the rate rises after the first grant.
   */
  lemma WindowHoldsIff(first: int, least: int)
    requires 1 <= least <= first <= 2 * SECOND
    ensures WindowHolds(first, least) <==> first == least
  {
    hide Log, Rated;
    if first == least {
      forall s, calls, i: nat, j: nat, from, window
        | Rated(calls) && InWindow(s, calls, i, j, from, window, first, least) ensures (j - i - 1) * least <= window {
        RatedIsNatural(calls);
        WindowBound(s, calls, i, j, from, window, least);
      }
    } else {
      ThreeInAWindow(first, least);
      var calls := Rising(first, least);
      assert InWindow(FRESH, calls, 0, 2, 0, least - 1, first, least);
      assert (2 - 0 - 1) * least > least - 1;
    }
  }

  lemma RatedIsNatural(calls: seq<Call>)
    requires Rated(calls)
    ensures forall c <- calls :: c.interval >= 0
  {
  }

  /** One queue asking at `first`, then twice at the higher rate. */
  function Rising(first: int, least: int): seq<Call> {
    [Call("q", 0, first)] + ([Call("q", 0, least)] + ([Call("q", least - 1, least)] + []))
  }

  /** An undisturbed queue that asks when a slot is free gets it. */
  lemma GrantedAlone(s: Pace, now: int, interval: int, rest: seq<Call>)
    requires s.waiting == map[] && (s.granted ==> s.last + interval <= now)
    ensures var t := Pace(Start(s, now, interval), true, map[]);
            Log(s, [Call("q", now, interval)] + rest) == [Grant("q", now, Start(s, now, interval), interval)] + Log(t, rest)
  {
    assert Current(s.waiting, now, interval) == map[];
    assert Grants(s, "q", now, interval);
    assert Reserve(s, "q", now, interval).0 == Pace(Start(s, now, interval), true, map[]);
    assert ([Call("q", now, interval)] + rest)[1..] == rest;
  }

  lemma ThreeInAWindow(first: int, least: int)
    requires 1 <= least < first <= 2 * SECOND
    ensures Rated(Rising(first, least))
    ensures var log := Log(FRESH, Rising(first, least));
            && |log| == 3 && log[0].interval == first && log[1].interval == least && log[2].interval == least
            && forall k :: 0 <= k <= 2 ==> 0 <= log[k].at <= least - 1
  {
    hide Log;
    var s1 := Pace(-first, true, map[]);
    var s2 := Pace(Start(s1, 0, least), true, map[]);
    GrantedAlone(FRESH, 0, first, [Call("q", 0, least)] + ([Call("q", least - 1, least)] + []));
    GrantedAlone(s1, 0, least, [Call("q", least - 1, least)] + []);
    GrantedAlone(s2, least - 1, least, []);
    assert Log(Pace(Start(s2, least - 1, least), true, map[]), []) == [] by { NoCalls(Pace(Start(s2, least - 1, least), true, map[])); }
  }

  lemma NoCalls(s: Pace)
    ensures Log(s, []) == []
  {
  }

  // ---- slots at one instant ----

  function Pow2(n: nat): (p: int)
    ensures p >= 1
  {
    if n == 0 then 1 else 2 * Pow2(n - 1)
  }

  /** Slots `i` to `j` are all granted at `now`, at rates below a billion a second. */
  predicate AtOnce(log: seq<Grant>, i: nat, j: nat, now: int) {
    i <= j < |log| && forall k :: i <= k <= j ==> log[k].at == now && 1 <= log[k].interval <= 2 * SECOND
  }

  /** Each slot starts at most half as far back as the one before it. */
  lemma {:induction false} CreditHalves(log: seq<Grant>, i: nat, j: nat, now: int)
    requires Spaced(log) && AtOnce(log, i, j, now)
    ensures Pow2(j - i) * (now - log[j].start) <= now - log[i].start
    decreases j - i
  {
    if i < j {
      CreditHalves(log, i, j - 1, now);
      var before, after := now - log[j - 1].start, now - log[j].start;
      assert 2 * after <= before;
      Doubling(Pow2(j - 1 - i), after, before);
    }
  }

  lemma Doubling(p: int, after: int, before: int)
    requires p >= 1 && 2 * after <= before
    ensures (2 * p) * after <= p * before
  {
  }

  lemma {:induction false} PowersGrow(m: nat, n: nat)
    requires m <= n
    ensures Pow2(m) <= Pow2(n)
    decreases n - m
  {
    if m < n {
      PowersGrow(m, n - 1);
    }
  }

  lemma {:induction false} PowersAdd(m: nat, n: nat)
    ensures Pow2(m + n) == Pow2(m) * Pow2(n)
    decreases n
  {
    if n > 0 {
      PowersAdd(m, n - 1);
    }
  }

  lemma LargePowers()
    ensures Pow2(30) == 1073741824 && Pow2(31) == 2147483648
  {
    assert Pow2(5) == 32;
    PowersAdd(5, 5);
    PowersAdd(10, 10);
    PowersAdd(20, 10);
    assert Pow2(31) == 2 * Pow2(30);
  }

  /** A slot followed by another at the same instant starts before it. */
  lemma CreditLeft(log: seq<Grant>, i: nat, j: nat, now: int)
    requires Spaced(log) && i < j && AtOnce(log, i, j, now)
    ensures now - log[j - 1].start >= 1 && now - log[i].start <= 2 * SECOND
  {
    assert log[j - 1].start + log[j].interval <= log[j].start <= log[j].at;
    assert log[i].at - log[i].interval <= log[i].start;
  }

  /** At most 32 slots are ever granted at one instant, for any rates up to a billion a second. */
  lemma AtMost32AtOnce(s: Pace, calls: seq<Call>, i: nat, j: nat, now: int)
    requires Rated(calls) && AtOnce(Log(s, calls), i, j, now)
    ensures j - i + 1 <= 32
  {
    RatedIsNatural(calls);
    SlotsAreSpaced(s, calls);
    var log := Log(s, calls);
    if j > i {
      assert AtOnce(log, i, j - 1, now);
      CreditLeft(log, i, j, now);
      CreditHalves(log, i, j - 1, now);
      hide *;
      var n := j - 1 - i;
      Doubling1(Pow2(n), now - log[j - 1].start);
      SmallPower(n);
    }
  }

  lemma SmallPower(n: nat)
    requires Pow2(n) <= 2 * SECOND
    ensures n <= 30
  {
    LargePowers();
    hide Pow2;
    if n >= 31 {
      PowersGrow(31, n);
    }
  }

  lemma Doubling1(p: int, x: int)
    requires p >= 1 && x >= 1
    ensures p <= p * x
  {
  }

  /** One queue asking `n + 1` times at one instant while the rate doubles, the last time at the rate before. */
  function Burst(now: int, n: nat): (calls: seq<Call>) {
    if n == 0 then [Call("q", now, 1)] + [] else [Call("q", now, Pow2(n - 1))] + Burst(now, n - 1)
  }

  lemma BurstHalves(s: Pace, now: int, n: nat)
    requires 0 < n <= 31 && (s.granted ==> s.last == now - Pow2(n))
    ensures var i := Pow2(n - 1); i <= 2 * SECOND && Start(s, now, i) == now - i && (s.granted ==> s.last + i <= now)
  {
    PowersGrow(n - 1, 30);
    LargePowers();
  }

  lemma {:induction false} BurstIsGranted(s: Pace, now: int, n: nat)
    requires s.waiting == map[] && (s.granted ==> s.last == now - Pow2(n)) && n <= 31
    ensures var log := Log(s, Burst(now, n)); |log| == n + 1 && AtOnce(log, 0, n, now)
    ensures Rated(Burst(now, n))
    decreases n
  {
    if n == 0 {
      BurstEnds(s, now);
    } else {
      var i := Pow2(n - 1);
      BurstHalves(s, now, n);
      BurstUnfolds(now, n);
      var t := Pace(now - i, true, map[]);
      hide *;
      GrantedAlone(s, now, i, Burst(now, n - 1));
      BurstIsGranted(t, now, n - 1);
      OneMoreAtOnce(Log(t, Burst(now, n - 1)), n, now, Grant("q", now, now - i, i));
      OneMoreRated(Burst(now, n - 1), Call("q", now, i));
    }
  }

  lemma BurstEnds(s: Pace, now: int)
    requires s.waiting == map[] && (s.granted ==> s.last == now - Pow2(0))
    ensures var log := Log(s, Burst(now, 0)); |log| == 1 && AtOnce(log, 0, 0, now)
    ensures Rated(Burst(now, 0))
  {
    GrantedAlone(s, now, 1, []);
    NoCalls(Pace(Start(s, now, 1), true, map[]));
    hide Log;
  }

  lemma BurstUnfolds(now: int, n: nat)
    requires n > 0
    ensures Burst(now, n) == [Call("q", now, Pow2(n - 1))] + Burst(now, n - 1)
  {
  }

  lemma OneMoreAtOnce(rest: seq<Grant>, n: nat, now: int, g: Grant)
    requires n > 0 && |rest| == n && AtOnce(rest, 0, n - 1, now) && g.at == now && 1 <= g.interval <= 2 * SECOND
    ensures AtOnce([g] + rest, 0, n, now)
  {
    assert forall k :: 1 <= k <= n ==> ([g] + rest)[k] == rest[k - 1];
  }

  lemma OneMoreRated(calls: seq<Call>, c: Call)
    requires Rated(calls) && 0 <= c.interval <= 2 * SECOND
    ensures Rated([c] + calls)
  {
  }

  /** And 32 are, by a rate that doubles between the calls. */
  lemma RisingRateBurst(now: int)
    ensures exists calls: seq<Call> :: Rated(calls) && |Log(FRESH, calls)| == 32 && AtOnce(Log(FRESH, calls), 0, 31, now)
  {
    hide Log;
    BurstIsGranted(FRESH, now, 31);
  }

  // ---- bounded bypass ----

  /** No two waiting queues started at the same time, and none after `clock`. */
  predicate InTurn(waiting: map<string, Waiter>, clock: int) {
    && (forall k <- waiting :: waiting[k].since <= clock)
    && (forall k <- waiting, l <- waiting :: k != l ==> waiting[k].since != waiting[l].since)
  }

  /** The clock moves between calls, `who` keeps asking often enough not to be forgotten, and has no slot yet. */
  predicate KeepsAsking(s: Pace, calls: seq<Call>, who: string, clock: int)
    decreases |calls|
  {
    calls != [] ==>
      var c := calls[0];
      && clock < c.now
      && who in s.waiting && c.now - s.waiting[who].asked <= Stale(c.interval)
      && !(c.who == who && Grants(s, who, c.now, c.interval))
      && KeepsAsking(Reserve(s, c.who, c.now, c.interval).0, calls[1..], who, c.now)
  }

  /** The queues that were already waiting when `who` first asked. */
  function AheadOf(s: Pace, who: string): set<string>
    requires who in s.waiting
  {
    set k | k in s.waiting && s.waiting[k].since < s.waiting[who].since
  }

  /** One call keeps `who` in line, lets nobody in before it, and grants at most to one that was ahead. */
  lemma LineMoves(s: Pace, c: Call, who: string, clock: int)
    requires InTurn(s.waiting, clock) && clock < c.now
    requires who in s.waiting && c.now - s.waiting[who].asked <= Stale(c.interval)
    requires !(c.who == who && Grants(s, who, c.now, c.interval))
    ensures var t := Reserve(s, c.who, c.now, c.interval).0;
            && who in t.waiting && InTurn(t.waiting, c.now)
            && AheadOf(t, who) <= AheadOf(s, who)
            && (Grants(s, c.who, c.now, c.interval) ==> c.who in AheadOf(s, who) && c.who !in AheadOf(t, who))
  {
    var w := Current(s.waiting, c.now, c.interval);
    var t := Reserve(s, c.who, c.now, c.interval).0;
    assert who in w && w[who] == s.waiting[who];
    if Grants(s, c.who, c.now, c.interval) {
      assert c.who in w && w[c.who].since <= w[who].since;
    }
    assert t.waiting[who].since == s.waiting[who].since;
  }

  /** How often `id` was granted a slot. */
  function Granted(log: seq<Grant>, id: string): nat {
    if log == [] then 0 else (if log[0].who == id then 1 else 0) + Granted(log[1..], id)
  }

  lemma {:induction false} BypassedOnce(s: Pace, calls: seq<Call>, who: string, other: string, clock: int)
    requires InTurn(s.waiting, clock) && who in s.waiting && KeepsAsking(s, calls, who, clock)
    ensures Granted(Log(s, calls), other) <= if other in AheadOf(s, who) then 1 else 0
    decreases |calls|
  {
    if calls != [] {
      var c := calls[0];
      hide Reserve, Grants;
      var t := Reserve(s, c.who, c.now, c.interval).0;
      LineMoves(s, c, who, clock);
      BypassedOnce(t, calls[1..], who, other, c.now);
      if Grants(s, c.who, c.now, c.interval) {
        assert Log(s, calls)[1..] == Log(t, calls[1..]);
      }
    }
  }

  lemma {:induction false} WaitsBehind(s: Pace, calls: seq<Call>, who: string, clock: int)
    requires InTurn(s.waiting, clock) && who in s.waiting && KeepsAsking(s, calls, who, clock)
    ensures |Log(s, calls)| <= |AheadOf(s, who)|
    decreases |calls|
  {
    if calls != [] {
      var c := calls[0];
      hide Reserve, Grants;
      var t := Reserve(s, c.who, c.now, c.interval).0;
      LineMoves(s, c, who, clock);
      WaitsBehind(t, calls[1..], who, c.now);
      var a, b := AheadOf(s, who), AheadOf(t, who);
      assert a == b + (a - b);
    }
  }

  /** The clock moves between calls. */
  predicate Moving(calls: seq<Call>, clock: int)
    decreases |calls|
  {
    calls != [] ==> clock < calls[0].now && Moving(calls[1..], calls[0].now)
  }

  function LastCall(calls: seq<Call>, clock: int): int { if calls == [] then clock else calls[|calls| - 1].now }

  /** Then no two queues in line ever have the same start. */
  lemma {:induction false} LineStaysInTurn(s: Pace, calls: seq<Call>, clock: int)
    requires InTurn(s.waiting, clock) && Moving(calls, clock)
    ensures InTurn(After(s, calls).waiting, LastCall(calls, clock))
    decreases |calls|
  {
    if calls != [] {
      var c := calls[0];
      CallKeepsTurn(s, c, clock);
      hide Reserve;
      LineStaysInTurn(Reserve(s, c.who, c.now, c.interval).0, calls[1..], c.now);
    }
  }

  lemma CallKeepsTurn(s: Pace, c: Call, clock: int)
    requires InTurn(s.waiting, clock) && clock < c.now
    ensures InTurn(Reserve(s, c.who, c.now, c.interval).0.waiting, c.now)
  {
  }

  /**
   * Bounded bypass: on every run with a moving clock, while `who` keeps asking, any other queue is granted at most
   * one slot before it, and only if it was already waiting when `who` first asked.
   */
  lemma BypassedAtMostOnce(before: seq<Call>, calls: seq<Call>, who: string, other: string, clock: int)
    requires Moving(before, clock) && who in After(FRESH, before).waiting
    requires KeepsAsking(After(FRESH, before), calls, who, LastCall(before, clock))
    ensures var s := After(FRESH, before);
            Granted(Log(s, calls), other) <= if other in AheadOf(s, who) then 1 else 0
  {
    LineStaysInTurn(FRESH, before, clock);
    BypassedOnce(After(FRESH, before), calls, who, other, LastCall(before, clock));
  }

  /** So it waits behind at most the queues already waiting when it first asked. */
  lemma WaitsBehindThoseAhead(before: seq<Call>, calls: seq<Call>, who: string, clock: int)
    requires Moving(before, clock) && who in After(FRESH, before).waiting
    requires KeepsAsking(After(FRESH, before), calls, who, LastCall(before, clock))
    ensures |Log(After(FRESH, before), calls)| <= |AheadOf(After(FRESH, before), who)|
  {
    LineStaysInTurn(FRESH, before, clock);
    WaitsBehind(After(FRESH, before), calls, who, LastCall(before, clock));
  }

  /** A queue in line is granted a free slot exactly when all that were ahead of it have stopped asking. */
  lemma FirstInLineIsGranted(s: Pace, who: string, now: int, interval: int)
    requires who in s.waiting && now - s.waiting[who].asked <= Stale(interval)
    requires !SlotTaken(s, now, interval)
    ensures Grants(s, who, now, interval) <==>
            forall k <- AheadOf(s, who) :: now - s.waiting[k].asked > Stale(interval)
  {
    var w := Current(s.waiting, now, interval);
    assert who in w && w[who] == s.waiting[who];
    assert forall k <- w :: k != who && w[k].since < w[who].since ==> k in AheadOf(s, who);
    assert forall k <- AheadOf(s, who) :: now - s.waiting[k].asked <= Stale(interval) ==> k in w && k != who;
  }

  /** A refused queue that asks again after the wait it was given is never forgotten at an unchanged rate. */
  lemma AskingAgainIsInTime(s: Pace, who: string, now: int, interval: int)
    requires interval > 0 && (s.granted ==> s.last <= now)
    requires !Grants(s, who, now, interval)
    ensures var (t, wait) := Reserve(s, who, now, interval);
            0 < wait && who in t.waiting && now + wait - t.waiting[who].asked <= Stale(interval)
  {
  }

  // ---- the object ----

  class SharedPace {
    var last: int
    var granted: bool
    var waiting: map<string, Waiter>

    ghost function View(): Pace
      reads this
    {
      Pace(last, granted, waiting)
    }

    constructor ()
      ensures View() == FRESH
    {
      last, granted, waiting := 0, false, map[];
    }

    /** Forgets the queues that stopped asking. */
    method DropStale(now: int, interval: int)
      modifies this`waiting
      ensures waiting == Current(old(waiting), now, interval)
    {
      var keys := waiting.Keys;
      while keys != {}
        invariant keys <= waiting.Keys <= old(waiting).Keys
        invariant forall k <- waiting :: waiting[k] == old(waiting)[k]
        invariant forall k <- old(waiting) :: k in waiting <==> k in keys || now - old(waiting)[k].asked <= Stale(interval)
        decreases |keys|
      {
        var k :| k in keys;
        keys := keys - {k};
        if now - waiting[k].asked > Stale(interval) {
          waiting := waiting - {k};
        }
      }
    }

    /** Turns `who` away, and gives the delay until its next attempt. */
    method Wait(who: string, now: int, interval: int) returns (wait: int)
      modifies this`waiting
      ensures waiting == Joined(old(waiting), who, now)
      ensures wait == if SlotTaken(View(), now, interval) then last + interval - now else Min(interval, 5 * MILLISECOND)
    {
      var since := if who in waiting then waiting[who].since else now;
      waiting := waiting[who := Waiter(since, now)];
      if granted {
        var next := last + interval;
        if now < next {
          return next - now;
        }
      }
      return Min(interval, 5 * MILLISECOND);
    }

    /** Whether another queue has waited longer. */
    method Earlier(who: string) returns (found: bool)
      ensures found == Behind(waiting, who)
    {
      var keys := waiting.Keys;
      while keys != {}
        invariant keys <= waiting.Keys
        invariant forall k <- waiting.Keys - keys :: !(k != who && (who !in waiting || waiting[k].since < waiting[who].since))
        decreases |keys|
      {
        var k :| k in keys;
        keys := keys - {k};
        if k != who && (who !in waiting || waiting[k].since < waiting[who].since) {
          return true;
        }
      }
      return false;
    }

    /** Takes the next slot if it is free and it is `who`'s turn. */
    method Take(who: string, now: int, interval: int) returns (wait: int)
      modifies this
      ensures (View(), wait) == Reserve(old(View()), who, now, interval)
    {
      hide Current, Behind;
      DropStale(now, interval);
      var start := now - interval;
      if granted {
        var next := last + interval;
        if now < next {
          wait := Wait(who, now, interval);
          return;
        }
        if next > start {
          start := next;
        }
      }
      var earlier := Earlier(who);
      if earlier {
        wait := Wait(who, now, interval);
        return;
      }
      waiting := waiting - {who};
      last, granted := start, true;
      return 0;
    }

    /** A non-positive rate never limits. */
    method ReserveAt(rate: real, who: string, now: int) returns (wait: int)
      modifies this
      ensures rate <= 0.0 ==> wait == 0 && View() == old(View())
      ensures rate > 0.0 ==> (View(), wait) == Reserve(old(View()), who, now, Interval(rate))
    {
      hide Interval, Reserve;
      if rate <= 0.0 {
        return 0;
      }
      wait := Take(who, now, Interval(rate));
    }
  }
}
