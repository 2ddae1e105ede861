/**
 * The connection queue of the WebSocket relay (internal/websocket/queue.go). Every call under the scheduler's
 * lock is one step. Waiters are numbered in the order they enqueue; times are in nanoseconds.
 */
module Schedulers {
  import opened Basics

  datatype Config = Config(maxUpstreams: int, maxWaiting: int, connectRPS: real, slowStartRPS: real)

  /**
   * `ready`: its channel is closed, by the grant, for good. The last four follow its admission: `dropped`: Cancel
   * was called on it; `over`: Wait has returned without a slot; `taken`: with the release function;
   * `released`: that has run.
   */
  datatype Waiter = Waiter(position: int, granted: bool, canceled: bool, ready: bool,
                           dropped: bool, over: bool, taken: bool, released: bool)

  function Newcomer(position: int): Waiter { Waiter(position, false, false, false, false, false, false, false) }

  datatype Grant = Grant(id: nat, at: int, interval: int)

  /** `log` records the grants so far. */
  datatype State = State(
    now: int,
    waiters: map<nat, Waiter>,
    next: nat,
    queue: seq<nat>,
    active: int,
    rampRPS: real,
    advertisedMax: int,
    advertisedRPS: real,
    nextGrant: int,
    log: seq<Grant>)

  function Start(cfg: Config, now: int): State {
    State(now, map[], 0, [], 0, cfg.slowStartRPS, 0, 0.0, now, [])
  }

  predicate GoodConfig(cfg: Config) {
    cfg.maxUpstreams > 0 && cfg.maxWaiting > 0 && 0.0 < cfg.slowStartRPS <= cfg.connectRPS
  }

  // ---- rates ----

  function Interval(rps: real): int
    requires rps > 0.0
  {
    (1000000000.0 / rps).Floor
  }

  function EffectiveMax(cfg: Config, s: State): int {
    if 0 < s.advertisedMax < cfg.maxUpstreams then s.advertisedMax else cfg.maxUpstreams
  }

  function EffectiveRPS(cfg: Config, s: State): (r: real)
    ensures r <= cfg.connectRPS && (cfg.connectRPS > 0.0 ==> r > 0.0)
  {
    var r := if 0.0 < s.rampRPS < cfg.connectRPS then s.rampRPS else cfg.connectRPS;
    if 0.0 < s.advertisedRPS < r then s.advertisedRPS else r
  }

  lemma Quotient(x: real, d: real)
    requires d > 0.0
    ensures (x / d) * d == x
  {
  }

  lemma ProductsCompare(a: real, slow: real, b: real, fast: real)
    requires 0.0 < slow <= fast && a * slow == b * fast >= 0.0
    ensures 0.0 <= b <= a
  {
    ProductOrder(b, 0.0, fast);
    if slow < fast && b > 0.0 {
      ProductOrder(slow, fast, b);
    }
    ProductOrder(a, b, slow);
  }

  /** A lower rate never shortens the interval. */
  lemma SlowerIsLonger(slow: real, fast: real)
    requires 0.0 < slow <= fast
    ensures 0 <= Interval(fast) <= Interval(slow)
  {
    Quotient(1000000000.0, slow);
    Quotient(1000000000.0, fast);
    ProductsCompare(1000000000.0 / slow, slow, 1000000000.0 / fast, fast);
  }

  /** retry.Jitter adds up to a tenth, at least a nanosecond. */
  predicate Jittered(interval: int, d: int) {
    if interval <= 0 then d == interval
    else interval <= d <= interval + (if interval / 10 > 0 then interval / 10 else 1)
  }

  // ---- the queue ----

  /** publishPositions from index `i` on. */
  function Publish(ws: map<nat, Waiter>, queue: seq<nat>, i: nat): (r: map<nat, Waiter>)
    requires i <= |queue| && forall id <- queue :: id in ws
    ensures r.Keys == ws.Keys
    decreases |queue| - i
  {
    if i == |queue| then ws
    else Publish(ws[queue[i] := ws[queue[i]].(position := i + 1)], queue, i + 1)
  }

  predicate Increasing(queue: seq<nat>) { forall i, j :: 0 <= i < j < |queue| ==> queue[i] < queue[j] }

  /** Afterwards every waiter's position is its place in the queue, and nothing else has changed. */
  lemma {:induction false} PublishSets(ws: map<nat, Waiter>, queue: seq<nat>, i: nat)
    requires i <= |queue| && Increasing(queue) && forall id <- queue :: id in ws
    ensures var r := Publish(ws, queue, i);
            && (forall id <- ws :: r[id] == ws[id].(position := r[id].position))
            && (forall k :: i <= k < |queue| ==> r[queue[k]].position == k + 1)
            && (forall id <- ws :: id !in queue[i..] ==> r[id] == ws[id])
    decreases |queue| - i
  {
    if i < |queue| {
      PublishSets(ws[queue[i] := ws[queue[i]].(position := i + 1)], queue, i + 1);
      assert queue[i..] == [queue[i]] + queue[i + 1..];
      assert queue[i] !in queue[i + 1..];
    }
  }

  /** removeWaiter: the queue without its first `id`. */
  function Removed(queue: seq<nat>, id: nat): (r: seq<nat>)
    ensures forall x <- r :: x in queue
  {
    if queue == [] then [] else if queue[0] == id then queue[1..] else [queue[0]] + Removed(queue[1..], id)
  }

  predicate Known(s: State) { forall id <- s.queue :: id in s.waiters }

  function Requeued(s: State, ws: map<nat, Waiter>, queue: seq<nat>): State
    requires forall id <- queue :: id in ws
  {
    s.(waiters := Publish(ws, queue, 0), queue := queue)
  }

  // ---- the calls ----

  function Enqueue(cfg: Config, s: State): State {
    if |s.queue| >= cfg.maxWaiting then s
    else s.(waiters := s.waiters[s.next := Newcomer(|s.queue| + 1)],
            queue := s.queue + [s.next], next := s.next + 1)
  }

  /** The first waiter gives up or is given up on: out of the queue, unless it has its grant. */
  function Leave(s: State, id: nat): (t: State)
    requires id in s.waiters && Known(s)
    ensures id in t.waiters
  {
    var w := s.waiters[id];
    if w.granted then s.(active := s.active - 1, waiters := s.waiters[id := w.(granted := false)])
    else Requeued(s, s.waiters[id := w.(canceled := true)], Removed(s.queue, id))
  }

  /** What Admission.Cancel changes in the scheduler. */
  function Withdraw(s: State, id: nat): (t: State)
    requires id in s.waiters && Known(s)
    ensures id in t.waiters
  {
    if s.waiters[id].granted || !s.waiters[id].canceled then Leave(s, id) else s
  }

  function Cancel(s: State, id: nat): State
    requires id in s.waiters && Known(s)
  {
    var t := Withdraw(s, id);
    t.(waiters := t.waiters[id := t.waiters[id].(dropped := true)])
  }

  function Over(s: State, id: nat): State
    requires id in s.waiters
  {
    s.(waiters := s.waiters[id := s.waiters[id].(over := true)])
  }

  /** Wait returns the release function: it looks only at the closed channel. */
  function Take(s: State, id: nat): State
    requires id in s.waiters
  {
    s.(waiters := s.waiters[id := s.waiters[id].(taken := true)])
  }

  function Release(s: State, id: nat): State
    requires id in s.waiters
  {
    s.(active := if s.active > 0 then s.active - 1 else s.active, waiters := s.waiters[id := s.waiters[id].(released := true)])
  }

  /** The waiters cancelled at the head of the queue go. */
  function DropCanceled(s: State): (t: State)
    requires Known(s)
    ensures Known(t) && t.waiters.Keys == s.waiters.Keys && t.active == s.active
    ensures t.queue != [] ==> !t.waiters[t.queue[0]].canceled
    decreases |s.queue|
  {
    if s.queue != [] && s.waiters[s.queue[0]].canceled then DropCanceled(Requeued(s, s.waiters, s.queue[1..])) else s
  }

  /** A grant to the first in the queue; the next is due `d` later. */
  function GrantFirst(cfg: Config, s: State, d: int): State
    requires Known(s) && s.queue != [] && cfg.connectRPS > 0.0
  {
    var id := s.queue[0];
    var t := Requeued(s, s.waiters, s.queue[1..]);
    t.(waiters := t.waiters[id := t.waiters[id].(granted := true, ready := true)], active := s.active + 1, nextGrant := s.now + d,
       log := s.log + [Grant(id, s.now, Interval(EffectiveRPS(cfg, s)))])
  }

  /** A free slot, a waiter and the time is due. */
  predicate Due(cfg: Config, s: State) { s.queue != [] && s.active < EffectiveMax(cfg, s) && s.nextGrant <= s.now }

  function GrantReady(cfg: Config, s: State, d: int): State
    requires Known(s) && cfg.connectRPS > 0.0
  {
    var t := DropCanceled(s);
    if Due(cfg, t) then GrantFirst(cfg, t, d) else t
  }

  function Success(cfg: Config, s: State): State {
    var r := s.rampRPS * 2.0;
    s.(rampRPS := if r > cfg.connectRPS then cfg.connectRPS else r)
  }

  function Failure(cfg: Config, s: State, d: int): State {
    s.(rampRPS := cfg.slowStartRPS,
       nextGrant := if s.queue != [] && s.nextGrant < s.now + d then s.now + d else s.nextGrant)
  }

  function Update(s: State, max: int, rps: real): State {
    s.(advertisedMax := if max > 0 then max else s.advertisedMax, advertisedRPS := if rps > 0.0 then rps else s.advertisedRPS)
  }

  // ---- runs ----

  datatype Step =
    | Pass(time: nat)
    | Enqueueing
    | Granting(d: int)
    | Taking(id: nat)
    | GivingUp(id: nat)
    | Quitting(id: nat)
    | Canceling(id: nat)
    | Releasing(id: nat)
    | Succeeding
    | Failing(d: int)
    | Updating(max: int, rps: real)

  /**
   * `d` is a jittered interval. Wait returns once: with the release function, because its context is done
   * (GivingUp), or because telling a position failed (Quitting). The release function has an effect once.
   */
  predicate Enabled(cfg: Config, s: State, step: Step)
    requires cfg.connectRPS > 0.0
  {
    Known(s) &&
    match step
    case Granting(d) => Jittered(Interval(EffectiveRPS(cfg, s)), d)
    case Taking(id) => id in s.waiters && s.waiters[id].ready && !s.waiters[id].taken && !s.waiters[id].over
    case GivingUp(id) => id in s.waiters && !s.waiters[id].taken && !s.waiters[id].over
    case Quitting(id) => id in s.waiters && !s.waiters[id].taken && !s.waiters[id].over
    case Canceling(id) => id in s.waiters
    case Releasing(id) => id in s.waiters && s.waiters[id].taken && !s.waiters[id].released
    case Failing(d) => Jittered(Interval(EffectiveRPS(cfg, s.(rampRPS := cfg.slowStartRPS))), d)
    case _ => true
  }

  function Apply(cfg: Config, s: State, step: Step): State
    requires cfg.connectRPS > 0.0 && Enabled(cfg, s, step)
  {
    match step
    case Pass(time) => s.(now := s.now + time)
    case Enqueueing => Enqueue(cfg, s)
    case Granting(d) => GrantReady(cfg, s, d)
    case Taking(id) => Take(s, id)
    case GivingUp(id) => Over(Leave(s, id), id)
    case Quitting(id) => Over(Withdraw(s, id), id)
    case Canceling(id) => Cancel(s, id)
    case Releasing(id) => Release(s, id)
    case Succeeding => Success(cfg, s)
    case Failing(d) => Failure(cfg, s, d)
    case Updating(max, rps) => Update(s, max, rps)
  }

  // ---- the invariant ----

  /** The grants that hold a slot. */
  function Open(ws: map<nat, Waiter>): set<nat> { set id | id in ws && ws[id].granted && !ws[id].released }

  ghost predicate ActiveOk(active: int, ws: map<nat, Waiter>, max: int) { active == |Open(ws)| <= max }

  /** A slot is held from the grant until it is cancelled or given up, and taken and released only while it is. */
  predicate FlagOk(w: Waiter) {
    && (w.granted ==> w.ready && !w.dropped && !w.over)
    && (w.ready ==> w.granted || w.dropped || w.over)
    && (w.released ==> w.taken) && (w.taken ==> w.granted)
  }

  ghost predicate FlagsOk(ws: map<nat, Waiter>) { forall id <- ws :: FlagOk(ws[id]) }

  predicate IsWaiting(w: Waiter, position: int) { w == Newcomer(position) }

  /** The queue is in order of arrival, and every position in it is its index plus one. */
  ghost predicate QueueOk(queue: seq<nat>, ws: map<nat, Waiter>, max: int) {
    && Increasing(queue) && |queue| <= max
    && forall i :: 0 <= i < |queue| ==> queue[i] in ws && IsWaiting(ws[queue[i]], i + 1)
  }

  ghost predicate Numbered(ws: map<nat, Waiter>, next: nat) { forall id: nat :: id in ws <==> id < next }

  ghost predicate Logged(log: seq<Grant>, id: nat) { exists k :: 0 <= k < |log| && log[k].id == id }

  /** Everyone who came is waiting, cancelled or has had a grant. */
  ghost predicate Accounted(ws: map<nat, Waiter>, queue: seq<nat>, log: seq<Grant>) {
    forall id <- ws :: id in queue || ws[id].canceled || Logged(log, id)
  }

  /** Grants were made in order of arrival, and before all who wait. */
  ghost predicate Ordered(log: seq<Grant>, queue: seq<nat>, next: nat) {
    && (forall k, l :: 0 <= k < l < |log| ==> log[k].id < log[l].id)
    && (forall k :: 0 <= k < |log| ==> log[k].id < next)
    && (forall k, i :: 0 <= k < |log| && 0 <= i < |queue| ==> log[k].id < queue[i])
  }

  /** Consecutive grants are an interval apart, none shorter than `least`. */
  ghost predicate Spaced(log: seq<Grant>, now: int, nextGrant: int, least: int) {
    && (forall k :: 0 <= k < |log| ==> log[k].interval >= least && log[k].at <= now)
    && (forall k :: 1 <= k < |log| ==> log[k].at >= log[k - 1].at + log[k - 1].interval)
    && (log != [] ==> var g := log[|log| - 1]; nextGrant >= g.at + g.interval)
  }

  ghost predicate Inv(cfg: Config, s: State)
    requires cfg.connectRPS > 0.0
  {
    && ActiveOk(s.active, s.waiters, cfg.maxUpstreams) && FlagsOk(s.waiters)
    && QueueOk(s.queue, s.waiters, cfg.maxWaiting)
    && Numbered(s.waiters, s.next) && Accounted(s.waiters, s.queue, s.log) && Ordered(s.log, s.queue, s.next)
    && Spaced(s.log, s.now, s.nextGrant, Interval(cfg.connectRPS))
  }

  // ---- every step keeps it ----

  lemma TailIncreasing(queue: seq<nat>)
    requires Increasing(queue) && queue != []
    ensures Increasing(queue[1..]) && forall x <- queue[1..] :: queue[0] < x
  {
  }

  lemma ConsIncreasing(x: nat, r: seq<nat>)
    requires Increasing(r) && forall y <- r :: x < y
    ensures Increasing([x] + r)
  {
    var q := [x] + r;
    forall i, j | 0 <= i < j < |q| ensures q[i] < q[j] {
      assert q[j] == r[j - 1] && r[j - 1] in r;
      if i > 0 { assert q[i] == r[i - 1]; }
    }
  }

  lemma {:induction false} RemovedFacts(queue: seq<nat>, id: nat)
    requires Increasing(queue)
    ensures var r := Removed(queue, id);
            Increasing(r) && |r| <= |queue| && id !in r && forall x <- queue :: x != id ==> x in r
    decreases |queue|
  {
    if queue != [] {
      TailIncreasing(queue);
      hide Increasing;
      var rest := queue[1..];
      assert queue == [queue[0]] + rest;
      if queue[0] != id {
        RemovedFacts(rest, id);
        assert forall x <- Removed(rest, id) :: x in rest;
        ConsIncreasing(queue[0], Removed(rest, id));
      }
    }
  }

  /** `vs` is `ws` with new positions. */
  ghost predicate Repositioned(ws: map<nat, Waiter>, vs: map<nat, Waiter>) {
    vs.Keys == ws.Keys && forall id <- ws :: vs[id] == ws[id].(position := vs[id].position)
  }

  /** Waiters no longer in the queue may change; those left keep their flags and get their places. */
  lemma PublishQueueOk(queue: seq<nat>, ws: map<nat, Waiter>, fewer: seq<nat>, vs: map<nat, Waiter>, max: int)
    requires QueueOk(queue, ws, max) && Increasing(fewer) && |fewer| <= |queue|
    requires forall id <- fewer :: id in queue && id in ws && id in vs && vs[id] == ws[id]
    ensures QueueOk(fewer, Publish(vs, fewer, 0), max) && Repositioned(vs, Publish(vs, fewer, 0))
  {
    PublishSets(vs, fewer, 0);
    var r := Publish(vs, fewer, 0);
    hide Publish;
    forall i | 0 <= i < |fewer| ensures fewer[i] in r && IsWaiting(r[fewer[i]], i + 1) {
      var j :| 0 <= j < |queue| && queue[j] == fewer[i];
      assert IsWaiting(ws[queue[j]], j + 1);
      assert r[fewer[i]].position == i + 1;
    }
  }

  lemma FewerOrdered(log: seq<Grant>, queue: seq<nat>, fewer: seq<nat>, next: nat)
    requires Ordered(log, queue, next) && forall id <- fewer :: id in queue
    ensures Ordered(log, fewer, next)
  {
    forall k, i | 0 <= k < |log| && 0 <= i < |fewer| ensures log[k].id < fewer[i] {
      assert fewer[i] in queue;
    }
  }

  lemma StillAccounted(ws: map<nat, Waiter>, queue: seq<nat>, log: seq<Grant>, vs: map<nat, Waiter>, fewer: seq<nat>)
    requires Accounted(ws, queue, log) && vs.Keys == ws.Keys
    requires forall id <- ws :: ws[id].canceled ==> vs[id].canceled
    requires forall id <- queue :: id in fewer || (id in vs && vs[id].canceled)
    ensures Accounted(vs, fewer, log)
  {
  }

  /** The flags of `id` may change. */
  predicate SameBut(ws: map<nat, Waiter>, vs: map<nat, Waiter>, id: nat) {
    id in ws && vs.Keys == ws.Keys && forall x <- ws :: x != id ==> vs[x] == ws[x].(position := vs[x].position)
  }

  lemma CountMoves(a: set<nat>, b: set<nat>, id: nat)
    requires forall x: nat :: x != id ==> (x in a <==> x in b)
    ensures |b| == |a| - (if id in a then 1 else 0) + (if id in b then 1 else 0)
  {
    var rest := a - {id};
    assert b - {id} == rest;
    assert id in a ==> a == rest + {id};
    assert id in b ==> b == rest + {id};
    assert id !in a ==> a == rest;
    assert id !in b ==> b == rest;
  }

  lemma OpenMoves(ws: map<nat, Waiter>, vs: map<nat, Waiter>, id: nat)
    requires SameBut(ws, vs, id)
    ensures |Open(vs)| == |Open(ws)| - (if id in Open(ws) then 1 else 0) + (if id in Open(vs) then 1 else 0)
  {
    forall x: nat | x != id ensures x in Open(vs) <==> x in Open(ws) {
      if x in ws { assert vs[x].granted == ws[x].granted && vs[x].released == ws[x].released; }
    }
    hide Open, SameBut;
    CountMoves(Open(ws), Open(vs), id);
  }

  lemma FlagsKept(ws: map<nat, Waiter>, vs: map<nat, Waiter>, id: nat)
    requires FlagsOk(ws) && SameBut(ws, vs, id) && FlagOk(vs[id])
    ensures FlagsOk(vs)
  {
    forall x | x in vs ensures FlagOk(vs[x]) {
      if x != id { assert FlagOk(ws[x]); }
    }
  }

  /** A waiter that has its grant is not in the queue. */
  lemma GrantedNotQueued(queue: seq<nat>, ws: map<nat, Waiter>, vs: map<nat, Waiter>, id: nat, max: int)
    requires QueueOk(queue, ws, max) && id in ws && ws[id].granted && vs.Keys == ws.Keys
    requires forall x <- ws :: x != id ==> vs[x] == ws[x]
    ensures QueueOk(queue, vs, max)
  {
  }

  /** A waiter still queued leaves. */
  lemma LeaveQueuedKeeps(cfg: Config, s: State, id: nat)
    requires cfg.connectRPS > 0.0 && Inv(cfg, s) && id in s.waiters && !s.waiters[id].granted && Known(s)
    ensures Inv(cfg, Leave(s, id))
  {
    var ws := s.waiters[id := s.waiters[id].(canceled := true)];
    var q := Removed(s.queue, id);
    RemovedFacts(s.queue, id);
    PublishQueueOk(s.queue, s.waiters, q, ws, cfg.maxWaiting);
    var vs := Publish(ws, q, 0);
    assert Leave(s, id) == s.(waiters := vs, queue := q);
    FewerOrdered(s.log, s.queue, q, s.next);
    StillAccounted(s.waiters, s.queue, s.log, vs, q);
    OpenMoves(s.waiters, vs, id);
    FlagsKept(s.waiters, vs, id);
    hide Publish, Removed, QueueOk, Accounted, Ordered, Increasing, Interval, Spaced, FlagsOk, Leave, SameBut;
  }

  /** Changes to a granted waiter's flags alone. */
  lemma GrantedKeeps(cfg: Config, s: State, id: nat, w: Waiter, active: int)
    requires cfg.connectRPS > 0.0 && Inv(cfg, s) && id in s.waiters && s.waiters[id].granted
    requires w.canceled == s.waiters[id].canceled && FlagOk(w)
    requires active == |Open(s.waiters[id := w])| <= cfg.maxUpstreams
    ensures Inv(cfg, s.(waiters := s.waiters[id := w], active := active))
  {
    var vs := s.waiters[id := w];
    StillAccounted(s.waiters, s.queue, s.log, vs, s.queue);
    FlagsKept(s.waiters, vs, id);
    GrantedNotQueued(s.queue, s.waiters, vs, id, cfg.maxWaiting);
    hide QueueOk, Accounted, Ordered, Increasing, Interval, Spaced, FlagsOk, Open;
  }

  /** Flags that follow an admission change, of a waiter with neither a grant nor a place in the queue. */
  lemma GoneKeeps(cfg: Config, s: State, id: nat, w: Waiter)
    requires cfg.connectRPS > 0.0 && Inv(cfg, s) && id in s.waiters && !s.waiters[id].granted && s.waiters[id].canceled
    requires w.canceled && !w.granted && FlagOk(w)
    ensures Inv(cfg, s.(waiters := s.waiters[id := w]))
  {
    var vs := s.waiters[id := w];
    assert id !in s.queue by {
      assert forall i :: 0 <= i < |s.queue| ==> IsWaiting(s.waiters[s.queue[i]], i + 1);
    }
    StillAccounted(s.waiters, s.queue, s.log, vs, s.queue);
    FlagsKept(s.waiters, vs, id);
    OpenMoves(s.waiters, vs, id);
    NotInQueue(s.queue, s.waiters, vs, id, cfg.maxWaiting);
    hide QueueOk, Accounted, Ordered, Increasing, Interval, Spaced, FlagsOk, FlagOk;
  }

  lemma LeaveGrantedKeeps(cfg: Config, s: State, id: nat, w: Waiter)
    requires cfg.connectRPS > 0.0 && Inv(cfg, s) && id in s.waiters && s.waiters[id].granted && !s.waiters[id].taken
    requires FlagOk(w) && !w.granted && w.canceled == s.waiters[id].canceled
    ensures Inv(cfg, s.(active := s.active - 1, waiters := s.waiters[id := w]))
  {
    assert FlagOk(s.waiters[id]);
    OpenMoves(s.waiters, s.waiters[id := w], id);
    hide QueueOk, Accounted, Ordered, Increasing, Interval, Spaced, FlagsOk, FlagOk;
    GrantedKeeps(cfg, s, id, w, s.active - 1);
  }

  /** A waiter leaves the queue, or gives its grant up, and is marked as `w` is. */
  lemma AwayKeeps(cfg: Config, s: State, t: State, id: nat, w: Waiter)
    requires cfg.connectRPS > 0.0 && Inv(cfg, s) && Known(s) && id in s.waiters && !s.waiters[id].taken
    requires t == Withdraw(s, id) || t == Leave(s, id)
    requires w == t.waiters[id].(dropped := true) || w == t.waiters[id].(over := true)
    ensures Inv(cfg, t.(waiters := t.waiters[id := w]))
  {
    assert FlagOk(s.waiters[id]);
    if s.waiters[id].granted {
      LeaveGrantedKeeps(cfg, s, id, w);
      assert t.(waiters := t.waiters[id := w]) == s.(active := s.active - 1, waiters := s.waiters[id := w]);
    } else {
      LeaveQueuedKeeps(cfg, s, id);
      LeftIsGone(cfg, s, id);
      hide Inv, Leave;
      GoneKeeps(cfg, t, id, w);
    }
  }

  lemma LeftIsGone(cfg: Config, s: State, id: nat)
    requires Known(s) && id in s.waiters && !s.waiters[id].granted && Increasing(s.queue)
    ensures var t := Leave(s, id);
            t.waiters[id] == s.waiters[id].(canceled := true, position := t.waiters[id].position)
  {
    var ws := s.waiters[id := s.waiters[id].(canceled := true)];
    var q := Removed(s.queue, id);
    RemovedFacts(s.queue, id);
    PublishSets(ws, q, 0);
    hide Publish, Removed;
  }

  lemma TakeKeeps(cfg: Config, s: State, id: nat)
    requires cfg.connectRPS > 0.0 && Inv(cfg, s) && id in s.waiters && s.waiters[id].granted
    ensures Inv(cfg, Take(s, id))
  {
    var w := s.waiters[id].(taken := true);
    assert FlagOk(s.waiters[id]);
    OpenMoves(s.waiters, s.waiters[id := w], id);
    hide QueueOk, Accounted, Ordered, Increasing, Interval, Spaced, FlagsOk;
    GrantedKeeps(cfg, s, id, w, s.active);
  }

  lemma ReleaseKeeps(cfg: Config, s: State, id: nat)
    requires cfg.connectRPS > 0.0 && Inv(cfg, s) && id in s.waiters && s.waiters[id].taken && !s.waiters[id].released
    ensures Inv(cfg, Release(s, id))
  {
    assert FlagOk(s.waiters[id]);
    var w := s.waiters[id].(released := true);
    OpenMoves(s.waiters, s.waiters[id := w], id);
    hide QueueOk, Accounted, Ordered, Increasing, Interval, Spaced, FlagsOk;
    assert id in Open(s.waiters) && s.active > 0;
    GrantedKeeps(cfg, s, id, w, s.active - 1);
  }

  lemma OneMoreQueued(queue: seq<nat>, ws: map<nat, Waiter>, next: nat, w: Waiter, max: int)
    requires QueueOk(queue, ws, max) && Numbered(ws, next) && |queue| < max && IsWaiting(w, |queue| + 1)
    ensures QueueOk(queue + [next], ws[next := w], max)
  {
    var q := queue + [next];
    forall i | 0 <= i < |q| ensures q[i] in ws[next := w] && IsWaiting(ws[next := w][q[i]], i + 1) && (i < |queue| ==> q[i] < next) {
      if i < |queue| { assert queue[i] in ws && IsWaiting(ws[queue[i]], i + 1); }
    }
  }

  lemma OneMoreOrdered(log: seq<Grant>, queue: seq<nat>, next: nat)
    requires Ordered(log, queue, next)
    ensures Ordered(log, queue + [next], next + 1)
  {
  }

  lemma EnqueueKeeps(cfg: Config, s: State)
    requires cfg.connectRPS > 0.0 && Inv(cfg, s)
    ensures Inv(cfg, Enqueue(cfg, s))
  {
    if |s.queue| < cfg.maxWaiting {
      var w := Newcomer(|s.queue| + 1);
      var ws := s.waiters[s.next := w];
      OneMoreQueued(s.queue, s.waiters, s.next, w, cfg.maxWaiting);
      OneMoreOrdered(s.log, s.queue, s.next);
      assert s.next !in s.waiters;
      assert Open(ws) == Open(s.waiters);
      assert Accounted(ws, s.queue + [s.next], s.log);
      assert FlagsOk(ws) && Numbered(ws, s.next + 1);
      hide QueueOk, Accounted, Ordered, Interval, Spaced, FlagsOk, Numbered, Open;
    }
  }

  /** No cancelled waiter is ever found in the queue. */
  lemma NoneCanceled(s: State, max: int)
    requires QueueOk(s.queue, s.waiters, max) && Known(s)
    ensures DropCanceled(s) == s
  {
    assert s.queue != [] ==> IsWaiting(s.waiters[s.queue[0]], 1);
  }

  lemma GrantOrdered(log: seq<Grant>, queue: seq<nat>, next: nat, g: Grant)
    requires Ordered(log, queue, next) && Increasing(queue) && queue != [] && g.id == queue[0] < next
    ensures Ordered(log + [g], queue[1..], next)
  {
  }

  lemma GrantAccounted(ws: map<nat, Waiter>, queue: seq<nat>, log: seq<Grant>, vs: map<nat, Waiter>, g: Grant)
    requires Accounted(ws, queue, log) && vs.Keys == ws.Keys && queue != [] && g.id == queue[0]
    requires forall id <- ws :: ws[id].canceled ==> vs[id].canceled
    ensures Accounted(vs, queue[1..], log + [g])
  {
    var more := log + [g];
    assert more[|log|].id == g.id;
    forall id | id in vs ensures id in queue[1..] || vs[id].canceled || Logged(more, id) {
      if Logged(log, id) {
        var k :| 0 <= k < |log| && log[k].id == id;
        assert more[k].id == id;
      }
    }
  }

  lemma GrantSpaced(log: seq<Grant>, now: int, nextGrant: int, least: int, g: Grant, d: int)
    requires Spaced(log, now, nextGrant, least) && nextGrant <= now && g.at == now && g.interval >= least
    requires least >= 0 && Jittered(g.interval, d)
    ensures Spaced(log + [g], now, now + d, least)
  {
  }

  /** What a grant changes, piece by piece. */
  lemma GrantEffect(cfg: Config, s: State, d: int)
    requires cfg.connectRPS > 0.0 && Known(s) && s.queue != []
    requires QueueOk(s.queue, s.waiters, cfg.maxWaiting) && FlagsOk(s.waiters)
    ensures var id, t := s.queue[0], GrantFirst(cfg, s, d);
            && t.queue == s.queue[1..] && t.active == s.active + 1 && t.next == s.next && t.now == s.now
            && t.nextGrant == s.now + d && t.log == s.log + [Grant(id, s.now, Interval(EffectiveRPS(cfg, s)))]
            && SameBut(s.waiters, t.waiters, id) && QueueOk(t.queue, t.waiters, cfg.maxWaiting)
            && t.waiters[id].canceled == s.waiters[id].canceled
            && t.waiters.Keys == s.waiters.Keys && Increasing(s.queue)
            && (forall x <- s.waiters :: s.waiters[x].canceled ==> t.waiters[x].canceled)
            && id in Open(t.waiters) && id !in Open(s.waiters)
            && FlagOk(t.waiters[id])
  {
    hide Interval, EffectiveRPS, Publish;
    var id := s.queue[0];
    var q := s.queue[1..];
    TailIncreasing(s.queue);
    assert IsWaiting(s.waiters[id], 1);
    PublishQueueOk(s.queue, s.waiters, q, s.waiters, cfg.maxWaiting);
    var vs := Publish(s.waiters, q, 0);
    var us := vs[id := vs[id].(granted := true, ready := true)];
    NotInQueue(q, vs, us, id, cfg.maxWaiting);
    hide QueueOk, Increasing;
  }

  lemma GrantKeeps(cfg: Config, s: State, d: int)
    requires cfg.connectRPS > 0.0 && Inv(cfg, s) && Due(cfg, s) && Jittered(Interval(EffectiveRPS(cfg, s)), d) && Known(s)
    ensures Inv(cfg, GrantFirst(cfg, s, d))
  {
    hide QueueOk, Accounted, Ordered, Increasing, Spaced, FlagsOk, Open, SameBut, Jittered;
    hide Publish, Interval, EffectiveRPS, GrantFirst;
    var id := s.queue[0];
    GrantEffect(cfg, s, d);
    SlowerIsLonger(EffectiveRPS(cfg, s), cfg.connectRPS);
    var t := GrantFirst(cfg, s, d);
    var g := Grant(id, s.now, Interval(EffectiveRPS(cfg, s)));
    GrantOrdered(s.log, s.queue, s.next, g);
    GrantAccounted(s.waiters, s.queue, s.log, t.waiters, g);
    GrantSpaced(s.log, s.now, s.nextGrant, Interval(cfg.connectRPS), g, d);
    OpenMoves(s.waiters, t.waiters, id);
    FlagsKept(s.waiters, t.waiters, id);
  }

  lemma NotInQueue(queue: seq<nat>, ws: map<nat, Waiter>, vs: map<nat, Waiter>, id: nat, max: int)
    requires QueueOk(queue, ws, max) && id !in queue && vs.Keys == ws.Keys && forall x <- ws :: x != id ==> vs[x] == ws[x]
    ensures QueueOk(queue, vs, max)
  {
  }

  /** The same admission is cancelled and its slot taken, in either order. */
  predicate Misused(s: State, step: Step) {
    match step
    case Canceling(id) => id in s.waiters && s.waiters[id].taken
    case Taking(id) => id in s.waiters && s.waiters[id].dropped
    case _ => false
  }

  lemma StepKeeps(cfg: Config, s: State, step: Step)
    requires cfg.connectRPS > 0.0 && Inv(cfg, s) && Enabled(cfg, s, step) && !Misused(s, step)
    ensures Inv(cfg, Apply(cfg, s, step))
  {
    hide QueueOk, Accounted, Ordered, Increasing, Interval, EffectiveRPS, GrantFirst, Leave, Release, Enqueue, Open, Withdraw;
    match step
    case Enqueueing => EnqueueKeeps(cfg, s);
    case Granting(d) =>
      NoneCanceled(s, cfg.maxWaiting);
      if Due(cfg, s) { GrantKeeps(cfg, s, d); }
    case Taking(id) =>
      assert FlagOk(s.waiters[id]);
      TakeKeeps(cfg, s, id);
    case GivingUp(id) => AwayKeeps(cfg, s, Leave(s, id), id, Leave(s, id).waiters[id].(over := true));
    case Quitting(id) => AwayKeeps(cfg, s, Withdraw(s, id), id, Withdraw(s, id).waiters[id].(over := true));
    case Canceling(id) => AwayKeeps(cfg, s, Withdraw(s, id), id, Withdraw(s, id).waiters[id].(dropped := true));
    case Releasing(id) => ReleaseKeeps(cfg, s, id);
    case _ => hide FlagsOk;
  }

  // ---- runs ----

  /** A run in which no admission is both cancelled and taken. */
  predicate IsRun(cfg: Config, s: State, steps: seq<Step>)
    requires cfg.connectRPS > 0.0
    decreases |steps|
  {
    steps != [] ==>
      Enabled(cfg, s, steps[0]) && !Misused(s, steps[0]) && IsRun(cfg, Apply(cfg, s, steps[0]), steps[1..])
  }

  function After(cfg: Config, s: State, steps: seq<Step>): State
    requires cfg.connectRPS > 0.0 && IsRun(cfg, s, steps)
    decreases |steps|
  {
    if steps == [] then s else After(cfg, Apply(cfg, s, steps[0]), steps[1..])
  }

  lemma {:induction false} RunKeeps(cfg: Config, s: State, steps: seq<Step>)
    requires cfg.connectRPS > 0.0 && Inv(cfg, s) && IsRun(cfg, s, steps)
    ensures Inv(cfg, After(cfg, s, steps))
    decreases |steps|
  {
    hide Inv, Enabled, Apply;
    if steps != [] {
      StepKeeps(cfg, s, steps[0]);
      RunKeeps(cfg, Apply(cfg, s, steps[0]), steps[1..]);
    }
  }

  lemma StartOk(cfg: Config, now: int)
    requires GoodConfig(cfg)
    ensures Inv(cfg, Start(cfg, now))
  {
    assert Open(Start(cfg, now).waiters) == {};
  }

  /**
   * On every run the active count is the grants neither released nor cancelled, within the maximum, and every
   * waiter in the queue is told its own place.
   */
  lemma SlotsAreConserved(cfg: Config, now: int, steps: seq<Step>)
    requires GoodConfig(cfg) && IsRun(cfg, Start(cfg, now), steps)
    ensures var s := After(cfg, Start(cfg, now), steps);
            && s.active == |Open(s.waiters)| <= cfg.maxUpstreams
            && forall i :: 0 <= i < |s.queue| ==> s.queue[i] in s.waiters && s.waiters[s.queue[i]].position == i + 1
  {
    StartOk(cfg, now);
    RunKeeps(cfg, Start(cfg, now), steps);
    hide After, IsRun;
    var s := After(cfg, Start(cfg, now), steps);
    assert forall i :: 0 <= i < |s.queue| ==> IsWaiting(s.waiters[s.queue[i]], i + 1);
  }

  /** Grants follow the order of arrival: everyone who came before a grant was granted before it, or cancelled. */
  lemma GrantsFollowArrival(cfg: Config, now: int, steps: seq<Step>, k: nat, id: nat)
    requires GoodConfig(cfg) && IsRun(cfg, Start(cfg, now), steps)
    requires var s := After(cfg, Start(cfg, now), steps); k < |s.log| && id < s.log[k].id
    ensures var s := After(cfg, Start(cfg, now), steps);
            id in s.waiters && (s.waiters[id].canceled || exists j :: 0 <= j < k && s.log[j].id == id)
  {
    StartOk(cfg, now);
    RunKeeps(cfg, Start(cfg, now), steps);
    hide After, IsRun;
    var s := After(cfg, Start(cfg, now), steps);
    assert id !in s.queue;
    if !s.waiters[id].canceled {
      var j :| 0 <= j < |s.log| && s.log[j].id == id;
      assert j < k;
    }
  }

  /** Any n consecutive grants take at least n - 1 configured intervals. */
  lemma GrantsAreSpaced(cfg: Config, now: int, steps: seq<Step>, i: nat, j: nat)
    requires GoodConfig(cfg) && IsRun(cfg, Start(cfg, now), steps)
    requires i <= j < |After(cfg, Start(cfg, now), steps).log|
    ensures var log := After(cfg, Start(cfg, now), steps).log;
            log[j].at - log[i].at >= (j - i) * Interval(cfg.connectRPS)
  {
    StartOk(cfg, now);
    RunKeeps(cfg, Start(cfg, now), steps);
    hide After, IsRun;
    var s := After(cfg, Start(cfg, now), steps);
    SpacedApart(s.log, s.now, s.nextGrant, Interval(cfg.connectRPS), i, j);
  }

  lemma {:induction false} SpacedApart(log: seq<Grant>, now: int, nextGrant: int, least: int, i: nat, j: nat)
    requires Spaced(log, now, nextGrant, least) && i <= j < |log|
    ensures log[j].at - log[i].at >= (j - i) * least
    decreases j - i
  {
    if i < j {
      SpacedApart(log, now, nextGrant, least, i, j - 1);
      assert (j - i) * least == (j - 1 - i) * least + least;
    }
  }

  lemma RampStep(cfg: Config, s: State, step: Step)
    requires GoodConfig(cfg) && Enabled(cfg, s, step) && cfg.slowStartRPS <= s.rampRPS <= cfg.connectRPS
    ensures cfg.slowStartRPS <= Apply(cfg, s, step).rampRPS <= cfg.connectRPS
  {
    if step.Granting? {
      DropKeepsRamp(s);
    }
    hide Publish, Removed, Interval, DropCanceled;
  }

  lemma {:induction false} DropKeepsRamp(s: State)
    requires Known(s)
    ensures DropCanceled(s).rampRPS == s.rampRPS
    decreases |s.queue|
  {
    if s.queue != [] && s.waiters[s.queue[0]].canceled {
      DropKeepsRamp(Requeued(s, s.waiters, s.queue[1..]));
    }
  }

  /** The ramp stays between slow start and the configured rate, on every run. */
  lemma {:induction false} RampStaysInRange(cfg: Config, s: State, steps: seq<Step>)
    requires GoodConfig(cfg) && IsRun(cfg, s, steps) && cfg.slowStartRPS <= s.rampRPS <= cfg.connectRPS
    ensures cfg.slowStartRPS <= After(cfg, s, steps).rampRPS <= cfg.connectRPS
    decreases |steps|
  {
    if steps != [] {
      RampStep(cfg, s, steps[0]);
      hide Apply, Enabled;
      RampStaysInRange(cfg, Apply(cfg, s, steps[0]), steps[1..]);
    }
  }

  // ---- cancelling and taking the same admission ----

  /** A step keeps the books exactly when it does not make an admission both cancelled and taken. */
  lemma OnlyMisuseBreaks(cfg: Config, s: State, step: Step)
    requires cfg.connectRPS > 0.0 && Inv(cfg, s) && Enabled(cfg, s, step)
    ensures Inv(cfg, Apply(cfg, s, step)) <==> !Misused(s, step)
  {
    if Misused(s, step) {
      var t := Apply(cfg, s, step);
      assert FlagOk(s.waiters[step.id]);
      assert !FlagOk(t.waiters[step.id]);
      hide QueueOk, Accounted, Ordered, Spaced, Interval, Open, Apply;
    } else {
      StepKeeps(cfg, s, step);
    }
  }

  /** `t` is `s` after a slot held by `id` was given back twice: the count is one below the open grants. */
  ghost predicate FreedTwice(s: State, t: State) { t.active == s.active - 2 == |Open(t.waiters)| - 1 }

  lemma CancelGranted(s: State, id: nat)
    requires id in s.waiters && Known(s) && s.waiters[id].granted
    ensures Cancel(s, id) == s.(active := s.active - 1, waiters := s.waiters[id := s.waiters[id].(granted := false, dropped := true)])
  {
    hide Publish;
  }

  /** Cancel after Wait has returned, and then the release, give the same slot back twice. */
  lemma LateCancelFreesTwice(cfg: Config, s: State, id: nat)
    requires cfg.connectRPS > 0.0 && Inv(cfg, s) && Known(s)
    requires id in s.waiters && s.waiters[id].taken && !s.waiters[id].released && s.active >= 2
    ensures FreedTwice(s, Release(Cancel(s, id), id))
  {
    assert FlagOk(s.waiters[id]);
    CancelGranted(s, id);
    var t := Cancel(s, id);
    OpenMoves(s.waiters, t.waiters, id);
    OpenMoves(t.waiters, Release(t, id).waiters, id);
    hide QueueOk, Accounted, Ordered, Spaced, Interval, FlagsOk, Cancel;
  }

  /** So do Cancel of a granted admission, Wait returning on its closed channel all the same, and the release. */
  lemma CancelThenWaitFreesTwice(cfg: Config, s: State, id: nat)
    requires cfg.connectRPS > 0.0 && Inv(cfg, s) && Known(s)
    requires id in s.waiters && s.waiters[id].granted && !s.waiters[id].taken && s.active >= 2
    ensures Enabled(cfg, s, Canceling(id)) && Enabled(cfg, Cancel(s, id), Taking(id))
    ensures Enabled(cfg, Take(Cancel(s, id), id), Releasing(id))
    ensures FreedTwice(s, Release(Take(Cancel(s, id), id), id))
  {
    assert FlagOk(s.waiters[id]);
    CancelGranted(s, id);
    var t := Cancel(s, id);
    OpenMoves(s.waiters, t.waiters, id);
    FreedAgain(t, id);
    hide QueueOk, Accounted, Ordered, Spaced, Interval, FlagsOk, Cancel, Open, Release, Take;
  }

  /** Taking and releasing a slot that is no longer held lowers the count all the same. */
  lemma FreedAgain(s: State, id: nat)
    requires id in s.waiters && !s.waiters[id].granted && s.active > 0 && !s.waiters[id].released
    ensures var t := Take(s, id);
            && t.waiters[id].taken && !t.waiters[id].released && (Known(s) ==> Known(t))
            && Release(t, id).active == s.active - 1 && |Open(Release(t, id).waiters)| == |Open(s.waiters)|
  {
    assert Open(Release(Take(s, id), id).waiters) == Open(s.waiters);
  }

  /** From any state with two slots held, both orders give the first of them back twice. */
  lemma EitherOrderFreesTwice(cfg: Config, s: State, id: nat)
    requires cfg.connectRPS > 0.0 && Inv(cfg, s) && Known(s)
    requires id in s.waiters && s.waiters[id].granted && !s.waiters[id].taken && s.active >= 2
    ensures FreedTwice(s, Release(Take(Cancel(s, id), id), id))
    ensures Known(Take(s, id)) && FreedTwice(s, Release(Cancel(Take(s, id), id), id))
  {
    CancelThenWaitFreesTwice(cfg, s, id);
    assert FlagOk(s.waiters[id]);
    TakeKeeps(cfg, s, id);
    hide Inv, Release, Cancel, Open;
    LateCancelFreesTwice(cfg, Take(s, id), id);
  }
}
