/**
 * Fairness of the pool's selection, over every run of picks while members come and go. The steps are
 * exactly what the methods of Pools.Pool do to the member map.
 */
module PoolFairness {
  import opened Basics
  import opened Pools

  type Members = map<string, Member>

  datatype Step =
    | Picks(id: string)
    | Joins(id: string, member: Member)
    | Leaves(id: string)
    | Changes(id: string, member: Member)

  ghost predicate Enabled(ms: Members, step: Step) {
    match step
    case Picks(id) => IsFirst(ms, id)
    case Joins(id, m) => id !in ms && StartsAt(ms, m.position)
    case Leaves(id) => true
    case Changes(id, m) => id in ms && m.position == ms[id].position
  }

  ghost function Apply(ms: Members, step: Step): Members
    requires Enabled(ms, step)
  {
    match step
    case Picks(id) => Picked(ms, id)
    case Joins(id, m) => ms[id := m]
    case Leaves(id) => ms - {id}
    case Changes(id, m) => ms[id := m]
  }

  ghost predicate IsRun(ms: Members, steps: seq<Step>)
    decreases |steps|
  {
    steps == [] || (Enabled(ms, steps[0]) && IsRun(Apply(ms, steps[0]), steps[1..]))
  }

  ghost function After(ms: Members, steps: seq<Step>): Members
    requires IsRun(ms, steps)
    decreases |steps|
  {
    if steps == [] then ms else After(Apply(ms, steps[0]), steps[1..])
  }

  /** How often `id` was picked. */
  function Count(steps: seq<Step>, id: string): nat {
    if steps == [] then 0 else (if steps[0] == Picks(id) then 1 else 0) + Count(steps[1..], id)
  }

  /** `id` is never removed, and its weight never changes. */
  ghost predicate Steady(ms: Members, steps: seq<Step>, id: string)
    requires IsRun(ms, steps)
    decreases |steps|
  {
    && id in ms
    && (steps != [] ==>
          var t := Apply(ms, steps[0]);
          id in t && Weight(t[id]) == Weight(ms[id]) && steps[0] != Leaves(id) && Steady(t, steps[1..], id))
  }

  /** `a` is ahead of `b` by at most one of its own steps. */
  ghost predicate AheadAtMostOne(ms: Members, a: string, b: string) {
    a in ms && b in ms && ms[a].position <= ms[b].position + 1.0 / Weight(ms[a])
  }

  /** No member is ahead of any other by more than one of its own steps. */
  ghost predicate Even(ms: Members) {
    forall a <- ms, b <- ms :: AheadAtMostOne(ms, a, b)
  }

  // ---- where runs can start: any pool whose weights have not gone up ----

  predicate NoHeavier(ms: Members, step: Step) {
    step.Changes? && step.id in ms ==> Weight(step.member) <= Weight(ms[step.id])
  }

  lemma Reciprocal(a: real, b: real)
    requires 0.0 < b <= a
    ensures 1.0 / a <= 1.0 / b
  {
    assert 1.0 / b - 1.0 / a == (a - b) / (a * b);
    assert a * b > 0.0;
  }

  /** Picks, joins, departures and weights going down keep the pool even: in particular from an empty pool. */
  lemma EvenStays(ms: Members, step: Step)
    requires Even(ms) && Enabled(ms, step) && NoHeavier(ms, step)
    ensures Even(Apply(ms, step))
  {
    hide Weight;
    var t := Apply(ms, step);
    forall a, b | a in t && b in t ensures AheadAtMostOne(t, a, b) {
      if a in ms && b in ms { assert AheadAtMostOne(ms, a, b); }
      match step {
        case Picks(id) => WeightOfMoved(ms[id], t[id]);
        case Joins(id, m) =>
          if a in ms && b == id {
            var x :| IsFirst(ms, x) && m.position == ms[x].position;
            assert AheadAtMostOne(ms, a, x);
          }
        case Leaves(id) =>
        case Changes(id, m) => Reciprocal(Weight(ms[id]), Weight(m));
      }
    }
  }

  lemma WeightOfMoved(m: Member, n: Member)
    requires n.declaredRps == m.declaredRps && n.reputation == m.reputation
    ensures Weight(n) == Weight(m)
  {
  }

  // ---- over a run ----

  /** The gap between two steady members stays within a step of either, whatever the others do. */
  lemma PairStays(ms: Members, step: Step, a: string, b: string)
    requires Enabled(ms, step) && AheadAtMostOne(ms, a, b)
    requires var t := Apply(ms, step);
             a in t && b in t && Weight(t[a]) == Weight(ms[a]) && step != Leaves(a) && step != Leaves(b)
    ensures AheadAtMostOne(Apply(ms, step), a, b)
  {
    hide Weight;
  }

  /** A steady member's position advances by one reciprocal weight a pick. */
  lemma Advance(ms: Members, step: Step, id: string)
    requires Enabled(ms, step) && id in ms && step != Leaves(id)
    ensures id in Apply(ms, step)
    ensures Apply(ms, step)[id].position == ms[id].position + (if step == Picks(id) then 1.0 / Weight(ms[id]) else 0.0)
  {
    hide Weight;
  }

  lemma {:induction false} Travels(ms: Members, steps: seq<Step>, id: string)
    requires IsRun(ms, steps) && Steady(ms, steps, id)
    ensures id in After(ms, steps) && Weight(After(ms, steps)[id]) == Weight(ms[id])
    ensures After(ms, steps)[id].position == ms[id].position + Count(steps, id) as real / Weight(ms[id])
    decreases |steps|
  {
    if steps != [] {
      hide Weight, Apply, Enabled;
      var t := Apply(ms, steps[0]);
      Advance(ms, steps[0], id);
      Travels(t, steps[1..], id);
      var w := Weight(ms[id]);
      var n := Count(steps[1..], id);
      SumOver(n, if steps[0] == Picks(id) then 1 else 0, w);
    }
  }

  lemma SumOver(n: nat, k: nat, w: real)
    requires w > 0.0
    ensures (n + k) as real / w == n as real / w + k as real / w
  {
  }

  lemma {:induction false} PairHolds(ms: Members, steps: seq<Step>, a: string, b: string)
    requires IsRun(ms, steps) && Steady(ms, steps, a) && Steady(ms, steps, b) && AheadAtMostOne(ms, a, b)
    ensures AheadAtMostOne(After(ms, steps), a, b)
    decreases |steps|
  {
    if steps != [] {
      PairStays(ms, steps[0], a, b);
      hide Apply, Enabled, Weight, AheadAtMostOne;
      PairHolds(Apply(ms, steps[0]), steps[1..], a, b);
    }
  }

  /** `m` picks at weight `w` and `n` at weight `v` are the same share, up to one step of each. */
  predicate Proportional(m: nat, w: real, n: nat, v: real)
    requires w > 0.0 && v > 0.0
  {
    var gap := m as real / w - n as real / v;
    -(1.0 / w + 1.0 / v) <= gap <= 1.0 / w + 1.0 / v
  }

  /** Two members no more than a step apart are picked in proportion from then on. */
  lemma PairIsProportional(ms: Members, steps: seq<Step>, a: string, b: string)
    requires IsRun(ms, steps) && Steady(ms, steps, a) && Steady(ms, steps, b)
    requires AheadAtMostOne(ms, a, b) && AheadAtMostOne(ms, b, a)
    ensures Proportional(Count(steps, a), Weight(ms[a]), Count(steps, b), Weight(ms[b]))
  {
    hide Steady, IsRun, After, Count, Weight;
    Travels(ms, steps, a);
    Travels(ms, steps, b);
    PairHolds(ms, steps, a, b);
    PairHolds(ms, steps, b, a);
  }

  /** Any run in which no weight goes up keeps an even pool even; an empty pool is even. */
  lemma {:induction false} EvenThroughout(ms: Members, steps: seq<Step>)
    requires Even(ms) && IsRun(ms, steps)
    requires NoneHeavier(ms, steps)
    ensures Even(After(ms, steps))
    decreases |steps|
  {
    hide Even, Enabled, Apply, NoHeavier;
    if steps != [] {
      EvenStays(ms, steps[0]);
      EvenThroughout(Apply(ms, steps[0]), steps[1..]);
    }
  }

  /**
   * Picks are proportional to declared rate times reputation: on any run in which no weight goes up, from an empty pool
   * or any even one, the picks per unit of weight of two members that then stay with constant weights differ by at
   * most one step of each, however long they stay and whoever else joins, leaves or changes.
   */
  lemma PicksAreProportional(ms: Members, before: seq<Step>, steps: seq<Step>, a: string, b: string)
    requires Even(ms) && IsRun(ms, before) && NoneHeavier(ms, before)
    requires var now := After(ms, before); IsRun(now, steps) && Steady(now, steps, a) && Steady(now, steps, b)
    ensures var now := After(ms, before);
            Share(now[a]) > 0.0 && Share(now[b]) > 0.0 ==>
              Proportional(Count(steps, a), Share(now[a]), Count(steps, b), Share(now[b]))
  {
    hide *;
    EvenThroughout(ms, before);
    var now := After(ms, before);
    SteadyIsIn(now, steps, a);
    SteadyIsIn(now, steps, b);
    EvenPair(now, a, b);
    PairIsProportional(now, steps, a, b);
    WeightIs(now[a]);
    WeightIs(now[b]);
  }

  /** What a member is meant to get: its declared rate, as far as it is trusted. */
  function Share(m: Member): real { m.declaredRps * m.reputation }

  lemma SteadyIsIn(ms: Members, steps: seq<Step>, id: string)
    requires IsRun(ms, steps) && Steady(ms, steps, id)
    ensures id in ms
  {
  }

  lemma EvenPair(ms: Members, a: string, b: string)
    requires Even(ms) && a in ms && b in ms
    ensures AheadAtMostOne(ms, a, b) && AheadAtMostOne(ms, b, a)
  {
    hide AheadAtMostOne;
  }

  lemma WeightIs(m: Member)
    ensures Share(m) > 0.0 ==> Weight(m) == Share(m)
  {
  }

  ghost predicate NoneHeavier(ms: Members, steps: seq<Step>)
    requires IsRun(ms, steps)
    decreases |steps|
  {
    steps != [] ==> NoHeavier(ms, steps[0]) && NoneHeavier(Apply(ms, steps[0]), steps[1..])
  }

  /**
   * A weight going up can leave a member further ahead than one of its new, shorter steps: evenness survives
   * the change exactly if the member is within one new step of the first.
   */
  lemma HeavierMayBeAhead(ms: Members, id: string, m: Member, first: string)
    requires Even(ms) && id in ms && m.position == ms[id].position && IsFirst(ms, first) && first != id
    ensures Even(ms[id := m]) <==> ms[id].position - ms[first].position <= 1.0 / Weight(m)
  {
    hide Weight;
    var t := ms[id := m];
    if ms[id].position - ms[first].position <= 1.0 / Weight(m) {
      forall a, b | a in t && b in t ensures AheadAtMostOne(t, a, b) {
        assert AheadAtMostOne(ms, a, b);
        assert ms[first].position <= ms[b].position;
      }
    } else {
      assert !AheadAtMostOne(t, id, first);
    }
  }

  /** A member that registered with this capacity at the start. */
  function Registered(rps: real, position: real): Member { Member("", rps, 1, 0, 1.0, position, None) }

  /** Two members join, the first is picked, and then says it can take ten times as much. */
  function GrowsAfterPick(): seq<Step> {
    [Joins("a", Registered(1.0, 0.0))]
    + ([Joins("b", Registered(1.0, 0.0))]
    + ([Picks("a")]
    + ([Changes("a", Registered(10.0, 1.0))] + [])))
  }

  lemma Chain(ms: Members, t: Members, step: Step, rest: seq<Step>)
    requires Enabled(ms, step) && t == Apply(ms, step) && IsRun(t, rest)
    ensures IsRun(ms, [step] + rest) && After(ms, [step] + rest) == After(t, rest)
  {
    assert ([step] + rest)[1..] == rest;
  }

  /** From an empty pool, that leaves it uneven. */
  lemma HeavierExample()
    ensures IsRun(map[], GrowsAfterPick()) && !Even(After(map[], GrowsAfterPick()))
  {
    var s1 := map["a" := Registered(1.0, 0.0)];
    assert IsFirst(s1, "a");
    var s2 := s1["b" := Registered(1.0, 0.0)];
    assert IsFirst(s2, "a");
    var s3 := Picked(s2, "a");
    assert Weight(s2["a"]) == 1.0 && s3["a"].position == 1.0;
    var s4 := s3["a" := Registered(10.0, 1.0)];
    assert Weight(s4["a"]) == 10.0;
    assert !AheadAtMostOne(s4, "a", "b");
    Chain(s3, s4, Changes("a", Registered(10.0, 1.0)), []);
    Chain(s2, s3, Picks("a"), [Changes("a", Registered(10.0, 1.0))] + []);
    Chain(s1, s2, Joins("b", Registered(1.0, 0.0)), [Picks("a")] + ([Changes("a", Registered(10.0, 1.0))] + []));
    Chain(map[], s1, Joins("a", Registered(1.0, 0.0)),
          [Joins("b", Registered(1.0, 0.0))] + ([Picks("a")] + ([Changes("a", Registered(10.0, 1.0))] + [])));
    hide IsRun, After;
  }
}
