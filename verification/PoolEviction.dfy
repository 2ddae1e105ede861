/** When a pool member is evicted for failing (internal/dispatch/pool.go). */
module PoolEviction {
  import opened Basics
  import opened Pools

  /** What happens to one member: answers to its jobs, and heartbeats. */
  datatype Event = Success | Failure(at: int) | Heartbeat(address: string, rps: real, interval: int, at: int)

  function After(m: Member, e: Event): Member {
    match e
    case Success => Succeeded(m)
    case Failure(at) => FailedOnce(m, at).0
    case Heartbeat(address, rps, interval, at) => Refreshed(m, address, rps, interval, at)
  }

  function AfterAll(m: Member, es: seq<Event>): Member
    decreases |es|
  {
    if es == [] then m else After(AfterAll(m, es[..|es| - 1]), es[|es| - 1])
  }

  function Joined(address: string, rps: real, interval: int, now: int, position: real): Member {
    Member(address, rps, interval, now, 1.0, position, None)
  }

  /** A reputation is a share of trust. */
  lemma {:induction false} ReputationIsAShare(m: Member, es: seq<Event>)
    requires 0.0 < m.reputation <= 1.0
    ensures 0.0 < AfterAll(m, es).reputation <= 1.0
    decreases |es|
  {
    if es != [] {
      ReputationIsAShare(m, es[..|es| - 1]);
    }
  }

  /** From the failure at index `i` on there is no success, and every failure leaves the member at the floor. */
  ghost predicate FailsSince(m: Member, es: seq<Event>, i: nat, since: int) {
    && i < |es| && es[i] == Failure(since)
    && forall j :: i <= j < |es| ==>
         !es[j].Success? && (es[j].Failure? ==> AfterAll(m, es[..j + 1]).reputation <= REPUTATION_FLOOR)
  }

  lemma StillFailing(m: Member, es: seq<Event>, i: nat, since: int)
    requires es != [] && FailsSince(m, es[..|es| - 1], i, since)
    requires var e := es[|es| - 1]; !e.Success? && (e.Failure? ==> AfterAll(m, es).reputation <= REPUTATION_FLOOR)
    ensures FailsSince(m, es, i, since)
  {
    hide AfterAll;
    var init := es[..|es| - 1];
    assert es[..|es|] == es;
    assert forall j :: 0 <= j < |init| ==> es[..j + 1] == init[..j + 1] && es[j] == init[j];
  }

  /** The eviction timer runs exactly since a failure with no success and no recovering failure after it. */
  lemma {:induction false} TimerMeansFailing(m: Member, es: seq<Event>)
    requires m.floorSince.None?
    ensures var t := AfterAll(m, es).floorSince; t.Some? ==> exists i :: FailsSince(m, es, i, t.value)
    decreases |es|
  {
    if es != [] {
      var init := es[..|es| - 1];
      TimerMeansFailing(m, init);
      var before, after := AfterAll(m, init), AfterAll(m, es);
      assert es[..|es|] == es;
      if after.floorSince.Some? {
        if before.floorSince == after.floorSince {
          var i :| FailsSince(m, init, i, before.floorSince.value);
          StillFailing(m, es, i, before.floorSince.value);
        } else {
          assert FailsSince(m, es, |es| - 1, after.floorSince.value);
        }
      }
    }
  }

  /**
   * A member that joined is evicted for failing only after at least the whole window of sustained badness: a
   * failure that long ago, no success since, and every failure since leaving it at the floor.
   */
  lemma EvictedOnlyAfterSustainedFailure(address: string, rps: real, interval: int, joined: int, position: real,
                                         es: seq<Event>, now: int)
    requires FailedOnce(AfterAll(Joined(address, rps, interval, joined, position), es), now).1
    ensures exists i, since :: FailsSince(Joined(address, rps, interval, joined, position), es, i, since)
                               && now - since >= FLOOR_EVICTION_WINDOW
  {
    var m := Joined(address, rps, interval, joined, position);
    TimerMeansFailing(m, es);
    var t := AfterAll(m, es).floorSince;
    var i :| FailsSince(m, es, i, t.value);
  }
}
