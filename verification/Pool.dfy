/** A pool of targets (internal/dispatch/pool.go): virtual-time weighted round robin over a tracked heap. Times in ms. */
module Pools {
  import opened Basics
  import opened PoolHeap

  datatype Member = Member(
    address: string, declaredRps: real, heartbeatInterval: int, lastHeartbeat: int,
    reputation: real, position: real, floorSince: Option<int>)

  const REPUTATION_FLOOR := 0.05
  const FLOOR_EVICTION_WINDOW := 12 * 1000
  const REPUTATION_RECOVERY := 1.5
  const HEARTBEAT_RECOVERY := 1.1

  /** A member's share of dispatch. */
  function Weight(m: Member): (w: real)
    ensures w > 0.0
  {
    var w := m.declaredRps * m.reputation;
    if w <= 0.0 then 0.001 else w
  }

  // ---- the pool as a map: what the heap stands for ----

  predicate IsFirst(ms: map<string, Member>, id: string) {
    id in ms && forall x <- ms :: ms[id].position <= ms[x].position
  }

  /** The members after `id` has been picked. */
  function Picked(ms: map<string, Member>, id: string): map<string, Member>
    requires id in ms
  {
    ms[id := ms[id].(position := ms[id].position + 1.0 / Weight(ms[id]))]
  }

  /** A newcomer starts at the least position, not at zero. */
  ghost predicate StartsAt(ms: map<string, Member>, position: real) {
    if ms == map[] then position == 0.0 else exists x :: IsFirst(ms, x) && position == ms[x].position
  }

  function Refreshed(m: Member, address: string, rps: real, interval: int, now: int): Member {
    m.(address := address, declaredRps := rps, heartbeatInterval := interval, lastHeartbeat := now,
       reputation := MinReal(1.0, m.reputation * HEARTBEAT_RECOVERY))
  }

  function Succeeded(m: Member): Member {
    m.(reputation := MinReal(1.0, m.reputation * REPUTATION_RECOVERY), floorSince := None)
  }

  /** A failed member, and whether it has been at the floor so long that it goes. */
  function FailedOnce(m: Member, now: int): (Member, bool) {
    var r := m.(reputation := m.reputation * 0.5);
    if r.reputation <= REPUTATION_FLOOR then
      if r.floorSince.None? then (r.(floorSince := Some(now)), false)
      else (r, now - r.floorSince.value >= FLOOR_EVICTION_WINDOW)
    else (r.(floorSince := None), false)
  }

  predicate Silent(m: Member, missLimit: int, now: int) {
    m.heartbeatInterval > 0 && now - m.lastHeartbeat > m.heartbeatInterval * missLimit
  }

  // ---- the heap ----

  /** The heap holds exactly the members, and every tracked index is right. */
  predicate Tracked(h: seq<string>, ms: map<string, Member>, index: map<string, int>) {
    && ms.Keys == index.Keys
    && (forall i :: 0 <= i < |h| ==> h[i] in ms && index[h[i]] == i)
    && (forall id <- ms :: 0 <= index[id] < |h| && h[index[id]] == id)
  }

  ghost function Positions(h: seq<string>, ms: map<string, Member>): (p: seq<real>)
    requires AllMembers(h, ms)
    ensures |p| == |h|
  {
    seq(|h|, i requires 0 <= i < |h| => ms[h[i]].position)
  }

  lemma SwapTracks(h: seq<string>, ms: map<string, Member>, index: map<string, int>, i: nat, j: nat)
    requires Tracked(h, ms, index) && i < |h| && j < |h|
    ensures Tracked(Swapped(h, i, j), ms, index[h[j] := i][h[i] := j])
    ensures Positions(Swapped(h, i, j), ms) == Swapped(Positions(h, ms), i, j)
  {
    assert h[i] == h[j] ==> i == j;
  }

  /** The root of an ordered heap is first among the members. */
  lemma RootIsFirst(h: seq<string>, ms: map<string, Member>, index: map<string, int>)
    requires Tracked(h, ms, index) && h != [] && Ordered(Positions(h, ms))
    ensures IsFirst(ms, h[0])
  {
    forall x | x in ms ensures ms[h[0]].position <= ms[x].position {
      RootIsLeast(Positions(h, ms), index[x]);
    }
  }

  predicate AllMembers(h: seq<string>, ms: map<string, Member>) {
    forall i :: 0 <= i < |h| ==> h[i] in ms
  }

  lemma TrackedMembers(h: seq<string>, ms: map<string, Member>, index: map<string, int>)
    requires Tracked(h, ms, index)
    ensures AllMembers(h, ms)
  {
  }

  lemma PositionAt(h: seq<string>, ms: map<string, Member>, i: nat)
    requires AllMembers(h, ms) && i < |h|
    ensures Positions(h, ms)[i] == ms[h[i]].position
  {
  }

  /** Sifting down stops where the element is no larger than its children. */
  lemma Settled(p: seq<real>, start: nat, i: nat)
    requires start <= i < |p| && (if i == start then Broken(p, i) else DownBroken(p, i))
    requires forall k :: 1 <= k < |p| && Parent(k) == i ==> p[i] <= p[k]
    ensures if i == start then UpBroken(p, start) else Ordered(p)
  {
  }

  /** A step of sifting down. */
  lemma Sinks(p: seq<real>, start: nat, i: nat, j: nat)
    requires start <= i < j < |p| && Parent(j) == i && p[j] < p[i]
    requires if i == start then Broken(p, i) else DownBroken(p, i)
    requires forall k :: 1 <= k < |p| && Parent(k) == i ==> p[j] <= p[k]
    ensures DownBroken(Swapped(p, i, j), j)
  {
    DownStep(p, i, j);
  }

  lemma SwapPrefix(p: seq<real>, i: nat, j: nat, n: nat)
    requires i < n && j < n <= |p|
    ensures Swapped(p, i, j)[..n] == Swapped(p[..n], i, j)
  {
  }

  lemma SwapTail(h: seq<string>, i: nat, j: nat, n: nat)
    requires i < n && j < n <= |h|
    ensures Swapped(h, i, j)[n..] == h[n..]
  {
  }

  class Pool {
    var members: map<string, Member>
    var h: seq<string>
    // The heapIndex field of each member.
    var index: map<string, int>

    ghost predicate Valid()
      reads this
    {
      Tracked(h, members, index) && Ordered(Positions(h, members))
    }

    constructor ()
      ensures Valid() && members == map[]
    {
      members, h, index := map[], [], map[];
    }

    method Swap(i: nat, j: nat)
      requires Tracked(h, members, index) && i < |h| && j < |h|
      modifies this`h, this`index
      ensures Tracked(h, members, index) && h == Swapped(old(h), i, j)
      ensures Positions(h, members) == Swapped(Positions(old(h), members), i, j)
    {
      SwapTracks(h, members, index, i, j);
      index := index[h[j] := i][h[i] := j];
      h := Swapped(h, i, j);
    }

    /** container/heap's up. */
    method Up(start: nat, n: nat)
      requires Tracked(h, members, index) && start < n <= |h| && UpBroken(Positions(h, members)[..n], start)
      modifies this`h, this`index
      ensures Tracked(h, members, index) && |h| == |old(h)| && h[n..] == old(h[n..])
      ensures Ordered(Positions(h, members)[..n])
    {
      TrackedMembers(h, members, index);
      hide Tracked, Positions, UpBroken, Ordered, Swapped;
      var j: nat := start;
      while j > 0
        invariant j < n <= |h| && |h| == |old(h)| && h[n..] == old(h[n..])
        invariant Tracked(h, members, index) && AllMembers(h, members)
        invariant UpBroken(Positions(h, members)[..n], j)
      {
        PositionAt(h, members, j);
        PositionAt(h, members, Parent(j));
        if members[h[Parent(j)]].position <= members[h[j]].position {
          break;
        }
        UpStep(Positions(h, members)[..n], j);
        SwapPrefix(Positions(h, members), Parent(j), j, n);
        SwapTail(h, Parent(j), j, n);
        Swap(Parent(j), j);
        TrackedMembers(h, members, index);
        j := Parent(j);
      }
      UpDone(Positions(h, members)[..n], j);
    }

    /** The smaller of the children of `i` among the first `n`. */
    method SmallerChild(i: nat, n: nat) returns (j: nat)
      requires Tracked(h, members, index) && n <= |h| && 2 * i + 1 < n
      ensures i < j < n && Parent(j) == i
      ensures var p := Positions(h, members)[..n]; forall k :: 1 <= k < n && Parent(k) == i ==> p[j] <= p[k]
    {
      j := 2 * i + 1;
      if 2 * i + 2 < n && members[h[2 * i + 2]].position < members[h[j]].position {
        j := 2 * i + 2;
      }
      assert forall k :: 1 <= k < n && Parent(k) == i ==> k == 2 * i + 1 || k == 2 * i + 2;
    }

    /** container/heap's down: either it moves, and the heap is in order, or `start` may still have to go up. */
    method Down(start: nat, n: nat) returns (moved: bool)
      requires Tracked(h, members, index) && start < n <= |h| && Broken(Positions(h, members)[..n], start)
      modifies this`h, this`index
      ensures Tracked(h, members, index) && |h| == |old(h)| && h[n..] == old(h[n..])
      ensures if moved then Ordered(Positions(h, members)[..n])
              else h == old(h) && UpBroken(Positions(h, members)[..n], start)
    {
      TrackedMembers(h, members, index);
      hide Tracked, Positions, Broken, DownBroken, UpBroken, Ordered, Swapped;
      var i := start;
      while 2 * i + 1 < n
        invariant start <= i < n <= |h| && |h| == |old(h)| && h[n..] == old(h[n..])
        invariant Tracked(h, members, index) && AllMembers(h, members)
        invariant if i == start then h == old(h) && Broken(Positions(h, members)[..n], i)
                  else DownBroken(Positions(h, members)[..n], i)
        decreases n - i
      {
        var j := SmallerChild(i, n);
        ghost var p := Positions(h, members)[..n];
        PositionAt(h, members, i);
        PositionAt(h, members, j);
        if members[h[i]].position <= members[h[j]].position {
          assert forall k :: 1 <= k < n && Parent(k) == i ==> p[i] <= p[k];
          Settled(p, start, i);
          return i > start;
        }
        Sinks(p, start, i, j);
        SwapPrefix(Positions(h, members), i, j, n);
        SwapTail(h, i, j, n);
        Swap(i, j);
        TrackedMembers(h, members, index);
        i := j;
      }
      assert forall k :: 1 <= k < n ==> Parent(k) != i;
      Settled(Positions(h, members)[..n], start, i);
      return i > start;
    }

    /** heap.Fix: the member at `i` changed position. */
    method Fix(i: nat, n: nat)
      requires Tracked(h, members, index) && i < n <= |h| && Broken(Positions(h, members)[..n], i)
      modifies this`h, this`index
      ensures Tracked(h, members, index) && |h| == |old(h)| && h[n..] == old(h[n..])
      ensures Ordered(Positions(h, members)[..n])
    {
      var moved := Down(i, n);
      if !moved {
        Up(i, n);
      }
    }

    /** The member picked is one with the least position, and only its position changes. */
    method Pick() returns (picked: Option<string>)
      requires Valid()
      modifies this
      ensures Valid()
      ensures picked.None? <==> old(members) == map[]
      ensures if picked.None? then members == old(members)
              else IsFirst(old(members), picked.value) && members == Picked(old(members), picked.value)
    {
      if |h| == 0 {
        return None;
      }
      var id := h[0];
      RootIsFirst(h, members, index);
      ghost var p := Positions(h, members);
      members := Picked(members, id);
      assert Positions(h, members) == p[0 := members[id].position];
      assert Positions(h, members)[..|h|] == Positions(h, members);
      assert Broken(Positions(h, members), 0);
      hide Broken, Tracked, Ordered, IsFirst, Picked;
      Fix(0, |h|);
      assert Positions(h, members)[..|h|] == Positions(h, members);
      return Some(id);
    }

    /** A heartbeat refreshes a member in place; a new member joins at the least position. */
    method Register(id: string, address: string, rps: real, interval: int, now: int)
      requires Valid()
      modifies this
      ensures Valid()
      ensures if id in old(members) then members == old(members)[id := Refreshed(old(members)[id], address, rps, interval, now)]
              else exists start :: StartsAt(old(members), start)
                                   && members == old(members)[id := Member(address, rps, interval, now, 1.0, start, None)]
    {
      if id in members {
        ghost var p := Positions(h, members);
        members := members[id := Refreshed(members[id], address, rps, interval, now)];
        assert Positions(h, members) == p;
        return;
      }
      var start := 0.0;
      if |h| > 0 {
        RootIsFirst(h, members, index);
        start := members[h[0]].position;
      }
      assert StartsAt(members, start);
      hide StartsAt;
      Push(id, Member(address, rps, interval, now, 1.0, start, None));
    }

    /** heap.Push of a new member. */
    method Push(id: string, m: Member)
      requires Valid() && id !in members
      modifies this
      ensures Valid() && members == old(members)[id := m]
    {
      ghost var p := Positions(h, members);
      members := members[id := m];
      index := index[id := |h|];
      h := h + [id];
      assert Positions(h, members) == p + [m.position];
      assert Positions(h, members)[..|h|] == Positions(h, members);
      assert UpBroken(Positions(h, members), |h| - 1);
      hide UpBroken, Tracked, Ordered;
      Up(|h| - 1, |h|);
      assert Positions(h, members)[..|h|] == Positions(h, members);
    }

    method RecordSuccess(id: string)
      requires Valid()
      modifies this
      ensures Valid()
      ensures members == if id in old(members) then old(members)[id := Succeeded(old(members)[id])] else old(members)
    {
      if id in members {
        ghost var p := Positions(h, members);
        members := members[id := Succeeded(members[id])];
        assert Positions(h, members) == p;
      }
    }

    method RecordFailure(id: string, now: int) returns (evicted: bool)
      requires Valid()
      modifies this
      ensures Valid()
      ensures id !in old(members) ==> !evicted && members == old(members)
      ensures id in old(members) ==>
                var (m, gone) := FailedOnce(old(members)[id], now);
                evicted == gone && members == if gone then old(members) - {id} else old(members)[id := m]
    {
      if id !in members {
        return false;
      }
      ghost var p := Positions(h, members);
      var (m, gone) := FailedOnce(members[id], now);
      members := members[id := m];
      assert Positions(h, members) == p;
      if gone {
        RemoveMember(id);
        assert members == old(members) - {id};
      }
      return gone;
    }

    /** heap.Remove, up to its final Pop: the member at `i` ends up last, the rest in order. */
    method MoveToEnd(i: nat)
      requires Valid() && i < |h|
      modifies this`h, this`index
      ensures Tracked(h, members, index) && |h| == |old(h)| && h[|h| - 1] == old(h)[i]
      ensures Ordered(Positions(h, members)[..|h| - 1])
    {
      var n := |h| - 1;
      if n != i {
        SwapOut(i);
      } else {
        ShorterOrdered(Positions(h, members), n);
      }
    }

    /** The last member takes the place of the one at `i`, and finds its own. */
    method SwapOut(i: nat)
      requires Tracked(h, members, index) && Ordered(Positions(h, members)) && i + 1 < |h|
      modifies this`h, this`index
      ensures Tracked(h, members, index) && |h| == |old(h)| && h[|h| - 1] == old(h)[i]
      ensures Ordered(Positions(h, members)[..|h| - 1])
    {
      hide *;
      TrackedMembers(h, members, index);
      StandIn(Positions(h, members), i);
      SwapLast(Positions(h, members), i);
      LastSwapped(h, i);
      var n := |h| - 1;
      Swap(i, n);
      TrackedMembers(h, members, index);
      Fix(i, n);
      TrackedMembers(h, members, index);
      assert h[n] == h[n..][0];
    }

    /** removeLocked: heap.Remove at the tracked index, then out of the map. */
    method RemoveMember(id: string)
      requires Valid()
      modifies this
      ensures Valid() && members == old(members) - {id}
    {
      if id !in members {
        assert members - {id} == members;
        return;
      }
      MoveToEnd(index[id]);
      Popped(h, members, index, id);
      members := members - {id};
      index := index - {id};
      h := h[..|h| - 1];
    }

    /** Evicts every member that has gone silent. */
    method SweepHeartbeats(missLimit: int, now: int)
      requires Valid()
      modifies this
      ensures Valid()
      ensures members == map id | id in old(members) && !Silent(old(members)[id], missLimit, now) :: old(members)[id]
      ensures forall id :: id in members <==>
                && id in old(members)
                && var m := old(members)[id]; m.heartbeatInterval <= 0 || now <= m.lastHeartbeat + m.heartbeatInterval * missLimit
    {
      var ids := members.Keys;
      while ids != {}
        invariant Valid() && ids <= members.Keys
        invariant members == map id | id in old(members)
                                      && (id in ids || !Silent(old(members)[id], missLimit, now)) :: old(members)[id]
        decreases |ids|
      {
        var id :| id in ids;
        ids := ids - {id};
        if Silent(members[id], missLimit, now) {
          RemoveMember(id);
        }
      }
    }
  }

  /** The last element standing in for element `i` of a heap without the last. */
  lemma StandIn(p: seq<real>, i: nat)
    requires Ordered(p) && i + 1 < |p|
    ensures Broken(p[..|p| - 1][i := p[|p| - 1]], i)
  {
    var q := p[..|p| - 1][i := p[|p| - 1]];
    forall k | 1 <= k < |q| && Parent(k) == i && i > 0 ensures q[Parent(i)] <= q[k] {
      assert p[Parent(i)] <= p[i] && p[i] <= p[k];
    }
  }

  lemma ShorterOrdered(p: seq<real>, n: nat)
    requires Ordered(p) && n <= |p|
    ensures Ordered(p[..n])
  {
  }

  lemma SwapLast(p: seq<real>, i: nat)
    requires i + 1 < |p|
    ensures var n := |p| - 1; Swapped(p, i, n)[..n] == p[..n][i := p[n]]
  {
  }

  lemma LastSwapped(h: seq<string>, i: nat)
    requires i + 1 < |h|
    ensures var n := |h| - 1; Swapped(h, i, n)[n..] == [h[i]]
  {
  }

  lemma Popped(h: seq<string>, ms: map<string, Member>, index: map<string, int>, id: string)
    requires Tracked(h, ms, index) && h != [] && h[|h| - 1] == id
    ensures var n := |h| - 1;
            Tracked(h[..n], ms - {id}, index - {id}) && Positions(h[..n], ms - {id}) == Positions(h, ms)[..n]
  {
  }
}
