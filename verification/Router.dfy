/** A node's view of the cluster and the scopes it serves (internal/cluster/router.go). */
module Routers {
  import opened Basics
  import Assignments
  import Lex
  import opened Rendezvous
  import opened ScopeRelease
  import opened Sums

  const REBALANCE_RATIO := 1.5
  const REBALANCE_MAX_PER_PASS := 10

  datatype Node = Node(accepting: bool, activeUsers: int, capacity: int)

  /** The members that can be given work. */
  function Eligible(members: map<string, Node>, prunedUntil: map<string, int>, now: int): set<string> {
    set id | id in members && members[id].accepting && !(id in prunedUntil && now < prunedUntil[id])
  }

  function Users(members: map<string, Node>, ids: set<string>): map<string, int> {
    map id | id in members && id in ids :: members[id].activeUsers
  }

  predicate CountsAsActive(a: Activity, now: int, idleTTL: int) { a.outstanding > 0 || now - a.lastSeen < idleTTL }

  function ActiveScopes(scopes: map<string, Activity>, now: int, idleTTL: int): set<string> {
    set key | key in scopes && CountsAsActive(scopes[key], now, idleTTL)
  }

  predicate Candidate(scopes: map<string, Activity>, key: string, now: int, grace: int, idleTTL: int) {
    key in scopes && scopes[key].outstanding == 0 && grace <= now - scopes[key].lastSeen < idleTTL
  }

  function CapacityOf(n: Node): int { if n.capacity <= 0 then 100 else n.capacity }

  function Ceil(x: real): int { -((-x).Floor) }

  lemma CeilBounds(x: real, n: int)
    ensures x <= Ceil(x) as real < x + 1.0
    ensures n as real < x ==> n + 1 <= Ceil(x)
  {
  }

  /** How many of the hand-backs go to `id`. */
  function HandedTo(to: seq<string>, id: string): nat {
    if to == [] then 0 else HandedTo(to[..|to| - 1], id) + if to[|to| - 1] == id then 1 else 0
  }

  /** What one pass may do with `excess` users to hand back. */
  ghost predicate FairPass(members: map<string, Node>, fair: real, excess: int, to: seq<string>) {
    && |to| <= 10 && (to != [] ==> |to| <= excess)
    && (forall id <- to :: id in members)
    && (forall id <- members :: HandedTo(to, id) > 0 ==>
          members[id].activeUsers + HandedTo(to, id) <= Ceil(fair)
          && members[id].activeUsers + HandedTo(to, id) <= CapacityOf(members[id]))
  }

  /** What a pass starts from. */
  datatype Sight = Sight(self: string, score: Score, members: map<string, Node>, prunedUntil: map<string, int>,
                         scopes: map<string, Activity>, grace: int, idleTTL: int)

  /** Handing `key` to `id` at `t`: the scope still has no work and is unseen, and `id` is its preferred member. */
  ghost predicate HandsBack(v: Sight, key: string, id: string, t: int) {
    Candidate(v.scopes, key, t, v.grace, v.idleTTL) && IsFirst(v.score, key, Eligible(v.members, v.prunedUntil, t), id)
  }

  /** `id` is the preferred of `ids`, not this node, and below the fair share and its capacity with what it was handed. */
  ghost predicate IsTarget(self: string, score: Score, members: map<string, Node>, ids: set<string>, key: string, fair: real,
                           handed: map<string, int>, id: string) {
    && key != "" && id != self && id in members && IsFirst(score, key, ids, id)
    && var load := members[id].activeUsers + At(handed, id);
    load as real < fair && load < CapacityOf(members[id])
  }

  /** A scope has to stay at `t`: it is in use or gone, or its preferred member is this node or has its share by now. */
  ghost predicate Stays(v: Sight, key: string, t: int, fair: real, to: seq<string>) {
    || !Candidate(v.scopes, key, t, v.grace, v.idleTTL) || key == "" || Eligible(v.members, v.prunedUntil, t) == {}
    || exists id :: id in v.members && IsFirst(v.score, key, Eligible(v.members, v.prunedUntil, t), id) && Taken(v, id, fair, to)
  }

  ghost predicate Taken(v: Sight, id: string, fair: real, to: seq<string>)
    requires id in v.members
  {
    || id == v.self
    || (v.members[id].activeUsers + HandedTo(to, id)) as real >= fair
    || v.members[id].activeUsers + HandedTo(to, id) >= CapacityOf(v.members[id])
  }

  /** Every scope tried so far was handed back, or had to stay. */
  ghost predicate Settled(v: Sight, idle: seq<string>, n: nat, released: seq<string>, fair: real, clock: nat -> int, to: seq<string>)
    requires n <= |idle|
  {
    forall k :: 0 <= k < n ==> idle[k] in released || Stays(v, idle[k], clock(k), fair, to)
  }

  /** Handing back more changes nothing for those settled. */
  lemma StillSettled(v: Sight, idle: seq<string>, n: nat, released: seq<string>, fair: real, clock: nat -> int, to: seq<string>,
                     key: string, id: string)
    requires n <= |idle| && Settled(v, idle, n, released, fair, clock, to)
    ensures Settled(v, idle, n, released + [key], fair, clock, to + [id])
  {
    HandedMore(to, id);
    hide Candidate, Eligible, IsFirst, HandedTo;
    forall k | 0 <= k < n && idle[k] !in released ensures Stays(v, idle[k], clock(k), fair, to + [id]) {
      assert Stays(v, idle[k], clock(k), fair, to);
      StaysOn(v, idle[k], clock(k), fair, to, to + [id]);
    }
  }

  lemma StaysOn(v: Sight, key: string, t: int, fair: real, to: seq<string>, more: seq<string>)
    requires Stays(v, key, t, fair, to) && forall x :: HandedTo(to, x) <= HandedTo(more, x)
    ensures Stays(v, key, t, fair, more)
  {
    hide Candidate, Eligible, IsFirst, HandedTo, CapacityOf;
    if id :| id in v.members && IsFirst(v.score, key, Eligible(v.members, v.prunedUntil, t), id) && Taken(v, id, fair, to) {
      assert Taken(v, id, fair, more);
    }
  }

  lemma OneMoreSettled(v: Sight, idle: seq<string>, n: nat, released: seq<string>, fair: real, clock: nat -> int, to: seq<string>)
    requires n < |idle| && Settled(v, idle, n, released, fair, clock, to)
    requires idle[n] in released || Stays(v, idle[n], clock(n), fair, to)
    ensures Settled(v, idle, n + 1, released, fair, clock, to)
  {
    hide Stays;
  }

  ghost predicate Sound(v: Sight, key: string, id: string) { id != v.self && exists t :: HandsBack(v, key, id, t) }

  ghost predicate AllSound(v: Sight, released: seq<string>, to: seq<string>) {
    |to| == |released| && forall k :: 0 <= k < |released| ==> Sound(v, released[k], to[k])
  }

  lemma OneMoreSound(v: Sight, released: seq<string>, to: seq<string>, key: string, id: string, t: int)
    requires AllSound(v, released, to) && id != v.self && HandsBack(v, key, id, t)
    ensures AllSound(v, released + [key], to + [id])
  {
    assert Sound(v, key, id);
  }

  /** Prunings that have run out by `t` make no difference from then on. */
  ghost predicate SameFrom(members: map<string, Node>, p: map<string, int>, q: map<string, int>, t: int) {
    forall u :: u >= t ==> Eligible(members, p, u) == Eligible(members, q, u)
  }

  lemma SameLater(members: map<string, Node>, p: map<string, int>, q: map<string, int>, t: int, u: int)
    requires SameFrom(members, p, q, t) && t <= u
    ensures Eligible(members, p, u) == Eligible(members, q, u) && SameFrom(members, p, q, u)
  {
  }

  lemma SameTwice(members: map<string, Node>, p: map<string, int>, q: map<string, int>, r: map<string, int>, t: int)
    requires SameFrom(members, p, q, t) && SameFrom(members, q, r, t)
    ensures SameFrom(members, p, r, t)
  {
  }

  ghost predicate Distinct(keys: seq<string>) { forall i, j :: 0 <= i < j < |keys| ==> keys[i] != keys[j] }

  /** The keys released so far are among the first `n` tried. */
  ghost predicate Tried(idle: seq<string>, n: nat, released: seq<string>)
    requires n <= |idle|
  {
    Distinct(released) && forall key <- released :: key in idle[..n]
  }

  lemma TryOneMore(idle: seq<string>, n: nat, released: seq<string>)
    requires Distinct(idle) && n < |idle| && Tried(idle, n, released)
    ensures idle[n] !in released && Tried(idle, n + 1, released) && Tried(idle, n + 1, released + [idle[n]])
  {
    assert idle[..n + 1] == idle[..n] + [idle[n]];
  }

  lemma WithoutOneMore(scopes: map<string, Activity>, released: seq<string>, key: string)
    ensures scopes - (set k | k in released + [key]) == scopes - (set k | k in released) - {key}
  {
  }

  lemma FirstRanked(score: Score, key: string, ids: set<string>)
    ensures var r := Ranked(score, key, ids);
            && (r == [] <==> ids == {})
            && (forall id :: IsFirst(score, key, ids, id) <==> r != [] && r[0] == id)
  {
    if ids != {} {
      forall id | IsFirst(score, key, ids, id) ensures id == Ranked(score, key, ids)[0] {
        FirstIsOne(score, key, ids, id, Ranked(score, key, ids)[0]);
      }
    }
  }

  lemma HandedMore(to: seq<string>, id: string)
    ensures forall x :: HandedTo(to + [id], x) == HandedTo(to, x) + if x == id then 1 else 0
  {
    assert (to + [id])[..|to|] == to;
  }

  /** Keys not tried were not released. */
  lemma Skip(idle: seq<string>, n: nat, released: seq<string>)
    requires n <= |idle| && Tried(idle, n, released)
    ensures Tried(idle, |idle|, released)
  {
    assert forall key <- idle[..n] :: key in idle;
    assert idle[..|idle|] == idle;
  }

  lemma HandOneMore(members: map<string, Node>, fair: real, excess: int, to: seq<string>, id: string)
    requires FairPass(members, fair, excess, to) && |to| < 10 && |to| < excess && id in members
    requires (members[id].activeUsers + HandedTo(to, id)) as real < fair
    requires members[id].activeUsers + HandedTo(to, id) < CapacityOf(members[id])
    ensures FairPass(members, fair, excess, to + [id])
  {
    CeilBounds(fair, members[id].activeUsers + HandedTo(to, id));
    HandedMore(to, id);
  }

  // ---- the pass so far ----

  /** After `n` scopes: what was handed back, to whom, and what is left. */
  ghost predicate Progress(v: Sight, idle: seq<string>, n: nat, released: seq<string>, to: seq<string>, fair: real, mayGo: int,
                           clock: nat -> int, handed: map<string, int>, scopes: map<string, Activity>) {
    && n <= |idle| && Distinct(idle)
    && scopes == v.scopes - (set key | key in released)
    && (forall id :: At(handed, id) == HandedTo(to, id))
    && FairPass(v.members, fair, mayGo, to) && Tried(idle, n, released) && AllSound(v, released, to)
    && Settled(v, idle, n, released, fair, clock, to)
  }

  lemma Begins(v: Sight, idle: seq<string>, fair: real, mayGo: int, clock: nat -> int)
    requires Distinct(idle)
    ensures Progress(v, idle, 0, [], [], fair, mayGo, clock, map[], v.scopes)
  {
    assert v.scopes == v.scopes - (set key | key in []);
  }

  lemma Ends(v: Sight, idle: seq<string>, n: nat, released: seq<string>, to: seq<string>, fair: real, mayGo: int,
             clock: nat -> int, handed: map<string, int>, scopes: map<string, Activity>)
    requires Progress(v, idle, n, released, to, fair, mayGo, clock, handed, scopes)
    ensures n <= |idle| && scopes == v.scopes - (set key | key in released)
    ensures FairPass(v.members, fair, mayGo, to) && Tried(idle, |idle|, released) && AllSound(v, released, to)
    ensures Settled(v, idle, n, released, fair, clock, to)
  {
    hide FairPass, AllSound, Settled, Tried;
    Skip(idle, n, released);
  }

  lemma SameStart(members: map<string, Node>, p: map<string, int>, now: int)
    ensures SameFrom(members, p, p, now)
  {
  }

  /** The scope whose turn it is has not been handed back, so it is as it was. */
  lemma CandidateNow(v: Sight, idle: seq<string>, n: nat, released: seq<string>, to: seq<string>, fair: real, mayGo: int,
                     clock: nat -> int, handed: map<string, int>, scopes: map<string, Activity>)
    requires Progress(v, idle, n, released, to, fair, mayGo, clock, handed, scopes) && n < |idle|
    ensures var key := idle[n];
            Candidate(v.scopes, key, clock(n), v.grace, v.idleTTL) <==>
              && key in scopes && scopes[key].outstanding == 0
              && clock(n) - scopes[key].lastSeen >= v.grace && clock(n) - scopes[key].lastSeen < v.idleTTL
  {
    hide FairPass, AllSound, Settled;
    TryOneMore(idle, n, released);
  }

  lemma StayedMore(v: Sight, idle: seq<string>, n: nat, released: seq<string>, to: seq<string>, fair: real, mayGo: int,
                   clock: nat -> int, handed: map<string, int>, scopes: map<string, Activity>)
    requires Progress(v, idle, n, released, to, fair, mayGo, clock, handed, scopes) && n < |idle|
    requires Stays(v, idle[n], clock(n), fair, to)
    ensures Progress(v, idle, n + 1, released, to, fair, mayGo, clock, handed, scopes)
  {
    hide FairPass, AllSound, Settled, Tried, Stays, Distinct;
    TryOneMore(idle, n, released);
    OneMoreSettled(v, idle, n, released, fair, clock, to);
  }

  lemma WentMore(v: Sight, idle: seq<string>, n: nat, released: seq<string>, to: seq<string>, fair: real, mayGo: int,
                 clock: nat -> int, handed: map<string, int>, scopes: map<string, Activity>, id: string)
    requires Progress(v, idle, n, released, to, fair, mayGo, clock, handed, scopes) && n < |idle| && |to| == |released|
    requires |to| < 10 && |to| < mayGo && Candidate(v.scopes, idle[n], clock(n), v.grace, v.idleTTL)
    requires IsTarget(v.self, v.score, v.members, Eligible(v.members, v.prunedUntil, clock(n)), idle[n], fair, handed, id)
    ensures Progress(v, idle, n + 1, released + [idle[n]], to + [id], fair, mayGo, clock,
                     handed[id := At(handed, id) + 1], scopes - {idle[n]})
  {
    assert HandsBack(v, idle[n], id, clock(n));
    hide FairPass, AllSound, Settled, Tried, Stays, Distinct, HandsBack, HandedTo, CapacityOf, IsFirst, Eligible, Candidate;
    var key := idle[n];
    TryOneMore(idle, n, released);
    HandOneMore(v.members, fair, mayGo, to, id);
    OneMoreSound(v, released, to, key, id, clock(n));
    WithoutOneMore(v.scopes, released, key);
    HandedMore(to, id);
    StillSettled(v, idle, n, released, fair, clock, to, key, id);
    OneMoreSettled(v, idle, n, released + [key], fair, clock, to + [id]);
  }

  lemma NoTarget(v: Sight, idle: seq<string>, n: nat, released: seq<string>, to: seq<string>, fair: real, mayGo: int,
                 clock: nat -> int, handed: map<string, int>, scopes: map<string, Activity>)
    requires Progress(v, idle, n, released, to, fair, mayGo, clock, handed, scopes) && n < |idle|
    requires forall id :: !IsTarget(v.self, v.score, v.members, Eligible(v.members, v.prunedUntil, clock(n)), idle[n], fair, handed, id)
    ensures Stays(v, idle[n], clock(n), fair, to)
  {
    hide FairPass, AllSound, Settled, Tried;
    var ids := Eligible(v.members, v.prunedUntil, clock(n));
    if idle[n] != "" && ids != {} {
      var id := FirstExists(v.score, idle[n], ids);
      assert id in v.members;
      hide IsFirst, Eligible, HandedTo, Candidate, CapacityOf, Distinct;
      assert !IsTarget(v.self, v.score, v.members, ids, idle[n], fair, handed, id);
      assert Taken(v, id, fair, to);
    }
  }

  lemma NotIdle(v: Sight, key: string, t: int, fair: real, to: seq<string>)
    requires !Candidate(v.scopes, key, t, v.grace, v.idleTTL)
    ensures Stays(v, key, t, fair, to)
  {
  }

  lemma SoundNone(v: Sight)
    ensures AllSound(v, [], []) && Distinct([])
  {
  }

  lemma TriedIdle(idle: seq<string>, released: seq<string>)
    requires Tried(idle, |idle|, released)
    ensures Distinct(released) && forall key <- released :: key in idle
  {
    assert idle[..|idle|] == idle;
  }

  lemma AllSettled(v: Sight, idle: seq<string>, released: seq<string>, fair: real, now: int, clock: nat -> int, to: seq<string>)
    requires Settled(v, idle, |idle|, released, fair, clock, to) && forall i: nat :: now <= clock(i)
    ensures forall key <- idle :: key !in released ==> exists t :: t >= now && Stays(v, key, t, fair, to)
  {
    hide Stays;
    forall key | key in idle && key !in released ensures exists t :: t >= now && Stays(v, key, t, fair, to) {
      var k: nat :| k < |idle| && idle[k] == key;
      assert Stays(v, key, clock(k), fair, to);
    }
  }

  lemma CountOne(members: map<string, Node>, all: set<string>, ids: set<string>, id: string)
    requires id in ids && id in members && all <= members.Keys
    ensures |all - (ids - {id})| == |all - ids| + if id in all then 1 else 0
    ensures Sum(Users(members, all - (ids - {id}))) == Sum(Users(members, all - ids)) + if id in all then members[id].activeUsers else 0
  {
    var before, after := Users(members, all - ids), Users(members, all - (ids - {id}));
    if id in all {
      assert all - (ids - {id}) == all - ids + {id};
      assert after == before[id := members[id].activeUsers];
      SumUpdate(before, id, members[id].activeUsers);
    } else {
      assert all - (ids - {id}) == all - ids;
    }
  }

  class Router {
    const self: string
    const score: Score
    const idleTTL: int
    const grace: int
    var members: map<string, Node>
    var prunedUntil: map<string, int>
    var localScopes: map<string, Activity>
    var draining: bool

    constructor (self: string, score: Score, idleTTL: int, grace: int, members: map<string, Node>)
      ensures this.self == self && this.score == score && this.idleTTL == idleTTL && this.grace == grace
      ensures this.members == members && prunedUntil == map[] && localScopes == map[] && !draining
    {
      this.self, this.score, this.idleTTL, this.grace := self, score, idleTTL, grace;
      this.members, prunedUntil, localScopes, draining := members, map[], map[], false;
    }

    method TrackLocalJob(key: string, now: int)
      modifies this`localScopes
      ensures localScopes == if key == "" then old(localScopes)
        else old(localScopes)[key := Activity(now, (if key in old(localScopes) then old(localScopes)[key].outstanding else 0) + 1)]
    {
      if key == "" {
        return;
      }
      var a := if key in localScopes then localScopes[key] else Activity(0, 0);
      localScopes := localScopes[key := Activity(now, a.outstanding + 1)];
    }

    method CompleteLocalJob(key: string, now: int)
      modifies this`localScopes
      ensures localScopes == if key == "" || key !in old(localScopes) then old(localScopes)
        else var n := old(localScopes)[key].outstanding; old(localScopes)[key := Activity(now, if n > 0 then n - 1 else n)]
    {
      if key == "" || key !in localScopes {
        return;
      }
      var a := localScopes[key];
      if a.outstanding > 0 {
        a := a.(outstanding := a.outstanding - 1);
      }
      localScopes := localScopes[key := a.(lastSeen := now)];
    }

    /** rankedOwners: also drops the prunings that have run out. */
    method RankedOwners(key: string, excluded: set<string>, now: int) returns (ranked: seq<string>)
      modifies this`prunedUntil
      ensures ranked == if key == "" then [] else Ranked(score, key, Eligible(members, old(prunedUntil), now) - excluded)
      ensures key != "" ==> forall id :: id in ranked <==>
                && id in members && members[id].accepting && id !in excluded
                && (id in old(prunedUntil) ==> now >= old(prunedUntil)[id])
      ensures Eligible(members, prunedUntil, now) == Eligible(members, old(prunedUntil), now)
      ensures forall t :: t >= now ==> Eligible(members, prunedUntil, t) == Eligible(members, old(prunedUntil), t)
    {
      if key == "" {
        return [];
      }
      prunedUntil := map id | id in prunedUntil && now < prunedUntil[id] :: prunedUntil[id];
      var ids := set id | id in members && id !in excluded && id !in prunedUntil && members[id].accepting;
      assert ids == Eligible(members, old(prunedUntil), now) - excluded;
      RankedSorts(score, key, ids);
      return Ranked(score, key, ids);
    }

    /** activeScopeCountLocked. */
    method ActiveScopeCount(now: int) returns (n: nat)
      ensures n == |ActiveScopes(localScopes, now, idleTTL)|
    {
      n := 0;
      var keys := localScopes.Keys;
      ghost var counted: set<string> := {};
      while keys != {}
        invariant keys <= localScopes.Keys && n == |counted|
        invariant counted == set key | key in localScopes.Keys - keys && CountsAsActive(localScopes[key], now, idleTTL)
        decreases |keys|
      {
        var key :| key in keys;
        keys := keys - {key};
        if localScopes[key].outstanding > 0 || now - localScopes[key].lastSeen < idleTTL {
          n := n + 1;
          counted := counted + {key};
        }
      }
      assert counted == ActiveScopes(localScopes, now, idleTTL);
    }

    /** The idle scopes a sync pass gives back are those idle at `now` that still are when their turn comes. */
    method ReleaseIdle(now: int, clock: string -> int) returns (released: set<string>)
      modifies this`localScopes
      ensures localScopes == old(localScopes) - released
      ensures forall key :: key in released <==>
                && key in old(localScopes) && old(localScopes)[key].outstanding == 0
                && now - old(localScopes)[key].lastSeen >= idleTTL && clock(key) - old(localScopes)[key].lastSeen >= idleTTL
    {
      var release := set key | key in localScopes && localScopes[key].outstanding == 0
                                 && now - localScopes[key].lastSeen >= idleTTL;
      released := {};
      ghost var all := release;
      while release != {}
        invariant release <= all && localScopes == old(localScopes) - released
        invariant released == set key | key in all - release && clock(key) - old(localScopes)[key].lastSeen >= idleTTL
        decreases |release|
      {
        var key :| key in release;
        release := release - {key};
        assert key in localScopes;
        if localScopes[key].outstanding == 0 && clock(key) - localScopes[key].lastSeen >= idleTTL {
          localScopes := localScopes - {key};
          released := released + {key};
        }
      }
    }

    /** Adds up the members that can be given work. */
    method Load(now: int) returns (active: nat, total: int)
      ensures var ids := Eligible(members, prunedUntil, now); active == |ids| && total == Sum(Users(members, ids))
    {
      active, total := 0, 0;
      var ids := members.Keys;
      ghost var all := Eligible(members, prunedUntil, now);
      assert all - ids == {};
      assert Users(members, {}) == map[];
      while ids != {}
        invariant ids <= members.Keys
        invariant active == |all - ids| && total == Sum(Users(members, all - ids))
        decreases |ids|
      {
        hide Sum, Users;
        var id :| id in ids;
        CountOne(members, all, ids, id);
        ids := ids - {id};
        if members[id].accepting && !(id in prunedUntil && now < prunedUntil[id]) {
          active := active + 1;
          total := total + members[id].activeUsers;
        }
      }
      assert all - ids == all;
    }

    /** The fair share, when this node holds more than 1.5 times it and may hand users back. */
    ghost predicate Overloaded(now: int, fair: real)
      reads this
    {
      var ids := Eligible(members, prunedUntil, now);
      && !draining && |ids| >= 2 && Sum(Users(members, ids)) != 0
      && fair == Sum(Users(members, ids)) as real / |ids| as real
      && |ActiveScopes(localScopes, now, idleTTL)| as real > 1.5 * fair
    }

    /** The scopes a pass may hand back, in the order it tries them. */
    method Idle(now: int) returns (idle: seq<string>)
      ensures forall i :: 0 <= i < |idle| ==> Candidate(localScopes, idle[i], now, grace, idleTTL)
      ensures forall key :: Candidate(localScopes, key, now, grace, idleTTL) ==> key in idle
      ensures Distinct(idle)
    {
      var keys := set key | key in localScopes && localScopes[key].outstanding == 0
                              && now - localScopes[key].lastSeen >= grace && now - localScopes[key].lastSeen < idleTTL;
      idle := Lex.InOrder(keys);
      Lex.InOrderVisits(keys);
      forall i, j | 0 <= i < j < |idle| ensures idle[i] != idle[j] {
        Lex.Irreflexive(idle[i]);
      }
      assert forall i :: 0 <= i < |idle| ==> idle[i] in idle;
    }

    ghost function Now(): Sight
      reads this
    {
      Sight(self, score, members, prunedUntil, localScopes, grace, idleTTL)
    }

    /** The member a scope would go to, if there is one that is not this node and is below its share and its capacity. */
    method Target(key: string, t: int, fair: real, handed: map<string, int>) returns (to: Option<string>)
      modifies this`prunedUntil
      ensures SameFrom(members, prunedUntil, old(prunedUntil), t)
      ensures forall id :: to == Some(id) <==>
                IsTarget(self, score, members, Eligible(members, old(prunedUntil), t), key, fair, handed, id)
    {
      ghost var ids := Eligible(members, prunedUntil, t);
      var ranked := RankedOwners(key, {}, t);
      assert ids - {} == ids;
      FirstRanked(score, key, ids);
      hide IsFirst, Eligible, Ranked, SameFrom;
      if |ranked| == 0 || ranked[0] == self {
        return None;
      }
      var preferred := ranked[0];
      var capacity := members[preferred].capacity;
      if capacity <= 0 {
        capacity := Assignments.DEFAULT_MAX_ACTIVE_USERS;
      }
      var load := members[preferred].activeUsers + At(handed, preferred);
      if load as real >= fair || load >= capacity {
        return None;
      }
      return Some(preferred);
    }

    /**
     * The loop of the pass. Of the first `tried` scopes each was handed back or had to stay; it stops before the end only
     * when enough or ten have gone, or the store fails.
     */
    method HandBack(idle: seq<string>, fair: real, mayGo: int, ghost now: int, clock: nat -> int, fails: nat -> bool)
        returns (released: seq<string>, ghost to: seq<string>, ghost tried: nat)
      requires forall i: nat, j: nat :: i <= j ==> now <= clock(i) <= clock(j)
      requires Distinct(idle)
      modifies this`localScopes, this`prunedUntil
      ensures localScopes == old(localScopes) - (set key | key in released)
      ensures FairPass(members, fair, mayGo, to) && Tried(idle, |idle|, released) && AllSound(old(Now()), released, to)
      ensures tried <= |idle| && Settled(old(Now()), idle, tried, released, fair, clock, to)
      ensures tried < |idle| ==> |released| >= 10 || |released| >= mayGo || fails(tried)
    {
      ghost var v := Now();
      assert v == Sight(self, score, members, prunedUntil, localScopes, grace, idleTTL);
      hide *;
      var excess := mayGo;
      var handed: map<string, int> := map[];
      released, to, tried := [], [], 0;
      Begins(v, idle, fair, mayGo, clock);
      SameStart(members, prunedUntil, now);
      for i := 0 to |idle|
        invariant |to| == |released| && excess == mayGo - |released| && tried == i
        invariant Progress(v, idle, i, released, to, fair, mayGo, clock, handed, localScopes)
        invariant SameFrom(members, prunedUntil, v.prunedUntil, if i == 0 then now else clock(i - 1))
      {
        if excess <= 0 || |released| >= REBALANCE_MAX_PER_PASS {
          break;
        }
        var key, t := idle[i], clock(i);
        ghost var p := prunedUntil;
        SameLater(members, p, v.prunedUntil, if i == 0 then now else clock(i - 1), t);
        var target := Target(key, t, fair, handed);
        SameTwice(members, prunedUntil, p, v.prunedUntil, t);
        var idleNow := key in localScopes && localScopes[key].outstanding == 0
                       && t - localScopes[key].lastSeen >= grace && t - localScopes[key].lastSeen < idleTTL;
        CandidateNow(v, idle, i, released, to, fair, mayGo, clock, handed, localScopes);
        if target.None? || !idleNow {
          if target.None? {
            NoTarget(v, idle, i, released, to, fair, mayGo, clock, handed, localScopes);
          } else {
            NotIdle(v, key, t, fair, to);
          }
          StayedMore(v, idle, i, released, to, fair, mayGo, clock, handed, localScopes);
          tried := i + 1;
          continue;
        }
        if fails(i) {
          break;
        }
        var preferred := target.value;
        WentMore(v, idle, i, released, to, fair, mayGo, clock, handed, localScopes, preferred);
        localScopes := localScopes - {key};
        handed := handed[preferred := At(handed, preferred) + 1];
        excess := excess - 1;
        released, to := released + [key], to + [preferred];
        tried := i + 1;
      }
      Ends(v, idle, tried, released, to, fair, mayGo, clock, handed, localScopes);
    }

    /**
     * One rebalance pass. `clock` is the time and `fails` whether the store fails at each scope. Released scopes
     * had no work and were unseen; nobody is handed users past its fair share or capacity, and this node
     * keeps its own share. `to` says where each goes. An overloaded node hands back every idle scope it can:
     * up to ten and its excess, unless the store fails, the others had to stay.
     */
    method Rebalance(now: int, clock: nat -> int, fails: nat -> bool)
        returns (released: seq<string>, ghost to: seq<string>, ghost fair: real)
      requires forall i: nat, j: nat :: i <= j ==> now <= clock(i) <= clock(j)
      modifies this`localScopes, this`prunedUntil
      ensures localScopes == old(localScopes) - (set key | key in released)
      ensures var ids := Eligible(members, old(prunedUntil), now);
              ids != {} ==> fair == Sum(Users(members, ids)) as real / |ids| as real
      ensures released != [] ==> old(Overloaded(now, fair))
      ensures released != [] ==> FairPass(members, fair, |ActiveScopes(old(localScopes), now, idleTTL)| - Ceil(fair), to)
      ensures Distinct(released) && AllSound(old(Now()), released, to)
      ensures forall key <- released :: Candidate(old(localScopes), key, now, grace, idleTTL)
      ensures old(Overloaded(now, fair)) && (forall i :: !fails(i))
              && |released| < 10 && |released| < |ActiveScopes(old(localScopes), now, idleTTL)| - Ceil(fair) ==>
                forall key :: Candidate(old(localScopes), key, now, grace, idleTTL) && key !in released ==>
                  exists t :: t >= now && Stays(old(Now()), key, t, fair, to)
    {
      released, to := [], [];
      var active, total := Load(now);
      var mine := ActiveScopeCount(now);
      var idle := Idle(now);
      hide FairPass, AllSound, Candidate, Stays, Settled, Eligible, Users, Sum, ActiveScopes, Ceil, Distinct, Tried;
      if active == 0 {
        fair := 0.0;
        SoundNone(Now());
        return;
      }
      var share := total as real / active as real;
      fair := share;
      if draining || active < 2 || total == 0 || mine as real <= REBALANCE_RATIO * share {
        SoundNone(Now());
        return;
      }
      ghost var v := Now();
      ghost var tried: nat;
      released, to, tried := HandBack(idle, share, mine - Ceil(share), now, clock, fails);
      TriedIdle(idle, released);
      if tried == |idle| {
        AllSettled(v, idle, released, share, now, clock, to);
      }
    }
  }
}
