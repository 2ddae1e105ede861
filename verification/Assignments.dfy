/**
 * Which instance of the cluster owns a scope (internal/cluster/valkey.go). Each script or transaction runs
 * atomically in the shared store, so each is one step. A key lives while now <= its expiry; a sorted-set
 * entry counts while its score is past now.
 */
module Assignments {
  import opened Basics

  datatype Assignment = Assignment(owner: string, expiry: int)

  /**
   * What an instance last reported. `accepting` is neither draining nor offline, in a payload that decodes;
   * `complete` is with an ID and an address.
   */
  datatype Instance = Instance(accepting: bool, complete: bool, activeUsers: int, userCapacity: Option<int>, until: int)

  datatype Cluster = Cluster(
    now: int,
    assignments: map<string, Assignment>,
    entries: map<string, map<string, int>>,
    instances: map<string, Instance>,
    members: set<string>)

  // The capacity of an instance that reports none.
  const DEFAULT_MAX_ACTIVE_USERS := 100

  datatype Candidate = Candidate(id: string, capacity: int)

  // ---- reading ----

  predicate Assigned(s: Cluster, scope: string) {
    scope in s.assignments && s.now <= s.assignments[scope].expiry
  }

  predicate Active(s: Cluster, id: string) {
    id in s.instances && s.now <= s.instances[id].until && s.instances[id].accepting
  }

  function Entries(s: Cluster, id: string): map<string, int> { if id in s.entries then s.entries[id] else map[] }

  /** The scopes counted against an instance. */
  function Counting(s: Cluster, id: string): set<string> {
    set scope | scope in Entries(s, id) && Entries(s, id)[scope] > s.now
  }

  function Unexpired(m: map<string, int>, now: int): map<string, int> {
    map scope | scope in m && m[scope] > now :: m[scope]
  }

  function Used(s: Cluster, id: string): int
    requires Active(s, id)
  {
    Max(|Counting(s, id)|, s.instances[id].activeUsers)
  }

  function Capacity(s: Cluster, c: Candidate): (n: int)
    requires Active(s, c.id)
    ensures n >= 1
  {
    Max(1, if s.instances[c.id].userCapacity.Some? then s.instances[c.id].userCapacity.value else c.capacity)
  }

  predicate Full(s: Cluster, c: Candidate)
    requires Active(s, c.id)
  {
    Used(s, c.id) >= Capacity(s, c)
  }

  function Ratio(s: Cluster, c: Candidate): real
    requires Active(s, c.id)
  {
    Used(s, c.id) as real / Capacity(s, c) as real
  }

  // ---- choosing a candidate ----

  /** `selected` numbers the first of the first `n` candidates that is active and below capacity, from 1; or is 0. */
  ghost predicate IsFree(s: Cluster, cs: seq<Candidate>, n: nat, selected: nat)
    requires n <= |cs|
  {
    && selected <= n
    && (selected > 0 ==> Active(s, cs[selected - 1].id) && !Full(s, cs[selected - 1]))
    && forall j :: 0 <= j < (if selected > 0 then selected - 1 else n) && Active(s, cs[j].id) ==> Full(s, cs[j])
  }

  /** `least` numbers the first least loaded active one; or is 0. */
  ghost predicate IsLeast(s: Cluster, cs: seq<Candidate>, n: nat, least: nat)
    requires n <= |cs|
  {
    && least <= n
    && (least > 0 ==> Active(s, cs[least - 1].id))
    && (forall j :: 0 <= j < n && Active(s, cs[j].id) ==>
          least > 0 && (if j < least - 1 then Ratio(s, cs[least - 1]) < Ratio(s, cs[j]) else Ratio(s, cs[least - 1]) <= Ratio(s, cs[j])))
  }

  function FirstFree(s: Cluster, cs: seq<Candidate>, n: nat): (i: nat)
    requires n <= |cs|
  {
    if n == 0 then 0
    else if FirstFree(s, cs, n - 1) > 0 then FirstFree(s, cs, n - 1)
    else if Active(s, cs[n - 1].id) && !Full(s, cs[n - 1]) then n else 0
  }

  function LeastLoaded(s: Cluster, cs: seq<Candidate>, n: nat): (i: nat)
    requires n <= |cs|
    ensures i <= n && (i > 0 ==> Active(s, cs[i - 1].id))
  {
    if n == 0 then 0 else
      var i := LeastLoaded(s, cs, n - 1);
      if Active(s, cs[n - 1].id) && (i == 0 || Ratio(s, cs[n - 1]) < Ratio(s, cs[i - 1])) then n else i
  }

  lemma {:induction false} FirstFreeIsFree(s: Cluster, cs: seq<Candidate>, n: nat)
    requires n <= |cs|
    ensures IsFree(s, cs, n, FirstFree(s, cs, n))
    decreases n
  {
    if n > 0 {
      hide Full, Active;
      FirstFreeIsFree(s, cs, n - 1);
    }
  }

  lemma {:induction false} LeastLoadedIsLeast(s: Cluster, cs: seq<Candidate>, n: nat)
    requires n <= |cs|
    ensures IsLeast(s, cs, n, LeastLoaded(s, cs, n))
    decreases n
  {
    if n > 0 {
      hide Ratio, Active;
      LeastLoadedIsLeast(s, cs, n - 1);
    }
  }

  /** There is only one such choice, so the loop finds it. */
  lemma ChoiceIsOne(s: Cluster, cs: seq<Candidate>, n: nat, selected: nat, least: nat)
    requires n <= |cs| && IsFree(s, cs, n, selected) && IsLeast(s, cs, n, least)
    ensures selected == FirstFree(s, cs, n) && least == LeastLoaded(s, cs, n)
  {
    FirstFreeIsFree(s, cs, n);
    LeastLoadedIsLeast(s, cs, n);
    hide Full, Ratio, Active, FirstFree, LeastLoaded;
    var l := LeastLoaded(s, cs, n);
    assert l > 0 && least > 0 ==> Ratio(s, cs[l - 1]) == Ratio(s, cs[least - 1]);
  }

  /** The candidate to assign to, numbered from 1; 0 if there is none. */
  function Choice(s: Cluster, cs: seq<Candidate>, strict: bool): (i: nat)
    ensures i <= |cs| && (i > 0 ==> Active(s, cs[i - 1].id))
  {
    FirstFreeIsFree(s, cs, |cs|);
    var selected := FirstFree(s, cs, |cs|);
    if selected == 0 && !strict then LeastLoaded(s, cs, |cs|) else selected
  }

  // ---- the scripts ----

  function WithEntry(s: Cluster, id: string, scope: string, score: int): Cluster {
    s.(entries := s.entries[id := Entries(s, id)[scope := score]])
  }

  function WithoutEntry(s: Cluster, id: string, scope: string): Cluster {
    s.(entries := s.entries[id := Entries(s, id) - {scope}])
  }

  /** Assigning or renewing: the key and its entry get the same expiry. */
  function Give(s: Cluster, scope: string, id: string, ttl: int): Cluster {
    WithEntry(s.(assignments := s.assignments[scope := Assignment(id, s.now + ttl)]), id, scope, s.now + ttl)
  }

  function Take(s: Cluster, scope: string, id: string): Cluster {
    WithoutEntry(s.(assignments := s.assignments - {scope}), id, scope)
  }

  function ActiveIds(s: Cluster, cs: seq<Candidate>): set<string> {
    set i | 0 <= i < |cs| && Active(s, cs[i].id) :: cs[i].id
  }

  /** The scan drops the expired entries of every candidate it looks at. */
  function Trim(s: Cluster, ids: set<string>): Cluster {
    s.(entries := map id | id in s.entries :: if id in ids then Unexpired(s.entries[id], s.now) else s.entries[id])
  }

  /** An owner that went inactive loses the scope. */
  function Evict(s: Cluster, scope: string): Cluster {
    if Assigned(s, scope) then Take(s, scope, s.assignments[scope].owner) else s
  }

  predicate Sticks(s: Cluster, scope: string) { Assigned(s, scope) && Active(s, s.assignments[scope].owner) }

  /** Assign: the owner, if any, and the store after it. */
  function Assign(s: Cluster, scope: string, cs: seq<Candidate>, ttl: int, strict: bool): (r: (Cluster, Option<string>)) {
    if cs == [] then (s, None)
    else if Sticks(s, scope) then
      var owner := s.assignments[scope].owner;
      (Give(s, scope, owner, ttl), Some(owner))
    else
      var e := Evict(s, scope);
      var i := Choice(e, cs, strict);
      var t := Trim(e, ActiveIds(e, cs));
      if i == 0 then (t, None) else (Give(t, scope, cs[i - 1].id, ttl), Some(cs[i - 1].id))
  }

  predicate Owns(s: Cluster, scope: string, id: string) { Assigned(s, scope) && s.assignments[scope].owner == id }

  function Renew(s: Cluster, scope: string, id: string, ttl: int): Cluster {
    if Owns(s, scope, id) then Give(s, scope, id, ttl) else s
  }

  function Release(s: Cluster, scope: string, id: string): Cluster {
    if Owns(s, scope, id) then Take(s, scope, id) else s
  }

  function Heartbeat(s: Cluster, id: string, instance: Instance): Cluster {
    s.(members := s.members + {id}, instances := s.instances[id := instance])
  }

  function RemoveInstance(s: Cluster, id: string): Cluster {
    s.(instances := s.instances - {id}, entries := s.entries - {id}, members := s.members - {id})
  }

  /** The clean-up in Members, of the instances an earlier read found no payload for. */
  function CleanUp(s: Cluster, stale: set<string>): Cluster {
    s.(members := s.members - stale, entries := s.entries - stale)
  }

  // ---- runs ----

  datatype Step =
    | Assigning(scope: string, candidates: seq<Candidate>, ttl: int, strict: bool)
    | Renewing(scope: string, id: string, ttl: int)
    | Releasing(scope: string, id: string)
    | Beating(id: string, instance: Instance)
    | Removing(id: string)
    | Cleaning(stale: set<string>)
    | Passing(time: nat)

  predicate Enabled(step: Step) {
    match step
    case Assigning(_, _, ttl, _) => ttl > 0
    case Renewing(_, _, ttl) => ttl > 0
    case _ => true
  }

  function Apply(s: Cluster, step: Step): Cluster {
    match step
    case Assigning(scope, cs, ttl, strict) => Assign(s, scope, cs, ttl, strict).0
    case Renewing(scope, id, ttl) => Renew(s, scope, id, ttl)
    case Releasing(scope, id) => Release(s, scope, id)
    case Beating(id, instance) => Heartbeat(s, id, instance)
    case Removing(id) => RemoveInstance(s, id)
    case Cleaning(stale) => CleanUp(s, stale)
    case Passing(time) => s.(now := s.now + time)
  }

  function After(s: Cluster, steps: seq<Step>): Cluster
    decreases |steps|
  {
    if steps == [] then s else After(Apply(s, steps[0]), steps[1..])
  }

  // ---- an entry agrees with the scope's key ----

  predicate Agrees(s: Cluster, id: string, scope: string) {
    scope in Counting(s, id) ==>
      && scope in s.assignments && s.assignments[scope].owner == id
      && s.assignments[scope].expiry == Entries(s, id)[scope]
  }

  /** Every entry that counts is backed by the scope's own key, for the same instance and until the same time. */
  ghost predicate Agreed(s: Cluster) { forall id: string, scope: string :: Agrees(s, id, scope) }

  lemma GiveAgrees(s: Cluster, scope: string, id: string, ttl: int)
    requires Agreed(s) && forall other: string :: other != id ==> scope !in Counting(s, other)
    ensures Agreed(Give(s, scope, id, ttl))
  {
    var t := Give(s, scope, id, ttl);
    forall i: string, x: string ensures Agrees(t, i, x) {
      assert Agrees(s, i, x);
      assert i != id ==> Entries(t, i) == Entries(s, i) && Counting(t, i) == Counting(s, i);
    }
  }

  lemma TakeAgrees(s: Cluster, scope: string, id: string)
    requires Agreed(s) && forall other: string :: other != id ==> scope !in Counting(s, other)
    ensures Agreed(Take(s, scope, id)) && forall any: string :: scope !in Counting(Take(s, scope, id), any)
  {
    var t := Take(s, scope, id);
    forall i: string, x: string ensures Agrees(t, i, x) && (x == scope ==> x !in Counting(t, i)) {
      assert Agrees(s, i, x);
      assert i != id ==> Entries(t, i) == Entries(s, i) && Counting(t, i) == Counting(s, i);
    }
  }

  /** Only the owner can count the scope, and only while the key lives. */
  lemma OnlyOwnerCounts(s: Cluster, scope: string)
    requires Agreed(s)
    ensures forall id: string :: scope in Counting(s, id) ==> Owns(s, scope, id)
  {
    forall id: string | scope in Counting(s, id) ensures Owns(s, scope, id) {
      assert Agrees(s, id, scope);
    }
  }

  lemma TrimAgrees(s: Cluster, ids: set<string>)
    requires Agreed(s)
    ensures Agreed(Trim(s, ids)) && forall id: string :: Counting(Trim(s, ids), id) == Counting(s, id)
  {
    var t := Trim(s, ids);
    forall i: string ensures Counting(t, i) == Counting(s, i) {
    }
    forall i: string, x: string ensures Agrees(t, i, x) {
      assert Agrees(s, i, x);
    }
  }

  lemma AssignAgrees(s: Cluster, scope: string, cs: seq<Candidate>, ttl: int, strict: bool)
    requires Agreed(s)
    ensures Agreed(Assign(s, scope, cs, ttl, strict).0)
  {
    OnlyOwnerCounts(s, scope);
    if cs == [] {
    } else if Sticks(s, scope) {
      GiveAgrees(s, scope, s.assignments[scope].owner, ttl);
    } else {
      var e := Evict(s, scope);
      if Assigned(s, scope) {
        TakeAgrees(s, scope, s.assignments[scope].owner);
      }
      assert forall id: string :: scope !in Counting(e, id);
      var ids := ActiveIds(e, cs);
      TrimAgrees(e, ids);
      var i := Choice(e, cs, strict);
      hide Agreed, Choice, Evict, Counting, Give, Trim;
      if i > 0 {
        GiveAgrees(Trim(e, ids), scope, cs[i - 1].id, ttl);
      }
    }
  }

  lemma FewerAgrees(s: Cluster, t: Cluster)
    requires Agreed(s) && t.assignments == s.assignments && s.now <= t.now
    requires forall id <- t.entries :: id in s.entries && t.entries[id] == s.entries[id]
    ensures Agreed(t)
  {
    forall i: string, x: string ensures Agrees(t, i, x) {
      assert Agrees(s, i, x);
    }
  }

  lemma StepAgrees(s: Cluster, step: Step)
    requires Agreed(s) && Enabled(step)
    ensures Agreed(Apply(s, step))
  {
    match step
    case Assigning(scope, cs, ttl, strict) => AssignAgrees(s, scope, cs, ttl, strict);
    case Renewing(scope, id, ttl) =>
      OnlyOwnerCounts(s, scope);
      if Owns(s, scope, id) { GiveAgrees(s, scope, id, ttl); }
    case Releasing(scope, id) =>
      OnlyOwnerCounts(s, scope);
      if Owns(s, scope, id) { TakeAgrees(s, scope, id); }
    case _ => FewerAgrees(s, Apply(s, step));
  }

  lemma {:induction false} RunAgrees(s: Cluster, steps: seq<Step>)
    requires Agreed(s) && forall step <- steps :: Enabled(step)
    ensures Agreed(After(s, steps))
    decreases |steps|
  {
    hide Agreed, Apply;
    if steps != [] {
      assert steps[0] in steps;
      StepAgrees(s, steps[0]);
      RunAgrees(Apply(s, steps[0]), steps[1..]);
    }
  }

  function Empty(now: int): Cluster { Cluster(now, map[], map[], map[], {}) }

  /**
   * In every reachable state a counted entry names the instance the scope's key names, with the same expiry;
   * so no scope is counted against two instances.
   */
  lemma NoScopeCountsTwice(now: int, steps: seq<Step>, id: string, other: string, scope: string)
    requires forall step <- steps :: Enabled(step)
    requires scope in Counting(After(Empty(now), steps), id)
    ensures var s := After(Empty(now), steps);
            && Owns(s, scope, id) && s.assignments[scope].expiry == Entries(s, id)[scope]
            && (scope in Counting(s, other) ==> other == id)
  {
    RunAgrees(Empty(now), steps);
    var s := After(Empty(now), steps);
    hide After, Counting;
    assert Agrees(s, id, scope) && Agrees(s, other, scope);
    OnlyOwnerCounts(s, scope);
  }

  // ---- stickiness ----

  /** Along the run the owner stays active and is not made to release the scope, and the key does not expire. */
  ghost predicate Undisturbed(s: Cluster, steps: seq<Step>, scope: string, owner: string)
    decreases |steps|
  {
    && Assigned(s, scope) && Active(s, owner)
    && (steps != [] ==>
          && steps[0] != Releasing(scope, owner)
          && Undisturbed(Apply(s, steps[0]), steps[1..], scope, owner))
  }

  /** A step that does not release the scope leaves its key to the same owner, if it leaves it alive. */
  lemma KeepsOwner(s: Cluster, step: Step, scope: string, owner: string)
    requires Owns(s, scope, owner) && Active(s, owner) && step != Releasing(scope, owner)
    requires Assigned(Apply(s, step), scope)
    ensures Owns(Apply(s, step), scope, owner)
  {
    match step
    case Assigning(x, cs, ttl, strict) =>
      hide Choice, ActiveIds;
    case _ =>
  }

  /** Whatever candidates are passed, asking again gives the same owner. */
  lemma {:induction false} AssignIsSticky(s: Cluster, steps: seq<Step>, scope: string, owner: string,
                                          cs: seq<Candidate>, ttl: int, strict: bool)
    requires Owns(s, scope, owner) && Undisturbed(s, steps, scope, owner) && cs != []
    ensures Assign(After(s, steps), scope, cs, ttl, strict).1 == Some(owner)
    decreases |steps|
  {
    if steps != [] {
      KeepsOwner(s, steps[0], scope, owner);
      hide Apply;
      AssignIsSticky(Apply(s, steps[0]), steps[1..], scope, owner, cs, ttl, strict);
    }
  }

  /** The owner Assign returns is active and holds the scope's key for `ttl`. */
  lemma AssignGives(s: Cluster, scope: string, cs: seq<Candidate>, ttl: int, strict: bool)
    requires ttl > 0
    ensures var (t, owner) := Assign(s, scope, cs, ttl, strict);
            owner.Some? ==>
              && Owns(t, scope, owner.value) && t.assignments[scope].expiry == s.now + ttl
              && Active(t, owner.value) && scope in Counting(t, owner.value)
  {
    hide ActiveIds;
  }

  // ---- capacity ----

  /** Every active candidate is full. */
  ghost predicate AllFull(s: Cluster, cs: seq<Candidate>) { IsFree(s, cs, |cs|, 0) }

  lemma ChoiceByLoad(s: Cluster, cs: seq<Candidate>, strict: bool)
    ensures var i := Choice(s, cs, strict);
            && (!AllFull(s, cs) ==> i > 0 && IsFree(s, cs, |cs|, i))
            && (AllFull(s, cs) && i > 0 ==> !strict && IsLeast(s, cs, |cs|, i))
            && (AllFull(s, cs) && i == 0 && !strict ==> IsLeast(s, cs, |cs|, 0))
  {
    FirstFreeIsFree(s, cs, |cs|);
    LeastLoadedIsLeast(s, cs, |cs|);
    hide Full, Ratio, Active, FirstFree, LeastLoaded, IsLeast;
  }

  /**
   * A scope without an active owner goes to the first active candidate below capacity. A full one is chosen only
   * when every active candidate is full, never under the strict rule, and then it is the first least
   * loaded one; none is chosen only under that rule or when none is active.
   */
  lemma FullOnlyWhenAllFull(s: Cluster, scope: string, cs: seq<Candidate>, ttl: int, strict: bool)
    requires !Sticks(s, scope) && cs != []
    ensures var e := Evict(s, scope);
            var owner := Assign(s, scope, cs, ttl, strict).1;
            && (!AllFull(e, cs) ==> exists i: nat :: 0 < i <= |cs| && IsFree(e, cs, |cs|, i) && owner == Some(cs[i - 1].id))
            && (AllFull(e, cs) && owner.Some? ==>
                  !strict && exists i: nat :: 0 < i <= |cs| && IsLeast(e, cs, |cs|, i) && owner == Some(cs[i - 1].id))
            && (AllFull(e, cs) && owner.None? ==> strict || IsLeast(e, cs, |cs|, 0))
  {
    var e := Evict(s, scope);
    ChoiceByLoad(e, cs, strict);
    hide Choice, AllFull, IsFree, IsLeast, Active, Evict, Trim, ActiveIds, Give;
    var i := Choice(e, cs, strict);
    assert i > 0 ==> Assign(s, scope, cs, ttl, strict).1 == Some(cs[i - 1].id);
    assert i == 0 ==> Assign(s, scope, cs, ttl, strict).1 == None;
  }
}
