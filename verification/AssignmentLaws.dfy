/** Who gets a scope, in terms of users and capacities, and for how long. */
module AssignmentLaws {
  import opened Basics
  import opened Assignments

  /** The instance reported itself, recently enough, as taking work. */
  predicate Serving(s: Cluster, id: string) {
    id in s.instances && s.instances[id].accepting && s.now <= s.instances[id].until
  }

  /** Its users: the unexpired entries or what it reported, whichever is more. */
  function UsersOf(s: Cluster, id: string): int
    requires id in s.instances
  {
    var entries := if id in s.entries then |set scope | scope in s.entries[id] && s.entries[id][scope] > s.now| else 0;
    if s.instances[id].activeUsers > entries then s.instances[id].activeUsers else entries
  }

  /** Its capacity: what it reported, or else what the caller knows; at least one. */
  function RoomOf(s: Cluster, c: Candidate): int
    requires c.id in s.instances
  {
    var n := if s.instances[c.id].userCapacity.Some? then s.instances[c.id].userCapacity.value else c.capacity;
    if n < 1 then 1 else n
  }

  predicate HasRoom(s: Cluster, c: Candidate) { Serving(s, c.id) && UsersOf(s, c.id) < RoomOf(s, c) }

  /** `a` is no fuller than `b`. */
  predicate NoFuller(s: Cluster, a: Candidate, b: Candidate)
    requires a.id in s.instances && b.id in s.instances
  {
    UsersOf(s, a.id) * RoomOf(s, b) <= UsersOf(s, b.id) * RoomOf(s, a)
  }

  /** The first serving candidate with room. */
  predicate IsFirstWithRoom(s: Cluster, cs: seq<Candidate>, i: int) {
    0 <= i < |cs| && HasRoom(s, cs[i]) && forall j :: 0 <= j < i ==> !HasRoom(s, cs[j])
  }

  /** No serving candidate is less full, and none before it as little. */
  predicate IsFirstLeastFull(s: Cluster, cs: seq<Candidate>, i: int) {
    && 0 <= i < |cs| && Serving(s, cs[i].id)
    && (forall j :: 0 <= j < |cs| && Serving(s, cs[j].id) ==> NoFuller(s, cs[i], cs[j]))
    && (forall j :: 0 <= j < i && Serving(s, cs[j].id) ==> !NoFuller(s, cs[j], cs[i]))
  }

  lemma Readings(s: Cluster, c: Candidate)
    ensures Active(s, c.id) <==> Serving(s, c.id)
    ensures Active(s, c.id) ==> Used(s, c.id) == UsersOf(s, c.id) && Capacity(s, c) == RoomOf(s, c)
    ensures Active(s, c.id) ==> (Full(s, c) <==> !HasRoom(s, c))
  {
    if c.id in s.entries {
      assert Counting(s, c.id) == set scope | scope in s.entries[c.id] && s.entries[c.id][scope] > s.now;
    } else {
      assert Counting(s, c.id) == {};
    }
  }

  lemma CrossMultiply(a: int, b: int, m: int, n: int)
    requires m > 0 && n > 0
    ensures a as real / m as real <= b as real / n as real <==> a * n <= b * m
  {
    var x, y := a as real / m as real, b as real / n as real;
    var r, q := m as real, n as real;
    assert x * r == a as real && y * q == b as real;
    assert (a * n) as real == x * r * q && (b * m) as real == y * q * r;
    assert r * q > 0.0;
    assert x * r * q == x * (r * q) && y * q * r == y * (r * q);
    assert x <= y ==> x * (r * q) <= y * (r * q);
    assert x > y ==> x * (r * q) > y * (r * q);
  }

  lemma RatioReads(s: Cluster, a: Candidate, b: Candidate)
    requires Active(s, a.id) && Active(s, b.id)
    ensures Ratio(s, a) <= Ratio(s, b) <==> NoFuller(s, a, b)
  {
    Readings(s, a);
    Readings(s, b);
    hide Used, Capacity, UsersOf, RoomOf, Counting;
    CrossMultiply(Used(s, a.id), Used(s, b.id), Capacity(s, a), Capacity(s, b));
  }

  lemma FreeReads(s: Cluster, cs: seq<Candidate>, i: nat)
    requires 0 < i <= |cs| && IsFree(s, cs, |cs|, i)
    ensures IsFirstWithRoom(s, cs, i - 1)
  {
    forall j | 0 <= j < |cs| ensures Active(s, cs[j].id) ==> (Full(s, cs[j]) <==> !HasRoom(s, cs[j])) { Readings(s, cs[j]); }
    forall j | 0 <= j < i - 1 ensures !HasRoom(s, cs[j]) { Readings(s, cs[j]); }
    hide Full, UsersOf, RoomOf;
  }

  lemma FullReads(s: Cluster, cs: seq<Candidate>)
    ensures AllFull(s, cs) <==> forall j :: 0 <= j < |cs| ==> !HasRoom(s, cs[j])
  {
    forall j | 0 <= j < |cs|
      ensures (Active(s, cs[j].id) ==> Full(s, cs[j])) <==> !HasRoom(s, cs[j]) { Readings(s, cs[j]); }
    hide Full, UsersOf, RoomOf, HasRoom;
  }

  lemma LeastReads(s: Cluster, cs: seq<Candidate>, i: nat)
    requires 0 < i <= |cs| && IsLeast(s, cs, |cs|, i)
    ensures IsFirstLeastFull(s, cs, i - 1)
  {
    forall j | 0 <= j < |cs| ensures Active(s, cs[j].id) <==> Serving(s, cs[j].id) { Readings(s, cs[j]); }
    forall j | 0 <= j < |cs| && Active(s, cs[j].id)
      ensures Ratio(s, cs[i - 1]) <= Ratio(s, cs[j]) <==> NoFuller(s, cs[i - 1], cs[j])
      ensures Ratio(s, cs[j]) <= Ratio(s, cs[i - 1]) <==> NoFuller(s, cs[j], cs[i - 1])
    {
      RatioReads(s, cs[i - 1], cs[j]);
      RatioReads(s, cs[j], cs[i - 1]);
    }
    hide Ratio, Active, NoFuller;
  }

  /** Taking the scope from an owner that is not serving changes no serving instance's load. */
  lemma EvictedAside(s: Cluster, scope: string, c: Candidate)
    requires !Sticks(s, scope) && Serving(s, c.id)
    ensures var e := Evict(s, scope); c.id in e.instances && UsersOf(e, c.id) == UsersOf(s, c.id) && RoomOf(e, c) == RoomOf(s, c)
  {
    var e := Evict(s, scope);
    if Assigned(s, scope) {
      Readings(s, c);
      assert c.id != s.assignments[scope].owner;
      assert c.id in e.entries <==> c.id in s.entries;
    }
  }

  lemma SameLoads(s: Cluster, scope: string, cs: seq<Candidate>, i: int)
    requires !Sticks(s, scope)
    ensures var e := Evict(s, scope);
            && (IsFirstWithRoom(e, cs, i) <==> IsFirstWithRoom(s, cs, i))
            && (IsFirstLeastFull(e, cs, i) <==> IsFirstLeastFull(s, cs, i))
  {
    var e := Evict(s, scope);
    assert e.instances == s.instances && e.now == s.now;
    forall j | 0 <= j < |cs| && Serving(s, cs[j].id)
      ensures UsersOf(e, cs[j].id) == UsersOf(s, cs[j].id) && RoomOf(e, cs[j]) == RoomOf(s, cs[j])
    {
      EvictedAside(s, scope, cs[j]);
    }
    hide Evict, UsersOf, RoomOf, Sticks;
  }

  /**
   * A scope whose key lives with a serving owner stays there. Any other goes to the first serving candidate with
   * room; with none, to the first of the least full ones, unless the caller is strict; and to nobody
   * only if the caller is strict or no candidate is serving.
   */
  lemma AssignByLoad(s: Cluster, scope: string, cs: seq<Candidate>, ttl: int, strict: bool)
    requires cs != []
    ensures var owner := Assign(s, scope, cs, ttl, strict).1;
            var settled := scope in s.assignments && s.now <= s.assignments[scope].expiry && Serving(s, s.assignments[scope].owner);
            && (settled ==> owner == Some(s.assignments[scope].owner))
            && (!settled && (exists j :: 0 <= j < |cs| && HasRoom(s, cs[j])) ==>
                  exists i :: IsFirstWithRoom(s, cs, i) && owner == Some(cs[i].id))
            && (!settled && (forall j :: 0 <= j < |cs| ==> !HasRoom(s, cs[j])) ==>
                  if strict || forall j :: 0 <= j < |cs| ==> !Serving(s, cs[j].id) then owner == None
                  else exists i :: IsFirstLeastFull(s, cs, i) && owner == Some(cs[i].id))
  {
    var settled := scope in s.assignments && s.now <= s.assignments[scope].expiry && Serving(s, s.assignments[scope].owner);
    assert settled <==> Sticks(s, scope) by {
      if scope in s.assignments { Readings(s, Candidate(s.assignments[scope].owner, 0)); }
    }
    if !settled {
      hide *;
      UnsettledByLoad(s, scope, cs, ttl, strict);
    }
  }

  lemma UnsettledByLoad(s: Cluster, scope: string, cs: seq<Candidate>, ttl: int, strict: bool)
    requires cs != [] && !Sticks(s, scope)
    ensures var owner := Assign(s, scope, cs, ttl, strict).1;
            && ((exists j :: 0 <= j < |cs| && HasRoom(s, cs[j])) ==>
                  exists i :: IsFirstWithRoom(s, cs, i) && owner == Some(cs[i].id))
            && ((forall j :: 0 <= j < |cs| ==> !HasRoom(s, cs[j])) ==>
                  if strict || forall j :: 0 <= j < |cs| ==> !Serving(s, cs[j].id) then owner == None
                  else exists i :: IsFirstLeastFull(s, cs, i) && owner == Some(cs[i].id))
  {
    hide *;
    var e := Evict(s, scope);
    var owner := Assign(s, scope, cs, ttl, strict).1;
    FullOnlyWhenAllFull(s, scope, cs, ttl, strict);
    FullAfterEvict(s, scope, cs);
    if !AllFull(e, cs) {
      var i: nat :| 0 < i <= |cs| && IsFree(e, cs, |cs|, i) && owner == Some(cs[i - 1].id);
      FreeReads(e, cs, i);
      SameLoads(s, scope, cs, i - 1);
      assert IsFirstWithRoom(s, cs, i - 1);
    } else if owner.Some? {
      var i: nat :| 0 < i <= |cs| && IsLeast(e, cs, |cs|, i) && owner == Some(cs[i - 1].id);
      LeastReads(e, cs, i);
      SameLoads(s, scope, cs, i - 1);
      LeastServes(s, cs, i - 1);
      assert IsFirstLeastFull(s, cs, i - 1);
    } else if !strict {
      NoneServes(s, e, scope, cs);
    }
  }

  lemma LeastServes(s: Cluster, cs: seq<Candidate>, i: int)
    requires IsFirstLeastFull(s, cs, i)
    ensures 0 <= i < |cs| && Serving(s, cs[i].id)
  {
  }

  lemma NoneServes(s: Cluster, e: Cluster, scope: string, cs: seq<Candidate>)
    requires e == Evict(s, scope) && IsLeast(e, cs, |cs|, 0)
    ensures forall j :: 0 <= j < |cs| ==> !Serving(s, cs[j].id)
  {
    forall j | 0 <= j < |cs| ensures !Serving(s, cs[j].id) { Readings(e, cs[j]); }
  }

  lemma FullAfterEvict(s: Cluster, scope: string, cs: seq<Candidate>)
    requires !Sticks(s, scope)
    ensures AllFull(Evict(s, scope), cs) <==> forall j :: 0 <= j < |cs| ==> !HasRoom(s, cs[j])
  {
    var e := Evict(s, scope);
    FullReads(e, cs);
    assert e.instances == s.instances && e.now == s.now;
    forall j | 0 <= j < |cs| ensures HasRoom(e, cs[j]) <==> HasRoom(s, cs[j]) {
      if Serving(s, cs[j].id) { EvictedAside(s, scope, cs[j]); }
    }
    hide Evict, AllFull, HasRoom;
  }

  // ---- for how long ----

  /** `d` later. */
  function Later(s: Cluster, d: nat): Cluster { s.(now := s.now + d) }

  lemma GivenFor(s: Cluster, scope: string, id: string, ttl: nat, d: nat)
    ensures var t := Later(Give(s, scope, id, ttl), d);
            && (Owns(t, scope, id) <==> d <= ttl) && (scope in Counting(t, id) <==> d < ttl)
            && (forall x <- s.assignments :: x != scope ==> x in t.assignments && t.assignments[x] == s.assignments[x])
  {
  }

  /** The instance a scope is assigned to owns it for exactly the time to live. */
  lemma AssignedFor(s: Cluster, scope: string, cs: seq<Candidate>, ttl: nat, strict: bool, d: nat)
    ensures var (t, owner) := Assign(s, scope, cs, ttl, strict);
            owner.Some? ==> (Owns(Later(t, d), scope, owner.value) <==> d <= ttl)
                            && (scope in Counting(Later(t, d), owner.value) <==> d < ttl)
  {
    hide Choice, ActiveIds, Trim, Evict, Give, Counting;
    if cs != [] && Sticks(s, scope) {
      GivenFor(s, scope, s.assignments[scope].owner, ttl, d);
    } else if cs != [] && Choice(Evict(s, scope), cs, strict) > 0 {
      var e := Evict(s, scope);
      TrimsEntries(e, ActiveIds(e, cs));
      EvictsNow(s, scope);
      GivenFor(Trim(e, ActiveIds(e, cs)), scope, cs[Choice(e, cs, strict) - 1].id, ttl, d);
    }
  }

  lemma TrimsEntries(s: Cluster, ids: set<string>)
    ensures Trim(s, ids).now == s.now
  {
  }

  lemma EvictsNow(s: Cluster, scope: string)
    ensures Evict(s, scope).now == s.now
  {
  }

  /** An owner that renews in time owns the scope for that long from then on; nobody else can renew it. */
  lemma RenewedFor(s: Cluster, scope: string, id: string, ttl: nat, d: nat)
    ensures var t := Renew(s, scope, id, ttl);
            if scope in s.assignments && s.now <= s.assignments[scope].expiry && s.assignments[scope].owner == id
            then (Owns(Later(t, d), scope, id) <==> d <= ttl) && (scope in Counting(Later(t, d), id) <==> d < ttl)
            else t == s
  {
    GivenFor(s, scope, id, ttl, d);
    hide Give, Counting;
  }

  /** Released by its owner, a scope is nobody's and counts against nobody; anyone else's release does nothing. */
  lemma ReleasedByOwner(s: Cluster, scope: string, id: string, other: string)
    requires Agreed(s)
    ensures var t := Release(s, scope, id);
            if scope in s.assignments && s.now <= s.assignments[scope].expiry && s.assignments[scope].owner == id
            then !Assigned(t, scope) && scope !in Counting(t, other)
            else t == s
  {
    if Owns(s, scope, id) {
      OnlyOwnerCounts(s, scope);
      TakeAgrees(s, scope, id);
      hide Agreed, Counting;
    }
  }

  /** An instance serves from its heartbeat until the time it named, if it accepts work, and not once it is removed. */
  lemma ServesUntil(s: Cluster, id: string, instance: Instance, d: nat)
    ensures Active(Later(Heartbeat(s, id, instance), d), id) <==> instance.accepting && s.now + d <= instance.until
    ensures id in Heartbeat(s, id, instance).members
    ensures !Active(RemoveInstance(s, id), id) && Counting(RemoveInstance(s, id), id) == {}
    ensures id !in RemoveInstance(s, id).members
  {
  }
}
