/** The scripts of internal/cluster/valkey.go as they run: the store's keys are fields, updated in place. */
module ValkeyStore {
  import opened Basics
  import opened Assignments

  datatype Member = Member(id: string, address: string, capacity: int)

  class Valkey {
    var now: int
    var assignments: map<string, Assignment>
    var entries: map<string, map<string, int>>
    var instances: map<string, Instance>
    var members: set<string>

    ghost function View(): Cluster
      reads this
    {
      Cluster(now, assignments, entries, instances, members)
    }

    constructor (now: int)
      ensures View() == Empty(now)
    {
      this.now, assignments, entries, instances, members := now, map[], map[], map[], {};
    }

    function EntriesOf(id: string): (m: map<string, int>)
      reads this
      ensures m == Entries(View(), id)
    {
      if id in entries then entries[id] else map[]
    }

    predicate IsActive(id: string)
      reads this
      ensures IsActive(id) <==> Active(View(), id)
    {
      id in instances && now <= instances[id].until && instances[id].accepting
    }

    /** The capacity sent with each candidate. */
    static function Sent(candidates: seq<Member>): (cs: seq<Candidate>)
      ensures |cs| == |candidates|
      ensures forall i :: 0 <= i < |cs| ==>
                && cs[i].id == candidates[i].id
                && cs[i].capacity == if candidates[i].capacity > 0 then candidates[i].capacity else 100
    {
      seq(|candidates|, i requires 0 <= i < |candidates| =>
        Candidate(candidates[i].id, if candidates[i].capacity <= 0 then DEFAULT_MAX_ACTIVE_USERS else candidates[i].capacity))
    }

    /** One candidate of the scan: its expired entries go, then it is counted. */
    method Look(c: Candidate) returns (free: bool, ratio: real)
      requires Active(View(), c.id)
      modifies this`entries
      ensures View() == Trim(old(View()), {c.id})
      ensures free == !Full(old(View()), c) && ratio == Ratio(old(View()), c)
    {
      var left := Unexpired(EntriesOf(c.id), now);
      assert left.Keys == Counting(View(), c.id);
      if c.id in entries {
        entries := entries[c.id := left];
      }
      assert entries == Trim(old(View()), {c.id}).entries;
      var used := |left.Keys|;
      if instances[c.id].activeUsers > used {
        used := instances[c.id].activeUsers;
      }
      var capacity := if instances[c.id].userCapacity.Some? then instances[c.id].userCapacity.value else c.capacity;
      if capacity < 1 {
        capacity := 1;
      }
      free := used < capacity;
      ratio := used as real / capacity as real;
    }

    /** The loop over the candidates, dropping the expired entries of those it looks at. */
    method LookAll(cs: seq<Candidate>) returns (selected: nat, least: nat)
      modifies this`entries
      ensures selected == FirstFree(old(View()), cs, |cs|) && least == LeastLoaded(old(View()), cs, |cs|)
      ensures View() == Trim(old(View()), ActiveIds(old(View()), cs))
    {
      hide *;
      selected, least := 0, 0;
      var ratio := 0.0;
      ghost var s := View();
      NoneYet(s, cs);
      for i := 0 to |cs|
        invariant View() == Trim(s, ActiveIds(s, cs[..i]))
        invariant selected == FirstFree(s, cs, i) && least == LeastLoaded(s, cs, i)
        invariant least > 0 ==> ratio == Ratio(s, cs[least - 1])
      {
        ghost var ids := ActiveIds(s, cs[..i]);
        SameLoads(s, ids, cs[i]);
        MoreIds(s, cs, i);
        Next(s, cs, i);
        if IsActive(cs[i].id) {
          TrimTwice(s, ids, cs[i].id);
          var free, r := Look(cs[i]);
          if selected == 0 && free {
            selected := i + 1;
          }
          if least == 0 || r < ratio {
            least, ratio := i + 1, r;
          }
        }
      }
      assert cs[..|cs|] == cs;
    }

    method Scan(cs: seq<Candidate>, strict: bool) returns (selected: nat)
      modifies this`entries
      ensures selected == Choice(old(View()), cs, strict)
      ensures View() == Trim(old(View()), ActiveIds(old(View()), cs))
    {
      hide Trim, ActiveIds, Active, FirstFree, LeastLoaded;
      var least;
      selected, least := LookAll(cs);
      if selected == 0 && !strict {
        selected := least;
      }
    }

    method SetOwner(scope: string, id: string, ttl: int)
      modifies this`assignments, this`entries
      ensures View() == Give(old(View()), scope, id, ttl)
    {
      assignments := assignments[scope := Assignment(id, now + ttl)];
      entries := entries[id := EntriesOf(id)[scope := now + ttl]];
    }

    method Drop(scope: string, id: string)
      modifies this`assignments, this`entries
      ensures View() == Take(old(View()), scope, id)
    {
      assignments := assignments - {scope};
      entries := entries[id := EntriesOf(id) - {scope}];
    }

    /** `owner` is the instance whose payload is returned. */
    method Assign(scope: string, candidates: seq<Member>, ttl: int, strict: bool) returns (owner: Option<string>)
      modifies this
      ensures (View(), owner) == Assignments.Assign(old(View()), scope, Sent(candidates), ttl, strict)
    {
      hide Choice, Trim, ActiveIds, Active, Give, Take;
      var cs := Sent(candidates);
      if |candidates| == 0 {
        return None;
      }
      if scope in assignments && now <= assignments[scope].expiry {
        var id := assignments[scope].owner;
        if IsActive(id) {
          SetOwner(scope, id, ttl);
          return Some(id);
        }
        Drop(scope, id);
      }
      assert View() == Evict(old(View()), scope);
      var selected := Scan(cs, strict);
      if selected == 0 {
        return None;
      }
      var id := cs[selected - 1].id;
      SetOwner(scope, id, ttl);
      return Some(id);
    }

    method Renew(scopes: seq<string>, id: string, ttl: int)
      modifies this
      ensures View() == RenewAll(old(View()), scopes, id, ttl)
    {
      ghost var s := View();
      for i := 0 to |scopes|
        invariant RenewAll(View(), scopes[i..], id, ttl) == RenewAll(s, scopes, id, ttl)
      {
        var scope := scopes[i];
        assert scopes[i..][1..] == scopes[i + 1..];
        if scope in assignments && now <= assignments[scope].expiry && assignments[scope].owner == id {
          SetOwner(scope, id, ttl);
        }
      }
    }

    method Release(scope: string, id: string)
      modifies this
      ensures View() == Assignments.Release(old(View()), scope, id)
    {
      if scope in assignments && now <= assignments[scope].expiry && assignments[scope].owner == id {
        Drop(scope, id);
      }
    }

    method Heartbeat(id: string, instance: Instance)
      modifies this
      ensures View() == Assignments.Heartbeat(old(View()), id, instance)
    {
      members := members + {id};
      instances := instances[id := instance];
    }

    method RemoveInstance(id: string)
      modifies this
      ensures View() == Assignments.RemoveInstance(old(View()), id)
    {
      instances := instances - {id};
      entries := entries - {id};
      members := members - {id};
    }

    predicate Complete(id: string)
      reads this
    {
      id in instances && now <= instances[id].until && instances[id].complete
    }

    /** The read in Members: the members without a live and complete payload are stale. */
    method StaleMembers() returns (stale: set<string>)
      ensures forall id :: id in stale <==>
                id in members && !(id in instances && now <= instances[id].until && instances[id].complete)
    {
      stale := {};
      var ids := members;
      while ids != {}
        invariant ids <= members
        invariant stale == set id | id in members - ids && !Complete(id)
        decreases |ids|
      {
        var id :| id in ids;
        ids := ids - {id};
        if !Complete(id) {
          stale := stale + {id};
        }
      }
    }

    /** The transaction that follows; the store may have moved on since the read. */
    method RemoveStale(stale: set<string>)
      modifies this
      ensures View() == CleanUp(old(View()), stale)
    {
      members := members - stale;
      entries := entries - stale;
    }
  }

  function RenewAll(s: Cluster, scopes: seq<string>, id: string, ttl: int): Cluster
    decreases |scopes|
  {
    if scopes == [] then s else RenewAll(Assignments.Renew(s, scopes[0], id, ttl), scopes[1..], id, ttl)
  }

  lemma MoreIds(s: Cluster, cs: seq<Candidate>, i: nat)
    requires i < |cs|
    ensures ActiveIds(s, cs[..i + 1])
         == if Active(s, cs[i].id) then ActiveIds(s, cs[..i]) + {cs[i].id} else ActiveIds(s, cs[..i])
  {
    var more, ids := cs[..i + 1], cs[..i];
    hide Active;
    forall id | id in ActiveIds(s, ids) ensures id in ActiveIds(s, more) {
      var j :| 0 <= j < |ids| && Active(s, ids[j].id) && ids[j].id == id;
      assert more[j] == ids[j];
    }
    assert more[i] == cs[i];
    forall id | id in ActiveIds(s, more) && !(Active(s, cs[i].id) && id == cs[i].id) ensures id in ActiveIds(s, ids) {
      var j :| 0 <= j < |more| && Active(s, more[j].id) && more[j].id == id;
      assert j < i && ids[j] == more[j];
    }
  }

  lemma TrimTwice(s: Cluster, ids: set<string>, id: string)
    ensures Trim(Trim(s, ids), {id}) == Trim(s, ids + {id})
  {
    var a, b := Trim(Trim(s, ids), {id}), Trim(s, ids + {id});
    forall i | i in s.entries ensures a.entries[i] == b.entries[i] {
    }
  }

  lemma NoneYet(s: Cluster, cs: seq<Candidate>)
    ensures FirstFree(s, cs, 0) == 0 && LeastLoaded(s, cs, 0) == 0 && Trim(s, ActiveIds(s, cs[..0])) == s
  {
    assert ActiveIds(s, cs[..0]) == {};
    assert Trim(s, {}).entries == s.entries;
  }

  /** How one more candidate changes the choice. */
  lemma Next(s: Cluster, cs: seq<Candidate>, i: nat)
    requires i < |cs|
    ensures !Active(s, cs[i].id) ==>
              FirstFree(s, cs, i + 1) == FirstFree(s, cs, i) && LeastLoaded(s, cs, i + 1) == LeastLoaded(s, cs, i)
    ensures Active(s, cs[i].id) ==>
              && FirstFree(s, cs, i + 1) == (if FirstFree(s, cs, i) == 0 && !Full(s, cs[i]) then i + 1 else FirstFree(s, cs, i))
              && var l := LeastLoaded(s, cs, i);
              LeastLoaded(s, cs, i + 1) == if l == 0 || Ratio(s, cs[i]) < Ratio(s, cs[l - 1]) then i + 1 else l
  {
    hide Active, Full, Ratio;
  }

  /** Dropping expired entries changes no instance's load. */
  lemma SameLoads(s: Cluster, ids: set<string>, c: Candidate)
    ensures var t := Trim(s, ids);
            Active(t, c.id) == Active(s, c.id)
            && (Active(s, c.id) ==> Full(t, c) == Full(s, c) && Ratio(t, c) == Ratio(s, c))
  {
    assert Counting(Trim(s, ids), c.id) == Counting(s, c.id);
  }
}
