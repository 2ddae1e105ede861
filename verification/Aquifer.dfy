/** The claims and the calls of internal/core/aquifer.go as objects: one uninterrupted Enqueue is a run of Intake. */
module Aquifers {
  import opened Basics
  import opened Intake

  /** One taking of a key: its release has an effect once. */
  class KeyClaim {
    const key: string
    var released: bool

    constructor (key: string)
      ensures this.key == key && !released
    {
      this.key, released := key, false;
    }
  }

  class KeyClaims {
    var held: map<string, KeyClaim>

    constructor ()
      ensures held == map[]
    {
      held := map[];
    }

    /** One round of claim: takes a free key, or reports that it is busy. */
    method TryClaim(key: string) returns (claim: KeyClaim?)
      modifies this
      ensures claim == null <==> key in old(held)
      ensures claim == null ==> held == old(held)
      ensures claim != null ==> fresh(claim) && claim.key == key && !claim.released && held == old(held)[key := claim]
    {
      if key in held {
        return null;
      }
      claim := new KeyClaim(key);
      held := held[key := claim];
    }

    /** A second release changes nothing, even when someone else holds the key by then. */
    method Release(claim: KeyClaim)
      modifies this, claim`released
      ensures claim.released
      ensures held == if old(claim.released) then old(held) else old(held) - {claim.key}
    {
      if !claim.released {
        claim.released := true;
        held := held - {claim.key};
      }
    }
  }

  lemma {:induction false} Extend(s: State, steps: seq<Step>, step: Step)
    requires IsRun(s, steps) && Enabled(After(s, steps), step)
    ensures IsRun(s, steps + [step]) && After(s, steps + [step]) == Apply(After(s, steps), step)
    decreases |steps|
  {
    if steps == [] {
      Chain(s, Apply(s, step), step, []);
      assert [step] + [] == [] + [step];
    } else {
      var t := Apply(s, steps[0]);
      Extend(t, steps[1..], step);
      hide Apply, Enabled;
      assert (steps + [step])[1..] == steps[1..] + [step];
    }
  }

  /** `v` with one call in progress. */
  function Alone(v: State, hash: string, id: string, phase: Phase): State {
    v.(callers := map[0 := Caller(hash, id, phase, true)])
  }

  lemma AloneClaims(v: State, hash: string, id: string)
    requires v.callers == map[] && Enabled(v, Begin(0, hash, id)) && hash !in v.held
    ensures Enabled(Apply(v, Begin(0, hash, id)), Claim(0))
    ensures Apply(Apply(v, Begin(0, hash, id)), Claim(0)) == Alone(v.(held := v.held + {hash}), hash, id, Claimed)
  {
  }

  lemma AloneInserts(v: State, hash: string, id: string)
    ensures var s := Alone(v, hash, id, Claimed);
            && Enabled(s, CheckOrInsert(0))
            && Apply(s, CheckOrInsert(0)) ==
               if hash in v.idem then Alone(v, hash, id, Done(LocalDuplicate(v.idem[hash])))
               else Alone(v.(rows := v.rows[id := hash], idem := v.idem[hash := id]), hash, id, Inserted)
  {
  }

  lemma AloneProceeds(v: State, hash: string, id: string, from: Phase, to: Phase)
    requires MayProceed(from, to)
    ensures var s := Alone(v, hash, id, from);
            Enabled(s, Proceed(0, to)) && Apply(s, Proceed(0, to)) == Alone(v, hash, id, to)
  {
  }

  lemma AloneIsAccepted(v: State, hash: string, id: string)
    ensures var s := Alone(v, hash, id, Approved);
            && Enabled(s, Accept(0))
            && Apply(s, Accept(0)) == Alone(v.(accepted := v.accepted[id := hash]), hash, id, Done(Fresh(id)))
  {
  }

  lemma AloneReleases(v: State, hash: string, id: string, r: Result)
    ensures var s := Alone(v, hash, id, Done(r));
            && Enabled(s, Release(0))
            && Apply(s, Release(0)) == v.(callers := map[0 := Caller(hash, id, Done(r), false)], held := v.held - {hash})
  {
  }

  // ---- one call, uninterrupted ----

  /** What one call returns. */
  function Outcome(v: State, hash: string, id: string, remoteHit: bool, valid: bool, queued: bool): Result {
    if hash in v.idem then LocalDuplicate(v.idem[hash])
    else if remoteHit then RemoteDuplicate
    else if !valid || !queued then Refused
    else Fresh(id)
  }

  /** What it leaves behind: its row if it was accepted, else the store as it was. */
  function Left(v: State, hash: string, id: string, r: Result): State {
    match r
    case Fresh(_) => v.(rows := v.rows[id := hash], idem := v.idem[hash := id], accepted := v.accepted[id := hash])
    case LocalDuplicate(_) => v
    case _ => v.(deleted := v.deleted + {id})
  }

  /**
   * What a call owes its caller: a new job is taken exactly if its hash was not stored, no other region has it, it is
   * valid and the queue takes it; a stored hash gets the stored job; anything but a new job leaves the store alone.
   */
  ghost predicate Answers(v: State, t: State, hash: string, id: string, remoteHit: bool, valid: bool, queued: bool, r: Result) {
    && (r.Fresh? <==> hash !in v.idem && !remoteHit && valid && queued)
    && (r.LocalDuplicate? <==> hash in v.idem)
    && (r.RemoteDuplicate? <==> hash !in v.idem && remoteHit)
    && (r.Refused? <==> hash !in v.idem && !remoteHit && !(valid && queued))
    && (r.Fresh? ==> r == Fresh(id) && t.rows == v.rows[id := hash] && t.idem == v.idem[hash := id])
    && (r.LocalDuplicate? ==> r == LocalDuplicate(v.idem[hash]))
    && (!r.Fresh? ==> t.rows == v.rows && t.idem == v.idem && t.accepted == v.accepted)
  }

  lemma OutcomeAnswers(v: State, hash: string, id: string, remoteHit: bool, valid: bool, queued: bool)
    ensures var r := Outcome(v, hash, id, remoteHit, valid, queued);
            Answers(v, Left(v, hash, id, r), hash, id, remoteHit, valid, queued, r)
  {
  }

  /** Neither depends on the claims. */
  lemma HeldAside(v: State, held: set<string>, hash: string, id: string, remoteHit: bool, valid: bool, queued: bool)
    ensures var r := Outcome(v, hash, id, remoteHit, valid, queued);
            && Outcome(v.(held := held), hash, id, remoteHit, valid, queued) == r
            && Left(v.(held := held), hash, id, r) == Left(v, hash, id, r).(held := held) && Left(v, hash, id, r).held == v.held
  {
  }

  ghost predicate Reaches(s: State, t: State) {
    exists steps :: IsRun(s, steps) && NoDispatchPanic(steps) && After(s, steps) == t
  }

  lemma ReachesStep(s: State, t: State, step: Step)
    requires Reaches(s, t) && Enabled(t, step) && !step.DispatchPanics?
    ensures Reaches(s, Apply(t, step))
  {
    var steps :| IsRun(s, steps) && NoDispatchPanic(steps) && After(s, steps) == t;
    Extend(s, steps, step);
    hide IsRun, After, Apply, Enabled;
    assert NoDispatchPanic(steps + [step]);
  }

  lemma AloneIsDeleted(v: State, hash: string, id: string, outcome: Result)
    requires id !in v.rows && hash !in v.idem
    ensures var s := Alone(v.(rows := v.rows[id := hash], idem := v.idem[hash := id]), hash, id, Rejecting(outcome));
            && Enabled(s, DeleteRow(0))
            && Apply(s, DeleteRow(0)) == Alone(v.(deleted := v.deleted + {id}), hash, id, Done(outcome))
  {
    assert v.rows[id := hash] - {id} == v.rows;
    assert v.idem[hash := id] - {hash} == v.idem;
  }

  /** From the insert to the result. */
  lemma AloneSettles(s: State, v: State, hash: string, id: string, remoteHit: bool, valid: bool, queued: bool)
    requires Reaches(s, Alone(v, hash, id, Claimed)) && id !in v.rows
    ensures var r := Outcome(v, hash, id, remoteHit, valid, queued); Reaches(s, Alone(Left(v, hash, id, r), hash, id, Done(r)))
  {
    hide Reaches, Apply, Enabled;
    AloneInserts(v, hash, id);
    ReachesStep(s, Alone(v, hash, id, Claimed), CheckOrInsert(0));
    if hash !in v.idem {
      var w := v.(rows := v.rows[id := hash], idem := v.idem[hash := id]);
      if remoteHit || !valid {
        var outcome := if remoteHit then RemoteDuplicate else Refused;
        AloneProceeds(w, hash, id, Inserted, Rejecting(outcome));
        ReachesStep(s, Alone(w, hash, id, Inserted), Proceed(0, Rejecting(outcome)));
        AloneIsDeleted(v, hash, id, outcome);
        ReachesStep(s, Alone(w, hash, id, Rejecting(outcome)), DeleteRow(0));
      } else {
        AloneProceeds(w, hash, id, Inserted, Approved);
        ReachesStep(s, Alone(w, hash, id, Inserted), Proceed(0, Approved));
        AloneDispatches(s, v, hash, id, queued);
      }
    }
  }

  lemma AloneDispatches(s: State, v: State, hash: string, id: string, queued: bool)
    requires id !in v.rows && hash !in v.idem
    requires Reaches(s, Alone(v.(rows := v.rows[id := hash], idem := v.idem[hash := id]), hash, id, Approved))
    ensures var r := if queued then Fresh(id) else Refused; Reaches(s, Alone(Left(v, hash, id, r), hash, id, Done(r)))
  {
    hide Reaches, Apply, Enabled;
    var w := v.(rows := v.rows[id := hash], idem := v.idem[hash := id]);
    if queued {
      AloneIsAccepted(w, hash, id);
      ReachesStep(s, Alone(w, hash, id, Approved), Accept(0));
    } else {
      AloneProceeds(w, hash, id, Approved, Rejecting(Refused));
      ReachesStep(s, Alone(w, hash, id, Approved), Proceed(0, Rejecting(Refused)));
      AloneIsDeleted(v, hash, id, Refused);
      ReachesStep(s, Alone(w, hash, id, Rejecting(Refused)), DeleteRow(0));
    }
  }

  /** An uninterrupted call is a run of Intake, so everything proved of runs holds of it. */
  lemma EnqueueIsARun(v: State, hash: string, id: string, remoteHit: bool, valid: bool, queued: bool)
    requires v.callers == map[] && hash !in v.held && Enabled(v, Begin(0, hash, id))
    ensures var r := Outcome(v, hash, id, remoteHit, valid, queued);
            && Reaches(v, Left(v, hash, id, r).(callers := map[0 := Caller(hash, id, Done(r), false)]))
            && Answers(v, Left(v, hash, id, r), hash, id, remoteHit, valid, queued, r)
  {
    OutcomeAnswers(v, hash, id, remoteHit, valid, queued);
    hide Answers;
    assert id !in v.rows;
    assert IsRun(v, []) && NoDispatchPanic([]) && After(v, []) == v;
    assert Reaches(v, v);
    AloneClaims(v, hash, id);
    hide Reaches, Apply, Enabled;
    ReachesStep(v, v, Begin(0, hash, id));
    ReachesStep(v, Apply(v, Begin(0, hash, id)), Claim(0));
    var w := v.(held := v.held + {hash});
    AloneSettles(v, w, hash, id, remoteHit, valid, queued);
    var r := Outcome(v, hash, id, remoteHit, valid, queued);
    var left := Left(w, hash, id, r);
    AloneReleases(left, hash, id, r);
    ReachesStep(v, Alone(left, hash, id, Done(r)), Release(0));
    assert w.held - {hash} == v.held;
  }

  class Aquifer {
    const claims: KeyClaims
    var rows: map<string, string>
    var idem: map<string, string>
    ghost var accepted: map<string, string>
    ghost var deleted: set<string>

    constructor ()
      ensures fresh(claims) && View() == EMPTY
    {
      claims := new KeyClaims();
      rows, idem, accepted, deleted := map[], map[], map[], {};
    }

    ghost function View(): State
      reads this, claims
    {
      State(map[], claims.held.Keys, rows, idem, accepted, deleted, {})
    }

    /** CheckOrInsert as the store promises it: the existing job of this hash, or a new row. */
    method CheckOrInsert(hash: string, id: string) returns (existing: string, duplicate: bool)
      modifies this`rows, this`idem
      ensures duplicate <==> hash in old(idem)
      ensures if duplicate then rows == old(rows) && idem == old(idem) && existing == idem[hash]
              else rows == old(rows)[id := hash] && idem == old(idem)[hash := id] && existing == id
    {
      if hash in idem {
        return idem[hash], true;
      }
      rows, idem := rows[id := hash], idem[hash := id];
      return id, false;
    }

    method DeleteJob(id: string)
      modifies this`rows, this`idem
      ensures rows == old(rows) - {id}
      ensures idem == if id in old(rows) then old(idem) - {old(rows)[id]} else old(idem)
    {
      if id in rows {
        idem := idem - {rows[id]};
        rows := rows - {id};
      }
    }

    /** prepareJob once the claim is held: inserts the row, and takes it out again if the job is turned away. */
    method Prepare(hash: string, id: string, remoteHit: bool, valid: bool) returns (result: Option<Result>)
      requires id !in rows
      modifies this
      ensures result.None? <==> hash !in old(idem) && !remoteHit && valid
      ensures if result.None?
              then rows == old(rows)[id := hash] && idem == old(idem)[hash := id] && deleted == old(deleted)
              else result.value == Outcome(old(View()), hash, id, remoteHit, valid, false)
                   && View() == Left(old(View()), hash, id, result.value)
      ensures accepted == old(accepted)
    {
      var existing, duplicate := CheckOrInsert(hash, id);
      if duplicate {
        return Some(LocalDuplicate(existing));
      }
      if remoteHit || !valid {
        DeleteJob(id);
        deleted := deleted + {id};
        assert rows == old(rows) && idem == old(idem);
        return Some(if remoteHit then RemoteDuplicate else Refused);
      }
      return None;
    }

    /** Dispatch: the queue takes the job, or its row is deleted. */
    method Dispatch(hash: string, id: string, queued: bool) returns (r: Result)
      requires id in rows && rows[id] == hash
      modifies this
      ensures if queued then r == Fresh(id) && View() == old(View()).(accepted := old(accepted)[id := hash])
              else r == Refused && View() == Without(old(View()), id).(deleted := old(deleted) + {id})
    {
      if !queued {
        DeleteJob(id);
        deleted := deleted + {id};
        return Refused;
      }
      accepted := accepted[id := hash];
      return Fresh(id);
    }

    /** It gives the claim back, and either adds exactly its own row or leaves the store as it found it. */
    method Enqueue(hash: string, id: string, remoteHit: bool, valid: bool, queued: bool) returns (r: Result)
      requires hash !in claims.held && id !in rows
      modifies this, claims
      ensures claims.held == old(claims.held)
      ensures r == Outcome(old(View()), hash, id, remoteHit, valid, queued)
      ensures View() == Left(old(View()), hash, id, r)
      ensures Answers(old(View()), View(), hash, id, remoteHit, valid, queued, r)
    {
      ghost var v := View();
      OutcomeAnswers(v, hash, id, remoteHit, valid, queued);
      HeldAside(v, v.held + {hash}, hash, id, remoteHit, valid, queued);
      hide Answers, Outcome, Left;
      var claim := claims.TryClaim(hash);
      ghost var w := View();
      assert w.held == v.held + {hash} && w == v.(held := v.held + {hash});
      r := Settle(hash, id, remoteHit, valid, queued);
      claims.Release(claim);
      assert claims.held == old(claims.held);
    }

    /** Under the claim: prepared, and dispatched unless it was turned away. */
    method Settle(hash: string, id: string, remoteHit: bool, valid: bool, queued: bool) returns (r: Result)
      requires id !in rows
      modifies this
      ensures r == Outcome(old(View()), hash, id, remoteHit, valid, queued)
      ensures View() == Left(old(View()), hash, id, r)
    {
      ghost var v := View();
      var result := Prepare(hash, id, remoteHit, valid);
      if result.None? {
        r := Dispatch(hash, id, queued);
        assert v.rows[id := hash] - {id} == v.rows;
        assert v.idem[hash := id] - {hash} == v.idem;
      } else {
        r := result.value;
      }
    }
  }
}
