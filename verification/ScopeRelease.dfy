/**
 * How a node gives back a scope (internal/cluster/router.go): the sync and rebalance passes check a scope,
 * release it in the shared store and forget it, under the scope's lock, while requests resolve owners and
 * track jobs. Several scopes share a lock. Every access under the router's own mutex is one step.
 */
module ScopeRelease {

  /** `lockOf` is the stripe a scope's lock falls in. */
  datatype Config = Config(lockOf: string -> int, idleTTL: int, grace: int)

  datatype Activity = Activity(lastSeen: int, outstanding: int)

  /** Why a scope is given back: unused for the whole idle time, or handed to its preferred node. */
  datatype Reason = Idle | HandBack

  /** Where the one releasing pass is: between scopes, or holding a scope's lock. */
  datatype Pass = Between | Checked(key: string, reason: Reason) | Released(key: string, reason: Reason)

  /** A release: how long the scope had gone unseen, and the jobs then in progress for it. */
  datatype Event = Event(key: string, reason: Reason, idleFor: int, jobs: int)

  /** `resolving` are the requests holding the lock of their scope; `jobs` and `log` only record what happens. */
  datatype State = State(
    now: int,
    scopes: map<string, Activity>,
    pass: Pass,
    resolving: map<nat, string>,
    jobs: map<string, int>,
    log: seq<Event>)

  function Start(now: int): State { State(now, map[], Between, map[], map[], []) }

  function Jobs(s: State, key: string): int { if key in s.jobs then s.jobs[key] else 0 }

  function Outstanding(s: State, key: string): int { if key in s.scopes then s.scopes[key].outstanding else 0 }

  predicate LockFree(cfg: Config, s: State, key: string) {
    && (s.pass != Between ==> cfg.lockOf(s.pass.key) != cfg.lockOf(key))
    && forall r <- s.resolving :: cfg.lockOf(s.resolving[r]) != cfg.lockOf(key)
  }

  /** How long a scope must have gone unseen. */
  function Unseen(cfg: Config, reason: Reason): int { if reason.Idle? then cfg.idleTTL else cfg.grace }

  /** stillIdle. */
  predicate MayGo(cfg: Config, s: State, key: string, reason: Reason) {
    && key in s.scopes && s.scopes[key].outstanding == 0
    && s.now - s.scopes[key].lastSeen >= Unseen(cfg, reason)
    && (reason.HandBack? ==> s.now - s.scopes[key].lastSeen < cfg.idleTTL)
  }

  datatype Step =
    | Pass(time: nat)
    | Track(key: string)
    | Complete(key: string)
    | Resolve(who: nat, key: string)
    | Resolved(who: nat, mine: bool)
    | Check(key: string, reason: Reason)
    | Release(failed: bool)
    | Forget

  predicate Enabled(cfg: Config, s: State, step: Step) {
    match step
    case Pass(_) => true
    case Track(key) => LockFree(cfg, s, key)
    case Complete(key) => LockFree(cfg, s, key) && Jobs(s, key) > 0
    case Resolve(who, key) => LockFree(cfg, s, key) && who !in s.resolving
    case Resolved(who, _) => who in s.resolving
    case Check(key, _) => LockFree(cfg, s, key) && s.pass == Between
    case Release(_) => s.pass.Checked?
    case Forget => s.pass.Released?
  }

  function Seen(s: State, key: string, more: int): map<string, Activity> {
    s.scopes[key := Activity(s.now, Outstanding(s, key) + more)]
  }

  function Apply(cfg: Config, s: State, step: Step): State
    requires Enabled(cfg, s, step)
  {
    match step
    case Pass(time) => s.(now := s.now + time)
    case Track(key) => s.(scopes := Seen(s, key, 1), jobs := s.jobs[key := Jobs(s, key) + 1])
    case Complete(key) =>
      s.(jobs := s.jobs[key := Jobs(s, key) - 1],
         scopes := if key !in s.scopes then s.scopes
                   else Seen(s, key, if s.scopes[key].outstanding > 0 then -1 else 0))
    case Resolve(who, key) => s.(resolving := s.resolving[who := key])
    case Resolved(who, mine) =>
      s.(resolving := s.resolving - {who}, scopes := if mine then Seen(s, s.resolving[who], 0) else s.scopes)
    case Check(key, reason) => if MayGo(cfg, s, key, reason) then s.(pass := Checked(key, reason)) else s
    case Release(failed) =>
      var p := s.pass;
      // A hand-back gives up when the store fails; an idle scope is forgotten anyway.
      if failed && p.reason.HandBack? then s.(pass := Between)
      else
        var idleFor := if p.key in s.scopes then s.now - s.scopes[p.key].lastSeen else 0;
        s.(pass := Released(p.key, p.reason), log := s.log + [Event(p.key, p.reason, idleFor, Jobs(s, p.key))])
    case Forget => s.(pass := Between, scopes := s.scopes - {s.pass.key})
  }

  // ---- the invariant ----

  /** A node never forgets a job in progress. */
  ghost predicate CountsOk(s: State) { forall key: string :: Outstanding(s, key) == Jobs(s, key) >= 0 }

  /** The scope being released has no work, and has gone unseen long enough. */
  predicate PassOk(cfg: Config, s: State) {
    s.pass != Between ==>
      var key := s.pass.key;
      && key in s.scopes && s.scopes[key].outstanding == 0
      && s.now - s.scopes[key].lastSeen >= Unseen(cfg, s.pass.reason)
  }

  /** Every lock has one holder. */
  predicate LocksOk(cfg: Config, s: State) {
    && (forall r <- s.resolving, q <- s.resolving :: cfg.lockOf(s.resolving[r]) == cfg.lockOf(s.resolving[q]) ==> r == q)
    && (s.pass != Between ==> forall r <- s.resolving :: cfg.lockOf(s.resolving[r]) != cfg.lockOf(s.pass.key))
  }

  predicate SafeEvent(cfg: Config, e: Event) { e.jobs == 0 && e.idleFor >= Unseen(cfg, e.reason) }

  predicate LogOk(cfg: Config, s: State) { forall e <- s.log :: SafeEvent(cfg, e) }

  ghost predicate Inv(cfg: Config, s: State) { CountsOk(s) && PassOk(cfg, s) && LocksOk(cfg, s) && LogOk(cfg, s) }

  // ---- every step keeps it ----

  /** While a pass holds a scope's lock, nobody else changes that scope. */
  lemma HeldStill(cfg: Config, s: State, step: Step)
    requires LocksOk(cfg, s) && Enabled(cfg, s, step) && s.pass != Between && !step.Release? && !step.Forget?
    ensures var t := Apply(cfg, s, step);
            && t.pass == s.pass && s.now <= t.now
            && (s.pass.key in t.scopes <==> s.pass.key in s.scopes)
            && (s.pass.key in s.scopes ==> t.scopes[s.pass.key] == s.scopes[s.pass.key])
            && Jobs(t, s.pass.key) == Jobs(s, s.pass.key)
  {
  }

  lemma StepKeepsCounts(cfg: Config, s: State, step: Step)
    requires CountsOk(s) && PassOk(cfg, s) && Enabled(cfg, s, step)
    ensures CountsOk(Apply(cfg, s, step))
  {
    var t := Apply(cfg, s, step);
    forall key: string ensures Outstanding(t, key) == Jobs(t, key) >= 0 {
      assert Outstanding(s, key) == Jobs(s, key) >= 0;
      if step.Forget? {
        assert Outstanding(s, s.pass.key) == 0;
      }
    }
  }

  lemma StepKeepsPass(cfg: Config, s: State, step: Step)
    requires PassOk(cfg, s) && LocksOk(cfg, s) && Enabled(cfg, s, step)
    ensures PassOk(cfg, Apply(cfg, s, step))
  {
    if s.pass != Between && !step.Release? && !step.Forget? {
      HeldStill(cfg, s, step);
    }
  }

  lemma StepKeepsLocks(cfg: Config, s: State, step: Step)
    requires LocksOk(cfg, s) && Enabled(cfg, s, step)
    ensures LocksOk(cfg, Apply(cfg, s, step))
  {
  }

  lemma StepKeepsLog(cfg: Config, s: State, step: Step)
    requires Inv(cfg, s) && Enabled(cfg, s, step)
    ensures LogOk(cfg, Apply(cfg, s, step))
  {
    if step.Release? {
      assert Outstanding(s, s.pass.key) == Jobs(s, s.pass.key);
    }
  }

  predicate IsRun(cfg: Config, s: State, steps: seq<Step>)
    decreases |steps|
  {
    steps != [] ==> Enabled(cfg, s, steps[0]) && IsRun(cfg, Apply(cfg, s, steps[0]), steps[1..])
  }

  function After(cfg: Config, s: State, steps: seq<Step>): State
    requires IsRun(cfg, s, steps)
    decreases |steps|
  {
    if steps == [] then s else After(cfg, Apply(cfg, s, steps[0]), steps[1..])
  }

  lemma {:induction false} RunKeeps(cfg: Config, s: State, steps: seq<Step>)
    requires Inv(cfg, s) && IsRun(cfg, s, steps)
    ensures Inv(cfg, After(cfg, s, steps))
    decreases |steps|
  {
    if steps != [] {
      StepKeepsCounts(cfg, s, steps[0]);
      StepKeepsPass(cfg, s, steps[0]);
      StepKeepsLocks(cfg, s, steps[0]);
      StepKeepsLog(cfg, s, steps[0]);
      hide CountsOk, PassOk, LocksOk, LogOk, Apply, Enabled;
      RunKeeps(cfg, Apply(cfg, s, steps[0]), steps[1..]);
    }
  }

  /**
   * On every interleaving a scope is released only with no local job in progress for it, and after it has gone
   * unseen for the idle time, or for the grace time when it is handed back; and the count kept for each
   * scope is the number of jobs really in progress, so forgetting one loses none.
   */
  lemma ReleasesAreSafe(cfg: Config, now: int, steps: seq<Step>)
    requires IsRun(cfg, Start(now), steps)
    ensures var s := After(cfg, Start(now), steps);
            && (forall e <- s.log :: e.jobs == 0 && e.idleFor >= match e.reason case Idle => cfg.idleTTL case HandBack => cfg.grace)
            && forall key: string :: Outstanding(s, key) == Jobs(s, key)
  {
    RunKeeps(cfg, Start(now), steps);
    hide After, IsRun;
    assert forall e <- After(cfg, Start(now), steps).log :: SafeEvent(cfg, e);
  }

  /**
   * A pass that takes up a scope gives it back exactly if it has no work and has gone unseen long enough, and a hand-back
   * not so long that it is idle altogether; otherwise it leaves everything as it was.
   */
  lemma GivesBackExactly(cfg: Config, s: State, key: string, reason: Reason)
    requires Inv(cfg, s) && s.pass == Between && LockFree(cfg, s, key)
    ensures var due := key in s.scopes && s.scopes[key].outstanding == 0
                       && (var unseen := s.now - s.scopes[key].lastSeen;
                           match reason case Idle => unseen >= cfg.idleTTL case HandBack => cfg.grace <= unseen < cfg.idleTTL);
            if due then
              var steps := [Check(key, reason)] + ([Release(false)] + ([Forget] + []));
              && IsRun(cfg, s, steps)
              && var t := After(cfg, s, steps);
              && t.scopes == s.scopes - {key} && t.pass == Between
              && t.log == s.log + [Event(key, reason, s.now - s.scopes[key].lastSeen, 0)]
            else Apply(cfg, s, Check(key, reason)) == s
  {
    if MayGo(cfg, s, key, reason) {
      assert Outstanding(s, key) == Jobs(s, key);
      var s1 := Apply(cfg, s, Check(key, reason));
      var s2 := Apply(cfg, s1, Release(false));
      var s3 := Apply(cfg, s2, Forget);
      assert s3.scopes == s.scopes - {key} && s3.pass == Between;
      assert s3.log == s.log + [Event(key, reason, s.now - s.scopes[key].lastSeen, 0)];
      assert Enabled(cfg, s, Check(key, reason)) && Enabled(cfg, s1, Release(false)) && Enabled(cfg, s2, Forget);
      hide Inv, Apply, Enabled, MayGo, LockFree;
      Chain(cfg, s2, s3, Forget, []);
      Chain(cfg, s1, s2, Release(false), [Forget] + []);
      Chain(cfg, s, s1, Check(key, reason), [Release(false)] + ([Forget] + []));
    }
  }

  lemma Chain(cfg: Config, s: State, t: State, step: Step, rest: seq<Step>)
    requires Enabled(cfg, s, step) && t == Apply(cfg, s, step) && IsRun(cfg, t, rest)
    ensures IsRun(cfg, s, [step] + rest) && After(cfg, s, [step] + rest) == After(cfg, t, rest)
  {
    assert ([step] + rest)[1..] == rest;
  }

  /** From the check to the release, whatever else happens, no job is tracked for the scope and it is not seen. */
  lemma {:induction false} NothingBetweenCheckAndRelease(cfg: Config, s: State, steps: seq<Step>)
    requires Inv(cfg, s) && IsRun(cfg, s, steps) && s.pass.Checked?
    requires forall step <- steps :: !step.Release? && !step.Forget?
    ensures var t := After(cfg, s, steps);
            && t.pass == s.pass && s.pass.key in t.scopes && t.scopes[s.pass.key] == s.scopes[s.pass.key]
            && Jobs(t, s.pass.key) == 0
    decreases |steps|
  {
    if steps == [] {
      assert Outstanding(s, s.pass.key) == Jobs(s, s.pass.key);
    } else {
      assert steps[0] in steps;
      HeldStill(cfg, s, steps[0]);
      RunKeeps(cfg, s, [steps[0]]);
      assert [steps[0]][1..] == [];
      assert After(cfg, Apply(cfg, s, steps[0]), []) == Apply(cfg, s, steps[0]);
      assert After(cfg, s, [steps[0]]) == Apply(cfg, s, steps[0]);
      hide CountsOk, PassOk, LocksOk, LogOk, Apply, Enabled;
      NothingBetweenCheckAndRelease(cfg, Apply(cfg, s, steps[0]), steps[1..]);
    }
  }
}
