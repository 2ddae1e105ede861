/** A run of the scheduler after which the same admission can be cancelled and taken, in either order. */
module SchedulerLimits {
  import opened Schedulers

  const CFG := Config(2, 10, 1.0, 1.0)
  const SECOND := 1_000_000_000

  /** Two waiters come, and both are granted a slot. */
  const BOTH_GRANTED: seq<Step> := [Enqueueing, Enqueueing, Granting(SECOND), Pass(SECOND), Granting(SECOND)]

  lemma Intervals(s: State)
    requires s.rampRPS == 1.0 && s.advertisedRPS == 0.0
    ensures EffectiveRPS(CFG, s) == 1.0 && Interval(1.0) == SECOND && Jittered(SECOND, SECOND)
  {
  }

  lemma RunOne(s: State, t: State, step: Step, rest: seq<Step>)
    requires Enabled(CFG, s, step) && !Misused(s, step) && t == Apply(CFG, s, step) && IsRun(CFG, t, rest)
    ensures IsRun(CFG, s, [step] + rest) && After(CFG, s, [step] + rest) == After(CFG, t, rest)
  {
    assert ([step] + rest)[1..] == rest;
  }

  /** The first in the queue, alone or followed by another, is granted a slot. */
  lemma GrantsHead(s: State)
    requires s.rampRPS == 1.0 && s.advertisedRPS == 0.0 && s.advertisedMax == 0 && s.nextGrant <= s.now && s.active < 2
    requires |s.queue| == 1 || (|s.queue| == 2 && s.queue[1] in s.waiters && s.queue[1] != s.queue[0])
    requires s.queue[0] in s.waiters && !s.waiters[s.queue[0]].canceled
    ensures Enabled(CFG, s, Granting(SECOND))
    ensures var id, t := s.queue[0], Apply(CFG, s, Granting(SECOND));
            && t.active == s.active + 1 && t.queue == s.queue[1..] && t.now == s.now && t.nextGrant == s.now + SECOND
            && t.waiters.Keys == s.waiters.Keys && t.waiters[id] == s.waiters[id].(granted := true, ready := true)
            && (forall x <- s.waiters :: x != id ==> t.waiters[x] == s.waiters[x].(position := t.waiters[x].position))
            && t.rampRPS == s.rampRPS && t.advertisedRPS == 0.0 && t.advertisedMax == 0
  {
    Intervals(s);
    var q := s.queue[1..];
    PublishSets(s.waiters, q, 0);
    assert q[0..] == q;
    assert DropCanceled(s) == s;
    hide Publish, DropCanceled, Interval, EffectiveRPS;
  }

  /** Both slots are held, and neither has been taken. */
  lemma BothAreGranted()
    ensures IsRun(CFG, Start(CFG, 0), BOTH_GRANTED)
    ensures var s := After(CFG, Start(CFG, 0), BOTH_GRANTED);
            s.active == 2 && Known(s) && 0 in s.waiters && s.waiters[0].granted && !s.waiters[0].taken
  {
    var s0 := Start(CFG, 0);
    var s1 := Apply(CFG, s0, Enqueueing);
    var s2 := Apply(CFG, s1, Enqueueing);
    GrantsHead(s2);
    var s3 := Apply(CFG, s2, Granting(SECOND));
    var s4 := Apply(CFG, s3, Pass(SECOND));
    GrantsHead(s4);
    var s5 := Apply(CFG, s4, Granting(SECOND));
    hide Apply, Enabled;
    RunOne(s4, s5, Granting(SECOND), []);
    RunOne(s3, s4, Pass(SECOND), [Granting(SECOND)]);
    RunOne(s2, s3, Granting(SECOND), [Pass(SECOND), Granting(SECOND)]);
    RunOne(s1, s2, Enqueueing, [Granting(SECOND), Pass(SECOND), Granting(SECOND)]);
    RunOne(s0, s1, Enqueueing, [Enqueueing, Granting(SECOND), Pass(SECOND), Granting(SECOND)]);
  }

  /** From there, cancelling after taking and taking after cancelling each give the first slot back twice. */
  lemma BothOrdersFreeTwice()
    ensures IsRun(CFG, Start(CFG, 0), BOTH_GRANTED)
    ensures var s := After(CFG, Start(CFG, 0), BOTH_GRANTED);
            && Known(s) && 0 in s.waiters && Enabled(CFG, s, Taking(0))
            && FreedTwice(s, Release(Take(Cancel(s, 0), 0), 0))
            && FreedTwice(s, Release(Cancel(Take(s, 0), 0), 0))
  {
    BothAreGranted();
    StartOk(CFG, 0);
    RunKeeps(CFG, Start(CFG, 0), BOTH_GRANTED);
    var s := After(CFG, Start(CFG, 0), BOTH_GRANTED);
    hide *;
    EitherOrderFreesTwice(CFG, s, 0);
    ReadyToTake(CFG, s, 0);
  }

  lemma ReadyToTake(cfg: Config, s: State, id: nat)
    requires cfg.connectRPS > 0.0 && Inv(cfg, s) && Known(s) && id in s.waiters && s.waiters[id].granted && !s.waiters[id].taken
    ensures Enabled(cfg, s, Taking(id))
  {
    assert FlagOk(s.waiters[id]);
  }
}
