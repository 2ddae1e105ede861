/** The scheduler of internal/websocket/queue.go as an object: its fields and its loops. */
module WebSocketQueue {
  import opened Schedulers

  /** The configuration in force: NewScheduler fills in what is missing. */
  function Defaulted(cfg: Config): (c: Config)
    ensures GoodConfig(c)
    ensures GoodConfig(cfg) ==> c == cfg
    ensures cfg.maxUpstreams <= 0 ==> c.maxUpstreams == 1000
    ensures cfg.maxWaiting <= 0 ==> c.maxWaiting == 1000
    ensures cfg.connectRPS <= 0.0 ==> c.connectRPS == 20.0
    ensures cfg.slowStartRPS <= 0.0 && c.connectRPS >= 1.0 ==> c.slowStartRPS == 1.0
  {
    var rps := if cfg.connectRPS <= 0.0 then 20.0 else cfg.connectRPS;
    var slow := if cfg.slowStartRPS <= 0.0 then 1.0 else cfg.slowStartRPS;
    Config(if cfg.maxUpstreams <= 0 then 1000 else cfg.maxUpstreams,
           if cfg.maxWaiting <= 0 then 1000 else cfg.maxWaiting,
           rps, if slow > rps then rps else slow)
  }

  lemma RemovedAt(q: seq<nat>, id: nat, i: nat)
    requires i < |q|
    ensures q[..i] + Removed(q[i..], id) ==
            if q[i] == id then q[..i] + q[i + 1..] else q[..i + 1] + Removed(q[i + 1..], id)
  {
    assert q[i..][1..] == q[i + 1..] && q[..i + 1] == q[..i] + [q[i]];
  }

  class Scheduler {
    const cfg: Config
    var now: int
    var waiters: map<nat, Waiter>
    var next: nat
    var queue: seq<nat>
    var active: int
    var rampRPS: real
    var advertisedMax: int
    var advertisedRPS: real
    var nextGrant: int
    ghost var log: seq<Grant>

    ghost function View(): State
      reads this
    {
      State(now, waiters, next, queue, active, rampRPS, advertisedMax, advertisedRPS, nextGrant, log)
    }

    ghost predicate Valid()
      reads this
    {
      cfg.connectRPS > 0.0 && Known(View())
    }

    constructor (cfg: Config, now: int)
      ensures this.cfg == Defaulted(cfg) && View() == Start(Defaulted(cfg), now) && Valid()
    {
      var c := Defaulted(cfg);
      this.cfg, this.now, waiters, next, queue, active := c, now, map[], 0, [], 0;
      rampRPS, advertisedMax, advertisedRPS, nextGrant, log := c.slowStartRPS, 0, 0.0, now, [];
    }

    /** Tells every waiter its place. */
    method PublishPositions()
      requires Valid()
      modifies this`waiters
      ensures Valid() && View() == Requeued(old(View()), old(waiters), queue)
    {
      ghost var ws := waiters;
      for i := 0 to |queue|
        invariant forall id <- queue :: id in waiters
        invariant Publish(waiters, queue, i) == Publish(ws, queue, 0)
      {
        var w := waiters[queue[i]];
        if w.position != i + 1 {
          waiters := waiters[queue[i] := w.(position := i + 1)];
        } else {
          assert waiters == waiters[queue[i] := w.(position := i + 1)];
        }
      }
    }

    method EnqueueUpstream() returns (admission: nat, full: bool)
      requires Valid()
      modifies this
      ensures Valid() && View() == Enqueue(cfg, old(View()))
      ensures full == (|old(queue)| >= cfg.maxWaiting) && (!full ==> admission == old(next) && admission in queue)
    {
      if |queue| >= cfg.maxWaiting {
        return 0, true;
      }
      waiters := waiters[next := Newcomer(|queue| + 1)];
      queue := queue + [next];
      next := next + 1;
      return next - 1, false;
    }

    /** Takes a waiter out of the queue, if it is there. */
    method RemoveWaiter(id: nat)
      modifies this`queue
      ensures queue == Removed(old(queue), id)
    {
      ghost var q := queue;
      for i := 0 to |queue|
        invariant queue == q && Removed(q, id) == q[..i] + Removed(q[i..], id)
      {
        hide Removed;
        RemovedAt(q, id, i);
        if queue[i] == id {
          queue := queue[..i] + queue[i + 1..];
          return;
        }
      }
      assert q[|q|..] == [] && q[..|q|] == q;
    }

    /** Out of the queue, or out of its slot. */
    method LeaveQueue(id: nat)
      requires Valid() && id in waiters
      modifies this
      ensures Valid() && View() == Leave(old(View()), id)
    {
      if waiters[id].granted {
        active := active - 1;
        waiters := waiters[id := waiters[id].(granted := false)];
        return;
      }
      waiters := waiters[id := waiters[id].(canceled := true)];
      RemoveWaiter(id);
      PublishPositions();
    }

    /** The end of a Wait whose context is done. */
    method GiveUp(id: nat)
      requires Valid() && id in waiters
      modifies this
      ensures Valid() && View() == Over(Leave(old(View()), id), id)
    {
      hide Leave;
      LeaveQueue(id);
      waiters := waiters[id := waiters[id].(over := true)];
    }

    /** Admission.Cancel. */
    method CancelAdmission(id: nat)
      requires Valid() && id in waiters
      modifies this
      ensures Valid() && View() == Cancel(old(View()), id)
    {
      hide Leave;
      if waiters[id].granted || !waiters[id].canceled {
        LeaveQueue(id);
      }
      waiters := waiters[id := waiters[id].(dropped := true)];
    }

    /** A look at the waiter's channel: once it is closed, Wait returns the release function, granted or not. */
    method ReceiveReady(id: nat) returns (received: bool)
      requires Valid() && id in waiters
      modifies this`waiters
      ensures Valid() && received == old(waiters)[id].ready
      ensures View() == if received then Take(old(View()), id) else old(View())
    {
      if !waiters[id].ready {
        return false;
      }
      waiters := waiters[id := waiters[id].(taken := true)];
      return true;
    }

    /** The function Wait returns, which runs once. */
    method ReleaseSlot(id: nat)
      requires Valid() && id in waiters
      modifies this
      ensures Valid() && View() == if old(waiters)[id].released then old(View()) else Release(old(View()), id)
    {
      if !waiters[id].released {
        waiters := waiters[id := waiters[id].(released := true)];
        if active > 0 {
          active := active - 1;
        }
      }
    }

    method DropCanceledHeads()
      requires Valid()
      modifies this`queue, this`waiters
      ensures Valid() && View() == DropCanceled(old(View()))
    {
      ghost var s := View();
      while |queue| > 0 && waiters[queue[0]].canceled
        invariant Valid() && DropCanceled(View()) == DropCanceled(s)
        decreases |queue|
      {
        ghost var t := View();
        queue := queue[1..];
        PublishPositions();
        assert View() == Requeued(t, t.waiters, t.queue[1..]);
      }
    }

    /** Grants at most one connection; `d` is the jittered interval. */
    method Ready(d: int) returns (delay: int, hasWork: bool)
      requires Valid()
      modifies this
      ensures Valid() && View() == GrantReady(cfg, old(View()), d)
      ensures delay > 0 ==> hasWork && delay == nextGrant - now
    {
      hide Interval, EffectiveRPS, Publish, GrantFirst;
      DropCanceledHeads();
      var max := if 0 < advertisedMax < cfg.maxUpstreams then advertisedMax else cfg.maxUpstreams;
      if |queue| == 0 || active >= max {
        return 0, false;
      }
      if nextGrant > now {
        return nextGrant - now, true;
      }
      hide DropCanceled;
      GrantHead(d);
      return 0, |queue| > 0;
    }

    /** A grant to the first in the queue. */
    method GrantHead(d: int)
      requires Valid() && queue != []
      modifies this
      ensures Valid() && View() == GrantFirst(cfg, old(View()), d) && queue == old(queue)[1..]
    {
      hide Interval, EffectiveRPS, Publish;
      var id := queue[0];
      log := log + [Grant(id, now, Interval(EffectiveRPS(cfg, old(View()))))];
      queue := queue[1..];
      PublishPositions();
      waiters := waiters[id := waiters[id].(granted := true, ready := true)];
      active := active + 1;
      nextGrant := now + d;
    }

    method ReportSuccess()
      modifies this`rampRPS
      ensures View() == Success(cfg, old(View()))
    {
      rampRPS := rampRPS * 2.0;
      if rampRPS > cfg.connectRPS {
        rampRPS := cfg.connectRPS;
      }
    }

    method ReportFailure(d: int)
      modifies this`rampRPS, this`nextGrant
      ensures View() == Failure(cfg, old(View()), d)
    {
      rampRPS := cfg.slowStartRPS;
      if |queue| > 0 {
        var earliest := now + d;
        if nextGrant < earliest {
          nextGrant := earliest;
        }
      }
    }

    method UpdateCapacity(max: int, rps: real)
      modifies this`advertisedMax, this`advertisedRPS
      ensures View() == Update(old(View()), max, rps)
    {
      if max > 0 {
        advertisedMax := max;
      }
      if rps > 0.0 {
        advertisedRPS := rps;
      }
    }
  }
}
