/** What answers and heartbeats do to a member's share of dispatch and to its place in the pool. */
module PoolLaws {
  import opened Basics
  import opened Pools
  import opened PoolEviction

  /** How far a pick moves a member: the further, the longer until its next turn. */
  function Stride(ms: map<string, Member>, id: string): real
    requires id in ms
  {
    Picked(ms, id)[id].position - ms[id].position
  }

  lemma ReciprocalOrder(a: real, b: real)
    requires 0.0 < a <= b
    ensures 1.0 / b <= 1.0 / a
  {
    var x, y := 1.0 / a, 1.0 / b;
    assert x * a == 1.0 && y * b == 1.0;
    assert y > x ==> y * b > x * b >= x * a;
  }

  lemma OnlyReciprocal(a: real, x: real)
    requires a > 0.0 && x * a == 1.0
    ensures 1.0 / a == x
  {
    var y := 1.0 / a;
    assert y * a == 1.0;
    assert (x - y) * a == 0.0;
  }

  /** A pick moves a member by the reciprocal of its declared rate times its reputation. */
  lemma StrideIs(ms: map<string, Member>, id: string)
    requires id in ms && ms[id].declaredRps > 0.0 && ms[id].reputation > 0.0
    ensures ms[id].declaredRps * ms[id].reputation > 0.0
    ensures Stride(ms, id) == 1.0 / (ms[id].declaredRps * ms[id].reputation)
  {
  }

  /** A failure that does not evict a member halves its share: its next pick takes it twice as far. */
  lemma FailureDoublesStride(ms: map<string, Member>, id: string, now: int)
    requires id in ms && ms[id].declaredRps > 0.0 && ms[id].reputation > 0.0 && !FailedOnce(ms[id], now).1
    ensures var t := ms[id := FailedOnce(ms[id], now).0]; Stride(t, id) == 2.0 * Stride(ms, id)
  {
    var t := ms[id := FailedOnce(ms[id], now).0];
    StrideIs(ms, id);
    StrideIs(t, id);
    var w := ms[id].declaredRps * ms[id].reputation;
    assert t[id].declaredRps * t[id].reputation == w * 0.5;
    hide *;
    var x := 1.0 / w;
    assert x * w == 1.0;
    assert (2.0 * x) * (w * 0.5) == 1.0;
    OnlyReciprocal(w * 0.5, 2.0 * x);
  }

  /** A success shortens it, by a third until the member is fully trusted again, and never lengthens it. */
  lemma SuccessShortensStride(ms: map<string, Member>, id: string)
    requires id in ms && ms[id].declaredRps > 0.0 && 0.0 < ms[id].reputation <= 1.0
    ensures var t := ms[id := Succeeded(ms[id])];
            && Stride(t, id) <= Stride(ms, id)
            && 3.0 * Stride(t, id) == (if 3.0 * ms[id].reputation <= 2.0 then 2.0 * Stride(ms, id) else 3.0 / ms[id].declaredRps)
  {
    var t := ms[id := Succeeded(ms[id])];
    var rps, r := ms[id].declaredRps, ms[id].reputation;
    StrideIs(ms, id);
    StrideIs(t, id);
    assert t[id].declaredRps == rps;
    assert 3.0 * r <= 2.0 ==> t[id].reputation == r * 1.5;
    assert 3.0 * r > 2.0 ==> t[id].reputation == 1.0;
    assert r <= t[id].reputation;
    var q := t[id].reputation;
    hide *;
    Shortens(rps, r, q);
  }

  lemma Shortens(rps: real, r: real, q: real)
    requires rps > 0.0 && 0.0 < r <= q && (q == 1.0 || q == r * 1.5)
    ensures rps * r > 0.0 && rps * q > 0.0 && 1.0 / (rps * q) <= 1.0 / (rps * r)
    ensures q == r * 1.5 ==> 3.0 * (1.0 / (rps * q)) == 2.0 * (1.0 / (rps * r))
    ensures q == 1.0 ==> 3.0 * (1.0 / (rps * q)) == 3.0 / rps
  {
    assert rps * r <= rps * q;
    ReciprocalOrder(rps * r, rps * q);
    var x := 1.0 / (rps * r);
    assert x * (rps * r) == 1.0;
    if q == r * 1.5 {
      assert rps * q == (rps * r) * 1.5;
      assert (x * 2.0 / 3.0) * ((rps * r) * 1.5) == 1.0;
      OnlyReciprocal(rps * q, x * 2.0 / 3.0);
    }
  }

  // ---- how trust comes back ----

  /** The reputation after `k` successes. */
  function Grown(r: real, k: nat): real { if k == 0 then r else MinReal(1.0, Grown(r, k - 1) * 1.5) }

  function Halved(r: real, n: nat): real { if n == 0 then r else Halved(r, n - 1) * 0.5 }

  lemma {:induction false} GrownOrder(a: real, b: real, k: nat)
    requires 0.0 <= a <= b
    ensures 0.0 <= Grown(a, k) <= Grown(b, k)
    decreases k
  {
    if k > 0 { GrownOrder(a, b, k - 1); }
  }

  lemma {:induction false} GrownInTwo(r: real, k: nat)
    ensures Grown(r, k + 2) == Grown(Grown(r, 2), k)
    decreases k
  {
    if k > 0 {
      GrownInTwo(r, k - 1);
      assert Grown(r, k + 2) == MinReal(1.0, Grown(r, k + 1) * 1.5);
    } else {
      assert Grown(Grown(r, 2), 0) == Grown(r, 2);
    }
  }

  lemma {:induction false} HalvedPositive(r: real, n: nat)
    requires 0.0 < r <= 1.0
    ensures 0.0 < Halved(r, n) <= 1.0
    decreases n
  {
    if n > 0 { HalvedPositive(r, n - 1); }
  }

  lemma {:induction false} GrowsBack(r: real, n: nat)
    requires 0.0 < r <= 1.0
    ensures Grown(Halved(r, n), 2 * n) >= r
    decreases n
  {
    if n > 0 {
      var h := Halved(r, n - 1);
      HalvedPositive(r, n - 1);
      GrownInTwo(Halved(r, n), 2 * (n - 1));
      assert Grown(h * 0.5, 1) == MinReal(1.0, (h * 0.5) * 1.5);
      assert Grown(h * 0.5, 2) == MinReal(1.0, Grown(h * 0.5, 1) * 1.5) >= h;
      GrownOrder(h, Grown(Halved(r, n), 2), 2 * (n - 1));
      GrowsBack(r, n - 1);
    }
  }

  function Failures(ts: seq<int>): seq<Event> { seq(|ts|, i requires 0 <= i < |ts| => Failure(ts[i])) }

  function Successes(k: nat): seq<Event> { seq(k, _ => Success) }

  lemma {:induction false} AfterFailures(m: Member, ts: seq<int>)
    ensures AfterAll(m, Failures(ts)).reputation == Halved(m.reputation, |ts|)
    decreases |ts|
  {
    if ts != [] {
      var init := ts[..|ts| - 1];
      AfterFailures(m, init);
      assert Failures(ts)[..|ts| - 1] == Failures(init);
    }
  }

  lemma {:induction false} AfterSuccesses(m: Member, es: seq<Event>, k: nat)
    ensures AfterAll(m, es + Successes(k)).reputation == Grown(AfterAll(m, es).reputation, k)
    decreases k
  {
    if k == 0 {
      assert es + Successes(0) == es;
    } else {
      AfterSuccesses(m, es, k - 1);
      var all := es + Successes(k);
      assert all[..|all| - 1] == es + Successes(k - 1) && all[|all| - 1] == Success;
    }
  }

  /** However many failures a member survived, twice as many successes restore the trust it had. */
  lemma TwiceAsManySuccessesRestore(m: Member, ts: seq<int>)
    requires 0.0 < m.reputation <= 1.0
    ensures AfterAll(m, Failures(ts) + Successes(2 * |ts|)).reputation >= m.reputation
  {
    AfterFailures(m, ts);
    AfterSuccesses(m, Failures(ts), 2 * |ts|);
    GrowsBack(m.reputation, |ts|);
  }

  // ---- when it is evicted ----

  lemma {:induction false} HalvedIsLow(n: nat)
    ensures Halved(1.0, n) <= 0.05 <==> n >= 5
    ensures Halved(1.0, n) > 0.0
    decreases n
  {
    if n > 6 {
      HalvedIsLow(n - 1);
    } else {
      assert Halved(1.0, 1) == 0.5 && Halved(1.0, 2) == 0.25 && Halved(1.0, 3) == 0.125 && Halved(1.0, 4) == 0.0625;
      assert Halved(1.0, 5) == 0.03125 && Halved(1.0, 6) == 0.015625;
    }
  }

  lemma {:induction false} TimerAfterFailures(m: Member, ts: seq<int>)
    requires m.reputation == 1.0 && m.floorSince == None
    ensures AfterAll(m, Failures(ts)).floorSince == if |ts| < 5 then None else Some(ts[4])
    decreases |ts|
  {
    if ts != [] {
      var init := ts[..|ts| - 1];
      TimerAfterFailures(m, init);
      AfterFailures(m, init);
      HalvedIsLow(|ts|);
      assert Failures(ts)[..|ts| - 1] == Failures(init);
      assert Halved(1.0, |ts|) == Halved(1.0, |init|) * 0.5;
    }
  }

  /**
   * A member that does nothing but fail is evicted by exactly the first failure that comes at least twelve seconds after
   * its fifth.
   */
  lemma FailingMemberIsEvicted(address: string, rps: real, interval: int, joined: int, position: real, ts: seq<int>, now: int)
    ensures FailedOnce(AfterAll(Joined(address, rps, interval, joined, position), Failures(ts)), now).1
       <==> |ts| >= 5 && now - ts[4] >= 12_000
  {
    var m := Joined(address, rps, interval, joined, position);
    AfterFailures(m, ts);
    TimerAfterFailures(m, ts);
    HalvedIsLow(|ts|);
    HalvedIsLow(|ts| + 1);
    assert Halved(1.0, |ts| + 1) == Halved(1.0, |ts|) * 0.5;
  }

  /**
   * A heartbeat counts from when it came, at the interval it named, and its member is gone once it has missed the limit.
   * It restores a tenth of the trust and neither moves the member nor stops the eviction timer.
   */
  lemma HeartbeatKeepsAlive(m: Member, address: string, rps: real, interval: int, beat: int, missLimit: int, now: int)
    requires interval > 0
    ensures Silent(Refreshed(m, address, rps, interval, beat), missLimit, now) <==> now > beat + interval * missLimit
    ensures var t := Refreshed(m, address, rps, interval, beat);
            && t.declaredRps == rps && t.position == m.position && t.floorSince == m.floorSince
            && t.reputation == if 11.0 * m.reputation > 10.0 then 1.0 else 1.1 * m.reputation
  {
  }
}
