/** The idle-time condition of the rate bound is necessary: when it fails for the pre-auth
  emergency bucket, a run exists that drains the bucket twice within one refill. */
module AbuseTight {
  import opened AbuseModel
  import opened AbuseRates

  const EMERGENCY: Key := Identity(Global, GlobalEmergency, "pre-auth-global")
  const PROBE: Request := Request(GlobalEmergency, true, 1, "", "", "", "", "")

  function Only(b: Bucket): Buckets { map[EMERGENCY := b] }

  function Drain(n: nat, now: real): (es: seq<Event>)
    ensures |es| == n && forall i :: 0 <= i < n ==> es[i] == Decide(now, PROBE)
  {
    if n == 0 then [] else [Decide(now, PROBE)] + Drain(n - 1, now)
  }

  /** A table that knows no bucket but the emergency one. */
  predicate Alone(m: Buckets) { m.Keys <= {EMERGENCY} }

  lemma ProbeScan(st: Settings, m: Buckets, now: real)
    requires ValidSettings(st) && Alone(m) && LevelAt(st, m, EMERGENCY, now) >= 1.0
    ensures var scan := ScanItems(st, m, [EMERGENCY], now, 1.0, []);
            scan.Clear? && scan.keys == [EMERGENCY] && scan.buckets.Keys == {EMERGENCY}
  {
    var slot := SlotFor(st, m, EMERGENCY, now);
    if EMERGENCY !in m {
      assert m.Keys == {};
      assert |m| == |m.Keys| == 0;
      assert InDomain(m, Global) == {};
    }
    SlotKeepsLevels(st, m, EMERGENCY, now);
    assert LevelAt(st, slot.buckets, EMERGENCY, now) == LevelAt(st, m, EMERGENCY, now);
    var items := [EMERGENCY];
    assert items[1..] == [];
    assert ScanItems(st, slot.buckets, items[1..], now, 1.0, [EMERGENCY]) == Clear([EMERGENCY], slot.buckets);
    assert [] + [EMERGENCY] == [EMERGENCY];
  }

  lemma ProbeAllowed(st: Settings, m: Buckets, now: real)
    requires ValidSettings(st) && Alone(m) && LevelAt(st, m, EMERGENCY, now) >= 1.0
    ensures ChargedKeys(st, m, [EMERGENCY], 1.0, now) == [EMERGENCY]
    ensures DecideOn(st, m, [EMERGENCY], 1.0, now).1 == Allow(1.0)
    ensures DecideOn(st, m, [EMERGENCY], 1.0, now).0.Keys == {EMERGENCY}
  {
    ProbeScan(st, m, now);
  }

  lemma ProbeCharged(st: Settings, m: Buckets, now: real)
    requires ValidSettings(st) && Alone(m) && LevelAt(st, m, EMERGENCY, now) >= 1.0
    ensures var m' := DecideOn(st, m, [EMERGENCY], 1.0, now).0;
      EMERGENCY in m' && m'[EMERGENCY] == Bucket(LevelAt(st, m, EMERGENCY, now) - 1.0, now, now)
  {
    ProbeAllowed(st, m, now);
    AllOrNothing(st, m, [EMERGENCY], 1.0, now);
    assert ChargedExactly(st, m, DecideOn(st, m, [EMERGENCY], 1.0, now).0, [EMERGENCY], 1.0, now);
    assert EMERGENCY in [EMERGENCY];
  }

  lemma OnlyOne(m: Buckets, b: Bucket)
    requires m.Keys == {EMERGENCY} && m[EMERGENCY] == b
    ensures m == Only(b)
  {}

  lemma ProbeDecision(st: Settings, m: Buckets, now: real)
    requires ValidSettings(st) && Alone(m) && LevelAt(st, m, EMERGENCY, now) >= 1.0
    ensures ChargedKeys(st, m, [EMERGENCY], 1.0, now) == [EMERGENCY]
    ensures DecideOn(st, m, [EMERGENCY], 1.0, now)
            == (Only(Bucket(LevelAt(st, m, EMERGENCY, now) - 1.0, now, now)), Allow(1.0))
  {
    ProbeAllowed(st, m, now);
    ProbeCharged(st, m, now);
    OnlyOne(DecideOn(st, m, [EMERGENCY], 1.0, now).0, Bucket(LevelAt(st, m, EMERGENCY, now) - 1.0, now, now));
  }

  /** One admitted probe, seen from the runs that continue after it. */
  lemma ProbeStep(st: Settings, s: Limiter, now: real) returns (s': Limiter)
    requires ValidSettings(st)
    requires Alone(Cleanup(st, s, now).buckets)
    requires LevelAt(st, Cleanup(st, s, now).buckets, EMERGENCY, now) >= 1.0
    ensures s'.buckets == Only(Bucket(LevelAt(st, Cleanup(st, s, now).buckets, EMERGENCY, now) - 1.0, now, now))
    ensures s'.lastCleanupAt == Cleanup(st, s, now).lastCleanupAt
    ensures forall es :: && Run(st, s, [Decide(now, PROBE)] + es) == Run(st, s', es)
                         && Spent(st, s, [Decide(now, PROBE)] + es, EMERGENCY) == 1.0 + Spent(st, s', es, EMERGENCY)
  {
    assert Descriptors(PROBE) == [EMERGENCY] && Cost(PROBE) == 1.0;
    ProbeDecision(st, Cleanup(st, s, now).buckets, now);
    var e := Decide(now, PROBE);
    s' := Step(st, s, e).0;
    assert Spend(st, s, e, EMERGENCY) == 1.0;
    forall es ensures Run(st, s, [e] + es) == Run(st, s', es)
                      && Spent(st, s, [e] + es, EMERGENCY) == 1.0 + Spent(st, s', es, EMERGENCY)
    {
      assert ([e] + es)[0] == e && ([e] + es)[1..] == es;
    }
  }

  /** What draining n tokens from s does. */
  ghost predicate Drains(st: Settings, s: Limiter, n: nat, left: real, now: real)
    requires ValidSettings(st)
  {
    var s' := Run(st, s, Drain(n, now));
    && Spent(st, s, Drain(n, now), EMERGENCY) == n as real
    && s'.buckets == Only(Bucket(left, now, now))
    && (now - s.lastCleanupAt < st.cleanupIntervalMs ==> s'.lastCleanupAt == s.lastCleanupAt)
  }

  lemma {:induction false} DrainSpends(st: Settings, s: Limiter, x: real, n: nat, now: real)
    requires ValidSettings(st) && n as real <= x <= Capacity(st, EMERGENCY)
    requires s.buckets == Only(Bucket(x, now, now))
    ensures Drains(st, s, n, x - n as real, now)
    decreases n
  {
    if n > 0 {
      assert Cleanup(st, s, now).buckets == s.buckets;
      var s1 := ProbeStep(st, s, now);
      DrainSpends(st, s1, x - 1.0, n - 1, now);
      assert Drain(n, now) == [Decide(now, PROBE)] + Drain(n - 1, now);
    }
  }

  /** From an empty table, `capacity` probes at one instant are all admitted. */
  lemma FullDrain(st: Settings, s: Limiter, now: real)
    requires ValidSettings(st) && Cleanup(st, s, now).buckets == map[]
    ensures Drains(st, s, ConfigOf(st, Global, GlobalEmergency).capacity, 0.0, now)
  {
    var n := ConfigOf(st, Global, GlobalEmergency).capacity;
    var s1 := ProbeStep(st, s, now);
    DrainSpends(st, s1, n as real - 1.0, n - 1, now);
    assert Drain(n, now) == [Decide(now, PROBE)] + Drain(n - 1, now);
  }

  lemma {:induction false} SpentAppend(st: Settings, s: Limiter, a: seq<Event>, b: seq<Event>, k: Key)
    requires ValidSettings(st)
    ensures Spent(st, s, a + b, k) == Spent(st, s, a, k) + Spent(st, Run(st, s, a), b, k)
    ensures Run(st, s, a + b) == Run(st, Run(st, s, a), b)
    decreases |a|
  {
    if a == [] {
      assert a + b == b;
    } else {
      assert (a + b)[0] == a[0] && (a + b)[1..] == a[1..] + b;
      SpentAppend(st, Step(st, s, a[0]).0, a[1..], b, k);
    }
  }

  lemma {:induction false} DrainTimed(n: nat, rest: seq<Event>, from: real, now: real, to: real)
    requires from <= now && Timed(rest, now, to)
    ensures Timed(Drain(n, now) + rest, from, to)
  {
    if rest == [] { } else { TimedEarlier(rest, from, now, to); }
    if n == 0 {
      assert Drain(n, now) + rest == rest;
    } else {
      assert (Drain(n, now) + rest)[0] == Decide(now, PROBE);
      assert (Drain(n, now) + rest)[1..] == Drain(n - 1, now) + rest;
      DrainTimed(n - 1, rest, now, now, to);
    }
  }

  lemma {:induction false} TimedEarlier(es: seq<Event>, from: real, now: real, to: real)
    requires from <= now && Timed(es, now, to)
    ensures Timed(es, from, to)
  {
    if es != [] && !HasTime(es[0]) { TimedEarlier(es[1..], from, now, to); }
  }

  ghost predicate Bounded(st: Settings, k: Key)
    requires ValidSettings(st)
  {
    forall t0, history, window, from, to ::
      Timed(history, t0, from) && Timed(window, from, to) && NoReset(window)
      ==> Spent(st, Run(st, Initial(t0), history), window, k) <= Capacity(st, k) + (to - from) / Refill(st, k)
  }

  /** Draining twice, with a gap that forgets the bucket before it has refilled. */
  lemma TwoDrains(st: Settings, t1: real, t2: real)
    requires ValidSettings(st) && 0.0 <= t1 < st.cleanupIntervalMs <= t2 && st.idleTtlMs < t2 - t1
    ensures var n := ConfigOf(st, Global, GlobalEmergency).capacity;
            Spent(st, Initial(0.0), Drain(n, t1) + Drain(n, t2), EMERGENCY) == 2.0 * Capacity(st, EMERGENCY)
  {
    var n := ConfigOf(st, Global, GlobalEmergency).capacity;
    var s0 := Initial(0.0);
    FullDrain(st, s0, t1);
    var s1 := Run(st, s0, Drain(n, t1));
    assert s1.buckets == Only(Bucket(0.0, t1, t1)) && s1.lastCleanupAt == 0.0;
    assert Cleanup(st, s1, t2).buckets == map[];
    FullDrain(st, s1, t2);
    SpentAppend(st, s0, Drain(n, t1), Drain(n, t2), EMERGENCY);
  }

  /** A window from the initial state that spends too much refutes the bound. */
  lemma Refuted(st: Settings, window: seq<Event>, k: Key, from: real, to: real)
    requires ValidSettings(st) && 0.0 <= from && Timed(window, from, to) && NoReset(window)
    requires Spent(st, Initial(0.0), window, k) > Capacity(st, k) + (to - from) / Refill(st, k)
    ensures !Bounded(st, k)
  {
    assert Run(st, Initial(0.0), []) == Initial(0.0);
    assert Timed([], 0.0, from);
  }

  lemma DrainsTimed(n: nat, t1: real, t2: real)
    requires t1 <= t2
    ensures Timed(Drain(n, t1) + Drain(n, t2), t1, t2) && NoReset(Drain(n, t1) + Drain(n, t2))
  {
    DrainTimed(n, [], t1, t2, t2);
    assert Drain(n, t2) + [] == Drain(n, t2);
    DrainTimed(n, Drain(n, t2), t1, t1, t2);
  }

  /** A run that beats the bound when the emergency bucket may be forgotten too early. */
  lemma DoubleDrain(st: Settings)
    requires ValidSettings(st) && !IdleCovers(st, EMERGENCY)
    ensures !Bounded(st, EMERGENCY)
  {
    var cap, r := Capacity(st, EMERGENCY), Refill(st, EMERGENCY);
    var n := ConfigOf(st, Global, GlobalEmergency).capacity;
    var t1 := st.cleanupIntervalMs - 0.5;
    var t2 := t1 + (st.idleTtlMs + cap * r) / 2.0;
    assert t2 - t1 < cap * r;
    assert (t2 - t1) / r < cap by { ScaledQuotient(t2 - t1, cap, r); }
    TwoDrains(st, t1, t2);
    DrainsTimed(n, t1, t2);
    Refuted(st, Drain(n, t1) + Drain(n, t2), EMERGENCY, t1, t2);
  }

  /** For the pre-auth emergency bucket the rate bound holds over all runs exactly when the idle
      time covers its refill. */
  lemma RateBoundIff(st: Settings)
    requires ValidSettings(st)
    ensures Bounded(st, EMERGENCY) <==> IdleCovers(st, EMERGENCY)
  {
    if IdleCovers(st, EMERGENCY) {
      forall t0, history, window, from, to
        | Timed(history, t0, from) && Timed(window, from, to) && NoReset(window)
        ensures Spent(st, Run(st, Initial(t0), history), window, EMERGENCY)
                <= Capacity(st, EMERGENCY) + (to - from) / Refill(st, EMERGENCY)
      {
        RateBound(st, t0, history, window, EMERGENCY, from, to);
      }
    } else {
      DoubleDrain(st);
    }
  }
}
