/** What the token buckets guarantee over whole runs: charging is all or nothing, forgetting an
  idle bucket changes no level, and the admitted cost is bounded in every time window. */
module AbuseRates {
  import opened AbuseModel

  // ---------------------------------------------------------------- levels

  function LevelAt(st: Settings, m: Buckets, k: Key, t: real): real
    requires ValidSettings(st)
  {
    var c := ConfigOf(st, k.domain, k.policy);
    if k in m then Level(m[k], c, t) else c.capacity as real
  }

  function Capacity(st: Settings, k: Key): real { ConfigOf(st, k.domain, k.policy).capacity as real }

  function Refill(st: Settings, k: Key): real { ConfigOf(st, k.domain, k.policy).refillEveryMs }

  ghost predicate SameLevels(st: Settings, m: Buckets, m': Buckets, from: real)
    requires ValidSettings(st)
  {
    forall k, t :: from <= t ==> LevelAt(st, m', k, t) == LevelAt(st, m, k, t)
  }

  predicate BucketOk(st: Settings, k: Key, b: Bucket, clock: real) {
    0.0 <= b.tokens <= Capacity(st, k) && b.lastRefillAt <= b.lastUsedAt <= clock
  }

  /** Every reachable table: no bucket is overdrawn or overfull, and refilling never happened
      after the last use. */
  ghost predicate BucketsOk(st: Settings, m: Buckets, clock: real) {
    forall k :: k in m ==> BucketOk(st, k, m[k], clock)
  }

  lemma QuotientMonotone(a: real, b: real, r: real)
    requires a <= b && 0.0 < r
    ensures a / r <= b / r
  {}

  lemma QuotientSum(a: real, b: real, r: real)
    requires 0.0 < r
    ensures (a + b) / r == a / r + b / r
  {}

  lemma ScaledQuotient(a: real, x: real, r: real)
    requires 0.0 < r
    ensures a / r >= x <==> a >= x * r
  {
    var q := a / r;
    assert q * r == a;
    if q >= x { assert (q - x) * r >= 0.0; }
    if q < x { assert (x - q) * r > 0.0; }
  }

  lemma LevelBounds(b: Bucket, c: Config, t: real)
    requires 0.0 < c.refillEveryMs && 0.0 <= b.tokens
    ensures 0.0 <= Level(b, c, t) <= c.capacity as real
  {
    QuotientMonotone(0.0, Max(0.0, t - b.lastRefillAt), c.refillEveryMs);
  }

  /** Between two readings a level never falls and grows by at most the refill of that time. */
  lemma LevelGrowth(b: Bucket, c: Config, t1: real, t2: real)
    requires 0.0 < c.refillEveryMs && t1 <= t2
    ensures Level(b, c, t1) <= Level(b, c, t2) <= Level(b, c, t1) + (t2 - t1) / c.refillEveryMs
  {
    var r := c.refillEveryMs;
    var e1, e2 := Max(0.0, t1 - b.lastRefillAt), Max(0.0, t2 - b.lastRefillAt);
    QuotientMonotone(e1, e2, r);
    QuotientMonotone(e2, e1 + (t2 - t1), r);
    QuotientSum(e1, t2 - t1, r);
    QuotientMonotone(0.0, t2 - t1, r);
  }

  lemma LevelAtGrowth(st: Settings, m: Buckets, k: Key, t1: real, t2: real)
    requires ValidSettings(st) && t1 <= t2
    ensures LevelAt(st, m, k, t2) <= LevelAt(st, m, k, t1) + (t2 - t1) / Refill(st, k)
  {
    QuotientMonotone(0.0, t2 - t1, Refill(st, k));
    if k in m { LevelGrowth(m[k], ConfigOf(st, k.domain, k.policy), t1, t2); }
  }

  lemma FreshLevel(c: Config, now: real, t: real)
    requires 0.0 < c.refillEveryMs
    ensures Level(Fresh(c, now), c, t) == c.capacity as real
  {
    QuotientMonotone(0.0, Max(0.0, t - now), c.refillEveryMs);
  }

  // ---------------------------------------------------------------- one decision

  /** Finding or creating the bucket of a descriptor changes no level at any time. */
  lemma SlotKeepsLevels(st: Settings, m: Buckets, item: Key, now: real)
    requires ValidSettings(st) && item.Identity?
    ensures var s := SlotFor(st, m, item, now);
            s.Slot? ==> forall k, t :: LevelAt(st, s.buckets, k, t) == LevelAt(st, m, k, t)
  {
    var s := SlotFor(st, m, item, now);
    if s.Slot? {
      forall k, t ensures LevelAt(st, s.buckets, k, t) == LevelAt(st, m, k, t) {
        FreshLevel(ConfigOf(st, item.domain, item.policy), now, t);
      }
    }
  }

  /** What a scan found: one bucket per descriptor, each its own or its overflow bucket. */
  predicate StandFor(keys: seq<Key>, items: seq<Key>) {
    && |keys| == |items|
    && forall i :: 0 <= i < |keys| ==> keys[i] in {items[i], Overflow(items[i].domain, items[i].policy)}
  }

  lemma {:induction false} ScanLevels(st: Settings, m: Buckets, items: seq<Key>, now: real, cost: real, pending: seq<Key>)
    requires ValidSettings(st)
    requires forall i :: 0 <= i < |items| ==> items[i].Identity?
    ensures var r := ScanItems(st, m, items, now, cost, pending);
            && (forall k, t :: LevelAt(st, r.buckets, k, t) == LevelAt(st, m, k, t))
            && (r.Clear? ==>
                  && pending <= r.keys
                  && StandFor(r.keys[|pending|..], items)
                  && (forall k :: k in r.keys[|pending|..] ==> LevelAt(st, m, k, now) >= cost))
            && (r.Short? ==> r.key in r.buckets && LevelAt(st, m, r.key, now) < cost)
    decreases |items|
  {
    if items != [] {
      var s := SlotFor(st, m, items[0], now);
      SlotKeepsLevels(st, m, items[0], now);
      if s.Slot? && Level(s.buckets[s.key], ConfigOf(st, s.key.domain, s.key.policy), now) >= cost {
        assert LevelAt(st, m, s.key, now) >= cost;
        ScanLevels(st, s.buckets, items[1..], now, cost, pending + [s.key]);
        var r := ScanItems(st, s.buckets, items[1..], now, cost, pending + [s.key]);
        if r.Clear? {
          assert r.keys[|pending|] == (pending + [s.key])[|pending|] == s.key;
          assert r.keys[|pending|..] == [s.key] + r.keys[|pending| + 1..];
        }
      }
    }
  }

  lemma StandForDistinct(keys: seq<Key>, items: seq<Key>)
    requires DistinctDomains(items) && StandFor(keys, items)
    ensures forall i, j :: 0 <= i < j < |keys| ==> keys[i] != keys[j]
  {
    forall i, j | 0 <= i < j < |keys| ensures keys[i] != keys[j] {
      assert keys[i].domain == items[i].domain && keys[j].domain == items[j].domain;
    }
  }

  lemma LevelOfCharged(st: Settings, m: Buckets, k: Key, x: real, now: real)
    requires ValidSettings(st) && k in m && m[k] == Bucket(x, now, now) && x <= Capacity(st, k)
    ensures LevelAt(st, m, k, now) == x
  {}

  lemma LevelOfKept(st: Settings, m: Buckets, m': Buckets, k: Key, t: real)
    requires ValidSettings(st) && (k in m <==> k in m') && (k in m ==> m[k] == m'[k])
    ensures LevelAt(st, m', k, t) == LevelAt(st, m, k, t)
  {}

  lemma LevelCapped(st: Settings, m: Buckets, k: Key, t: real)
    requires ValidSettings(st)
    ensures LevelAt(st, m, k, t) <= Capacity(st, k)
  {}

  lemma {:induction false} ChargeLevels(st: Settings, m: Buckets, keys: seq<Key>, now: real, cost: real)
    requires ValidSettings(st)
    requires forall k :: k in keys ==> k in m && LevelAt(st, m, k, now) >= cost
    requires forall i, j :: 0 <= i < j < |keys| ==> keys[i] != keys[j]
    ensures var m' := Charge(st, m, keys, now, cost);
            && (forall k :: k in keys ==> m'[k] == Bucket(LevelAt(st, m, k, now) - cost, now, now))
            && (forall k :: k in m && k !in keys ==> m'[k] == m[k])
    decreases |keys|
  {
    if keys != [] {
      var k0 := keys[0];
      var m1 := m[k0 := Bucket(LevelAt(st, m, k0, now) - cost, now, now)];
      forall k | k in keys[1..] ensures k in m1 && k != k0 && LevelAt(st, m1, k, now) == LevelAt(st, m, k, now) {
        LevelOfKept(st, m, m1, k, now);
      }
      ChargeLevels(st, m1, keys[1..], now, cost);
      assert forall k :: k in keys <==> k == k0 || k in keys[1..];
    }
  }

  /** The buckets an admitted request is charged to. */
  function ChargedKeys(st: Settings, m: Buckets, items: seq<Key>, cost: real, now: real): seq<Key>
    requires ValidSettings(st)
  {
    var scan := ScanItems(st, m, items, now, cost, []);
    if scan.Clear? then scan.keys else []
  }

  /** Exactly the named buckets lost exactly `cost`, and no other level moved. */
  ghost predicate ChargedExactly(st: Settings, m: Buckets, m': Buckets, keys: seq<Key>, cost: real, now: real)
    requires ValidSettings(st)
  {
    && (forall k :: k in keys ==> LevelAt(st, m, k, now) >= cost)
    && (forall k :: k in keys ==> k in m' && m'[k] == Bucket(LevelAt(st, m, k, now) - cost, now, now))
    && (forall k :: k in keys ==> LevelAt(st, m', k, now) == LevelAt(st, m, k, now) - cost)
    && (forall k, t :: k !in keys && now <= t ==> LevelAt(st, m', k, t) == LevelAt(st, m, k, t))
  }

  lemma ChargeIsExact(st: Settings, m0: Buckets, m: Buckets, keys: seq<Key>, now: real, cost: real)
    requires ValidSettings(st) && 0.0 <= cost
    requires forall k, t :: LevelAt(st, m, k, t) == LevelAt(st, m0, k, t)
    requires forall k :: k in keys ==> k in m && LevelAt(st, m0, k, now) >= cost
    requires forall i, j :: 0 <= i < j < |keys| ==> keys[i] != keys[j]
    ensures ChargedExactly(st, m0, Charge(st, m, keys, now, cost), keys, cost, now)
  {
    var m' := Charge(st, m, keys, now, cost);
    assert forall k :: k in keys ==> LevelAt(st, m, k, now) == LevelAt(st, m0, k, now);
    ChargeLevels(st, m, keys, now, cost);
    forall k | k in keys ensures LevelAt(st, m', k, now) == LevelAt(st, m0, k, now) - cost {
      LevelCapped(st, m0, k, now);
      LevelOfCharged(st, m', k, LevelAt(st, m0, k, now) - cost, now);
    }
    forall k, t | k !in keys && now <= t ensures LevelAt(st, m', k, t) == LevelAt(st, m0, k, t) {
      LevelOfKept(st, m, m', k, t);
      assert LevelAt(st, m, k, t) == LevelAt(st, m0, k, t);
    }
  }

  /** All-or-nothing charging. An admitted request lowers the level of each of its buckets, one
      per descriptor and pairwise distinct, by exactly its cost and touches no other level; any
      other answer leaves every level as it was at every later time. */
  lemma AllOrNothing(st: Settings, m: Buckets, items: seq<Key>, cost: real, now: real)
    requires ValidSettings(st) && DistinctDomains(items) && 0.0 <= cost
    ensures var (m', d) := DecideOn(st, m, items, cost, now);
            var keys := ChargedKeys(st, m, items, cost, now);
            if d.Allow? then
              && d.cost == cost
              && StandFor(keys, items)
              && (forall i, j :: 0 <= i < j < |keys| ==> keys[i] != keys[j])
              && ChargedExactly(st, m, m', keys, cost, now)
            else SameLevels(st, m, m', now)
  {
    ScanLevels(st, m, items, now, cost, []);
    ScanKeysPresent(st, m, items, now, cost, []);
    var scan := ScanItems(st, m, items, now, cost, []);
    if scan.Clear? {
      assert scan.keys[0..] == scan.keys;
      StandForDistinct(scan.keys, items);
      ChargeIsExact(st, m, scan.buckets, scan.keys, now, cost);
    }
  }

  // ---------------------------------------------------------------- reachable tables

  lemma {:induction false} ScanOk(st: Settings, m: Buckets, items: seq<Key>, clock: real, now: real, cost: real, pending: seq<Key>)
    requires ValidSettings(st) && clock <= now && BucketsOk(st, m, clock)
    ensures BucketsOk(st, ScanItems(st, m, items, now, cost, pending).buckets, now)
    decreases |items|
  {
    if items != [] {
      var s := SlotFor(st, m, items[0], now);
      if s.Slot? {
        assert BucketsOk(st, s.buckets, now);
        ScanOk(st, s.buckets, items[1..], now, now, cost, pending + [s.key]);
      }
    }
  }

  lemma DecideOnOk(st: Settings, m: Buckets, items: seq<Key>, cost: real, clock: real, now: real)
    requires ValidSettings(st) && DistinctDomains(items) && 0.0 <= cost && clock <= now && BucketsOk(st, m, clock)
    ensures BucketsOk(st, DecideOn(st, m, items, cost, now).0, now)
  {
    ScanOk(st, m, items, clock, now, cost, []);
    AllOrNothing(st, m, items, cost, now);
    ScanKeysPresent(st, m, items, now, cost, []);
    ScanLevels(st, m, items, now, cost, []);
    var scan := ScanItems(st, m, items, now, cost, []);
    if scan.Clear? {
      assert scan.keys[0..] == scan.keys;
      StandForDistinct(scan.keys, items);
      ChargedOk(st, scan.buckets, scan.keys, now, cost);
    }
  }

  lemma ChargedOk(st: Settings, m: Buckets, keys: seq<Key>, now: real, cost: real)
    requires ValidSettings(st) && 0.0 <= cost && BucketsOk(st, m, now)
    requires forall k :: k in keys ==> k in m && LevelAt(st, m, k, now) >= cost
    requires forall i, j :: 0 <= i < j < |keys| ==> keys[i] != keys[j]
    ensures BucketsOk(st, Charge(st, m, keys, now, cost), now)
  {
    var m' := Charge(st, m, keys, now, cost);
    ChargeLevels(st, m, keys, now, cost);
    forall k | k in m' ensures BucketOk(st, k, m'[k], now) {
      LevelCapped(st, m, k, now);
    }
  }

  /** The idle time after which a bucket is forgotten covers its complete refill. */
  predicate IdleCovers(st: Settings, k: Key) { st.idleTtlMs >= Capacity(st, k) * Refill(st, k) }

  predicate Idle(st: Settings, b: Bucket, now: real) { now - b.lastUsedAt > st.idleTtlMs }

  lemma IdleBucketIsFull(st: Settings, k: Key, b: Bucket, now: real, t: real)
    requires ValidSettings(st) && IdleCovers(st, k) && BucketOk(st, k, b, now) && Idle(st, b, now) && now <= t
    ensures Level(b, ConfigOf(st, k.domain, k.policy), t) == Capacity(st, k)
  {
    var e := t - b.lastRefillAt;
    ScaledQuotient(e, Capacity(st, k), Refill(st, k));
  }

  /** Forgetting an idle bucket is unobservable exactly when the idle time covers the refill:
      otherwise some bucket that may be forgotten is not yet full again. */
  lemma ForgettingInvisibleIff(st: Settings, k: Key)
    requires ValidSettings(st)
    ensures IdleCovers(st, k) <==>
            forall b, now :: BucketOk(st, k, b, now) && Idle(st, b, now)
                             ==> Level(b, ConfigOf(st, k.domain, k.policy), now) == Capacity(st, k)
  {
    if IdleCovers(st, k) {
      forall b, now | BucketOk(st, k, b, now) && Idle(st, b, now)
        ensures Level(b, ConfigOf(st, k.domain, k.policy), now) == Capacity(st, k)
      {
        IdleBucketIsFull(st, k, b, now, now);
      }
    } else {
      var b := Bucket(0.0, 0.0, 0.0);
      var now := (st.idleTtlMs + Capacity(st, k) * Refill(st, k)) / 2.0;
      ScaledQuotient(now, Capacity(st, k), Refill(st, k));
      assert BucketOk(st, k, b, now) && Idle(st, b, now);
      assert Level(b, ConfigOf(st, k.domain, k.policy), now) < Capacity(st, k);
    }
  }

  lemma CleanupLevels(st: Settings, s: Limiter, k: Key, clock: real, now: real, t: real)
    requires ValidSettings(st) && IdleCovers(st, k) && BucketsOk(st, s.buckets, clock) && clock <= now <= t
    ensures LevelAt(st, Cleanup(st, s, now).buckets, k, t) == LevelAt(st, s.buckets, k, t)
  {
    if k in s.buckets && Idle(st, s.buckets[k], now) {
      IdleBucketIsFull(st, k, s.buckets[k], now, t);
    }
  }

  lemma CleanupOk(st: Settings, s: Limiter, clock: real, now: real)
    requires ValidSettings(st) && BucketsOk(st, s.buckets, clock) && clock <= now
    ensures BucketsOk(st, Cleanup(st, s, now).buckets, now)
  {}

  lemma DecideStepOk(st: Settings, s: Limiter, req: Request, clock: real, now: real)
    requires ValidSettings(st) && BucketsOk(st, s.buckets, clock) && clock <= now
    ensures BucketsOk(st, DecideStep(st, s, req, now).0.buckets, now)
  {
    if req.Request? {
      CleanupOk(st, s, clock, now);
      DescriptorsDistinct(req);
      DecideOnOk(st, Cleanup(st, s, now).buckets, Descriptors(req), Cost(req), now, now);
    }
  }

  // ---------------------------------------------------------------- the rate bound

  /** What one event charges to a bucket: the cost of an ALLOW decision that named it. */
  function Spend(st: Settings, s: Limiter, e: Event, k: Key): real
    requires ValidSettings(st)
  {
    if (e.Decide? || e.Admit?) && e.req.Request? && DecideStep(st, s, e.req, e.now).1.Allow?
       && k in ChargedKeys(st, Cleanup(st, s, e.now).buckets, Descriptors(e.req), Cost(e.req), e.now)
    then Cost(e.req) else 0.0
  }

  ghost function Spent(st: Settings, s: Limiter, es: seq<Event>, k: Key): real
    requires ValidSettings(st)
    decreases |es|
  {
    if es == [] then 0.0 else Spend(st, s, es[0], k) + Spent(st, Step(st, s, es[0]).0, es[1..], k)
  }

  predicate NoReset(es: seq<Event>) { forall i :: 0 <= i < |es| ==> !es[i].Reset? }

  /** One decision moves the level of a bucket by exactly what it charges. */
  lemma DecideStepLevel(st: Settings, s: Limiter, req: Request, k: Key, clock: real, now: real)
    requires ValidSettings(st) && IdleCovers(st, k) && BucketsOk(st, s.buckets, clock) && clock <= now
    ensures LevelAt(st, DecideStep(st, s, req, now).0.buckets, k, now)
            == LevelAt(st, s.buckets, k, now) - Spend(st, s, Decide(now, req), k)
  {
    if req.Request? {
      CleanupLevels(st, s, k, clock, now, now);
      DescriptorsDistinct(req);
      AllOrNothing(st, Cleanup(st, s, now).buckets, Descriptors(req), Cost(req), now);
    }
  }

  /** The table after a timed event, without its lease part. */
  lemma StepBuckets(st: Settings, s: Limiter, e: Event)
    requires ValidSettings(st) && HasTime(e) && !e.Reset?
    ensures (e.Decide? || e.Admit?) ==> Step(st, s, e).0.buckets == DecideStep(st, s, e.req, e.now).0.buckets
    ensures e.Reserve? ==> Step(st, s, e).0.buckets == if e.req.Request? then Cleanup(st, s, e.now).buckets else s.buckets
  {}

  lemma StepLevel(st: Settings, s: Limiter, e: Event, k: Key, clock: real)
    requires ValidSettings(st) && IdleCovers(st, k) && BucketsOk(st, s.buckets, clock)
    requires HasTime(e) && !e.Reset? && clock <= Start(e) <= End(e)
    ensures BucketsOk(st, Step(st, s, e).0.buckets, End(e))
    ensures LevelAt(st, Step(st, s, e).0.buckets, k, End(e)) + Spend(st, s, e, k)
            <= LevelAt(st, s.buckets, k, clock) + (End(e) - clock) / Refill(st, k)
  {
    var m' := Step(st, s, e).0.buckets;
    assert LevelAt(st, m', k, e.now) == LevelAt(st, s.buckets, k, e.now) - Spend(st, s, e, k)
           && BucketsOk(st, m', e.now) by {
      StepBuckets(st, s, e);
      if e.Reserve? {
        CleanupOk(st, s, clock, e.now);
        CleanupLevels(st, s, k, clock, e.now, e.now);
      } else {
        DecideStepOk(st, s, e.req, clock, e.now);
        DecideStepLevel(st, s, e.req, k, clock, e.now);
      }
    }
    LevelAtGrowth(st, s.buckets, k, clock, e.now);
    LevelAtGrowth(st, m', k, e.now, End(e));
    QuotientSum(e.now - clock, End(e) - e.now, Refill(st, k));
  }

  /** Over a window without `reset`, what was spent plus what is left is at most what was there
      plus what was refilled. */
  lemma {:induction false} SpentBound(st: Settings, s: Limiter, es: seq<Event>, k: Key, from: real, to: real)
    requires ValidSettings(st) && IdleCovers(st, k) && BucketsOk(st, s.buckets, from)
    requires Timed(es, from, to) && NoReset(es)
    ensures BucketsOk(st, Run(st, s, es).buckets, to)
    ensures Spent(st, s, es, k) + LevelAt(st, Run(st, s, es).buckets, k, to)
            <= LevelAt(st, s.buckets, k, from) + (to - from) / Refill(st, k)
    decreases |es|
  {
    if es == [] {
      LevelAtGrowth(st, s.buckets, k, from, to);
    } else {
      var e, s' := es[0], Step(st, s, es[0]).0;
      if HasTime(e) {
        StepLevel(st, s, e, k, from);
        SpentBound(st, s', es[1..], k, End(e), to);
        QuotientSum(End(e) - from, to - End(e), Refill(st, k));
      } else {
        SpentBound(st, s', es[1..], k, from, to);
      }
    }
  }

  lemma {:induction false} ReachableOk(st: Settings, s: Limiter, es: seq<Event>, from: real, to: real)
    requires ValidSettings(st) && BucketsOk(st, s.buckets, from) && Timed(es, from, to)
    ensures BucketsOk(st, Run(st, s, es).buckets, to)
    decreases |es|
  {
    if es != [] {
      var e, s' := es[0], Step(st, s, es[0]).0;
      if HasTime(e) {
        if e.Decide? || e.Admit? { DecideStepOk(st, s, e.req, from, e.now); }
        if e.Reserve? { CleanupOk(st, s, from, e.now); }
        ReachableOk(st, s', es[1..], End(e), to);
      } else {
        ReachableOk(st, s', es[1..], from, to);
      }
    }
  }

  /** The rate bound: after any history, in every window [from, to] without `reset`, the cost
      admitted against a bucket is at most its capacity plus what refills in that time. */
  lemma RateBound(st: Settings, t0: real, history: seq<Event>, window: seq<Event>, k: Key, from: real, to: real)
    requires ValidSettings(st) && IdleCovers(st, k)
    requires Timed(history, t0, from) && Timed(window, from, to) && NoReset(window)
    ensures Spent(st, Run(st, Initial(t0), history), window, k) <= Capacity(st, k) + (to - from) / Refill(st, k)
  {
    var s := Run(st, Initial(t0), history);
    ReachableOk(st, Initial(t0), history, t0, from);
    SpentBound(st, s, window, k, from, to);
    LevelCapped(st, s.buckets, k, from);
    var m := Run(st, s, window).buckets;
    if k in m { LevelBounds(m[k], ConfigOf(st, k.domain, k.policy), to); }
  }
}
