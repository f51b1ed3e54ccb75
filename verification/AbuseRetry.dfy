/** The advertised Retry-After, and how many buckets the table can hold. */
module AbuseRetry {
  import opened Prelude
  import opened AbuseModel
  import opened AbuseRates

  // ---------------------------------------------------------------- Retry-After

  lemma CeilBounds(x: real)
    ensures (Ceil(x) - 1) as real < x <= Ceil(x) as real
  {}

  lemma RetryAfterWithin(c: Config, waitMs: real)
    requires ValidConfig(c)
    ensures c.minRetry <= RetryAfter(c, waitMs) <= c.maxRetry
  {}

  /** A bucket that is short now holds the cost after w milliseconds exactly when the cost fits
      its capacity and w covers the missing tokens. */
  lemma WaitSuffices(b: Bucket, c: Config, cost: real, now: real, w: real)
    requires ValidConfig(c) && b.lastRefillAt <= now && 0.0 <= w
    requires Level(b, c, now) < cost
    ensures Level(b, c, now + w) >= cost
            <==> cost <= c.capacity as real && w >= (cost - Level(b, c, now)) * c.refillEveryMs
  {
    if cost <= c.capacity as real {
      var level, r := Level(b, c, now), c.refillEveryMs;
      QuotientSum(now - b.lastRefillAt, w, r);
      assert level == b.tokens + (now - b.lastRefillAt) / r;
      ScaledQuotient(w, cost - level, r);
    }
  }

  lemma RoundedWait(c: Config, wait: real)
    requires ValidConfig(c)
    ensures 1000.0 * RetryAfter(c, wait) as real >= wait <==> Ceil(wait / 1000.0) <= c.maxRetry
  {
    CeilBounds(wait / 1000.0);
  }

  /** What a refusing bucket and its configuration say about the number of seconds returned. */
  ghost predicate RetryExact(b: Bucket, c: Config, cost: real, now: real, seconds: nat)
    requires ValidConfig(c)
  {
    && c.minRetry <= seconds <= c.maxRetry
    && (Level(b, c, now + 1000.0 * seconds as real) >= cost
        <==> cost <= c.capacity as real && Ceil(WaitMs(Level(b, c, now), cost, c) / 1000.0) <= c.maxRetry)
  }

  lemma RefusalIsExact(b: Bucket, c: Config, cost: real, now: real)
    requires ValidConfig(c) && b.lastRefillAt <= now && Level(b, c, now) < cost
    ensures RetryExact(b, c, cost, now, RetryAfter(c, WaitMs(Level(b, c, now), cost, c)))
  {
    var wait := WaitMs(Level(b, c, now), cost, c);
    RetryAfterWithin(c, wait);
    RoundedWait(c, wait);
    var w := 1000.0 * RetryAfter(c, wait) as real;
    assert wait == Max(1.0, (cost - Level(b, c, now)) * c.refillEveryMs);
    assert w >= wait <==> w >= (cost - Level(b, c, now)) * c.refillEveryMs;
    WaitSuffices(b, c, cost, now, w);
  }

  /** Retry-After is always within its configured bounds, and waiting that long is enough for
      the refusing bucket exactly when the cost fits the capacity and the maximum did not cut
      the computed wait short. */
  lemma RetryAfterIsEnoughIff(st: Settings, m: Buckets, items: seq<Key>, cost: real, clock: real, now: real)
    requires ValidSettings(st) && DistinctDomains(items) && clock <= now && BucketsOk(st, m, clock)
    requires ScanItems(st, m, items, now, cost, []).Short?
    ensures var k := ScanItems(st, m, items, now, cost, []).key;
            var (m', d) := DecideOn(st, m, items, cost, now);
            && k in m' && d.Throttle? && LevelAt(st, m', k, now) < cost
            && RetryExact(m'[k], ConfigOf(st, k.domain, k.policy), cost, now, d.retryAfterSeconds)
  {
    ScanLevels(st, m, items, now, cost, []);
    ScanOk(st, m, items, clock, now, cost, []);
    var scan := ScanItems(st, m, items, now, cost, []);
    var k := scan.key;
    assert LevelAt(st, scan.buckets, k, now) == LevelAt(st, m, k, now) < cost;
    assert BucketOk(st, k, scan.buckets[k], now);
    RefusalIsExact(scan.buckets[k], ConfigOf(st, k.domain, k.policy), cost, now);
  }

  // ---------------------------------------------------------------- bounded memory

  ghost function IdentitiesOf(m: Buckets, d: Domain): set<Key> {
    set k | k in m && k.Identity? && k.domain == d
  }

  ghost predicate WithinQuotas(st: Settings, m: Buckets) {
    && |m| <= st.maxTotalKeys
    && forall d :: |IdentitiesOf(m, d)| <= Quota(st, d)
  }

  lemma FewerBuckets(st: Settings, m: Buckets, m': Buckets)
    requires m'.Keys <= m.Keys && WithinQuotas(st, m)
    ensures WithinQuotas(st, m')
  {
    SubsetSize(m'.Keys, m.Keys);
    assert |m'| == |m'.Keys| && |m| == |m.Keys|;
    forall d ensures |IdentitiesOf(m', d)| <= Quota(st, d) {
      SubsetSize(IdentitiesOf(m', d), IdentitiesOf(m, d));
    }
  }

  lemma AddedWithinQuotas(st: Settings, m: Buckets, k: Key, b: Bucket)
    requires WithinQuotas(st, m) && k !in m && |m| < st.maxTotalKeys
    requires k.Identity? ==> |InDomain(m, k.domain)| < Quota(st, k.domain)
    ensures WithinQuotas(st, m[k := b])
  {
    var m' := m[k := b];
    SubsetSize(IdentitiesOf(m, k.domain), InDomain(m, k.domain));
    forall d ensures |IdentitiesOf(m', d)| <= Quota(st, d) {
      if k.Identity? && d == k.domain {
        assert IdentitiesOf(m', d) == IdentitiesOf(m, d) + {k};
      } else {
        assert IdentitiesOf(m', d) == IdentitiesOf(m, d);
      }
    }
  }

  lemma SlotWithinQuotas(st: Settings, m: Buckets, item: Key, now: real)
    requires item.Identity? && WithinQuotas(st, m)
    ensures var s := SlotFor(st, m, item, now); s.Slot? ==> WithinQuotas(st, s.buckets)
  {
    var s := SlotFor(st, m, item, now);
    if s.Slot? {
      if s.key in m {
        FewerBuckets(st, m, s.buckets);
      } else {
        AddedWithinQuotas(st, m, s.key, s.buckets[s.key]);
      }
    }
  }

  lemma {:induction false} ScanWithinQuotas(st: Settings, m: Buckets, items: seq<Key>, now: real, cost: real, pending: seq<Key>)
    requires ValidSettings(st) && WithinQuotas(st, m)
    requires forall i :: 0 <= i < |items| ==> items[i].Identity?
    ensures WithinQuotas(st, ScanItems(st, m, items, now, cost, pending).buckets)
    decreases |items|
  {
    if items != [] {
      var s := SlotFor(st, m, items[0], now);
      SlotWithinQuotas(st, m, items[0], now);
      if s.Slot? {
        ScanWithinQuotas(st, s.buckets, items[1..], now, cost, pending + [s.key]);
      }
    }
  }

  lemma DecideOnWithinQuotas(st: Settings, m: Buckets, items: seq<Key>, cost: real, now: real)
    requires ValidSettings(st) && DistinctDomains(items) && WithinQuotas(st, m)
    ensures WithinQuotas(st, DecideOn(st, m, items, cost, now).0)
  {
    ScanWithinQuotas(st, m, items, now, cost, []);
    ScanKeysPresent(st, m, items, now, cost, []);
    FewerBuckets(st, ScanItems(st, m, items, now, cost, []).buckets, DecideOn(st, m, items, cost, now).0);
  }

  lemma DecideWithinQuotas(st: Settings, s: Limiter, req: Request, now: real)
    requires ValidSettings(st) && WithinQuotas(st, s.buckets)
    ensures WithinQuotas(st, DecideStep(st, s, req, now).0.buckets)
  {
    if req.Request? {
      FewerBuckets(st, s.buckets, Cleanup(st, s, now).buckets);
      DescriptorsDistinct(req);
      DecideOnWithinQuotas(st, Cleanup(st, s, now).buckets, Descriptors(req), Cost(req), now);
    }
  }

  lemma {:induction false} RunWithinQuotas(st: Settings, s: Limiter, es: seq<Event>)
    requires ValidSettings(st) && WithinQuotas(st, s.buckets)
    ensures WithinQuotas(st, Run(st, s, es).buckets)
    decreases |es|
  {
    if es != [] {
      var e := es[0];
      if e.Decide? || e.Admit? {
        StepBuckets(st, s, e);
        DecideWithinQuotas(st, s, e.req, e.now);
      } else {
        FewerBuckets(st, s.buckets, Step(st, s, e).0.buckets);
      }
      RunWithinQuotas(st, Step(st, s, e).0, es[1..]);
    }
  }

  const POLICY_CLASSES: set<PolicyClass> :=
    {PreAuthFailure, Bootstrap, ManagementAuthenticated, ManagementMutation, SecurityContainment,
     ApiTokenCreate, ApiTokenRevoke, ConsumerDiscovery, ConsumerResolve, ConsumerBatchResolve,
     OAuthStart, OAuthCallbackInvalid, OAuthCallbackValid, ProviderHealth, GlobalEmergency}

  lemma SpillBound(m: Buckets, d: Domain)
    ensures |InDomain(m, d)| <= |IdentitiesOf(m, d)| + |POLICY_CLASSES|
  {
    var spill := set k | k in m && k.Overflow? && k.domain == d;
    var all := set p | p in POLICY_CLASSES :: Overflow(d, p);
    forall k | k in spill ensures k in all {
      assert k == Overflow(d, k.policy);
      EveryClass(k.policy);
    }
    SubsetSize(spill, all);
    ImageSize(d, POLICY_CLASSES);
    assert InDomain(m, d) == IdentitiesOf(m, d) + spill;
  }

  lemma EveryClass(p: PolicyClass)
    ensures p in POLICY_CLASSES
  {}

  lemma ImageSize(d: Domain, ps: set<PolicyClass>)
    ensures |set p | p in ps :: Overflow(d, p)| <= |ps|
  {
    var image := set p | p in ps :: Overflow(d, p);
    if ps != {} {
      var p :| p in ps;
      ImageSize(d, ps - {p});
      assert image == (set q | q in ps - {p} :: Overflow(d, q)) + {Overflow(d, p)};
    }
  }

  /** Bounded memory: in every reachable state the table holds at most `maxTotalKeys` buckets,
      and each domain at most its quota of identity buckets plus one overflow bucket per class. */
  lemma BoundedTable(st: Settings, t0: real, es: seq<Event>)
    requires ValidSettings(st)
    ensures var m := Run(st, Initial(t0), es).buckets;
            && |m| <= st.maxTotalKeys
            && forall d ::
                 var quota := if d in st.quotas then st.quotas[d] else st.maxTotalKeys;
                 && |set k | k in m && k.domain == d && k.Identity?| <= quota
                 && |set k | k in m && k.domain == d| <= quota + 15
  {
    assert forall d :: IdentitiesOf(Initial(t0).buckets, d) == {};
    RunWithinQuotas(st, Initial(t0), es);
    forall d { DomainBound(st, Run(st, Initial(t0), es).buckets, d); }
  }

  lemma DomainBound(st: Settings, m: Buckets, d: Domain)
    requires WithinQuotas(st, m)
    ensures var quota := if d in st.quotas then st.quotas[d] else st.maxTotalKeys;
      && |set k | k in m && k.domain == d && k.Identity?| <= quota
      && |set k | k in m && k.domain == d| <= quota + 15
  {
    SpillBound(m, d);
    assert (set k | k in m && k.domain == d && k.Identity?) == IdentitiesOf(m, d);
    assert (set k | k in m && k.domain == d) == InDomain(m, d);
  }
}
