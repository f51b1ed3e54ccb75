/** The limiter object. Its methods update the tables in place, step by step as the service
  does, and are proved to perform exactly the steps of AbuseModel. */
module AbuseAdmission {
  import opened AbuseModel
  import opened AbuseLeases
  import opened AbusePolicy

  datatype Concurrency = Granted(id: nat, expiresAt: real) | ConcurrencyBlock

  datatype AdmitResult =
    | Refused(decision: Decision)
    | NoLease
    | Admitted(cost: real, id: nat, expiresAt: real)

  function Holding(counts: map<PolicyClass, int>, p: PolicyClass): int {
    if p in counts then counts[p] else 0
  }

  class AbuseAdmission {
    const settings: Settings
    var buckets: Buckets
    var leases: Leases
    var activeLeasesByPolicy: map<PolicyClass, int>
    var lastCleanupAt: real
    var sequence: nat

    /** The counter of every class equals the number of live leases naming it. */
    ghost predicate Valid()
      reads this
    {
      && ValidSettings(settings)
      && LeasesOk(leases, sequence)
      && forall p :: Holding(activeLeasesByPolicy, p) == Active(leases, p)
    }

    ghost function State(): Limiter
      reads this
    {
      Limiter(buckets, lastCleanupAt, leases, sequence)
    }

    /** Any options will do: they are normalised to valid settings. */
    constructor (options: Options, now: real)
      ensures Valid() && State() == Initial(now) && settings == SettingsOf(options)
      ensures buckets == map[] && leases == map[] && lastCleanupAt == now && sequence == 0
    {
      settings := SettingsOf(options);
      buckets, leases, activeLeasesByPolicy := map[], map[], map[];
      lastCleanupAt, sequence := now, 0;
      new;
      assert forall p :: Naming(leases, p) == {};
    }

    /** Releasing a lease lowers the counter of each of its classes by one. The clamp at zero is
        never needed: a live lease is counted. Releasing twice changes nothing. */
    method Release(id: nat) returns (found: bool)
      requires Valid()
      modifies this
      ensures Valid() && State() == Step(settings, old(State()), AbuseModel.Release(id)).0
      ensures found == (id in old(leases))
      ensures !found ==> activeLeasesByPolicy == old(activeLeasesByPolicy)
    {
      if id !in leases {
        assert leases - {id} == leases;
        return false;
      }
      var lease := leases[id];
      ghost var before := leases;
      leases := leases - {id};
      var i := 0;
      while i < |lease.policies|
        invariant 0 <= i <= |lease.policies|
        invariant leases == before - {id} && buckets == old(buckets)
        invariant lastCleanupAt == old(lastCleanupAt) && sequence == old(sequence)
        invariant forall p :: Holding(activeLeasesByPolicy, p)
                              == Active(before, p) - if p in lease.policies[..i] then 1 else 0
      {
        var p := lease.policies[i];
        var count := Holding(activeLeasesByPolicy, p);
        assert p !in lease.policies[..i];
        assert id in Naming(before, p);
        assert count - 1 >= 0;
        activeLeasesByPolicy := activeLeasesByPolicy[p := if count - 1 <= 0 then 0 else count - 1];
        assert lease.policies[..i + 1] == lease.policies[..i] + [p];
        i := i + 1;
      }
      assert lease.policies[..i] == lease.policies;
      assert before == leases[id := lease];
      AddedCounts(leases, id, lease);
      FewerLeases(settings, before, leases, sequence);
      return true;
    }

    /** Expired leases are released one by one; the bucket table is swept at most once per
        cleanup interval. */
    method Cleanup(now: real)
      requires Valid()
      modifies this
      ensures Valid() && State() == AbuseModel.Cleanup(settings, old(State()), now)
    {
      var ids := leases.Keys;
      while ids != {}
        invariant Valid() && ids <= leases.Keys
        invariant forall id :: id in leases <==> id in old(leases) && (id in ids || now < old(leases)[id].expiresAt)
        invariant forall id :: id in leases ==> leases[id] == old(leases)[id]
        invariant buckets == old(buckets) && lastCleanupAt == old(lastCleanupAt) && sequence == old(sequence)
        decreases ids
      {
        var id :| id in ids;
        ids := ids - {id};
        if leases[id].expiresAt <= now {
          var _ := Release(id);
        }
      }
      assert leases == Expire(old(leases), now);
      if now - lastCleanupAt < settings.cleanupIntervalMs { return; }
      lastCleanupAt := now;
      var keys := buckets.Keys;
      while keys != {}
        invariant keys <= buckets.Keys
        invariant Valid() && leases == Expire(old(leases), now) && lastCleanupAt == now && sequence == old(sequence)
        invariant forall k :: k in buckets <==>
                    k in old(buckets) && (k in keys || now - old(buckets)[k].lastUsedAt <= settings.idleTtlMs)
        invariant forall k :: k in buckets ==> buckets[k] == old(buckets)[k]
        decreases keys
      {
        var k :| k in keys;
        keys := keys - {k};
        if now - buckets[k].lastUsedAt > settings.idleTtlMs {
          buckets := buckets - {k};
        }
      }
      assert buckets == Evict(settings, old(buckets), now);
    }

    /** The bucket that stands for a descriptor, or nothing when the table is exhausted. */
    method BucketFor(item: Key, now: real) returns (slot: Slot)
      requires Valid() && item.Identity?
      modifies `buckets
      ensures Valid() && slot == SlotFor(settings, old(buckets), item, now)
      ensures buckets == if slot.Slot? then slot.buckets else old(buckets)
    {
      if item in buckets {
        buckets := buckets[item := buckets[item].(lastUsedAt := now)];
        return Slot(item, buckets);
      }
      var c := ConfigOf(settings, item.domain, item.policy);
      if |InDomain(buckets, item.domain)| >= Quota(settings, item.domain) || |buckets| >= settings.maxTotalKeys {
        var spill := Overflow(item.domain, item.policy);
        if spill in buckets { return Slot(spill, buckets); }
        if |buckets| >= settings.maxTotalKeys { return NoRoom; }
        buckets := buckets[spill := Fresh(c, now)];
        return Slot(spill, buckets);
      }
      buckets := buckets[item := Fresh(c, now)];
      return Slot(item, buckets);
    }

    /** The first loop of `decide`. */
    method FindBuckets(items: seq<Key>, cost: real, now: real) returns (scan: Scan)
      requires Valid() && DistinctDomains(items)
      modifies `buckets
      ensures Valid() && scan == ScanItems(settings, old(buckets), items, now, cost, [])
      ensures buckets == scan.buckets
    {
      var pending: seq<Key> := [];
      var i := 0;
      while i < |items|
        invariant 0 <= i <= |items| && Valid()
        invariant ScanItems(settings, old(buckets), items, now, cost, [])
               == ScanItems(settings, buckets, items[i..], now, cost, pending)
      {
        assert items[i..][0] == items[i] && items[i..][1..] == items[i + 1..];
        var slot := BucketFor(items[i], now);
        if slot.NoRoom? { return Exhausted(buckets); }
        var available := Level(buckets[slot.key], ConfigOf(settings, items[i].domain, items[i].policy), now);
        if available < cost { return Short(slot.key, buckets); }
        pending := pending + [slot.key];
        i := i + 1;
      }
      return Clear(pending, buckets);
    }

    /** The second loop of `decide`. */
    method ChargeBuckets(pending: seq<Key>, cost: real, now: real)
      requires Valid() && forall k :: k in pending ==> k in buckets
      modifies `buckets
      ensures Valid() && buckets == Charge(settings, old(buckets), pending, now, cost)
    {
      var i := 0;
      while i < |pending|
        invariant 0 <= i <= |pending| && Valid()
        invariant forall k :: k in pending ==> k in buckets
        invariant Charge(settings, old(buckets), pending, now, cost) == Charge(settings, buckets, pending[i..], now, cost)
      {
        assert pending[i..][0] == pending[i] && pending[i..][1..] == pending[i + 1..];
        var k := pending[i];
        var left := Level(buckets[k], ConfigOf(settings, k.domain, k.policy), now) - cost;
        buckets := buckets[k := Bucket(Max(0.0, left), now, now)];
        i := i + 1;
      }
    }

    /** Finds every bucket first and charges none of them unless all hold enough. */
    method DecideBuckets(items: seq<Key>, cost: real, now: real) returns (d: Decision)
      requires Valid() && DistinctDomains(items)
      modifies `buckets
      ensures Valid() && (buckets, d) == DecideOn(settings, old(buckets), items, cost, now)
    {
      ScanKeysPresent(settings, buckets, items, now, cost, []);
      var scan := FindBuckets(items, cost, now);
      match scan
      case Exhausted(_) => return Throttle(1, CapacityExhausted);
      case Short(k, _) => return Throttled(settings, buckets, k, cost, now);
      case Clear(pending, _) =>
        ChargeBuckets(pending, cost, now);
        return Allow(cost);
    }

    method Decide(req: Request, now: real) returns (d: Decision)
      requires Valid()
      modifies this
      ensures Valid() && (State(), d) == DecideStep(settings, old(State()), req, now)
    {
      if req.UnknownPolicy? { return Throttle(1, Unknown); }
      Cleanup(now);
      DescriptorsDistinct(req);
      d := DecideBuckets(Descriptors(req), Cost(req), now);
    }

    /** The first test of `#acquireLease`, read from the counters. */
    method ReserveIsUsedUp(policy: PolicyClass) returns (refused: bool)
      requires Valid()
      ensures refused <==> ReserveExhausted(settings, leases, policy)
    {
      var containment := ContainmentReserve(settings);
      var preAuth := PreAuthReserve(settings);
      var activeContainment := Holding(activeLeasesByPolicy, SecurityContainment);
      var activePreAuth := Holding(activeLeasesByPolicy, Bootstrap);
      var activeOperational := |leases| - activeContainment - activePreAuth;
      refused := (policy == SecurityContainment && containment > 0 && activeContainment >= containment)
        || (policy == Bootstrap && preAuth > 0 && activePreAuth >= preAuth)
        || (policy != SecurityContainment && policy != Bootstrap
            && activeOperational >= settings.maxLeases - containment - preAuth);
    }

    /** The loop of `#acquireLease` over the classes of the lease. */
    method AnyClassFull(policies: seq<PolicyClass>) returns (refused: bool)
      requires Valid()
      ensures refused <==> exists p :: p in policies && ClassExhausted(settings, leases, p)
    {
      var i := 0;
      while i < |policies|
        invariant 0 <= i <= |policies|
        invariant forall j :: 0 <= j < i ==> !ClassExhausted(settings, leases, policies[j])
      {
        var p := policies[i];
        var cap := Policy(settings, p).concurrency;
        if Holding(activeLeasesByPolicy, p) >= (if cap <= settings.maxLeases then cap else settings.maxLeases) {
          assert p in policies && ClassExhausted(settings, leases, p);
          return true;
        }
        i := i + 1;
      }
      return false;
    }

    /** The tests of `#acquireLease` together. */
    method LeaseIsRefused(req: Request, policies: seq<PolicyClass>) returns (refused: bool)
      requires Valid() && req.Request? && policies == LeasePolicies(settings, Descriptors(req))
      ensures refused <==> LeaseRefused(settings, leases, req)
    {
      refused := ReserveIsUsedUp(req.policy);
      if !refused { refused := AnyClassFull(policies); }
    }

    /** Adds one to the counter of each class of a new lease. */
    method CountLease(policies: seq<PolicyClass>)
      requires forall i, j :: 0 <= i < j < |policies| ==> policies[i] != policies[j]
      modifies `activeLeasesByPolicy
      ensures forall p :: Holding(activeLeasesByPolicy, p)
                          == old(Holding(activeLeasesByPolicy, p)) + if p in policies then 1 else 0
    {
      var i := 0;
      while i < |policies|
        invariant 0 <= i <= |policies|
        invariant forall p :: Holding(activeLeasesByPolicy, p)
                              == old(Holding(activeLeasesByPolicy, p)) + if p in policies[..i] then 1 else 0
      {
        var p := policies[i];
        assert p !in policies[..i];
        activeLeasesByPolicy := activeLeasesByPolicy[p := Holding(activeLeasesByPolicy, p) + 1];
        assert policies[..i + 1] == policies[..i] + [p];
        i := i + 1;
      }
      assert policies[..i] == policies;
    }

    /** Issues the next lease id. */
    method InstallLease(lease: Lease)
      requires Valid() && LeaseOk(lease)
      modifies this
      ensures Valid() && sequence == old(sequence) + 1 && leases == old(leases)[sequence := lease]
      ensures buckets == old(buckets) && lastCleanupAt == old(lastCleanupAt)
    {
      sequence := sequence + 1;
      AddedCounts(leases, sequence, lease);
      leases := leases[sequence := lease];
      CountLease(lease.policies);
    }

    /** `#acquireLease` */
    method AcquireLease(req: Request, now: real) returns (r: Concurrency)
      requires Valid() && req.Request?
      modifies this
      ensures Valid() && State() == Acquire(settings, old(State()), req, now).0
      ensures Acquire(settings, old(State()), req, now).1
              == match r case ConcurrencyBlock => Blocked case Granted(id, t) => Leased(id, t)
    {
      var policies := LeasePolicies(settings, Descriptors(req));
      var refused := LeaseIsRefused(req, policies);
      if refused { return ConcurrencyBlock; }
      GrantOk(settings, req, now);
      AcquireGrants(settings, State(), req, now);
      InstallLease(Lease(policies, now + settings.maxLeaseDurationMs));
      return Granted(sequence, now + settings.maxLeaseDurationMs);
    }

    /** `decide`, then a lease; the clock is read again for the lease. */
    method Admit(req: Request, now: real, leaseNow: real) returns (r: AdmitResult)
      requires Valid()
      modifies this
      ensures Valid() && State() == Step(settings, old(State()), AbuseModel.Admit(now, req, leaseNow)).0
      ensures Step(settings, old(State()), AbuseModel.Admit(now, req, leaseNow)).1
              == match r
                 case Refused(d) => Decided(d)
                 case NoLease => Blocked
                 case Admitted(_, id, t) => Leased(id, t)
    {
      var d := Decide(req, now);
      if !d.Allow? { return Refused(d); }
      var c := AcquireLease(req, leaseNow);
      return if c.Granted? then Admitted(d.cost, c.id, c.expiresAt) else NoLease;
    }

    method Reserve(req: Request, now: real) returns (r: AdmitResult)
      requires Valid()
      modifies this
      ensures Valid() && State() == Step(settings, old(State()), AbuseModel.Reserve(now, req)).0
      ensures Step(settings, old(State()), AbuseModel.Reserve(now, req)).1
              == match r
                 case Refused(d) => Decided(d)
                 case NoLease => Blocked
                 case Admitted(_, id, t) => Leased(id, t)
    {
      if req.UnknownPolicy? { return Refused(Throttle(1, Unknown)); }
      Cleanup(now);
      var c := AcquireLease(req, now);
      return if c.Granted? then Admitted(0.0, c.id, c.expiresAt) else NoLease;
    }

    method Reset(now: real)
      requires Valid()
      modifies this
      ensures Valid() && State() == Step(settings, old(State()), AbuseModel.Reset(now)).0
    {
      buckets := map[];
      var ids := leases.Keys;
      while ids != {}
        invariant Valid() && leases.Keys == ids && buckets == map[] && sequence == old(sequence)
        decreases ids
      {
        var id :| id in ids;
        ids := ids - {id};
        var _ := Release(id);
      }
      assert leases == map[];
      activeLeasesByPolicy := map[];
      lastCleanupAt := now;
      assert forall p :: Naming(leases, p) == {};
    }
  }
}
