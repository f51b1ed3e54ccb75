/** What callers get from the limiter, told from the raw settings, requests, buckets and leases:
  the statements here use none of the functions by which the limiter computes its answers. */
module AbuseAnswers {
  import opened Prelude
  import opened AbuseModel
  import opened AbuseRates
  import opened AbuseLeases
  import opened AbuseIsolation

  // ---------------------------------------------------------------- leases

  /** How many of the leases name a class. */
  ghost function Live(ls: Leases, p: PolicyClass): nat { |set id | id in ls && p in ls[id].policies| }

  function Smaller(a: int, b: int): int { if a <= b then a else b }

  /** Every class stays within its own concurrency and within the cap, in every run. */
  lemma ClassCaps(st: Settings, t0: real, es: seq<Event>, p: PolicyClass)
    requires ValidSettings(st)
    ensures Live(Run(st, Initial(t0), es).leases, p) <= Smaller(st.policies[p].concurrency, st.maxLeases)
  {
    var s := Initial(t0);
    assert Naming(s.leases, p) == {};
    RunKeepsClass(st, s, es, p);
    LiveIs(Run(st, s, es).leases, p);
  }

  lemma LiveIs(ls: Leases, p: PolicyClass)
    ensures Live(ls, p) == Active(ls, p)
  {
    assert (set id | id in ls && p in ls[id].policies) == Naming(ls, p);
  }

  ghost predicate WithinClass(st: Settings, ls: Leases, p: PolicyClass)
    requires ValidSettings(st)
  {
    Active(ls, p) <= Smaller(st.policies[p].concurrency, st.maxLeases)
  }

  lemma FewerOfClass(st: Settings, ls: Leases, fewer: Leases, p: PolicyClass)
    requires ValidSettings(st) && WithinClass(st, ls, p)
    requires fewer.Keys <= ls.Keys && forall id :: id in fewer ==> fewer[id] == ls[id]
    ensures WithinClass(st, fewer, p)
  {
    SubsetSize(Naming(fewer, p), Naming(ls, p));
  }

  lemma AcquireKeepsClass(st: Settings, s: Limiter, req: Request, now: real, p: PolicyClass)
    requires ValidSettings(st) && req.Request? && LeasesOk(s.leases, s.sequence) && WithinClass(st, s.leases, p)
    ensures WithinClass(st, Acquire(st, s, req, now).0.leases, p)
  {
    if !LeaseRefused(st, s.leases, req) {
      AcquireGrants(st, s, req, now);
      LeasePoliciesMembers(st, Descriptors(req));
      AddedNaming(s.leases, s.sequence + 1, Grant(st, req, now), p);
      assert p in LeasePolicies(st, Descriptors(req)) ==> !ClassExhausted(st, s.leases, p);
    }
  }

  lemma StepKeepsClass(st: Settings, s: Limiter, e: Event, p: PolicyClass)
    requires ValidSettings(st) && LeasesOk(s.leases, s.sequence) && WithinClass(st, s.leases, p)
    ensures WithinClass(st, Step(st, s, e).0.leases, p)
  {
    match e
    case Release(id) => FewerOfClass(st, s.leases, s.leases - {id}, p);
    case Reset(_) => FewerOfClass(st, s.leases, map[], p);
    case Decide(now, _) => FewerOfClass(st, s.leases, Expire(s.leases, now), p);
    case Reserve(now, req) =>
      FewerOfClass(st, s.leases, Expire(s.leases, now), p);
      CleanupPreserves(st, s, now);
      if req.Request? { AcquireKeepsClass(st, Cleanup(st, s, now), req, now, p); }
    case Admit(now, req, leaseNow) =>
      FewerOfClass(st, s.leases, Expire(s.leases, now), p);
      CleanupPreserves(st, s, now);
      if req.Request? { AcquireKeepsClass(st, DecideStep(st, s, req, now).0, req, leaseNow, p); }
  }

  lemma {:induction false} RunKeepsClass(st: Settings, s: Limiter, es: seq<Event>, p: PolicyClass)
    requires ValidSettings(st) && LeasesOk(s.leases, s.sequence) && WithinClass(st, s.leases, p)
    ensures WithinClass(st, Run(st, s, es).leases, p)
    decreases |es|
  {
    if es != [] {
      StepKeepsClass(st, s, es[0], p);
      StepPreserves(st, s, es[0]);
      RunKeepsClass(st, Step(st, s, es[0]).0, es[1..], p);
    }
  }

  predicate PreAuth(req: Request)
    requires req.Request?
  {
    req.preAuthPhase || req.policy in {PreAuthFailure, Bootstrap, OAuthCallbackInvalid}
  }

  /** The classes a lease for the request names: its own class and the emergency class, each only
      if it is limited at all. */
  predicate Named(st: Settings, req: Request, p: PolicyClass)
    requires ValidSettings(st) && req.Request?
  {
    && st.policies[p].concurrency > 0
    && ((p == req.policy && p != GlobalEmergency)
        || (p == GlobalEmergency && (PreAuth(req) || req.policy !in {SecurityContainment, GlobalEmergency})))
  }

  /** Against these live leases there is no room for the request: the part of the cap that its kind
      may use is full, or a class that its lease would name is. */
  ghost predicate NoLeaseFor(st: Settings, ls: Leases, req: Request)
    requires ValidSettings(st) && req.Request?
  {
    var containment := Smaller(st.maxLeases - 1, st.policies[SecurityContainment].concurrency);
    var preAuth := Smaller(st.maxLeases - containment - 1, st.policies[Bootstrap].concurrency);
    || (req.policy == SecurityContainment && containment > 0 && Live(ls, SecurityContainment) >= containment)
    || (req.policy == Bootstrap && preAuth > 0 && Live(ls, Bootstrap) >= preAuth)
    || (req.policy !in {SecurityContainment, Bootstrap}
        && |ls| - Live(ls, SecurityContainment) - Live(ls, Bootstrap) >= st.maxLeases - containment - preAuth)
    || exists p :: Named(st, req, p) && Live(ls, p) >= Smaller(st.policies[p].concurrency, st.maxLeases)
  }

  lemma NamedHasDescriptor(st: Settings, req: Request, p: PolicyClass)
    requires ValidSettings(st) && req.Request? && Named(st, req, p)
    ensures exists k :: k in Descriptors(req) && k.policy == p
  {
    var k := if p == req.policy && p != GlobalEmergency then Identity(Source, p, req.source)
             else Identity(Global, GlobalEmergency, Subject(req, Global));
    DescriptorsAre(req, k);
  }

  lemma DescriptorIsNamed(st: Settings, req: Request, k: Key)
    requires ValidSettings(st) && req.Request? && k in Descriptors(req) && st.policies[k.policy].concurrency > 0
    ensures Named(st, req, k.policy)
  {
    DescriptorsAre(req, k);
  }

  lemma Mentioned(st: Settings, req: Request, p: PolicyClass)
    requires ValidSettings(st) && req.Request?
    ensures p in LeasePolicies(st, Descriptors(req)) <==>
      (exists k :: k in Descriptors(req) && k.policy == p) && st.policies[p].concurrency > 0
  {
    LeasePoliciesMembers(st, Descriptors(req));
  }

  lemma NamedAre(st: Settings, req: Request, p: PolicyClass)
    requires ValidSettings(st) && req.Request?
    ensures p in LeasePolicies(st, Descriptors(req)) <==> Named(st, req, p)
  {
    Mentioned(st, req, p);
    if Named(st, req, p) {
      NamedHasDescriptor(st, req, p);
    } else if st.policies[p].concurrency > 0 {
      forall k | k in Descriptors(req) ensures k.policy != p {
        if k.policy == p { DescriptorIsNamed(st, req, k); }
      }
    }
  }

  lemma RefusedIff(st: Settings, ls: Leases, req: Request)
    requires ValidSettings(st) && req.Request?
    ensures LeaseRefused(st, ls, req) <==> NoLeaseFor(st, ls, req)
  {
    forall p ensures Active(ls, p) == Live(ls, p) { LiveIs(ls, p); }
    forall p ensures p in LeasePolicies(st, Descriptors(req)) <==> Named(st, req, p) { NamedAre(st, req, p); }
    forall p ensures ClassExhausted(st, ls, p) <==> Live(ls, p) >= Smaller(st.policies[p].concurrency, st.maxLeases) {}
  }

  /** The leases that are still live at a time. */
  function Unexpired(ls: Leases, now: real): Leases { map id | id in ls && now < ls[id].expiresAt :: ls[id] }

  /** `reserve` blocks a request exactly when the leases live at that time leave no room for it;
      otherwise it adds one lease which runs for the maximal duration and names just the limited
      classes of the request. */
  lemma ReserveBlockedIff(st: Settings, s: Limiter, req: Request, now: real)
    requires ValidSettings(st) && req.Request?
    ensures var (s', reply) := Step(st, s, Reserve(now, req));
            var live := Unexpired(s.leases, now);
            if NoLeaseFor(st, live, req) then reply == Blocked && s'.leases == live
            else LeaseAdded(st, live, s.sequence, req, now, s', reply)
  {
    assert Expire(s.leases, now) == Unexpired(s.leases, now);
    RefusedIff(st, Expire(s.leases, now), req);
    if !LeaseRefused(st, Expire(s.leases, now), req) { AddsLease(st, Cleanup(st, s, now), req, now); }
  }

  /** `admit` does so after an ALLOW; the leases were last expired when it was decided. */
  lemma AdmitBlockedIff(st: Settings, s: Limiter, req: Request, now: real, leaseNow: real)
    requires ValidSettings(st) && req.Request?
    ensures var (s', reply) := Step(st, s, Admit(now, req, leaseNow));
            var live := Unexpired(s.leases, now);
            var d := Step(st, s, Decide(now, req)).1.decision;
            if !d.Allow? then reply == Decided(d) && s'.leases == live
            else if NoLeaseFor(st, live, req) then reply == Blocked && s'.leases == live
            else LeaseAdded(st, live, s.sequence, req, leaseNow, s', reply)
  {
    assert Expire(s.leases, now) == Unexpired(s.leases, now);
    RefusedIff(st, Expire(s.leases, now), req);
    var decided := DecideStep(st, s, req, now).0;
    if !LeaseRefused(st, decided.leases, req) { AddsLease(st, decided, req, leaseNow); }
  }

  ghost predicate LeaseAdded(st: Settings, live: Leases, sequence: nat, req: Request, now: real, s': Limiter, reply: Reply)
    requires ValidSettings(st) && req.Request?
  {
    && reply == Leased(sequence + 1, now + st.maxLeaseDurationMs)
    && s'.sequence == sequence + 1 && sequence + 1 in s'.leases
    && s'.leases[sequence + 1].expiresAt == now + st.maxLeaseDurationMs
    && (forall p :: p in s'.leases[sequence + 1].policies <==> Named(st, req, p))
    && s'.leases == live[sequence + 1 := s'.leases[sequence + 1]]
  }

  lemma AddsLease(st: Settings, s: Limiter, req: Request, now: real)
    requires ValidSettings(st) && req.Request? && !LeaseRefused(st, s.leases, req)
    ensures var (s', reply) := Acquire(st, s, req, now); LeaseAdded(st, s.leases, s.sequence, req, now, s', reply)
  {
    forall p ensures p in LeasePolicies(st, Descriptors(req)) <==> Named(st, req, p) { NamedAre(st, req, p); }
  }

  // ---------------------------------------------------------------- charges

  /** What a caller asked to be charged: between 1 and 20 tokens, and 1 for anything else. */
  function Requested(req: Request): real
    requires req.Request?
  {
    if 1 <= req.cost <= 20 then req.cost as real else 1.0
  }

  function CapacityOf(st: Settings, k: Key): nat
    requires ValidSettings(st)
  {
    if k.domain == Containment then st.containmentCapacity else st.policies[k.policy].capacity
  }

  function RefillOf(st: Settings, k: Key): (r: real)
    requires ValidSettings(st)
    ensures r >= 1.0
  {
    assert ValidConfig(st.policies[k.policy]);
    if k.domain == Containment then st.containmentRefillEveryMs else st.policies[k.policy].refillEveryMs
  }

  /** The tokens under a name at a time: a bucket that is not in the table would be full. */
  function Tokens(st: Settings, m: Buckets, k: Key, t: real): real
    requires ValidSettings(st)
  {
    if k !in m then CapacityOf(st, k) as real
    else
      var elapsed := if t - m[k].lastRefillAt >= 0.0 then t - m[k].lastRefillAt else 0.0;
      var refilled := m[k].tokens + elapsed / RefillOf(st, k);
      if refilled <= CapacityOf(st, k) as real then refilled else CapacityOf(st, k) as real
  }

  lemma TokensAre(st: Settings, m: Buckets, k: Key, t: real)
    requires ValidSettings(st)
    ensures LevelAt(st, m, k, t) == Tokens(st, m, k, t)
  {}

  /** The bucket a descriptor may be charged to. */
  predicate StandsFor(k: Key, item: Key) {
    k == item || (k.Overflow? && k.domain == item.domain && k.policy == item.policy)
  }

  /** Which descriptors a request has. */
  predicate Limits(req: Request, item: Key)
    requires req.Request?
  {
    || (Concerns(req.policy, item.domain) && item == Identity(item.domain, req.policy, Subject(req, item.domain)))
    || ((PreAuth(req) || req.policy !in {SecurityContainment, GlobalEmergency})
        && item == Identity(Global, GlobalEmergency, if PreAuth(req) then "pre-auth-global" else "authenticated-operational-global"))
  }

  /** One bucket for each descriptor of the request, and no other. */
  ghost predicate Covers(req: Request, keys: set<Key>)
    requires req.Request?
  {
    && (forall item :: Limits(req, item) ==> exists k :: k in keys && StandsFor(k, item))
    && (forall k :: k in keys ==> exists item :: Limits(req, item) && StandsFor(k, item))
  }

  /** Each of these buckets held the amount and lost exactly that; all others keep their tokens. */
  ghost predicate Takes(st: Settings, before: Buckets, after: Buckets, keys: set<Key>, amount: real, now: real)
    requires ValidSettings(st)
  {
    && (forall k :: k in keys ==> Tokens(st, before, k, now) >= amount)
    && (forall k :: k in keys ==> k in after && after[k] == Bucket(Tokens(st, before, k, now) - amount, now, now))
    && (forall k, t :: k !in keys && now <= t ==> Tokens(st, after, k, t) == Tokens(st, before, k, t))
  }

  /** An ALLOW carries exactly the requested cost and takes exactly that from one bucket for each
      descriptor of the request. Any other answer takes nothing. */
  lemma AllowTakesRequestedCost(st: Settings, s: Limiter, req: Request, now: real)
    requires ValidSettings(st) && req.Request?
    ensures var (s', reply) := Step(st, s, Decide(now, req));
            var swept := if now - s.lastCleanupAt < st.cleanupIntervalMs then s.buckets
                         else map k | k in s.buckets && now - s.buckets[k].lastUsedAt <= st.idleTtlMs :: s.buckets[k];
            if reply.decision.Allow? then
              && reply.decision.cost == Requested(req)
              && exists keys :: Covers(req, keys) && Takes(st, swept, s'.buckets, keys, Requested(req), now)
            else forall k, t :: now <= t ==> Tokens(st, s'.buckets, k, t) == Tokens(st, swept, k, t)
  {
    var swept := Cleanup(st, s, now).buckets;
    var items := Descriptors(req);
    DescriptorsDistinct(req);
    AllOrNothing(st, swept, items, Cost(req), now);
    var m', d := DecideOn(st, swept, items, Cost(req), now).0, DecideOn(st, swept, items, Cost(req), now).1;
    assert d == Step(st, s, Decide(now, req)).1.decision;
    if d.Allow? {
      var keys := ChargedKeys(st, swept, items, Cost(req), now);
      KeysCover(req, keys);
      TakesIt(st, swept, m', keys, Cost(req), now);
      assert Cost(req) == Requested(req);
    } else {
      forall k, t | now <= t ensures Tokens(st, m', k, t) == Tokens(st, swept, k, t) {
        TokensAre(st, m', k, t);
        TokensAre(st, swept, k, t);
      }
    }
  }

  lemma KeysCover(req: Request, keys: seq<Key>)
    requires req.Request? && StandFor(keys, Descriptors(req))
    ensures Covers(req, set k | k in keys)
  {
    var items := Descriptors(req);
    forall item ensures item in items <==> Limits(req, item) { DescriptorsAre(req, item); }
    var all := set k | k in keys;
    forall item | Limits(req, item) ensures exists k :: k in all && StandsFor(k, item) {
      var i :| 0 <= i < |items| && items[i] == item;
      assert keys[i] in all && StandsFor(keys[i], item);
    }
    forall k | k in all ensures exists item :: Limits(req, item) && StandsFor(k, item) {
      var i :| 0 <= i < |keys| && keys[i] == k;
      assert items[i] in items && Limits(req, items[i]) && StandsFor(k, items[i]);
    }
  }

  lemma TakesIt(st: Settings, before: Buckets, after: Buckets, keys: seq<Key>, amount: real, now: real)
    requires ValidSettings(st) && ChargedExactly(st, before, after, keys, amount, now)
    ensures Takes(st, before, after, (set k | k in keys), amount, now)
  {
    forall k, t ensures LevelAt(st, before, k, t) == Tokens(st, before, k, t) { TokensAre(st, before, k, t); }
    forall k, t ensures LevelAt(st, after, k, t) == Tokens(st, after, k, t) { TokensAre(st, after, k, t); }
  }

  // ---------------------------------------------------------------- refusals

  /** How long the missing tokens take to come back: at least a millisecond. */
  function WaitFor(missing: real, refillEveryMs: real): real {
    var wait := missing * refillEveryMs;
    if wait >= 1.0 then wait else 1.0
  }

  /** The least number of whole seconds within the bounds of a class that covers a wait, or the
      upper bound when none does. */
  predicate LeastSeconds(c: Config, waitMs: real, seconds: nat) {
    && c.minRetry <= seconds <= c.maxRetry
    && (1000.0 * seconds as real < waitMs ==> seconds == c.maxRetry)
    && (seconds > c.minRetry ==> 1000.0 * (seconds - 1) as real < waitMs)
  }

  lemma RetryIsLeast(c: Config, waitMs: real)
    requires ValidConfig(c)
    ensures LeastSeconds(c, waitMs, RetryAfter(c, waitMs))
  {}

  /** A refusal names its reason: some descriptor of the request had a bucket with less than the
      requested cost, and the answer asks for the least wait of that bucket; or the table is full
      and has no bucket for a descriptor. */
  ghost predicate RefusedFor(st: Settings, swept: Buckets, after: Buckets, req: Request, now: real, d: Decision)
    requires ValidSettings(st) && req.Request? && d.Throttle?
  {
    match d.reason
    case CapacityExhausted =>
      d.retryAfterSeconds == 1 && |after| >= st.maxTotalKeys
      && exists item :: Limits(req, item) && item !in after && Overflow(item.domain, item.policy) !in after
    case NormalThrottle => exists k: Key :: k.domain != Global && ShortOf(st, swept, req, now, k, d.retryAfterSeconds)
    case GlobalBound => exists k: Key :: k.domain == Global && ShortOf(st, swept, req, now, k, d.retryAfterSeconds)
    case _ => false
  }

  ghost predicate ShortOf(st: Settings, swept: Buckets, req: Request, now: real, k: Key, seconds: nat)
    requires ValidSettings(st) && req.Request?
  {
    && (exists item :: Limits(req, item) && StandsFor(k, item))
    && Tokens(st, swept, k, now) < Requested(req)
    && LeastSeconds(st.policies[k.policy], WaitFor(Requested(req) - Tokens(st, swept, k, now), RefillOf(st, k)), seconds)
  }

  lemma RefusalHasReason(st: Settings, s: Limiter, req: Request, now: real)
    requires ValidSettings(st) && req.Request?
    ensures var (s', reply) := Step(st, s, Decide(now, req));
            var swept := if now - s.lastCleanupAt < st.cleanupIntervalMs then s.buckets
                         else map k | k in s.buckets && now - s.buckets[k].lastUsedAt <= st.idleTtlMs :: s.buckets[k];
            reply.decision.Throttle? ==> RefusedFor(st, swept, s'.buckets, req, now, reply.decision)
  {
    var swept := Cleanup(st, s, now).buckets;
    if ScanItems(st, swept, Descriptors(req), now, Cost(req), []).Exhausted? { FullHasReason(st, swept, req, now); }
    if ScanItems(st, swept, Descriptors(req), now, Cost(req), []).Short? { ShortHasReason(st, swept, req, now); }
  }

  lemma FullHasReason(st: Settings, swept: Buckets, req: Request, now: real)
    requires ValidSettings(st) && req.Request?
    requires ScanItems(st, swept, Descriptors(req), now, Cost(req), []).Exhausted?
    ensures var d := DecideOn(st, swept, Descriptors(req), Cost(req), now);
      d.1.Throttle? && RefusedFor(st, swept, d.0, req, now, d.1)
  {
    var items := Descriptors(req);
    DescriptorsDistinct(req);
    ScanStops(st, swept, items, now, Cost(req), []);
    FullForRequest(st, ScanItems(st, swept, items, now, Cost(req), []).buckets, req);
  }

  lemma FullForRequest(st: Settings, m: Buckets, req: Request)
    requires req.Request? && exists item :: item in Descriptors(req) && item !in m && Overflow(item.domain, item.policy) !in m
    ensures exists item :: Limits(req, item) && item !in m && Overflow(item.domain, item.policy) !in m
  {
    var item :| item in Descriptors(req) && item !in m && Overflow(item.domain, item.policy) !in m;
    DescriptorsAre(req, item);
    assert Limits(req, item);
  }

  lemma ShortHasReason(st: Settings, swept: Buckets, req: Request, now: real)
    requires ValidSettings(st) && req.Request?
    requires ScanItems(st, swept, Descriptors(req), now, Cost(req), []).Short?
    ensures var d := DecideOn(st, swept, Descriptors(req), Cost(req), now);
      d.1.Throttle? && RefusedFor(st, swept, d.0, req, now, d.1)
  {
    var items := Descriptors(req);
    DescriptorsDistinct(req);
    ScanLevels(st, swept, items, now, Cost(req), []);
    ScanStops(st, swept, items, now, Cost(req), []);
    var k, m' := ScanItems(st, swept, items, now, Cost(req), []).key, ScanItems(st, swept, items, now, Cost(req), []).buckets;
    TokensAre(st, swept, k, now);
    TokensAre(st, m', k, now);
    StandsForRequest(req, k);
    ShortOne(st, swept, m', req, now, k);
  }

  lemma StandsForRequest(req: Request, k: Key)
    requires req.Request? && exists item :: item in Descriptors(req) && k in {item, Overflow(item.domain, item.policy)}
    ensures exists item :: Limits(req, item) && StandsFor(k, item)
  {
    var item :| item in Descriptors(req) && k in {item, Overflow(item.domain, item.policy)};
    DescriptorsAre(req, item);
    assert Limits(req, item) && StandsFor(k, item);
  }

  lemma ShortOne(st: Settings, swept: Buckets, m: Buckets, req: Request, now: real, k: Key)
    requires ValidSettings(st) && req.Request? && k in m
    requires Tokens(st, m, k, now) == Tokens(st, swept, k, now) < Cost(req)
    requires exists item :: Limits(req, item) && StandsFor(k, item)
    ensures var d := Throttled(st, m, k, Cost(req), now); d.Throttle? && RefusedFor(st, swept, m, req, now, d)
  {
    ThrottledIs(st, m, k, Cost(req), now);
    assert ShortOf(st, swept, req, now, k, Throttled(st, m, k, Cost(req), now).retryAfterSeconds);
  }

  lemma WaitIs(level: real, cost: real, c: Config)
    requires level < cost
    ensures WaitMs(level, cost, c) == WaitFor(cost - level, c.refillEveryMs)
  {
    var gap := Max(0.0, cost - level);
    assert gap == cost - level;
  }

  lemma ThrottledIs(st: Settings, m: Buckets, k: Key, cost: real, now: real)
    requires ValidSettings(st) && k in m && Tokens(st, m, k, now) < cost
    ensures var d := Throttled(st, m, k, cost, now);
      && d.Throttle? && d.reason == (if k.domain == Global then GlobalBound else NormalThrottle)
      && LeastSeconds(st.policies[k.policy], WaitFor(cost - Tokens(st, m, k, now), RefillOf(st, k)), d.retryAfterSeconds)
  {
    var c := ConfigOf(st, k.domain, k.policy);
    assert ValidConfig(st.policies[k.policy]) && c.refillEveryMs == RefillOf(st, k);
    assert Level(m[k], c, now) == Tokens(st, m, k, now) by { TokensAre(st, m, k, now); }
    WaitIs(Tokens(st, m, k, now), cost, c);
    RetryIsLeast(c, WaitMs(Tokens(st, m, k, now), cost, c));
  }

  /** Where a scan stops, it stops at an item: at one whose bucket is short, or for which there is
      neither an own nor an overflow bucket in a full table. */
  lemma {:induction false} ScanStops(st: Settings, m: Buckets, items: seq<Key>, now: real, cost: real, pending: seq<Key>)
    requires ValidSettings(st) && forall i :: 0 <= i < |items| ==> items[i].Identity?
    ensures match ScanItems(st, m, items, now, cost, pending)
            case Clear(_, _) => true
            case Short(k, _) => exists item :: item in items && k in {item, Overflow(item.domain, item.policy)}
            case Exhausted(m') =>
              |m'| >= st.maxTotalKeys && exists item :: item in items && item !in m' && Overflow(item.domain, item.policy) !in m'
    decreases |items|
  {
    if items != [] {
      SlotIs(st, m, items[0], now);
      var slot := SlotFor(st, m, items[0], now);
      assert items[0] in items;
      if slot.Slot? {
        ScanStops(st, slot.buckets, items[1..], now, cost, pending + [slot.key]);
        assert forall item :: item in items[1..] ==> item in items;
      }
    }
  }

  /** A release removes just the named lease, and says whether there was one. A reset forgets
      everything but the numbering of leases. */
  lemma ReleaseAndResetAnswer(st: Settings, s: Limiter, id: nat, now: real)
    requires ValidSettings(st)
    ensures var (s', reply) := Step(st, s, Release(id));
      && (reply == Released(true) <==> id in s.leases) && (reply == Released(false) <==> id !in s.leases)
      && s'.leases == (map k | k in s.leases && k != id :: s.leases[k])
      && s'.buckets == s.buckets && s'.sequence == s.sequence && s'.lastCleanupAt == s.lastCleanupAt
    ensures var (s', reply) := Step(st, s, Reset(now));
      s'.buckets == map[] && s'.leases == map[] && s'.lastCleanupAt == now && s'.sequence == s.sequence
  {}

  /** A class the limiter does not know is refused without any effect. */
  lemma UnknownIsRefused(st: Settings, s: Limiter, now: real, leaseNow: real)
    requires ValidSettings(st)
    ensures forall e :: e in [Decide(now, UnknownPolicy), Admit(now, UnknownPolicy, leaseNow), Reserve(now, UnknownPolicy)] ==>
      Step(st, s, e) == (s, Decided(Throttle(1, Unknown)))
  {}

  /** Descriptors are examined from the source to the shared emergency bucket. */
  function Turn(d: Domain): nat {
    match d
    case Source => 0
    case Actor => 1
    case Consumer => 1
    case Token => 2
    case Provider => 2
    case Containment => 2
    case Global => 3
  }

  lemma DescriptorsInTurn(req: Request)
    requires req.Request?
    ensures forall i, j :: 0 <= i < j < |Descriptors(req)| ==> Turn(Descriptors(req)[i].domain) < Turn(Descriptors(req)[j].domain)
  {}
}
