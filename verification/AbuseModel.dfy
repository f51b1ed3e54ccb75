/** The state and the single steps of the abuse-admission limiter, as functions.

  A bucket is refilled lazily: it stores the tokens it held at `lastRefillAt`, and `Level`
  computes what it holds at any later time. `#cleanup` forgets buckets that were idle too
  long; a forgotten bucket is indistinguishable from one that was never used. */
module AbuseModel {

  datatype PolicyClass =
    | PreAuthFailure | Bootstrap | ManagementAuthenticated | ManagementMutation
    | SecurityContainment | ApiTokenCreate | ApiTokenRevoke
    | ConsumerDiscovery | ConsumerResolve | ConsumerBatchResolve
    | OAuthStart | OAuthCallbackInvalid | OAuthCallbackValid
    | ProviderHealth | GlobalEmergency

  datatype Domain = Source | Actor | Consumer | Token | Provider | Global | Containment

  /** The name of a bucket. The source builds the string `domain:policy:digest`; a digest is
      taken as injective here, so the triple itself is the name. */
  datatype Key =
    | Identity(domain: Domain, policy: PolicyClass, identity: string)
    | Overflow(domain: Domain, policy: PolicyClass)

  datatype Config = Config(capacity: nat, refillEveryMs: real, minRetry: nat, maxRetry: nat, concurrency: nat)

  predicate ValidConfig(c: Config) {
    1 <= c.capacity && 1.0 <= c.refillEveryMs && 1 <= c.minRetry <= c.maxRetry
  }

  datatype Settings = Settings(
    maxTotalKeys: nat, idleTtlMs: real, cleanupIntervalMs: real,
    maxLeases: nat, maxLeaseDurationMs: real,
    quotas: map<Domain, nat>, policies: map<PolicyClass, Config>,
    containmentCapacity: nat, containmentRefillEveryMs: real)

  /** A domain without a quota of its own may fill the whole table. */
  function Quota(st: Settings, d: Domain): nat {
    if d in st.quotas then st.quotas[d] else st.maxTotalKeys
  }

  /** Every class has a configuration in valid settings; the fallback is never reached there. */
  function Policy(st: Settings, p: PolicyClass): Config {
    if p in st.policies then st.policies[p] else Config(1, 1.0, 1, 1, 0)
  }

  ghost predicate ValidSettings(st: Settings) {
    && 1 <= st.maxTotalKeys && 1.0 <= st.idleTtlMs && 1.0 <= st.cleanupIntervalMs
    && 1 <= st.maxLeases && 1.0 <= st.maxLeaseDurationMs
    && 1 <= st.containmentCapacity && 1.0 <= st.containmentRefillEveryMs
    && (forall d :: d in st.quotas ==> 1 <= st.quotas[d])
    && (forall p :: p in st.policies && ValidConfig(st.policies[p]))
  }

  /** The configuration of every descriptor of a domain and policy class: only the shared
      containment bucket has a capacity and a refill rate of its own. */
  function ConfigOf(st: Settings, d: Domain, p: PolicyClass): (c: Config)
    ensures ValidSettings(st) ==> ValidConfig(c)
  {
    if d == Containment
    then Policy(st, p).(capacity := st.containmentCapacity, refillEveryMs := st.containmentRefillEveryMs)
    else Policy(st, p)
  }

  // ---------------------------------------------------------------- requests

  datatype Request =
    | UnknownPolicy
    | Request(policy: PolicyClass, preAuthPhase: bool, cost: int,
              source: string, actor: string, consumer: string, token: string, provider: string)

  function Cost(req: Request): (c: real)
    requires req.Request?
    ensures 1.0 <= c <= 20.0
  {
    if 1 <= req.cost <= 20 then req.cost as real else 1.0
  }

  predicate IsPreAuth(req: Request)
    requires req.Request?
  {
    req.preAuthPhase || req.policy in {PreAuthFailure, Bootstrap, OAuthCallbackInvalid}
  }

  function OwnDescriptors(req: Request): seq<Key>
    requires req.Request?
  {
    var p := req.policy;
    match p
    case PreAuthFailure | OAuthCallbackInvalid | Bootstrap => [Identity(Source, p, req.source)]
    case ManagementAuthenticated | ManagementMutation | ApiTokenCreate =>
      [Identity(Source, p, req.source), Identity(Actor, p, req.actor)]
    case ApiTokenRevoke =>
      [Identity(Source, p, req.source), Identity(Actor, p, req.actor), Identity(Token, p, req.token)]
    case SecurityContainment =>
      [Identity(Source, p, req.source), Identity(Actor, p, req.actor),
       Identity(Containment, p, "global-containment")]
    case ConsumerDiscovery =>
      [Identity(Source, p, req.source), Identity(Consumer, p, req.consumer)]
    case ConsumerResolve | ConsumerBatchResolve =>
      [Identity(Source, p, req.source), Identity(Consumer, p, req.consumer), Identity(Token, p, req.token)]
    case OAuthStart | OAuthCallbackValid | ProviderHealth =>
      [Identity(Source, p, req.source), Identity(Actor, p, req.actor), Identity(Provider, p, req.provider)]
    case GlobalEmergency => []
  }

  function GlobalDescriptor(req: Request): seq<Key>
    requires req.Request?
  {
    if IsPreAuth(req) then [Identity(Global, GlobalEmergency, "pre-auth-global")]
    else if req.policy != SecurityContainment && req.policy != GlobalEmergency
    then [Identity(Global, GlobalEmergency, "authenticated-operational-global")]
    else []
  }

  function Descriptors(req: Request): seq<Key>
    requires req.Request?
  {
    OwnDescriptors(req) + GlobalDescriptor(req)
  }

  /** Descriptors of one request never share a domain, so neither their identity buckets nor
      the overflow buckets they may be diverted to can coincide. */
  predicate DistinctDomains(items: seq<Key>) {
    && (forall i :: 0 <= i < |items| ==> items[i].Identity?)
    && (forall i, j :: 0 <= i < j < |items| ==> items[i].domain != items[j].domain)
  }

  lemma DescriptorsDistinct(req: Request)
    requires req.Request?
    ensures DistinctDomains(Descriptors(req))
    ensures forall k :: k in Descriptors(req) ==> k.policy == req.policy || k.policy == GlobalEmergency
  {
    assert forall i :: 0 <= i < |OwnDescriptors(req)| ==> OwnDescriptors(req)[i].domain != Global;
  }

  // ---------------------------------------------------------------- buckets

  datatype Bucket = Bucket(tokens: real, lastRefillAt: real, lastUsedAt: real)

  type Buckets = map<Key, Bucket>

  function Min(a: real, b: real): real { if a <= b then a else b }
  function Max(a: real, b: real): real { if a <= b then b else a }

  /** `#available`: the tokens a bucket holds at time t. */
  function Level(b: Bucket, c: Config, t: real): real
    requires c.refillEveryMs > 0.0
  {
    Min(c.capacity as real, b.tokens + Max(0.0, t - b.lastRefillAt) / c.refillEveryMs)
  }

  function Fresh(c: Config, now: real): Bucket { Bucket(c.capacity as real, now, now) }

  function InDomain(m: Buckets, d: Domain): set<Key> { set k | k in m && k.domain == d }

  datatype Slot = Slot(key: Key, buckets: Buckets) | NoRoom

  /** `#bucket`: the bucket that stands for a descriptor, created when it is missing. When the
      domain's quota or the table is full the descriptor is diverted to a shared overflow bucket. */
  function SlotFor(st: Settings, m: Buckets, item: Key, now: real): (r: Slot)
    ensures r.Slot? ==> r.key in r.buckets && r.key in {item, Overflow(item.domain, item.policy)}
  {
    var c := ConfigOf(st, item.domain, item.policy);
    if item in m then
      Slot(item, m[item := m[item].(lastUsedAt := now)])
    else if |InDomain(m, item.domain)| >= Quota(st, item.domain) || |m| >= st.maxTotalKeys then
      var spill := Overflow(item.domain, item.policy);
      if spill in m then Slot(spill, m)
      else if |m| >= st.maxTotalKeys then NoRoom
      else Slot(spill, m[spill := Fresh(c, now)])
    else
      Slot(item, m[item := Fresh(c, now)])
  }

  /** When a descriptor gets its own bucket, the overflow bucket of its domain and class, or none,
      told from the raw quotas and the buckets of its domain; at most this one bucket is touched,
      a new one is full, and only an own one that exists is marked as used. */
  lemma SlotIs(st: Settings, m: Buckets, item: Key, now: real)
    requires item.Identity? && ValidSettings(st)
    ensures var r := SlotFor(st, m, item, now);
            var spill := Overflow(item.domain, item.policy);
            var quota := if item.domain in st.quotas then st.quotas[item.domain] else st.maxTotalKeys;
            var full := |set k | k in m && k.domain == item.domain| >= quota || |m| >= st.maxTotalKeys;
            var capacity := if item.domain == Containment then st.containmentCapacity else st.policies[item.policy].capacity;
            && (r.NoRoom? <==> item !in m && spill !in m && |m| >= st.maxTotalKeys)
            && (r.Slot? ==> r.key == (if item in m || !full then item else spill))
            && (r.Slot? ==> r.key in r.buckets && r.buckets == m[r.key := r.buckets[r.key]])
            && (r.Slot? && r.key !in m ==> r.buckets[r.key] == Bucket(capacity as real, now, now))
            && (r.Slot? && r.key in m ==>
                  r.buckets[r.key] == if r.key == item then m[item].(lastUsedAt := now) else m[r.key])
  {
    assert (set k | k in m && k.domain == item.domain) == InDomain(m, item.domain);
  }

  /** The outcome of the first loop of `decide`: every bucket has enough, one is short, or the
      table has no room for another bucket. */
  datatype Scan =
    | Clear(keys: seq<Key>, buckets: Buckets)
    | Short(key: Key, buckets: Buckets)
    | Exhausted(buckets: Buckets)

  function ScanItems(st: Settings, m: Buckets, items: seq<Key>, now: real, cost: real, pending: seq<Key>): Scan
    requires ValidSettings(st)
    decreases |items|
  {
    if items == [] then Clear(pending, m)
    else
      match SlotFor(st, m, items[0], now)
      case NoRoom => Exhausted(m)
      case Slot(k, m') =>
        if Level(m'[k], ConfigOf(st, k.domain, k.policy), now) < cost then Short(k, m')
        else ScanItems(st, m', items[1..], now, cost, pending + [k])
  }

  /** The second loop of `decide`. */
  function Charge(st: Settings, m: Buckets, keys: seq<Key>, now: real, cost: real): (r: Buckets)
    requires ValidSettings(st)
    requires forall k :: k in keys ==> k in m
    ensures r.Keys == m.Keys
  {
    if keys == [] then m
    else
      var k := keys[0];
      var left := Level(m[k], ConfigOf(st, k.domain, k.policy), now) - cost;
      Charge(st, m[k := Bucket(Max(0.0, left), now, now)], keys[1..], now, cost)
  }

  /** The keys found by a scan are in the table it leaves behind. */
  lemma {:induction false} ScanKeysPresent(st: Settings, m: Buckets, items: seq<Key>, now: real, cost: real, pending: seq<Key>)
    requires ValidSettings(st)
    requires forall k :: k in pending ==> k in m
    ensures var r := ScanItems(st, m, items, now, cost, pending);
            match r
            case Clear(keys, m') => forall k :: k in keys ==> k in m'
            case Short(k, m') => k in m'
            case Exhausted(_) => true
    decreases |items|
  {
    if items != [] {
      var s := SlotFor(st, m, items[0], now);
      if s.Slot? {
        ScanKeysPresent(st, s.buckets, items[1..], now, cost, pending + [s.key]);
      }
    }
  }

  // ---------------------------------------------------------------- decisions

  datatype Reason = Unknown | CapacityExhausted | GlobalBound | NormalThrottle | Concurrency

  datatype Decision =
    | Allow(cost: real)
    | Throttle(retryAfterSeconds: nat, reason: Reason)

  function Ceil(x: real): int { -((-x).Floor) }

  /** `#waitMs` */
  function WaitMs(available: real, cost: real, c: Config): real {
    Max(1.0, Max(0.0, cost - available) * c.refillEveryMs)
  }

  /** The clamped and rounded Retry-After of `#throttled`. */
  function RetryAfter(c: Config, waitMs: real): nat {
    var raised := if Ceil(waitMs / 1000.0) <= c.minRetry then c.minRetry else Ceil(waitMs / 1000.0);
    var seconds := if c.maxRetry <= raised then c.maxRetry else raised;
    if seconds <= 1 then 1 else seconds
  }

  function Throttled(st: Settings, m: Buckets, k: Key, cost: real, now: real): Decision
    requires ValidSettings(st)
    requires k in m
  {
    var c := ConfigOf(st, k.domain, k.policy);
    Throttle(RetryAfter(c, WaitMs(Level(m[k], c, now), cost, c)),
             if k.domain == Global then GlobalBound else NormalThrottle)
  }

  /** The body of `decide` after `#cleanup`, for the descriptors and the cost of a request. */
  function DecideOn(st: Settings, m: Buckets, items: seq<Key>, cost: real, now: real): (Buckets, Decision)
    requires ValidSettings(st)
  {
    var scan := ScanItems(st, m, items, now, cost, []);
    ScanKeysPresent(st, m, items, now, cost, []);
    match scan
    case Clear(keys, m') => (Charge(st, m', keys, now, cost), Allow(cost))
    case Short(k, m') => (m', Throttled(st, m', k, cost, now))
    case Exhausted(m') => (m', Throttle(1, CapacityExhausted))
  }

  function Evict(st: Settings, m: Buckets, now: real): Buckets {
    map k | k in m && now - m[k].lastUsedAt <= st.idleTtlMs :: m[k]
  }

  // ---------------------------------------------------------------- leases

  datatype Lease = Lease(policies: seq<PolicyClass>, expiresAt: real)

  type Leases = map<nat, Lease>

  ghost function Naming(ls: Leases, p: PolicyClass): set<nat> {
    set id | id in ls && p in ls[id].policies
  }

  function Expire(ls: Leases, now: real): Leases {
    map id | id in ls && now < ls[id].expiresAt :: ls[id]
  }

  /** `[...new Set(descriptors.map(policyClass))]` without the classes that take no lease. */
  function LeasePolicies(st: Settings, items: seq<Key>): seq<PolicyClass> {
    if items == [] then []
    else
      var front := LeasePolicies(st, items[..|items| - 1]);
      var last := items[|items| - 1];
      if last.policy in front || Policy(st, last.policy).concurrency == 0 then front else front + [last.policy]
  }

  lemma {:induction false} LeasePoliciesMembers(st: Settings, items: seq<Key>)
    ensures forall p :: p in LeasePolicies(st, items) <==>
                        (exists k :: k in items && k.policy == p) && Policy(st, p).concurrency > 0
    ensures forall i, j :: 0 <= i < j < |LeasePolicies(st, items)| ==> LeasePolicies(st, items)[i] != LeasePolicies(st, items)[j]
  {
    if items != [] {
      var front, last := items[..|items| - 1], items[|items| - 1];
      LeasePoliciesMembers(st, front);
      assert items == front + [last];
      forall p ensures p in LeasePolicies(st, items) <==> (exists k :: k in items && k.policy == p) && Policy(st, p).concurrency > 0 {
        assert last in items;
      }
    }
  }

  function ContainmentReserve(st: Settings): nat
    requires 1 <= st.maxLeases
  {
    var c := Policy(st, SecurityContainment).concurrency;
    if st.maxLeases - 1 <= c then st.maxLeases - 1 else c
  }

  function PreAuthReserve(st: Settings): nat
    requires 1 <= st.maxLeases
  {
    var c := Policy(st, Bootstrap).concurrency;
    var left := st.maxLeases - ContainmentReserve(st) - 1;
    if left <= c then left else c
  }

  ghost function Active(ls: Leases, p: PolicyClass): nat { |Naming(ls, p)| }

  /** The first test of `#acquireLease`: the reserve that applies to the class is used up. */
  ghost predicate ReserveExhausted(st: Settings, ls: Leases, policy: PolicyClass)
    requires 1 <= st.maxLeases
  {
    var containment := Active(ls, SecurityContainment);
    var preAuth := Active(ls, Bootstrap);
    || (policy == SecurityContainment && ContainmentReserve(st) > 0 && containment >= ContainmentReserve(st))
    || (policy == Bootstrap && PreAuthReserve(st) > 0 && preAuth >= PreAuthReserve(st))
    || (policy != SecurityContainment && policy != Bootstrap
        && |ls| - containment - preAuth >= st.maxLeases - ContainmentReserve(st) - PreAuthReserve(st))
  }

  ghost predicate ClassExhausted(st: Settings, ls: Leases, p: PolicyClass) {
    Active(ls, p) >= if Policy(st, p).concurrency <= st.maxLeases then Policy(st, p).concurrency else st.maxLeases
  }

  ghost predicate LeaseRefused(st: Settings, ls: Leases, req: Request)
    requires 1 <= st.maxLeases && req.Request?
  {
    || ReserveExhausted(st, ls, req.policy)
    || exists p :: p in LeasePolicies(st, Descriptors(req)) && ClassExhausted(st, ls, p)
  }

  // ---------------------------------------------------------------- whole steps

  /** `activeLeasesByPolicy` is not part of this state: the class proves that its counters are
      always `Active(leases, p)`. */
  datatype Limiter = Limiter(buckets: Buckets, lastCleanupAt: real, leases: Leases, sequence: nat)

  datatype Event =
    | Decide(now: real, req: Request)
    | Admit(now: real, req: Request, leaseNow: real)
    | Reserve(now: real, req: Request)
    | Release(id: nat)
    | Reset(now: real)

  datatype Reply =
    | Decided(decision: Decision)
    | Blocked
    | Leased(id: nat, expiresAt: real)
    | Released(found: bool)
    | Done

  function Cleanup(st: Settings, s: Limiter, now: real): Limiter {
    var s' := s.(leases := Expire(s.leases, now));
    if now - s.lastCleanupAt < st.cleanupIntervalMs then s'
    else s'.(lastCleanupAt := now, buckets := Evict(st, s.buckets, now))
  }

  function Grant(st: Settings, req: Request, now: real): Lease
    requires req.Request?
  {
    Lease(LeasePolicies(st, Descriptors(req)), now + st.maxLeaseDurationMs)
  }

  ghost function Acquire(st: Settings, s: Limiter, req: Request, now: real): (Limiter, Reply)
    requires ValidSettings(st) && req.Request?
  {
    if LeaseRefused(st, s.leases, req) then (s, Blocked)
    else
      var id := s.sequence + 1;
      (s.(leases := s.leases[id := Grant(st, req, now)], sequence := id), Leased(id, now + st.maxLeaseDurationMs))
  }

  function DecideStep(st: Settings, s: Limiter, req: Request, now: real): (Limiter, Decision)
    requires ValidSettings(st)
  {
    if req.UnknownPolicy? then (s, Throttle(1, Unknown))
    else
      var s1 := Cleanup(st, s, now);
      var (m, d) := DecideOn(st, s1.buckets, Descriptors(req), Cost(req), now);
      (s1.(buckets := m), d)
  }

  ghost function Step(st: Settings, s: Limiter, e: Event): (Limiter, Reply)
    requires ValidSettings(st)
  {
    match e
    case Decide(now, req) =>
      var (s', d) := DecideStep(st, s, req, now);
      (s', Decided(d))
    case Admit(now, req, leaseNow) =>
      var (s', d) := DecideStep(st, s, req, now);
      if d.Allow? then Acquire(st, s', req, leaseNow) else (s', Decided(d))
    case Reserve(now, req) =>
      if req.UnknownPolicy? then (s, Decided(Throttle(1, Unknown)))
      else Acquire(st, Cleanup(st, s, now), req, now)
    case Release(id) => (s.(leases := s.leases - {id}), Released(id in s.leases))
    case Reset(now) => (Limiter(map[], now, map[], s.sequence), Done)
  }

  function Initial(now: real): Limiter { Limiter(map[], now, map[], 0) }

  /** The state after a run of events. */
  ghost function Run(st: Settings, s: Limiter, es: seq<Event>): Limiter
    requires ValidSettings(st)
    decreases |es|
  {
    if es == [] then s else Run(st, Step(st, s, es[0]).0, es[1..])
  }

  predicate HasTime(e: Event) { !e.Release? }

  function Start(e: Event): real
    requires HasTime(e)
  {
    e.now
  }

  function End(e: Event): real
    requires HasTime(e)
  {
    if e.Admit? then e.leaseNow else e.now
  }

  /** The clock never goes back: every reading lies between `from` and `to`, in order. */
  predicate Timed(es: seq<Event>, from: real, to: real) {
    if es == [] then from <= to
    else if HasTime(es[0]) then from <= Start(es[0]) <= End(es[0]) && Timed(es[1..], End(es[0]), to)
    else Timed(es[1..], from, to)
  }
}
