/** The configuration of the limiter: overrides are normalised field by field, and the shipped
  defaults meet every condition the theorems ask for. */
module AbusePolicy {
  import opened Prelude
  import opened AbuseModel
  import opened AbuseRates
  import opened AbuseLeases

  /** An override field that is not a finite number reads as None. */
  datatype Override = Override(
    capacity: Option<real>, refillEveryMs: Option<real>,
    minRetry: Option<real>, maxRetry: Option<real>, concurrency: Option<real>,
    containmentCapacity: Option<real>, containmentRefillEveryMs: Option<real>)

  const NO_OVERRIDE: Override := Override(None, None, None, None, None, None, None)

  predicate Integral(x: real) { x.Floor as real == x }

  /** `finiteNumber`: an out-of-range or fractional value falls back to the default. */
  function Whole(value: Option<real>, fallback: nat, low: nat, high: nat): (r: nat)
    ensures r == fallback || (low <= r <= high && value == Some(r as real))
    ensures value.Some? && Integral(value.value) && low as real <= value.value <= high as real ==> r as real == value.value
  {
    if value.Some? && Integral(value.value) && low as real <= value.value <= high as real
    then value.value.Floor else fallback
  }

  function Duration(value: Option<real>, fallback: real, low: real, high: real): (r: real)
    ensures r == fallback || (low <= r <= high && value == Some(r))
    ensures value.Some? && low <= value.value <= high ==> r == value.value
  {
    if value.Some? && low <= value.value <= high then value.value else fallback
  }

  const MAX_DURATION_MS: real := 86_400_000.0
  const MAX_LEASES: nat := 1024
  const MAX_LEASE_DURATION_MS: real := 30_000.0
  const MAX_COUNT: nat := 1_000_000

  /** The ranges `policyConfig` accepts. */
  predicate InRange(c: Config) {
    && 1 <= c.capacity <= MAX_COUNT && 1.0 <= c.refillEveryMs <= MAX_DURATION_MS
    && 1 <= c.minRetry <= 3_600 && 1 <= c.maxRetry <= 86_400 && c.concurrency <= MAX_LEASES
  }

  /** Whatever the override says, the outcome is a valid configuration: in particular the
      maximum Retry-After is never below the minimum. */
  function PolicyConfig(d: Config, o: Override): (r: Config)
    requires InRange(d)
    ensures InRange(r) && ValidConfig(r)
  {
    var low := Whole(o.minRetry, d.minRetry, 1, 3_600);
    var high := Whole(o.maxRetry, d.maxRetry, 1, 86_400);
    Config(Whole(o.capacity, d.capacity, 1, MAX_COUNT),
           Duration(o.refillEveryMs, d.refillEveryMs, 1.0, MAX_DURATION_MS),
           low, if low <= high then high else low,
           Whole(o.concurrency, d.concurrency, 0, MAX_LEASES))
  }

  const POLICY_DEFAULTS: map<PolicyClass, Config> := map[
    PreAuthFailure := Config(20, 3000.0, 3, 60, 0),
    Bootstrap := Config(3, 200000.0, 60, 600, 1),
    ManagementAuthenticated := Config(120, 500.0, 1, 60, 0),
    ManagementMutation := Config(30, 2000.0, 2, 60, 8),
    SecurityContainment := Config(120, 1000.0, 1, 60, 16),
    ApiTokenCreate := Config(10, 60000.0, 60, 600, 2),
    ApiTokenRevoke := Config(120, 2000.0, 1, 60, 16),
    ConsumerDiscovery := Config(60, 1000.0, 1, 60, 8),
    ConsumerResolve := Config(120, 500.0, 1, 60, 8),
    ConsumerBatchResolve := Config(60, 1000.0, 1, 60, 2),
    OAuthStart := Config(10, 60000.0, 60, 600, 2),
    OAuthCallbackInvalid := Config(60, 1000.0, 1, 60, 0),
    OAuthCallbackValid := Config(30, 20000.0, 20, 600, 2),
    ProviderHealth := Config(20, 3000.0, 3, 60, 2),
    GlobalEmergency := Config(1000, 1000.0 / 17.0, 1, 60, 1024)]

  const QUOTA_DEFAULTS: map<Domain, nat> := map[
    Source := 4_000, Actor := 2_000, Consumer := 2_000, Token := 2_000,
    Provider := 1_000, Global := 64, Containment := 512]

  const DEFAULT_SETTINGS: Settings := Settings(
    10_000, 900_000.0, 60_000.0, 1_024, MAX_LEASE_DURATION_MS, QUOTA_DEFAULTS, POLICY_DEFAULTS, 500, 200.0)

  // ------------------------------------------------ the options of the constructor

  /** A numeric option that is missing or not a finite number is None. */
  datatype Options = Options(
    maxTotalKeys: Option<real>, idleTtlMs: Option<real>, cleanupIntervalMs: Option<real>,
    maxConcurrencyLeases: Option<real>, maxLeaseDurationMs: Option<real>,
    domainQuotas: map<Domain, Option<real>>, policyOverrides: map<PolicyClass, Override>)

  const NO_OPTIONS: Options := Options(None, None, None, None, None, map[], map[])

  function OverrideFor(o: Options, p: PolicyClass): Override {
    if p in o.policyOverrides then o.policyOverrides[p] else NO_OVERRIDE
  }

  /** A quota falls back to the default of its domain even when that exceeds the table. */
  function QuotaFor(o: Options, d: Domain, maxTotalKeys: nat): (r: nat)
    requires 1 <= maxTotalKeys
    ensures 1 <= r
  {
    DefaultQuota(d);
    if d in o.domainQuotas then Whole(o.domainQuotas[d], QUOTA_DEFAULTS[d], 1, maxTotalKeys) else QUOTA_DEFAULTS[d]
  }

  /** The settings a limiter works with. Whatever the options are, they are valid. */
  function SettingsOf(o: Options): (st: Settings)
    ensures ValidSettings(st)
    ensures forall p :: p in st.policies && InRange(st.policies[p])
    ensures st.maxTotalKeys <= MAX_COUNT && st.maxLeases <= MAX_COUNT && st.maxLeaseDurationMs <= MAX_LEASE_DURATION_MS
  {
    var maxTotalKeys := Whole(o.maxTotalKeys, 10_000, 1, MAX_COUNT);
    var leaseMs := Duration(o.maxLeaseDurationMs, MAX_LEASE_DURATION_MS, 1.0, MAX_DURATION_MS);
    var containment := OverrideFor(o, SecurityContainment);
    AllDefaults();
    Settings(
      maxTotalKeys,
      Duration(o.idleTtlMs, 900_000.0, 1.0, MAX_DURATION_MS),
      Duration(o.cleanupIntervalMs, 60_000.0, 1.0, MAX_DURATION_MS),
      Whole(o.maxConcurrencyLeases, 1_024, 1, MAX_COUNT),
      Min(leaseMs, MAX_LEASE_DURATION_MS),
      map d | d in QUOTA_DEFAULTS :: QuotaFor(o, d, maxTotalKeys),
      map p | p in POLICY_DEFAULTS :: PolicyConfig(POLICY_DEFAULTS[p], OverrideFor(o, p)),
      Whole(containment.containmentCapacity, 500, 1, MAX_COUNT),
      Duration(containment.containmentRefillEveryMs, 200.0, 1.0, MAX_DURATION_MS))
  }

  lemma DefaultQuota(d: Domain)
    ensures d in QUOTA_DEFAULTS && 1 <= QUOTA_DEFAULTS[d]
  {
    match d
    case _ =>
  }

  lemma AllDefaults()
    ensures forall p :: p in POLICY_DEFAULTS && InRange(POLICY_DEFAULTS[p]) && ValidConfig(POLICY_DEFAULTS[p])
    ensures forall d :: d in QUOTA_DEFAULTS
  {
    forall p ensures p in POLICY_DEFAULTS && InRange(POLICY_DEFAULTS[p]) && ValidConfig(POLICY_DEFAULTS[p]) { DefaultOf(p); }
    forall d ensures d in QUOTA_DEFAULTS { DefaultQuota(d); }
  }

  // ------------------------------------------------ each setting comes from its own option

  /** The value an option gives: its own when it is a number in bounds, and whole where that is
      asked for; the default otherwise. */
  function Chosen(value: Option<real>, fallback: real, low: real, high: real, whole: bool): real {
    if value.Some? && low <= value.value <= high && (whole ==> value.value.Floor as real == value.value)
    then value.value else fallback
  }

  lemma SettingsReadOptions(o: Options)
    ensures var st := SettingsOf(o);
      && st.maxTotalKeys as real == Chosen(o.maxTotalKeys, 10000.0, 1.0, 1000000.0, true)
      && st.idleTtlMs == Chosen(o.idleTtlMs, 900000.0, 1.0, 86400000.0, false)
      && st.cleanupIntervalMs == Chosen(o.cleanupIntervalMs, 60000.0, 1.0, 86400000.0, false)
      && st.maxLeases as real == Chosen(o.maxConcurrencyLeases, 1024.0, 1.0, 1000000.0, true)
      && st.maxLeaseDurationMs
         == (var ms := Chosen(o.maxLeaseDurationMs, 30000.0, 1.0, 86400000.0, false); if ms <= 30000.0 then ms else 30000.0)
  {}

  /** Every quota comes from the option of its domain. */
  lemma QuotasReadOptions(o: Options, d: Domain)
    ensures var st := SettingsOf(o);
      var fallback: real := match d
        case Source => 4000.0 case Actor => 2000.0 case Consumer => 2000.0 case Token => 2000.0
        case Provider => 1000.0 case Global => 64.0 case Containment => 512.0;
      && d in st.quotas
      && st.quotas[d] as real
         == if d in o.domainQuotas then Chosen(o.domainQuotas[d], fallback, 1.0, st.maxTotalKeys as real, true) else fallback
  {
    AllDefaults();
  }

  /** Every field of a class comes from the override of that class and field; the containment
      bucket's from that of the containment class. A maximum below the minimum is raised to it. */
  lemma PoliciesReadOptions(o: Options, p: PolicyClass)
    ensures p in POLICY_DEFAULTS
    ensures var st := SettingsOf(o); var d := POLICY_DEFAULTS[p];
      var none := Override(None, None, None, None, None, None, None);
      var w := if p in o.policyOverrides then o.policyOverrides[p] else none;
      && p in st.policies
      && var c := st.policies[p];
         && c.capacity as real == Chosen(w.capacity, d.capacity as real, 1.0, 1000000.0, true)
         && c.refillEveryMs == Chosen(w.refillEveryMs, d.refillEveryMs, 1.0, 86400000.0, false)
         && c.minRetry as real == Chosen(w.minRetry, d.minRetry as real, 1.0, 3600.0, true)
         && c.maxRetry as real == (var high := Chosen(w.maxRetry, d.maxRetry as real, 1.0, 86400.0, true);
                                   if high >= c.minRetry as real then high else c.minRetry as real)
         && c.concurrency as real == Chosen(w.concurrency, d.concurrency as real, 0.0, 1024.0, true)
         && (p == SecurityContainment ==>
               && st.containmentCapacity as real == Chosen(w.containmentCapacity, 500.0, 1.0, 1000000.0, true)
               && st.containmentRefillEveryMs == Chosen(w.containmentRefillEveryMs, 200.0, 1.0, 86400000.0, false))
  {
    AllDefaults();
  }

  /** Without options the limiter works with the shipped defaults. */
  lemma NoOptionsAreDefaults()
    ensures SettingsOf(NO_OPTIONS) == DEFAULT_SETTINGS
  {
    AllDefaults();
    var st := SettingsOf(NO_OPTIONS);
    assert st.quotas == QUOTA_DEFAULTS;
    forall p | p in POLICY_DEFAULTS ensures st.policies[p] == POLICY_DEFAULTS[p] {
      DefaultOf(p);
    }
    assert st.policies == POLICY_DEFAULTS;
  }

  // ------------------------------------------------ the conditions of the theorems

  /** The shipped defaults satisfy the hypotheses of the rate bound, of invisible eviction and
      of the lease caps, for every bucket. */
  lemma DefaultsMeetConditions()
    ensures ValidSettings(DEFAULT_SETTINGS)
    ensures forall k :: IdleCovers(DEFAULT_SETTINGS, k)
    ensures ContainmentReserve(DEFAULT_SETTINGS) == 16 && PreAuthReserve(DEFAULT_SETTINGS) == 1
  {
    forall p ensures p in POLICY_DEFAULTS && ValidConfig(POLICY_DEFAULTS[p]) { DefaultOf(p); }
    forall k ensures IdleCovers(DEFAULT_SETTINGS, k) { DefaultOf(k.policy); }
  }

  lemma DefaultOf(p: PolicyClass)
    ensures p in POLICY_DEFAULTS && ValidConfig(POLICY_DEFAULTS[p]) && InRange(POLICY_DEFAULTS[p])
    ensures POLICY_DEFAULTS[p].minRetry <= POLICY_DEFAULTS[p].maxRetry
    ensures POLICY_DEFAULTS[p].capacity as real * POLICY_DEFAULTS[p].refillEveryMs <= 900_000.0
  {
    match p
    case GlobalEmergency => assert POLICY_DEFAULTS[p] == Config(1000, 1000.0 / 17.0, 1, 60, 1024);
    case _ =>
  }
}
