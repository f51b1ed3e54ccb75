/** Whose budget a request can spend: that of its own class and, with the one exception of
  authenticated containment, that of the emergency class. */
module AbuseIsolation {
  import opened AbuseModel
  import opened AbuseRates

  /** Which subjects a class is limited by, told by domain instead of by class. */
  predicate Concerns(p: PolicyClass, d: Domain) {
    match d
    case Source => p != GlobalEmergency
    case Actor => p !in {PreAuthFailure, Bootstrap, OAuthCallbackInvalid, GlobalEmergency,
                         ConsumerDiscovery, ConsumerResolve, ConsumerBatchResolve}
    case Consumer => p in {ConsumerDiscovery, ConsumerResolve, ConsumerBatchResolve}
    case Token => p in {ApiTokenRevoke, ConsumerResolve, ConsumerBatchResolve}
    case Provider => p in {OAuthStart, OAuthCallbackValid, ProviderHealth}
    case Containment => p == SecurityContainment
    case Global => false
  }

  function Subject(req: Request, d: Domain): string
    requires req.Request?
  {
    match d
    case Source => req.source
    case Actor => req.actor
    case Consumer => req.consumer
    case Token => req.token
    case Provider => req.provider
    case Containment => "global-containment"
    case Global => if IsPreAuth(req) then "pre-auth-global" else "authenticated-operational-global"
  }

  /** A request is charged under the emergency class unless it is an authenticated containment
      request or an authenticated request of that class itself. */
  predicate ChargesEmergency(req: Request)
    requires req.Request?
  {
    IsPreAuth(req) || req.policy !in {SecurityContainment, GlobalEmergency}
  }

  lemma DescriptorsAre(req: Request, k: Key)
    requires req.Request?
    ensures k in Descriptors(req) <==>
      || (Concerns(req.policy, k.domain) && k == Identity(k.domain, req.policy, Subject(req, k.domain)))
      || (ChargesEmergency(req) && k == Identity(Global, GlobalEmergency, Subject(req, Global)))
  {
    assert k in Descriptors(req) <==> k in OwnDescriptors(req) || k in GlobalDescriptor(req);
    assert k in GlobalDescriptor(req) <==> ChargesEmergency(req) && k == Identity(Global, GlobalEmergency, Subject(req, Global));
    OwnDescriptorsAre(req, k);
  }

  lemma OwnDescriptorsAre(req: Request, k: Key)
    requires req.Request?
    ensures k in OwnDescriptors(req) <==>
      Concerns(req.policy, k.domain) && k == Identity(k.domain, req.policy, Subject(req, k.domain))
  {}

  predicate MaySpend(req: Request, p: PolicyClass)
    requires req.Request?
  {
    req.policy == p || (p == GlobalEmergency && ChargesEmergency(req))
  }

  lemma ChargedClass(st: Settings, m: Buckets, req: Request, now: real, k: Key)
    requires ValidSettings(st) && req.Request?
    requires k in ChargedKeys(st, m, Descriptors(req), Cost(req), now)
    ensures MaySpend(req, k.policy)
  {
    var items := Descriptors(req);
    DescriptorsDistinct(req);
    ScanLevels(st, m, items, now, Cost(req), []);
    var keys := ScanItems(st, m, items, now, Cost(req), []).keys;
    assert keys[0..] == keys;
    var i :| 0 <= i < |keys| && keys[i] == k;
    assert keys[i] in {items[i], Overflow(items[i].domain, items[i].policy)};
    assert items[i] in items;
    DescriptorsAre(req, items[i]);
  }

  predicate NobodyMaySpend(es: seq<Event>, p: PolicyClass) {
    forall i :: 0 <= i < |es| && (es[i].Decide? || es[i].Admit?) && es[i].req.Request? ==> !MaySpend(es[i].req, p)
  }

  /** Budgets are apart: over any run whose requests may not spend a class, nothing is charged to
      any bucket of that class, shared and overflow buckets included. So no load of other classes
      uses up the budget of containment, and authenticated containment leaves the emergency
      budget alone. */
  lemma {:induction false} BudgetsApart(st: Settings, s: Limiter, es: seq<Event>, k: Key)
    requires ValidSettings(st) && NobodyMaySpend(es, k.policy)
    ensures Spent(st, s, es, k) == 0.0
    decreases |es|
  {
    if es != [] {
      var e := es[0];
      assert Spend(st, s, e, k) == 0.0 by {
        if (e.Decide? || e.Admit?) && e.req.Request?
           && k in ChargedKeys(st, Cleanup(st, s, e.now).buckets, Descriptors(e.req), Cost(e.req), e.now)
        {
          ChargedClass(st, Cleanup(st, s, e.now).buckets, e.req, e.now, k);
        }
      }
      BudgetsApart(st, Step(st, s, e).0, es[1..], k);
    }
  }
}
