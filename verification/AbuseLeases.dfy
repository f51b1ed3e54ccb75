/** Concurrency leases: the caps and reserves over every run. */
module AbuseLeases {
  import opened Prelude
  import opened AbuseModel
  import opened AbuseRates

  /** Live leases that are neither containment nor bootstrap leases. */
  ghost function Operational(ls: Leases): set<nat> {
    set id | id in ls && SecurityContainment !in ls[id].policies && Bootstrap !in ls[id].policies
  }

  /** No lease draws on both reserves or names a class twice. */
  predicate LeaseOk(l: Lease) {
    && !(SecurityContainment in l.policies && Bootstrap in l.policies)
    && (forall i, j :: 0 <= i < j < |l.policies| ==> l.policies[i] != l.policies[j])
  }

  /** Every live lease was issued once. */
  ghost predicate LeasesOk(ls: Leases, sequence: nat) {
    forall id :: id in ls ==> 1 <= id <= sequence && LeaseOk(ls[id])
  }

  ghost predicate WithinReserves(st: Settings, ls: Leases)
    requires 1 <= st.maxLeases
  {
    && Active(ls, SecurityContainment) <= ContainmentReserve(st)
    && Active(ls, Bootstrap) <= PreAuthReserve(st)
    && |Operational(ls)| <= st.maxLeases - ContainmentReserve(st) - PreAuthReserve(st)
  }

  lemma LeaseSplit(ls: Leases, sequence: nat)
    requires LeasesOk(ls, sequence)
    ensures |ls| == Active(ls, SecurityContainment) + Active(ls, Bootstrap) + |Operational(ls)|
  {
    var c, b, o := Naming(ls, SecurityContainment), Naming(ls, Bootstrap), Operational(ls);
    assert c !! b !! o && ls.Keys == c + b + o;
    assert |ls| == |ls.Keys|;
  }

  lemma FewerLeases(st: Settings, ls: Leases, ls': Leases, sequence: nat)
    requires 1 <= st.maxLeases
    requires LeasesOk(ls, sequence) && ls'.Keys <= ls.Keys && forall id :: id in ls' ==> ls'[id] == ls[id]
    ensures LeasesOk(ls', sequence)
    ensures WithinReserves(st, ls) ==> WithinReserves(st, ls')
    ensures Active(ls', SecurityContainment) <= Active(ls, SecurityContainment)
  {
    SubsetSize(Naming(ls', SecurityContainment), Naming(ls, SecurityContainment));
    SubsetSize(Naming(ls', Bootstrap), Naming(ls, Bootstrap));
    SubsetSize(Operational(ls'), Operational(ls));
  }

  lemma AddedNaming(ls: Leases, id: nat, l: Lease, p: PolicyClass)
    requires id !in ls
    ensures Active(ls[id := l], p) == Active(ls, p) + if p in l.policies then 1 else 0
  {
    if p in l.policies {
      assert Naming(ls[id := l], p) == Naming(ls, p) + {id};
    } else {
      assert Naming(ls[id := l], p) == Naming(ls, p);
    }
  }

  lemma AddedCounts(ls: Leases, id: nat, l: Lease)
    requires id !in ls
    ensures forall p :: Active(ls[id := l], p) == Active(ls, p) + if p in l.policies then 1 else 0
  {
    forall p ensures Active(ls[id := l], p) == Active(ls, p) + if p in l.policies then 1 else 0 {
      AddedNaming(ls, id, l, p);
    }
  }

  lemma AddedOperational(ls: Leases, id: nat, l: Lease)
    requires id !in ls
    ensures |Operational(ls[id := l])| == |Operational(ls)|
              + if SecurityContainment !in l.policies && Bootstrap !in l.policies then 1 else 0
  {
    if SecurityContainment !in l.policies && Bootstrap !in l.policies {
      assert Operational(ls[id := l]) == Operational(ls) + {id};
    } else {
      assert Operational(ls[id := l]) == Operational(ls);
    }
  }

  /** Which reserve a granted lease draws on. */
  lemma LeaseNames(st: Settings, req: Request)
    requires req.Request?
    ensures forall p :: p in LeasePolicies(st, Descriptors(req)) ==> p == req.policy || p == GlobalEmergency
    ensures req.policy != GlobalEmergency && Policy(st, req.policy).concurrency > 0
            ==> req.policy in LeasePolicies(st, Descriptors(req))
  {
    DescriptorsDistinct(req);
    LeasePoliciesMembers(st, Descriptors(req));
    if req.policy != GlobalEmergency {
      assert Descriptors(req)[0] == Identity(Source, req.policy, req.source);
      assert Descriptors(req)[0] in Descriptors(req) && Descriptors(req)[0].policy == req.policy;
    }
  }

  lemma GrantOk(st: Settings, req: Request, now: real)
    requires req.Request?
    ensures LeaseOk(Grant(st, req, now))
  {
    LeaseNames(st, req);
    LeasePoliciesMembers(st, Descriptors(req));
  }

  lemma GrantKeepsOk(st: Settings, ls: Leases, sequence: nat, req: Request, now: real)
    requires req.Request? && LeasesOk(ls, sequence)
    ensures LeasesOk(ls[sequence + 1 := Grant(st, req, now)], sequence + 1)
  {
    GrantOk(st, req, now);
  }

  lemma GrantKeepsReserves(st: Settings, ls: Leases, sequence: nat, req: Request, now: real)
    requires ValidSettings(st) && req.Request? && LeasesOk(ls, sequence)
    requires PreAuthReserve(st) > 0 && ContainmentReserve(st) > 0 && WithinReserves(st, ls)
    requires !ReserveExhausted(st, ls, req.policy)
    ensures WithinReserves(st, ls[sequence + 1 := Grant(st, req, now)])
  {
    var l := Grant(st, req, now);
    LeaseNames(st, req);
    AddedNaming(ls, sequence + 1, l, SecurityContainment);
    AddedNaming(ls, sequence + 1, l, Bootstrap);
    AddedOperational(ls, sequence + 1, l);
    LeaseSplit(ls, sequence);
  }

  /** What every step keeps. */
  ghost predicate Preserved(st: Settings, s: Limiter, s': Limiter)
    requires ValidSettings(st)
  {
    && LeasesOk(s'.leases, s'.sequence)
    && (PreAuthReserve(st) > 0 && ContainmentReserve(st) > 0 && WithinReserves(st, s.leases)
        ==> WithinReserves(st, s'.leases))
    && (ContainmentReserve(st) > 0 && Active(s.leases, SecurityContainment) <= ContainmentReserve(st)
        ==> Active(s'.leases, SecurityContainment) <= ContainmentReserve(st))
  }

  lemma GrantPreserves(st: Settings, s: Limiter, req: Request, now: real)
    requires ValidSettings(st) && req.Request? && LeasesOk(s.leases, s.sequence)
    requires !ReserveExhausted(st, s.leases, req.policy)
    ensures Preserved(st, s, s.(leases := s.leases[s.sequence + 1 := Grant(st, req, now)], sequence := s.sequence + 1))
  {
    GrantKeepsOk(st, s.leases, s.sequence, req, now);
    LeaseNames(st, req);
    AddedNaming(s.leases, s.sequence + 1, Grant(st, req, now), SecurityContainment);
    if PreAuthReserve(st) > 0 && ContainmentReserve(st) > 0 && WithinReserves(st, s.leases) {
      GrantKeepsReserves(st, s.leases, s.sequence, req, now);
    }
  }

  lemma AcquireGrants(st: Settings, s: Limiter, req: Request, now: real)
    requires ValidSettings(st) && req.Request? && !LeaseRefused(st, s.leases, req)
    ensures Acquire(st, s, req, now).0
            == s.(leases := s.leases[s.sequence + 1 := Grant(st, req, now)], sequence := s.sequence + 1)
    ensures !ReserveExhausted(st, s.leases, req.policy)
  {}

  lemma AcquireKeepsReserves(st: Settings, s: Limiter, req: Request, now: real)
    requires ValidSettings(st) && req.Request? && LeasesOk(s.leases, s.sequence)
    ensures Preserved(st, s, Acquire(st, s, req, now).0)
  {
    if !LeaseRefused(st, s.leases, req) {
      AcquireGrants(st, s, req, now);
      GrantPreserves(st, s, req, now);
    } else {
      assert Acquire(st, s, req, now).0 == s;
    }
  }

  lemma ReserveIsAcquire(st: Settings, s: Limiter, req: Request, now: real)
    requires ValidSettings(st) && req.Request? && Expire(s.leases, now) == s.leases && !LeaseRefused(st, s.leases, req)
    ensures var s' := Step(st, s, Reserve(now, req)).0;
            s'.leases == s.leases[s.sequence + 1 := Grant(st, req, now)] && s'.sequence == s.sequence + 1
  {
    AcquireGrants(st, Cleanup(st, s, now), req, now);
  }

  lemma CleanupPreserves(st: Settings, s: Limiter, now: real)
    requires ValidSettings(st) && LeasesOk(s.leases, s.sequence)
    ensures Preserved(st, s, Cleanup(st, s, now))
  {
    FewerLeases(st, s.leases, Expire(s.leases, now), s.sequence);
  }

  lemma StepPreserves(st: Settings, s: Limiter, e: Event)
    requires ValidSettings(st) && LeasesOk(s.leases, s.sequence)
    ensures Preserved(st, s, Step(st, s, e).0)
  {
    match e
    case Release(id) => FewerLeases(st, s.leases, s.leases - {id}, s.sequence);
    case Reset(now) => FewerLeases(st, s.leases, map[], s.sequence);
    case Decide(now, req) => CleanupPreserves(st, s, now);
    case Reserve(now, req) =>
      CleanupPreserves(st, s, now);
      if req.Request? { AcquireKeepsReserves(st, Cleanup(st, s, now), req, now); }
    case Admit(now, req, leaseNow) =>
      CleanupPreserves(st, s, now);
      if req.Request? { AcquireKeepsReserves(st, DecideStep(st, s, req, now).0, req, leaseNow); }
  }

  lemma {:induction false} RunKeepsReserves(st: Settings, s: Limiter, es: seq<Event>)
    requires ValidSettings(st) && LeasesOk(s.leases, s.sequence)
    ensures Preserved(st, s, Run(st, s, es))
    decreases |es|
  {
    if es != [] {
      StepPreserves(st, s, es[0]);
      RunKeepsReserves(st, Step(st, s, es[0]).0, es[1..]);
    }
  }

  /** Lease caps: with both reserves in force, live leases never exceed the cap and operational
      leases never exceed the cap less both reserves. */
  lemma LeaseCaps(st: Settings, t0: real, es: seq<Event>)
    requires ValidSettings(st) && ContainmentReserve(st) > 0 && PreAuthReserve(st) > 0
    ensures var ls := Run(st, Initial(t0), es).leases;
            && |ls| <= st.maxLeases
            && |Operational(ls)| <= st.maxLeases - ContainmentReserve(st) - PreAuthReserve(st)
            && Active(ls, SecurityContainment) <= ContainmentReserve(st)
            && Active(ls, Bootstrap) <= PreAuthReserve(st)
  {
    var s0 := Initial(t0);
    assert Naming(s0.leases, SecurityContainment) == {} && Naming(s0.leases, Bootstrap) == {} && Operational(s0.leases) == {};
    RunKeepsReserves(st, s0, es);
    LeaseSplit(Run(st, s0, es).leases, Run(st, s0, es).sequence);
  }

  /** What `reserve` answers to a containment request of the identity phase, after any history:
      with a containment reserve it is blocked exactly when the whole reserve is live, whatever
      the operational and bootstrap load. A class that takes no leases is never blocked, and
      without a reserve one lease at a time is granted. */
  lemma ContainmentRefusedIff(st: Settings, t0: real, es: seq<Event>, req: Request, now: real)
    requires ValidSettings(st)
    requires req.Request? && req.policy == SecurityContainment && !req.preAuthPhase
    ensures var s := Run(st, Initial(t0), es);
            var live := Active(Expire(s.leases, now), SecurityContainment);
            var blocked := Step(st, s, Reserve(now, req)).1 == Blocked;
            && (ContainmentReserve(st) > 0 ==> (blocked <==> live == ContainmentReserve(st)))
            && (ContainmentReserve(st) == 0 ==> (blocked <==> Policy(st, SecurityContainment).concurrency > 0 && live >= 1))
  {
    var s0 := Initial(t0);
    assert Naming(s0.leases, SecurityContainment) == {};
    RunKeepsReserves(st, s0, es);
    var s := Run(st, s0, es);
    FewerLeases(st, s.leases, Expire(s.leases, now), s.sequence);
    ContainmentPolicies(st, req);
    ContainmentTest(st, Expire(s.leases, now), req);
  }

  lemma ContainmentPolicies(st: Settings, req: Request)
    requires req.Request? && req.policy == SecurityContainment && !req.preAuthPhase
    ensures forall p :: p in LeasePolicies(st, Descriptors(req)) <==>
                        p == SecurityContainment && Policy(st, p).concurrency > 0
    ensures LeasePolicies(st, Descriptors(req))
            == if Policy(st, SecurityContainment).concurrency > 0 then [SecurityContainment] else []
  {
    var a, b := Identity(Source, SecurityContainment, req.source), Identity(Actor, SecurityContainment, req.actor);
    var c := Identity(Containment, SecurityContainment, "global-containment");
    assert Descriptors(req) == [a, b, c];
    assert [a, b, c][..2] == [a, b] && [a, b][..1] == [a] && [a][..0] == [];
    var ps := if Policy(st, SecurityContainment).concurrency > 0 then [SecurityContainment] else [];
    assert LeasePolicies(st, [a]) == ps;
    assert LeasePolicies(st, [a, b]) == ps;
    assert LeasePolicies(st, [a, b, c]) == ps;
  }

  lemma ContainmentTest(st: Settings, ls: Leases, req: Request)
    requires ValidSettings(st) && req.Request? && req.policy == SecurityContainment
    requires forall p :: p in LeasePolicies(st, Descriptors(req)) <==>
                         p == SecurityContainment && Policy(st, p).concurrency > 0
    ensures LeaseRefused(st, ls, req) <==>
      if ContainmentReserve(st) > 0 then Active(ls, SecurityContainment) >= ContainmentReserve(st)
      else Policy(st, SecurityContainment).concurrency > 0 && Active(ls, SecurityContainment) >= 1
  {
    assert ClassExhausted(st, ls, SecurityContainment) <==>
      Active(ls, SecurityContainment) >= if Policy(st, SecurityContainment).concurrency <= st.maxLeases
                                         then Policy(st, SecurityContainment).concurrency else st.maxLeases;
  }

  // ------------------------------------------------ the cap is tight

  const CONTAIN: Request := Request(SecurityContainment, false, 1, "", "", "", "", "")
  const PLAIN: Request := Request(GlobalEmergency, false, 1, "", "", "", "", "")
  const BOOT: Request := Request(Bootstrap, true, 1, "", "", "", "", "")

  function Repeat(n: nat, e: Event): (es: seq<Event>) {
    if n == 0 then [] else [e] + Repeat(n - 1, e)
  }

  lemma {:induction false} RunAppend(st: Settings, s: Limiter, a: seq<Event>, b: seq<Event>)
    requires ValidSettings(st)
    ensures Run(st, s, a + b) == Run(st, Run(st, s, a), b)
    decreases |a|
  {
    if a == [] {
      assert a + b == b;
    } else {
      assert (a + b)[0] == a[0] && (a + b)[1..] == a[1..] + b;
      RunAppend(st, Step(st, s, a[0]).0, a[1..], b);
    }
  }

  /** c containment leases and o leases that name no class, all still live at time 0. */
  ghost predicate Stock(s: Limiter, c: nat, o: nat) {
    && LeasesOk(s.leases, s.sequence) && |s.leases| == c + o
    && Active(s.leases, SecurityContainment) == c
    && Active(s.leases, Bootstrap) == 0 && Active(s.leases, GlobalEmergency) == 0
    && forall id :: id in s.leases ==> s.leases[id].expiresAt > 0.0
  }

  /** What one more lease of either kind adds. */
  lemma StockAdd(s: Limiter, c: nat, o: nat, l: Lease)
    requires Stock(s, c, o) && l.expiresAt > 0.0 && l.policies in {[], [SecurityContainment]}
    ensures var s' := s.(leases := s.leases[s.sequence + 1 := l], sequence := s.sequence + 1);
            if l.policies == [] then Stock(s', c, o + 1) else Stock(s', c + 1, o)
  {
    AddedNaming(s.leases, s.sequence + 1, l, SecurityContainment);
    AddedNaming(s.leases, s.sequence + 1, l, Bootstrap);
    AddedNaming(s.leases, s.sequence + 1, l, GlobalEmergency);
  }

  lemma StockGrant(st: Settings, s: Limiter, c: nat, o: nat, req: Request)
    requires ValidSettings(st) && req.Request? && Stock(s, c, o) && !LeaseRefused(st, s.leases, req)
    ensures var s' := Step(st, s, Reserve(0.0, req)).0;
            && s'.leases == s.leases[s.sequence + 1 := Grant(st, req, 0.0)] && s'.sequence == s.sequence + 1
            && s.sequence + 1 !in s.leases
  {
    assert Expire(s.leases, 0.0) == s.leases;
    ReserveIsAcquire(st, s, req, 0.0);
  }

  lemma StockStep(st: Settings, s: Limiter, c: nat, o: nat, req: Request)
    requires ValidSettings(st) && req.Request? && Stock(s, c, o) && !LeaseRefused(st, s.leases, req)
    requires LeasePolicies(st, Descriptors(req)) in {[], [SecurityContainment]}
    ensures var s' := Step(st, s, Reserve(0.0, req)).0;
            if LeasePolicies(st, Descriptors(req)) == [] then Stock(s', c, o + 1) else Stock(s', c + 1, o)
  {
    StockGrant(st, s, c, o, req);
    StockAdd(s, c, o, Grant(st, req, 0.0));
  }

  lemma ContainStep(st: Settings, s: Limiter, c: nat)
    requires ValidSettings(st) && c < ContainmentReserve(st) && Stock(s, c, 0)
    ensures Stock(Step(st, s, Reserve(0.0, CONTAIN)).0, c + 1, 0)
  {
    ContainmentPolicies(st, CONTAIN);
    ContainmentTest(st, s.leases, CONTAIN);
    StockStep(st, s, c, 0, CONTAIN);
  }

  lemma {:induction false} ContainmentFills(st: Settings, s: Limiter, c: nat, more: nat)
    requires ValidSettings(st) && c + more <= ContainmentReserve(st) && Stock(s, c, 0)
    ensures Stock(Run(st, s, Repeat(more, Reserve(0.0, CONTAIN))), c + more, 0)
    decreases more
  {
    if more > 0 {
      var e := Reserve(0.0, CONTAIN);
      ContainStep(st, s, c);
      ContainmentFills(st, Step(st, s, e).0, c + 1, more - 1);
      assert Repeat(more, e)[0] == e && Repeat(more, e)[1..] == Repeat(more - 1, e);
    }
  }

  /** Requests that take a lease without a class: operational ones up to the containment reserve,
      containment ones without end when their class takes no leases. */
  predicate Classless(st: Settings, req: Request, c: nat, limit: nat)
    requires ValidSettings(st)
  {
    || (req == CONTAIN && c == 0 && Policy(st, SecurityContainment).concurrency == 0)
    || (req == PLAIN && c == ContainmentReserve(st) && PreAuthReserve(st) == 0 && limit + c == st.maxLeases)
  }

  lemma ClasslessGranted(st: Settings, s: Limiter, c: nat, o: nat, req: Request, limit: nat)
    requires ValidSettings(st) && Classless(st, req, c, limit) && o < limit && Stock(s, c, o)
    ensures LeasePolicies(st, Descriptors(req)) == [] && !LeaseRefused(st, s.leases, req)
  {
    if req == CONTAIN {
      ContainmentPolicies(st, CONTAIN);
      ContainmentTest(st, s.leases, CONTAIN);
    } else {
      assert Descriptors(PLAIN) == [];
    }
  }

  lemma {:induction false} ClasslessFill(st: Settings, s: Limiter, c: nat, o: nat, req: Request, limit: nat, more: nat)
    requires ValidSettings(st) && Classless(st, req, c, limit) && o + more <= limit && Stock(s, c, o)
    ensures Stock(Run(st, s, Repeat(more, Reserve(0.0, req))), c, o + more)
    decreases more
  {
    if more > 0 {
      var e := Reserve(0.0, req);
      ClasslessGranted(st, s, c, o, req, limit);
      StockStep(st, s, c, o, req);
      ClasslessFill(st, Step(st, s, e).0, c, o + 1, req, limit, more - 1);
      assert Repeat(more, e)[0] == e && Repeat(more, e)[1..] == Repeat(more - 1, e);
    }
  }

  lemma BootGranted(st: Settings, s: Limiter, c: nat, o: nat)
    requires ValidSettings(st) && Stock(s, c, o) && PreAuthReserve(st) == 0
    ensures !LeaseRefused(st, s.leases, BOOT)
  {
    LeaseNames(st, BOOT);
    LeasePoliciesMembers(st, Descriptors(BOOT));
  }

  ghost predicate Capped(st: Settings)
    requires ValidSettings(st)
  {
    forall t0, es :: |Run(st, Initial(t0), es).leases| <= st.maxLeases
  }

  lemma StartStock(s: Limiter)
    requires s.leases == map[]
    ensures Stock(s, 0, 0)
  {
    forall p ensures Naming(s.leases, p) == {} {}
  }

  /** A containment class that takes no leases is admitted without end: its leases name no class
      and no test ever counts them. */
  lemma WithoutContainmentClass(st: Settings, s: Limiter, n: nat) returns (es: seq<Event>)
    requires ValidSettings(st) && Policy(st, SecurityContainment).concurrency == 0 && Stock(s, 0, 0)
    ensures |Run(st, s, es).leases| == n
  {
    ClasslessFill(st, s, 0, 0, CONTAIN, n, n);
    es := Repeat(n, Reserve(0.0, CONTAIN));
  }

  /** A full containment reserve, and operational leases for all the rest of the table. */
  lemma FullTable(st: Settings, s: Limiter) returns (es: seq<Event>)
    requires ValidSettings(st) && PreAuthReserve(st) == 0 && Stock(s, 0, 0)
    ensures Stock(Run(st, s, es), ContainmentReserve(st), st.maxLeases - ContainmentReserve(st))
  {
    var c := ContainmentReserve(st);
    var rest := st.maxLeases - c;
    var contain, plain := Repeat(c, Reserve(0.0, CONTAIN)), Repeat(rest, Reserve(0.0, PLAIN));
    ContainmentFills(st, s, 0, c);
    ClasslessFill(st, Run(st, s, contain), c, 0, PLAIN, rest, rest);
    RunAppend(st, s, contain, plain);
    es := contain + plain;
  }

  /** Without a pre-auth reserve a bootstrap lease still fits on top of a full table. */
  lemma WithoutPreAuthReserve(st: Settings, s: Limiter) returns (es: seq<Event>)
    requires ValidSettings(st) && PreAuthReserve(st) == 0 && Stock(s, 0, 0)
    ensures |Run(st, s, es).leases| == st.maxLeases + 1
  {
    var full := FullTable(st, s);
    var t, c := Run(st, s, full), ContainmentReserve(st);
    BootGranted(st, t, c, st.maxLeases - c);
    StockGrant(st, t, c, st.maxLeases - c, BOOT);
    es := full + [Reserve(0.0, BOOT)];
    RunSnoc(st, s, full, Reserve(0.0, BOOT));
  }

  lemma RunSnoc(st: Settings, s: Limiter, es: seq<Event>, e: Event)
    requires ValidSettings(st)
    ensures Run(st, s, es + [e]) == Step(st, Run(st, s, es), e).0
  {
    RunAppend(st, s, es, [e]);
    assert [e][1..] == [];
  }

  lemma Overfull(st: Settings, s: Limiter) returns (es: seq<Event>)
    requires ValidSettings(st) && s.leases == map[]
    requires Policy(st, SecurityContainment).concurrency == 0 || PreAuthReserve(st) == 0
    ensures |Run(st, s, es).leases| > st.maxLeases
  {
    StartStock(s);
    if Policy(st, SecurityContainment).concurrency == 0 {
      es := WithoutContainmentClass(st, s, st.maxLeases + 1);
    } else {
      es := WithoutPreAuthReserve(st, s);
    }
  }

  /** For all valid settings: the cap on concurrency leases holds in every run exactly when both
      reserves are positive. When the containment class takes no leases there is no bound at all;
      otherwise the cap is exceeded by a bootstrap lease. */
  lemma LeaseCapIff(st: Settings)
    requires ValidSettings(st)
    ensures Capped(st) <==> ContainmentReserve(st) > 0 && PreAuthReserve(st) > 0
    ensures ContainmentReserve(st) > 0 && PreAuthReserve(st) > 0 <==>
      && Policy(st, SecurityContainment).concurrency > 0 && Policy(st, Bootstrap).concurrency > 0
      && st.maxLeases >= ContainmentReserve(st) + 2
  {
    if ContainmentReserve(st) > 0 && PreAuthReserve(st) > 0 {
      forall t0, es ensures |Run(st, Initial(t0), es).leases| <= st.maxLeases {
        LeaseCaps(st, t0, es);
      }
    } else {
      var t0: real := 0.0;
      var es := Overfull(st, Initial(t0));
      assert |Run(st, Initial(t0), es).leases| > st.maxLeases;
    }
  }
}
