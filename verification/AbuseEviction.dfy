/** Forgetting idle buckets refines a limiter that never forgets. */
module AbuseEviction {
  import opened AbuseModel
  import opened AbuseRates

  /** The first descriptor whose bucket is short, or |items|. */
  function FirstShort(st: Settings, m: Buckets, items: seq<Key>, now: real, cost: real): (i: nat)
    requires ValidSettings(st)
    ensures i <= |items|
  {
    if items == [] || LevelAt(st, m, items[0], now) < cost then 0
    else 1 + FirstShort(st, m, items[1..], now, cost)
  }

  function Refusal(st: Settings, k: Key, level: real, cost: real): Decision {
    var c := ConfigOf(st, k.domain, k.policy);
    Throttle(RetryAfter(c, WaitMs(level, cost, c)), if k.domain == Global then GlobalBound else NormalThrottle)
  }

  /** A limiter without eviction, quotas, overflow or last-use stamps: it answers from levels. */
  function IdealOn(st: Settings, m: Buckets, items: seq<Key>, cost: real, now: real): (Buckets, Decision)
    requires ValidSettings(st)
  {
    var i := FirstShort(st, m, items, now, cost);
    if i < |items| then (m, Refusal(st, items[i], LevelAt(st, m, items[i], now), cost))
    else
      (map k | k in m.Keys + (set k | k in items) ::
         if k in items then Bucket(LevelAt(st, m, k, now) - cost, now, now) else m[k],
       Allow(cost))
  }

  /** No quota diverts a descriptor for as long as the scan goes on. */
  predicate Roomy(st: Settings, m: Buckets, items: seq<Key>, now: real, cost: real)
    requires ValidSettings(st)
    decreases |items|
  {
    items == [] ||
    var s := SlotFor(st, m, items[0], now);
    && s.Slot? && s.key == items[0]
    && (LevelAt(st, m, items[0], now) < cost || Roomy(st, s.buckets, items[1..], now, cost))
  }

  lemma {:induction false} FirstShortSame(st: Settings, m: Buckets, m': Buckets, items: seq<Key>, now: real, cost: real)
    requires ValidSettings(st) && (forall k :: LevelAt(st, m, k, now) == LevelAt(st, m', k, now))
    ensures FirstShort(st, m, items, now, cost) == FirstShort(st, m', items, now, cost)
  {
    if items != [] { FirstShortSame(st, m, m', items[1..], now, cost); }
  }

  /** The first step of a roomy scan. */
  lemma RoomyHead(st: Settings, m: Buckets, items: seq<Key>, now: real, cost: real) returns (m': Buckets)
    requires ValidSettings(st) && items != [] && items[0].Identity? && Roomy(st, m, items, now, cost)
    ensures items[0] in m' && (forall k :: LevelAt(st, m', k, now) == LevelAt(st, m, k, now))
    ensures forall pending :: ScanItems(st, m, items, now, cost, pending)
              == if LevelAt(st, m, items[0], now) < cost then Short(items[0], m')
                 else ScanItems(st, m', items[1..], now, cost, pending + [items[0]])
    ensures LevelAt(st, m, items[0], now) >= cost ==> Roomy(st, m', items[1..], now, cost)
  {
    m' := SlotFor(st, m, items[0], now).buckets;
    SlotKeepsLevels(st, m, items[0], now);
    assert LevelAt(st, m', items[0], now) == LevelAt(st, m, items[0], now);
  }

  /** What a scan of the items finds when the first short one is at i. */
  predicate Finds(r: Scan, items: seq<Key>, i: nat, pending: seq<Key>) {
    if i < |items| then r.Short? && r.key == items[i] else r.Clear? && r.keys == pending + items
  }

  lemma FindsLater(r: Scan, items: seq<Key>, i: nat, pending: seq<Key>)
    requires items != [] && Finds(r, items[1..], i, pending + [items[0]])
    ensures Finds(r, items, i + 1, pending)
  {
    assert pending + [items[0]] + items[1..] == pending + items;
  }

  lemma {:induction false} RoomyScan(st: Settings, m: Buckets, items: seq<Key>, now: real, cost: real, pending: seq<Key>)
    requires ValidSettings(st) && Roomy(st, m, items, now, cost)
    requires forall i :: 0 <= i < |items| ==> items[i].Identity?
    ensures Finds(ScanItems(st, m, items, now, cost, pending), items, FirstShort(st, m, items, now, cost), pending)
    decreases |items|
  {
    if items != [] {
      var m' := RoomyHead(st, m, items, now, cost);
      if LevelAt(st, m, items[0], now) >= cost {
        FirstShortSame(st, m, m', items[1..], now, cost);
        RoomyScan(st, m', items[1..], now, cost, pending + [items[0]]);
        FindsLater(ScanItems(st, m, items, now, cost, pending), items, FirstShort(st, m, items[1..], now, cost), pending);
      }
    }
  }

  /** Same answer, and the same levels afterwards. */
  ghost predicate Agrees(st: Settings, m: Buckets, ideal: Buckets, items: seq<Key>, cost: real, now: real)
    requires ValidSettings(st)
  {
    && DecideOn(st, m, items, cost, now).1 == IdealOn(st, ideal, items, cost, now).1
    && SameLevels(st, DecideOn(st, m, items, cost, now).0, IdealOn(st, ideal, items, cost, now).0, now)
  }

  lemma AllowAgrees(st: Settings, m: Buckets, ideal: Buckets, items: seq<Key>, cost: real, now: real)
    requires ValidSettings(st) && DistinctDomains(items) && 0.0 <= cost && SameLevels(st, m, ideal, now)
    requires FirstShort(st, ideal, items, now, cost) == |items|
    requires ScanItems(st, m, items, now, cost, []).Clear? && ScanItems(st, m, items, now, cost, []).keys == items
    ensures Agrees(st, m, ideal, items, cost, now)
  {
    AllOrNothing(st, m, items, cost, now);
    var m', ideal' := DecideOn(st, m, items, cost, now).0, IdealOn(st, ideal, items, cost, now).0;
    forall k, t | now <= t ensures LevelAt(st, ideal', k, t) == LevelAt(st, m', k, t) {
      assert LevelAt(st, ideal, k, t) == LevelAt(st, m, k, t);
      assert LevelAt(st, ideal, k, now) == LevelAt(st, m, k, now);
      if k in items {
        assert m'[k] == ideal'[k];
        LevelOfKept(st, m', ideal', k, t);
      } else {
        LevelOfKept(st, ideal, ideal', k, t);
      }
    }
  }

  lemma RefusalAgrees(st: Settings, m: Buckets, ideal: Buckets, items: seq<Key>, cost: real, now: real)
    requires ValidSettings(st) && DistinctDomains(items) && SameLevels(st, m, ideal, now)
    requires var i := FirstShort(st, ideal, items, now, cost);
             var scan := ScanItems(st, m, items, now, cost, []);
             i < |items| && scan.Short? && scan.key == items[i]
    ensures Agrees(st, m, ideal, items, cost, now)
  {
    var scan := ScanItems(st, m, items, now, cost, []);
    ScanLevels(st, m, items, now, cost, []);
    assert LevelAt(st, scan.buckets, scan.key, now) == LevelAt(st, m, scan.key, now) == LevelAt(st, ideal, scan.key, now);
    forall k, t | now <= t ensures LevelAt(st, ideal, k, t) == LevelAt(st, scan.buckets, k, t) {
      assert LevelAt(st, scan.buckets, k, t) == LevelAt(st, m, k, t);
    }
  }

  /** Tables with the same levels decide alike. */
  lemma DecideAgrees(st: Settings, m: Buckets, ideal: Buckets, items: seq<Key>, cost: real, now: real)
    requires ValidSettings(st) && DistinctDomains(items) && 0.0 <= cost
    requires SameLevels(st, m, ideal, now) && Roomy(st, m, items, now, cost)
    ensures Agrees(st, m, ideal, items, cost, now)
  {
    RoomyScan(st, m, items, now, cost, []);
    FirstShortSame(st, m, ideal, items, now, cost);
    if FirstShort(st, m, items, now, cost) < |items| {
      RefusalAgrees(st, m, ideal, items, cost, now);
    } else {
      assert [] + items == items;
      AllowAgrees(st, m, ideal, items, cost, now);
    }
  }

  /** The answers of `decide` and `admit`, in order. */
  ghost function Decisions(st: Settings, s: Limiter, es: seq<Event>): seq<Decision>
    requires ValidSettings(st)
    decreases |es|
  {
    if es == [] then []
    else
      (if es[0].Decide? || es[0].Admit? then [DecideStep(st, s, es[0].req, es[0].now).1] else [])
      + Decisions(st, Step(st, s, es[0]).0, es[1..])
  }

  ghost function IdealDecisions(st: Settings, m: Buckets, es: seq<Event>): seq<Decision>
    requires ValidSettings(st)
    decreases |es|
  {
    if es == [] then []
    else
      match es[0]
      case Reset(_) => IdealDecisions(st, map[], es[1..])
      case Reserve(_, _) => IdealDecisions(st, m, es[1..])
      case Release(_) => IdealDecisions(st, m, es[1..])
      case _ =>
        if es[0].req.UnknownPolicy? then [Throttle(1, Unknown)] + IdealDecisions(st, m, es[1..])
        else
          var (m', d) := IdealOn(st, m, Descriptors(es[0].req), Cost(es[0].req), es[0].now);
          [d] + IdealDecisions(st, m', es[1..])
  }

  /** No quota is reached by any decision of the run. */
  ghost predicate RoomyRun(st: Settings, s: Limiter, es: seq<Event>)
    requires ValidSettings(st)
    decreases |es|
  {
    es != [] ==>
    && ((es[0].Decide? || es[0].Admit?) && es[0].req.Request? ==>
          Roomy(st, Cleanup(st, s, es[0].now).buckets, Descriptors(es[0].req), es[0].now, Cost(es[0].req)))
    && RoomyRun(st, Step(st, s, es[0]).0, es[1..])
  }

  lemma CleanupKeepsLevels(st: Settings, s: Limiter, ideal: Buckets, clock: real, now: real)
    requires ValidSettings(st) && (forall k :: IdleCovers(st, k))
    requires BucketsOk(st, s.buckets, clock) && clock <= now && SameLevels(st, s.buckets, ideal, clock)
    ensures SameLevels(st, Cleanup(st, s, now).buckets, ideal, now)
  {
    forall k, t | now <= t ensures LevelAt(st, ideal, k, t) == LevelAt(st, Cleanup(st, s, now).buckets, k, t) {
      CleanupLevels(st, s, k, clock, now, t);
    }
  }

  lemma {:induction false} RunAgrees(st: Settings, s: Limiter, ideal: Buckets, es: seq<Event>, clock: real, to: real)
    requires ValidSettings(st) && (forall k :: IdleCovers(st, k))
    requires BucketsOk(st, s.buckets, clock) && SameLevels(st, s.buckets, ideal, clock)
    requires Timed(es, clock, to) && RoomyRun(st, s, es)
    ensures Decisions(st, s, es) == IdealDecisions(st, ideal, es)
    decreases |es|
  {
    if es != [] {
      var e, s' := es[0], Step(st, s, es[0]).0;
      match e
      case Release(_) => RunAgrees(st, s', ideal, es[1..], clock, to);
      case Reset(now) => RunAgrees(st, s', map[], es[1..], now, to);
      case Reserve(now, req) =>
        CleanupKeepsLevels(st, s, ideal, clock, now);
        CleanupOk(st, s, clock, now);
        RunAgrees(st, s', ideal, es[1..], now, to);
      case _ =>
        StepBuckets(st, s, e);
        DecideStepOk(st, s, e.req, clock, e.now);
        if e.req.UnknownPolicy? {
          RunAgrees(st, s', ideal, es[1..], End(e), to);
        } else {
          CleanupKeepsLevels(st, s, ideal, clock, e.now);
          var items, cost := Descriptors(e.req), Cost(e.req);
          DescriptorsDistinct(e.req);
          DecideAgrees(st, Cleanup(st, s, e.now).buckets, ideal, items, cost, e.now);
          RunAgrees(st, s', IdealOn(st, ideal, items, cost, e.now).0, es[1..], End(e), to);
        }
    }
  }

  /** Idle eviction is invisible: when the idle time covers every refill and no quota is
      reached, each decision of a run is the decision of the limiter that never forgets. */
  lemma IdleEvictionInvisible(st: Settings, es: seq<Event>, t0: real, to: real)
    requires ValidSettings(st) && (forall k :: IdleCovers(st, k))
    requires Timed(es, t0, to) && RoomyRun(st, Initial(t0), es)
    ensures Decisions(st, Initial(t0), es) == IdealDecisions(st, map[], es)
  {
    RunAgrees(st, Initial(t0), map[], es, t0, to);
  }
}
