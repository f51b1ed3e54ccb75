/** The retention policy of the audit log: drop what is too old, order by time, keep the newest.
  Applying it step by step to a growing log equals applying it once to the whole history. */
module AuditRetention {
  import opened Prelude

  const DAY_MS: int := 24 * 60 * 60 * 1000
  const RETENTION_MS: int := 30 * DAY_MS
  const MAX_EVENTS: nat := 10_000

  /** A timestamp that cannot be read as an instant is None. */
  datatype Entry = Entry(id: string, timestamp: Option<int>, payload: int)

  function Time(e: Entry): int { if e.timestamp.Some? then e.timestamp.value else 0 }

  predicate Eligible(e: Entry, now: int) { e.timestamp.Some? && now - e.timestamp.value < RETENTION_MS }

  function Young(es: seq<Entry>, now: int): seq<Entry> {
    if es == [] then []
    else Young(es[..|es| - 1], now) + if Eligible(es[|es| - 1], now) then [es[|es| - 1]] else []
  }

  /** `descending` orders newest first; equal times keep their order either way. */
  predicate InOrder(a: Entry, b: Entry, descending: bool) {
    if descending then Time(b) <= Time(a) else Time(a) <= Time(b)
  }

  predicate Sorted(es: seq<Entry>, descending: bool) {
    forall i, j :: 0 <= i < j < |es| ==> InOrder(es[i], es[j], descending)
  }

  function Insert(es: seq<Entry>, e: Entry, descending: bool): seq<Entry> {
    if es == [] then [e]
    else
      var last := es[|es| - 1];
      if InOrder(last, e, descending) then es + [e]
      else Insert(es[..|es| - 1], e, descending) + [last]
  }

  /** `Array.prototype.sort` by time: the sort is stable, and the source breaks ties by index,
      which is the same. */
  function StableSort(es: seq<Entry>, descending: bool): seq<Entry> {
    if es == [] then []
    else Insert(StableSort(es[..|es| - 1], descending), es[|es| - 1], descending)
  }

  /** `slice(-n)` for positive n. */
  function LastN(es: seq<Entry>, n: nat): (r: seq<Entry>)
    ensures |r| == if |es| <= n then |es| else n
  {
    if |es| <= n then es else es[|es| - n..]
  }

  /** `applyAuditRetentionPolicy` */
  function Retain(es: seq<Entry>, now: int): seq<Entry> {
    LastN(StableSort(Young(es, now), false), MAX_EVENTS)
  }

  // ------------------------------------------------ the sort is the stable sort

  function AtTime(es: seq<Entry>, t: int): seq<Entry> {
    if es == [] then []
    else AtTime(es[..|es| - 1], t) + if Time(es[|es| - 1]) == t then [es[|es| - 1]] else []
  }

  lemma {:induction false} AtTimeAppend(a: seq<Entry>, b: seq<Entry>, t: int)
    ensures AtTime(a + b, t) == AtTime(a, t) + AtTime(b, t)
  {
    if b == [] {
      assert a + b == a;
    } else {
      assert (a + b)[..|a + b| - 1] == a + b[..|b| - 1];
      AtTimeAppend(a, b[..|b| - 1], t);
    }
  }

  lemma {:induction false} InsertMembers(es: seq<Entry>, e: Entry, descending: bool)
    ensures forall x :: x in Insert(es, e, descending) <==> x in es || x == e
  {
    if es != [] {
      InsertMembers(es[..|es| - 1], e, descending);
      assert es == es[..|es| - 1] + [es[|es| - 1]];
    }
  }

  lemma {:induction false} InsertSorted(es: seq<Entry>, e: Entry, descending: bool)
    requires Sorted(es, descending)
    ensures Sorted(Insert(es, e, descending), descending)
  {
    if es != [] {
      var front, last := es[..|es| - 1], es[|es| - 1];
      if InOrder(last, e, descending) {
        forall i | 0 <= i < |es| ensures InOrder(es[i], e, descending) {
          NotLater(es, es[i], descending);
        }
      } else {
        InsertSorted(front, e, descending);
        InsertMembers(front, e, descending);
        var r := Insert(front, e, descending);
        forall i | 0 <= i < |r| ensures InOrder(r[i], last, descending) {
          assert r[i] in r;
          if r[i] in front { NotLater(es, r[i], descending); }
        }
      }
    }
  }

  /** Two entries of different times may be swapped. */
  lemma AtTimeSwap(front: seq<Entry>, e: Entry, last: Entry, r: seq<Entry>, t: int)
    requires Time(e) != Time(last) && AtTime(r, t) == AtTime(front + [e], t)
    ensures AtTime(r + [last], t) == AtTime(front + [last] + [e], t)
  {
    AtTimeAppend(r, [last], t);
    AtTimeAppend(front, [e], t);
    AtTimeAppend(front + [last], [e], t);
    AtTimeAppend(front, [last], t);
    assert [e][..0] == [] && [last][..0] == [];
    assert AtTime([e], t) == [] || AtTime([last], t) == [];
  }

  lemma {:induction false} InsertAtTime(es: seq<Entry>, e: Entry, descending: bool, t: int)
    ensures AtTime(Insert(es, e, descending), t) == AtTime(es + [e], t)
  {
    if es != [] && !InOrder(es[|es| - 1], e, descending) {
      var front, last := es[..|es| - 1], es[|es| - 1];
      InsertAtTime(front, e, descending, t);
      AtTimeSwap(front, e, last, Insert(front, e, descending), t);
      assert front + [last] == es;
    }
  }

  lemma {:induction false} SortAtTime(es: seq<Entry>, descending: bool, t: int)
    ensures AtTime(StableSort(es, descending), t) == AtTime(es, t)
  {
    if es != [] {
      var front, last := es[..|es| - 1], es[|es| - 1];
      SortAtTime(front, descending, t);
      InsertAtTime(StableSort(front, descending), last, descending, t);
      AtTimeAppend(StableSort(front, descending), [last], t);
      AtTimeAppend(front, [last], t);
      assert front + [last] == es;
    }
  }

  lemma {:induction false} SortSorted(es: seq<Entry>, descending: bool)
    ensures Sorted(StableSort(es, descending), descending)
  {
    if es != [] {
      SortSorted(es[..|es| - 1], descending);
      InsertSorted(StableSort(es[..|es| - 1], descending), es[|es| - 1], descending);
    }
  }

  lemma SortKeepsOrder(es: seq<Entry>, descending: bool)
    ensures Sorted(StableSort(es, descending), descending)
    ensures forall t :: AtTime(StableSort(es, descending), t) == AtTime(es, t)
  {
    SortSorted(es, descending);
    forall t ensures AtTime(StableSort(es, descending), t) == AtTime(es, t) {
      SortAtTime(es, descending, t);
    }
  }

  lemma {:induction false} AtTimeLast(es: seq<Entry>, t: int)
    ensures forall e :: e in AtTime(es, t) <==> e in es && Time(e) == t
  {
    if es != [] {
      AtTimeLast(es[..|es| - 1], t);
      assert es == es[..|es| - 1] + [es[|es| - 1]];
    }
  }

  /** Sorted sequences with the same entries at every time, in the same order, are equal. */
  lemma {:induction false} SameTimesSameOrder(a: seq<Entry>, b: seq<Entry>, descending: bool)
    requires Sorted(a, descending) && Sorted(b, descending)
    requires forall t :: AtTime(a, t) == AtTime(b, t)
    ensures a == b
    decreases |a|
  {
    if a == [] {
      if b != [] {
        LatestIsLast(b, a, descending);
      }
    } else {
      var x := a[|a| - 1];
      LatestIsLast(a, b, descending);
      assert b[|b| - 1] == x;
      var fa, fb := a[..|a| - 1], b[..|b| - 1];
      assert Sorted(fa, descending) && Sorted(fb, descending);
      forall t ensures AtTime(fa, t) == AtTime(fb, t) {
        assert AtTime(a, t) == AtTime(fa, t) + (if Time(x) == t then [x] else []);
        assert AtTime(b, t) == AtTime(fb, t) + (if Time(x) == t then [x] else []);
        SameTail(AtTime(fa, t), AtTime(fb, t), if Time(x) == t then [x] else []);
      }
      SameTimesSameOrder(fa, fb, descending);
      assert a == fa + [x] && b == fb + [x];
    }
  }

  lemma SameTail(a: seq<Entry>, b: seq<Entry>, c: seq<Entry>)
    requires a + c == b + c
    ensures a == b
  {
    assert |a + c| == |b + c|;
    assert a == (a + c)[..|a|] && b == (b + c)[..|b|];
  }

  lemma LatestIsLast(a: seq<Entry>, b: seq<Entry>, descending: bool)
    requires a != [] && Sorted(a, descending) && Sorted(b, descending)
    requires forall t :: AtTime(a, t) == AtTime(b, t)
    ensures b != [] && b[|b| - 1] == a[|a| - 1]
  {
    var x := a[|a| - 1];
    AtTimeLast(a, Time(x));
    AtTimeLast(b, Time(x));
    assert AtTime(a, Time(x)) == AtTime(b, Time(x));
    assert x in AtTime(b, Time(x));
    var y := b[|b| - 1];
    NotLater(b, x, descending);
    assert y in a by {
      AtTimeLast(b, Time(y));
      AtTimeLast(a, Time(y));
      assert AtTime(a, Time(y)) == AtTime(b, Time(y));
    }
    NotLater(a, y, descending);
    SameLast(a, b, Time(x));
  }

  lemma NotLater(es: seq<Entry>, e: Entry, descending: bool)
    requires Sorted(es, descending) && e in es
    ensures InOrder(e, es[|es| - 1], descending)
  {
    var i :| 0 <= i < |es| && es[i] == e;
  }

  lemma SameLast(a: seq<Entry>, b: seq<Entry>, t: int)
    requires a != [] && b != [] && Time(a[|a| - 1]) == t && Time(b[|b| - 1]) == t
    requires AtTime(a, t) == AtTime(b, t)
    ensures a[|a| - 1] == b[|b| - 1]
  {
    var pa, pb := AtTime(a[..|a| - 1], t), AtTime(b[..|b| - 1], t);
    assert (pa + [a[|a| - 1]])[|AtTime(a, t)| - 1] == a[|a| - 1];
    assert (pb + [b[|b| - 1]])[|AtTime(a, t)| - 1] == b[|b| - 1];
  }

  /** StableSort is the stable sort: the only ordered sequence in which every time keeps exactly
      its own entries in their original order. */
  ghost predicate IsStableSortOf(r: seq<Entry>, es: seq<Entry>, descending: bool) {
    && Sorted(r, descending)
    && forall t :: AtTime(r, t) == AtTime(es, t)
  }

  lemma StableSortIff(es: seq<Entry>, r: seq<Entry>, descending: bool)
    ensures r == StableSort(es, descending) <==> IsStableSortOf(r, es, descending)
  {
    SortKeepsOrder(es, descending);
    if IsStableSortOf(r, es, descending) {
      SameTimesSameOrder(r, StableSort(es, descending), descending);
    }
  }

  lemma SortedIsFixed(es: seq<Entry>)
    requires Sorted(es, false)
    ensures StableSort(es, false) == es
  {
    StableSortIff(es, es, false);
  }

  // ------------------------------------------------ retention absorbs retention

  lemma {:induction false} YoungAppend(a: seq<Entry>, b: seq<Entry>, now: int)
    ensures Young(a + b, now) == Young(a, now) + Young(b, now)
  {
    if b == [] {
      assert a + b == a;
    } else {
      assert (a + b)[..|a + b| - 1] == a + b[..|b| - 1];
      YoungAppend(a, b[..|b| - 1], now);
    }
  }

  /** What is eligible later was eligible earlier. */
  lemma {:induction false} YoungNarrows(es: seq<Entry>, n1: int, n2: int)
    requires n1 <= n2
    ensures Young(Young(es, n1), n2) == Young(es, n2)
  {
    if es != [] {
      var front, last := es[..|es| - 1], es[|es| - 1];
      YoungNarrows(front, n1, n2);
      if Eligible(last, n1) {
        assert (Young(front, n1) + [last])[..|Young(front, n1)|] == Young(front, n1);
      } else {
        assert Young(es, n1) == Young(front, n1);
      }
    }
  }

  lemma {:induction false} YoungMembers(es: seq<Entry>, now: int)
    ensures forall e :: e in Young(es, now) <==> e in es && Eligible(e, now)
  {
    if es != [] {
      YoungMembers(es[..|es| - 1], now);
      assert es == es[..|es| - 1] + [es[|es| - 1]];
    }
  }

  lemma {:induction false} YoungOfSorted(es: seq<Entry>, now: int)
    requires Sorted(es, false)
    ensures Sorted(Young(es, now), false)
  {
    if es != [] {
      var front, last := es[..|es| - 1], es[|es| - 1];
      YoungOfSorted(front, now);
      YoungMembers(front, now);
      var r := Young(front, now);
      forall i | 0 <= i < |r| ensures InOrder(r[i], last, false) { assert r[i] in r; }
    }
  }

  predicate AllReadable(es: seq<Entry>) {
    forall i :: 0 <= i < |es| ==> es[i].timestamp.Some?
  }

  lemma ReadableMembers(es: seq<Entry>)
    requires forall e :: e in es ==> e.timestamp.Some?
    ensures AllReadable(es)
  {
    forall i | 0 <= i < |es| ensures es[i].timestamp.Some? { assert es[i] in es; }
  }

  lemma {:induction false} YoungAtTime(es: seq<Entry>, now: int, t: int)
    requires AllReadable(es)
    ensures AtTime(Young(es, now), t) == if now - t < RETENTION_MS then AtTime(es, t) else []
  {
    if es != [] {
      var front, last := es[..|es| - 1], es[|es| - 1];
      YoungAtTime(front, now, t);
      if Eligible(last, now) {
        assert Young(es, now) == Young(front, now) + [last];
        AtTimeAppend(Young(front, now), [last], t);
        assert [last][..0] == [];
      } else {
        assert Young(es, now) == Young(front, now);
      }
    }
  }

  lemma {:induction false} SortMembers(es: seq<Entry>)
    ensures forall e :: e in StableSort(es, false) <==> e in es
  {
    SortKeepsOrder(es, false);
    forall e ensures e in StableSort(es, false) <==> e in es {
      AtTimeLast(es, Time(e));
      AtTimeLast(StableSort(es, false), Time(e));
    }
  }

  /** Filtering by age commutes with sorting. */
  lemma YoungOfSort(es: seq<Entry>, now: int)
    requires AllReadable(es)
    ensures Young(StableSort(es, false), now) == StableSort(Young(es, now), false)
  {
    var s := StableSort(es, false);
    SortKeepsOrder(es, false);
    SortMembers(es);
    ReadableMembers(s);
    YoungOfSorted(s, now);
    forall t ensures AtTime(Young(s, now), t) == AtTime(Young(es, now), t) {
      YoungAtTime(s, now, t);
      YoungAtTime(es, now, t);
    }
    StableSortIff(Young(es, now), Young(s, now), false);
  }

  /** Filtering the newest n of a sorted log keeps the newest n of the filtered log: whoever is
      young enough, everything newer is too. */
  lemma {:induction false} YoungOfLast(es: seq<Entry>, now: int, n: nat)
    requires Sorted(es, false) && AllReadable(es)
    ensures Young(LastN(es, n), now) == LastN(Young(es, now), n)
    decreases |es|
  {
    if es == [] || n == 0 {
    } else if Eligible(es[|es| - 1], now) {
      YoungOfLast(es[..|es| - 1], now, n - 1);
      YoungOfLastGrows(es[..|es| - 1], es[|es| - 1], now, n);
      assert es == es[..|es| - 1] + [es[|es| - 1]];
    } else {
      OldOfLast(es, now, n);
    }
  }

  lemma OldOfLast(es: seq<Entry>, now: int, n: nat)
    requires Sorted(es, false) && AllReadable(es) && es != [] && n > 0 && !Eligible(es[|es| - 1], now)
    ensures Young(LastN(es, n), now) == [] == LastN(Young(es, now), n)
  {
    NoneYoung(es, now);
    LastSorted(es, n);
    LastSplit(es, n);
    NoneYoung(LastN(es, n), now);
  }

  lemma YoungGrows(es: seq<Entry>, e: Entry, now: int)
    requires Eligible(e, now)
    ensures Young(es + [e], now) == Young(es, now) + [e]
  {
    assert (es + [e])[..|es|] == es;
  }

  lemma YoungOfLastGrows(es: seq<Entry>, e: Entry, now: int, n: nat)
    requires n > 0 && Eligible(e, now)
    requires Young(LastN(es, n - 1), now) == LastN(Young(es, now), n - 1)
    ensures Young(LastN(es + [e], n), now) == LastN(Young(es + [e], now), n)
  {
    YoungGrows(LastN(es, n - 1), e, now);
    YoungGrows(es, e, now);
    LastAppend(es, e, n);
    LastAppend(Young(es, now), e, n);
  }

  lemma NoneYoung(es: seq<Entry>, now: int)
    requires es != [] && Sorted(es, false) && es[|es| - 1].timestamp.Some?
    requires !Eligible(es[|es| - 1], now)
    ensures Young(es, now) == []
  {
    YoungMembers(es, now);
    if Young(es, now) != [] {
      var e := Young(es, now)[0];
      assert e in Young(es, now);
      NotLater(es, e, false);
    }
  }

  lemma LastSplit(es: seq<Entry>, n: nat)
    requires es != [] && n > 0
    ensures LastN(es, n) != []
    ensures LastN(es, n)[..|LastN(es, n)| - 1] == LastN(es[..|es| - 1], n - 1)
    ensures LastN(es, n)[|LastN(es, n)| - 1] == es[|es| - 1]
  {}

  /** Only the newest n matter for the newest n after an insertion. */
  lemma {:induction false} LastOfInsert(es: seq<Entry>, e: Entry, n: nat)
    ensures LastN(Insert(LastN(es, n), e, false), n) == LastN(Insert(es, e, false), n)
    decreases |es|
  {
    if es != [] && n > 0 {
      var front, last := es[..|es| - 1], es[|es| - 1];
      LastSplit(es, n);
      if !InOrder(last, e, false) {
        LastOfInsert(front, e, n - 1);
        var a, b := Insert(LastN(front, n - 1), e, false), Insert(front, e, false);
        LastAppend(a, last, n);
        LastAppend(b, last, n);
      }
    }
  }

  lemma LastAppend(es: seq<Entry>, e: Entry, n: nat)
    requires n > 0
    ensures LastN(es + [e], n) == LastN(es, n - 1) + [e]
  {}

  function InsertAll(es: seq<Entry>, more: seq<Entry>): seq<Entry>
    decreases |more|
  {
    if more == [] then es else InsertAll(Insert(es, more[0], false), more[1..])
  }

  lemma {:induction false} SortAppend(a: seq<Entry>, b: seq<Entry>)
    ensures StableSort(a + b, false) == InsertAll(StableSort(a, false), b)
    decreases |b|
  {
    if b == [] {
      assert a + b == a;
    } else {
      assert a + b == (a + [b[0]]) + b[1..];
      SortAppend(a + [b[0]], b[1..]);
      assert (a + [b[0]])[..|a|] == a;
    }
  }

  lemma {:induction false} LastOfInsertAll(es: seq<Entry>, more: seq<Entry>, n: nat)
    ensures LastN(InsertAll(LastN(es, n), more), n) == LastN(InsertAll(es, more), n)
    decreases |more|
  {
    if more == [] {
    } else {
      var x, y := Insert(LastN(es, n), more[0], false), Insert(es, more[0], false);
      LastOfInsert(es, more[0], n);
      LastOfInsertAll(x, more[1..], n);
      LastOfInsertAll(y, more[1..], n);
    }
  }

  lemma LastSorted(es: seq<Entry>, n: nat)
    requires Sorted(es, false)
    ensures Sorted(LastN(es, n), false)
  {}

  /** The retention law: trimming a log, appending to it and trimming again at a later time gives
      exactly the trim of everything, ties included. */
  lemma RetainAbsorbs(xs: seq<Entry>, ys: seq<Entry>, n1: int, n2: int)
    requires n1 <= n2
    ensures Retain(Retain(xs, n1) + ys, n2) == Retain(xs + ys, n2)
  {
    var a, e, y := Young(xs, n1), Young(xs, n2), Young(ys, n2);
    var s, t := StableSort(a, false), StableSort(e, false);
    YoungMembers(xs, n1);
    ReadableMembers(a);
    SortMembers(a);
    ReadableMembers(s);
    SortKeepsOrder(a, false);
    SortKeepsOrder(e, false);
    YoungOfLast(s, n2, MAX_EVENTS);
    YoungOfSort(a, n2);
    YoungNarrows(xs, n1, n2);
    assert Young(Retain(xs, n1), n2) == LastN(t, MAX_EVENTS);
    YoungAppend(Retain(xs, n1), ys, n2);
    YoungAppend(xs, ys, n2);
    LastSorted(t, MAX_EVENTS);
    SortedIsFixed(LastN(t, MAX_EVENTS));
    SortAppend(LastN(t, MAX_EVENTS), y);
    SortAppend(e, y);
    LastOfInsertAll(t, y, MAX_EVENTS);
  }

  lemma RetainAgain(xs: seq<Entry>, n1: int, n2: int)
    requires n1 <= n2
    ensures Retain(Retain(xs, n1), n2) == Retain(xs, n2)
  {
    RetainAbsorbs(xs, [], n1, n2);
    assert Retain(xs, n1) + [] == Retain(xs, n1) && xs + [] == xs;
  }

  // ------------------------------------------------ the newest entry

  lemma {:induction false} InsertNewest(es: seq<Entry>, e: Entry)
    requires forall x :: x in es ==> Time(x) <= Time(e)
    ensures Insert(es, e, false) == es + [e]
  {}

  /** An entry stamped no earlier than everything before it is kept exactly when it is young
      enough at the time of saving, and then it is the last of the log. */
  lemma NewestKeptIff(es: seq<Entry>, e: Entry, now: int)
    requires e.timestamp.Some? && forall x :: x in es ==> Time(x) <= Time(e)
    ensures e in Retain(es + [e], now) <==> now - e.timestamp.value < RETENTION_MS
    ensures e in Retain(es + [e], now) ==> Retain(es + [e], now) == LastN(Retain(es, now), MAX_EVENTS - 1) + [e]
  {
    RetainOnlyYoung(es + [e], now);
    if Eligible(e, now) {
      var y := Young(es, now);
      YoungAppend(es, [e], now);
      assert [e][..0] == [];
      YoungMembers(es, now);
      SortMembers(y);
      assert (y + [e])[..|y|] == y;
      InsertNewest(StableSort(y, false), e);
      LastAppend(StableSort(y, false), e, MAX_EVENTS);
      LastOfLast(StableSort(y, false), MAX_EVENTS - 1, MAX_EVENTS);
    }
  }

  lemma LastOfLast(es: seq<Entry>, m: nat, n: nat)
    requires m <= n
    ensures LastN(LastN(es, n), m) == LastN(es, m)
  {}

  lemma RetainOnlyYoung(es: seq<Entry>, now: int)
    ensures forall x :: x in Retain(es, now) ==> x in es && Eligible(x, now)
  {
    YoungMembers(es, now);
    SortMembers(Young(es, now));
  }

  /** How many entries are stamped later than t. */
  function CountLater(es: seq<Entry>, t: int): nat {
    if es == [] then 0 else CountLater(es[..|es| - 1], t) + if Time(es[|es| - 1]) > t then 1 else 0
  }

  lemma CountLaterLast(es: seq<Entry>, e: Entry, t: int)
    ensures CountLater(es + [e], t) == CountLater(es, t) + if Time(e) > t then 1 else 0
  {
    assert (es + [e])[..|es|] == es;
  }

  lemma {:induction false} InsertCount(es: seq<Entry>, e: Entry, t: int)
    ensures CountLater(Insert(es, e, false), t) == CountLater(es, t) + if Time(e) > t then 1 else 0
  {
    if es == [] {
      assert [e][..0] == [];
    } else if InOrder(es[|es| - 1], e, false) {
      CountLaterLast(es, e, t);
    } else {
      InsertCount(es[..|es| - 1], e, t);
      CountLaterLast(Insert(es[..|es| - 1], e, false), es[|es| - 1], t);
    }
  }

  lemma {:induction false} SortCount(es: seq<Entry>, t: int)
    ensures CountLater(StableSort(es, false), t) == CountLater(es, t)
  {
    if es != [] {
      SortCount(es[..|es| - 1], t);
      InsertCount(StableSort(es[..|es| - 1], false), es[|es| - 1], t);
    }
  }

  lemma {:induction false} NoneLater(es: seq<Entry>, t: int)
    requires forall i :: 0 <= i < |es| ==> Time(es[i]) <= t
    ensures CountLater(es, t) == 0
  {
    if es != [] { NoneLater(es[..|es| - 1], t); }
  }

  lemma SplitGrows(front: seq<Entry>, last: Entry, e: Entry, k: nat)
    requires k <= |front|
    ensures var es := front + [last];
      front[..|front| - k] + [e] + front[|front| - k..] + [last] == es[..|es| - (k + 1)] + [e] + es[|es| - (k + 1)..]
  {
    var es := front + [last];
    assert es[..|es| - (k + 1)] == front[..|front| - k];
    assert es[|es| - (k + 1)..] == front[|front| - k..] + [last];
  }

  /** An insertion into a sorted log goes right before the entries stamped later. */
  lemma {:induction false} InsertPosition(es: seq<Entry>, e: Entry)
    requires Sorted(es, false)
    ensures var k := CountLater(es, Time(e));
      && k <= |es| && Insert(es, e, false) == es[..|es| - k] + [e] + es[|es| - k..]
      && forall i :: |es| - k <= i < |es| ==> Time(es[i]) > Time(e)
  {
    if es != [] {
      var front, last := es[..|es| - 1], es[|es| - 1];
      if InOrder(last, e, false) {
        forall i | 0 <= i < |es| ensures Time(es[i]) <= Time(e) {
          NotLater(es, es[i], false);
        }
        NoneLater(es, Time(e));
        assert es[..|es|] == es && es[|es|..] == [];
      } else {
        InsertPosition(front, e);
        assert es == front + [last];
        SplitGrows(front, last, e, CountLater(front, Time(e)));
      }
    }
  }

  /** The last n of an insertion: the new entry is among them when fewer than n are stamped later,
      and otherwise all of them are. */
  lemma InsertedKept(es: seq<Entry>, e: Entry, n: nat)
    requires Sorted(es, false)
    ensures var r := LastN(Insert(es, e, false), n);
      if CountLater(es, Time(e)) < n then e in r else forall x :: x in r ==> Time(x) > Time(e)
  {
    InsertPosition(es, e);
    var k := CountLater(es, Time(e));
    var all, r := Insert(es, e, false), LastN(Insert(es, e, false), n);
    assert all[|es| - k] == e;
    if k < n {
      assert r[|r| - 1 - k] == all[|all| - 1 - k];
    } else {
      forall i | 0 <= i < |r| ensures Time(r[i]) > Time(e) {
        assert r[i] == all[|all| - |r| + i] == es[|es| - |r| + i];
      }
    }
  }

  /** The entries that may push an entry of time t out of the log. */
  function Pushing(es: seq<Entry>, now: int, t: int): nat { CountLater(Young(es, now), t) }

  /** An appended entry is kept exactly when it is young enough and fewer than the maximal number of
      eligible entries are stamped later; otherwise no entry of its time is kept. */
  lemma AppendedKeptIff(es: seq<Entry>, e: Entry, now: int)
    requires e.timestamp.Some?
    ensures var r := Retain(es + [e], now);
      if Eligible(e, now) && Pushing(es, now, Time(e)) < MAX_EVENTS then e in r
      else forall x :: x in r ==> x.timestamp != e.timestamp
  {
    RetainOnlyYoung(es + [e], now);
    if Eligible(e, now) {
      var y := Young(es, now);
      YoungGrows(es, e, now);
      assert (y + [e])[..|y|] == y;
      SortKeepsOrder(y, false);
      SortCount(y, Time(e));
      InsertedKept(StableSort(y, false), e, MAX_EVENTS);
    }
  }

  lemma SuffixMembers(es: seq<Entry>, cut: nat, i: nat)
    requires i < |es| && cut <= |es|
    ensures cut <= i ==> es[i] in es[cut..]
  {
    if cut <= i { assert es[cut..][i - cut] == es[i]; }
  }

  /** An instant less than thirty days before another. */
  predicate Recent(e: Entry, now: int) {
    e.timestamp.Some? && now - e.timestamp.value < 30 * 24 * 60 * 60 * 1000
  }

  predicate NotAfter(a: Entry, b: Entry) {
    a.timestamp.Some? && b.timestamp.Some? && a.timestamp.value <= b.timestamp.value
  }

  predicate OldestFirst(es: seq<Entry>) { forall i, j :: 0 <= i < j < |es| ==> NotAfter(es[i], es[j]) }

  predicate NewestFirst(es: seq<Entry>) { forall i, j :: 0 <= i < j < |es| ==> NotAfter(es[j], es[i]) }

  /** What the policy promises: at most 10,000 entries, oldest first, none thirty days old; and
      whatever else was recent gave way to 10,000 entries which are at least as new. */
  lemma RetainIs(es: seq<Entry>, now: int)
    ensures var r := Retain(es, now);
      && |r| <= 10_000
      && (forall e :: e in r ==> e in es && Recent(e, now))
      && OldestFirst(r)
      && (forall e, x :: e in es && Recent(e, now) && e !in r && x in r ==>
            |r| == 10_000 && NotAfter(e, x))
  {
    var s, r := StableSort(Young(es, now), false), Retain(es, now);
    RetainOnlyYoung(es, now);
    SortKeepsOrder(Young(es, now), false);
    LastSorted(s, MAX_EVENTS);
    YoungMembers(es, now);
    SortMembers(Young(es, now));
    forall i, j | 0 <= i < j < |r| ensures NotAfter(r[i], r[j]) {
      assert r[i] in r && r[j] in r && InOrder(r[i], r[j], false);
    }
    forall e, x | e in es && Recent(e, now) && e !in r && x in r
      ensures |r| == 10_000 && NotAfter(e, x)
    {
      GivesWay(es, now, e, x);
    }
  }

  lemma GivesWay(es: seq<Entry>, now: int, e: Entry, x: Entry)
    requires e in es && Eligible(e, now) && e !in Retain(es, now) && x in Retain(es, now)
    ensures |Retain(es, now)| == MAX_EVENTS && Time(e) <= Time(x)
  {
    var s, r := StableSort(Young(es, now), false), Retain(es, now);
    SortKeepsOrder(Young(es, now), false);
    YoungMembers(es, now);
    SortMembers(Young(es, now));
    var i :| 0 <= i < |s| && s[i] == e;
    var j :| 0 <= j < |r| && r[j] == x;
    var cut := |s| - |r|;
    assert r == s[cut..];
    SuffixMembers(s, cut, i);
    assert s[cut + j] == x && InOrder(s[i], s[cut + j], false);
  }

  // ------------------------------------------------ the policy as a loop

  /** The policy as it runs: one pass collects the readable entries, then filter, sort, slice. */
  method ApplyRetentionPolicy(entries: seq<Entry>, now: int)
    returns (retained: seq<Entry>, dropped: nat, malformed: nat)
    ensures retained == Retain(entries, now)
    ensures |entries| == |retained| + dropped
    ensures malformed == |entries| - |Readable(entries)|
    ensures malformed <= dropped
  {
    var valid: seq<Entry> := [];
    var i := 0;
    while i < |entries|
      invariant 0 <= i <= |entries| && valid == Readable(entries[..i])
    {
      assert entries[..i + 1][..i] == entries[..i];
      if entries[i].timestamp.Some? { valid := valid + [entries[i]]; }
      i := i + 1;
    }
    assert entries[..i] == entries;
    YoungOfReadable(entries, now);
    retained := LastN(StableSort(Young(valid, now), false), MAX_EVENTS);
    ReadableLength(entries);
    YoungLength(valid, now);
    SortLength(Young(entries, now));
    dropped := |entries| - |retained|;
    malformed := |entries| - |valid|;
  }

  function Readable(es: seq<Entry>): seq<Entry> {
    if es == [] then []
    else Readable(es[..|es| - 1]) + if es[|es| - 1].timestamp.Some? then [es[|es| - 1]] else []
  }

  lemma {:induction false} YoungOfReadable(es: seq<Entry>, now: int)
    ensures Young(Readable(es), now) == Young(es, now)
  {
    if es != [] {
      YoungOfReadable(es[..|es| - 1], now);
      var r := Readable(es[..|es| - 1]);
      assert (r + [es[|es| - 1]])[..|r|] == r;
      assert r + [] == r;
    }
  }

  lemma ReadableLength(es: seq<Entry>)
    ensures |Readable(es)| <= |es|
  {}

  lemma YoungLength(es: seq<Entry>, now: int)
    ensures |Young(es, now)| <= |es|
  {}

  lemma InsertLength(es: seq<Entry>, e: Entry)
    ensures |Insert(es, e, false)| == |es| + 1
  {}

  lemma {:induction false} SortLength(es: seq<Entry>)
    ensures |StableSort(es, false)| == |es|
  {
    if es != [] {
      SortLength(es[..|es| - 1]);
      InsertLength(StableSort(es[..|es| - 1], false), es[|es| - 1]);
    }
  }
}
