/** The audit log service: every call loads the log, trims it, and saves it again. The log in the
  store is always the retention of everything ever recorded. */
module AuditLog {
  import opened Prelude
  import opened AuditRetention

  /** One call, with the clock as it read when the entry was stamped (`entry.timestamp`), when the
      log was loaded and when it was saved. A call whose store fails changes nothing and is left out. */
  datatype Call =
    | Record(entry: Entry, loadNow: int, saveNow: int)
    | Read(loadNow: int, saveNow: int)

  /** `#loadEntries` for `record`, then `#saveEntries`; for `list` and `get` the trimmed log is
      saved only when trimming changed it. */
  function After(log: seq<Entry>, call: Call): seq<Entry> {
    var bounded := Retain(log, call.loadNow);
    match call
    case Record(entry, _, saveNow) => Retain(bounded + [entry], saveNow)
    case Read(_, saveNow) => if bounded != log then Retain(bounded, saveNow) else log
  }

  function Run(log: seq<Entry>, calls: seq<Call>): seq<Entry> {
    if calls == [] then log else After(Run(log, calls[..|calls| - 1]), calls[|calls| - 1])
  }

  /** Every entry handed to `record`, in the order of the calls. */
  function Recorded(calls: seq<Call>): seq<Entry> {
    if calls == [] then []
    else
      var last := calls[|calls| - 1];
      Recorded(calls[..|calls| - 1]) + if last.Record? then [last.entry] else []
  }

  /** The clock never goes back. */
  predicate InTime(start: int, call: Call) {
    && start <= call.loadNow <= call.saveNow
    && (call.Record? ==> call.entry.timestamp.Some? && start <= call.entry.timestamp.value <= call.loadNow)
  }

  function End(start: int, calls: seq<Call>): int {
    if calls == [] then start else calls[|calls| - 1].saveNow
  }

  predicate Timed(start: int, calls: seq<Call>) {
    calls != [] ==>
      && Timed(start, calls[..|calls| - 1])
      && InTime(End(start, calls[..|calls| - 1]), calls[|calls| - 1])
  }

  /** The clock reading the stored log is the retention for. */
  function AsOf(log: seq<Entry>, call: Call): int {
    if call.Read? && Retain(log, call.loadNow) == log then call.loadNow else call.saveNow
  }

  /** From any log whatever and over any history of calls, the log in the store is exactly what one
      trim of the whole history leaves, in the same order, and stays interchangeable with it. */
  lemma {:induction false} StoredLogIsRetention(log: seq<Entry>, start: int, calls: seq<Call>)
    requires Timed(start, calls)
    ensures forall n :: n >= End(start, calls) ==>
      Retain(Run(log, calls), n) == Retain(log + Recorded(calls), n)
    ensures calls != [] ==>
      var before := Run(log, calls[..|calls| - 1]);
      Run(log, calls) == Retain(log + Recorded(calls), AsOf(before, calls[|calls| - 1]))
  {
    if calls == [] {
      assert log + [] == log;
    } else {
      var front, call := calls[..|calls| - 1], calls[|calls| - 1];
      StoredLogIsRetention(log, start, front);
      AfterIsRetention(Run(log, front), log + Recorded(front), End(start, front), call);
      assert log + Recorded(calls) == log + Recorded(front) + (if call.Record? then [call.entry] else []);
      var whole := log + Recorded(calls);
      forall n | n >= End(start, calls) ensures Retain(Run(log, calls), n) == Retain(whole, n) {
        RetainAgain(whole, AsOf(Run(log, front), call), n);
      }
    }
  }

  lemma AfterIsRetention(log: seq<Entry>, history: seq<Entry>, start: int, call: Call)
    requires InTime(start, call)
    requires forall n :: n >= start ==> Retain(log, n) == Retain(history, n)
    ensures var whole := history + if call.Record? then [call.entry] else [];
      After(log, call) == Retain(whole, AsOf(log, call))
  {
    var bounded := Retain(log, call.loadNow);
    assert bounded == Retain(history, call.loadNow);
    if call.Record? {
      RetainAbsorbs(history, [call.entry], call.loadNow, call.saveNow);
    } else {
      assert history + [] == history;
      RetainAgain(history, call.loadNow, call.saveNow);
    }
  }

  // ------------------------------------------------ the errors

  /** `record` reports failure when it does not find its entry in what it saved. */
  predicate Retained(log: seq<Entry>, e: Entry) {
    exists i :: 0 <= i < |log| && log[i].id == e.id && log[i].timestamp == e.timestamp
  }

  predicate NoLaterThan(log: seq<Entry>, t: int) {
    forall x :: x in log && x.timestamp.Some? ==> x.timestamp.value <= t
  }

  lemma {:induction false} LogNoLaterThan(log: seq<Entry>, start: int, calls: seq<Call>)
    requires Timed(start, calls) && NoLaterThan(log, start)
    ensures NoLaterThan(log + Recorded(calls), End(start, calls))
  {
    if calls == [] {
      assert log + [] == log;
    } else {
      LogNoLaterThan(log, start, calls[..|calls| - 1]);
    }
  }

  /** For every log and history of calls, `record` reports AUDIT_EVENT_NOT_RETAINED exactly when
      its entry aged beyond the retention period between stamping and saving, or the whole history
      holds 10,000 eligible entries that are stamped later. */
  lemma RecordFailsIff(log: seq<Entry>, start: int, calls: seq<Call>, call: Call)
    requires Timed(start, calls) && call.Record? && InTime(End(start, calls), call)
    ensures !Retained(After(Run(log, calls), call), call.entry) <==>
      || call.saveNow - call.entry.timestamp.value >= 30 * 24 * 60 * 60 * 1000
      || Pushing(log + Recorded(calls), call.saveNow, call.entry.timestamp.value) >= 10_000
  {
    var e := call.entry;
    var whole := log + Recorded(calls);
    StoredLogIsRetention(log, start, calls);
    RetainAbsorbs(whole, [e], call.loadNow, call.saveNow);
    assert Retain(Run(log, calls), call.loadNow) == Retain(whole, call.loadNow);
    var saved := After(Run(log, calls), call);
    assert saved == Retain(whole + [e], call.saveNow);
    AppendedKeptIff(whole, e, call.saveNow);
    if e in saved {
      var i :| 0 <= i < |saved| && saved[i] == e;
      assert Retained(saved, e);
    }
    if Retained(saved, e) {
      var i :| 0 <= i < |saved| && saved[i].id == e.id && saved[i].timestamp == e.timestamp;
      assert saved[i] in saved;
    }
  }

  /** When the initial log holds nothing stamped later than the clock, only the first can happen:
      neither the count limit nor an entry of the same time ever pushes a fresh record out. */
  lemma FreshRecordFailsIff(log: seq<Entry>, start: int, calls: seq<Call>, call: Call)
    requires Timed(start, calls) && NoLaterThan(log, start)
    requires call.Record? && InTime(End(start, calls), call)
    ensures !Retained(After(Run(log, calls), call), call.entry)
            <==> call.saveNow - call.entry.timestamp.value >= 30 * 24 * 60 * 60 * 1000
  {
    var whole := log + Recorded(calls);
    RecordFailsIff(log, start, calls, call);
    LogNoLaterThan(log, start, calls);
    YoungMembers(whole, call.saveNow);
    var y := Young(whole, call.saveNow);
    forall i | 0 <= i < |y| ensures Time(y[i]) <= call.entry.timestamp.value { assert y[i] in y; }
    NoneLater(y, call.entry.timestamp.value);
  }

  // ------------------------------------------------ the reads

  function Filter(es: seq<Entry>, keep: Entry -> bool): (r: seq<Entry>)
    ensures forall e :: e in r <==> e in es && keep(e)
  {
    if es == [] then []
    else
      assert es == es[..|es| - 1] + [es[|es| - 1]];
      Filter(es[..|es| - 1], keep) + if keep(es[|es| - 1]) then [es[|es| - 1]] else []
  }

  /** Filtering works place by place: every matching entry stays where it is among the rest. */
  lemma {:induction false} FilterAround(before: seq<Entry>, behind: seq<Entry>, keep: Entry -> bool)
    ensures Filter(before + behind, keep) == Filter(before, keep) + Filter(behind, keep)
    decreases |behind|
  {
    if behind == [] {
      assert before + behind == before;
    } else {
      assert (before + behind)[..|before + behind| - 1] == before + behind[..|behind| - 1];
      FilterAround(before, behind[..|behind| - 1], keep);
    }
  }

  function Find(es: seq<Entry>, id: string): (r: Option<Entry>)
    ensures r.None? <==> forall e :: e in es ==> e.id != id
    ensures r.Some? ==> exists i :: 0 <= i < |es| && r.value == es[i] && es[i].id == id
                                    && forall j :: 0 <= j < i ==> es[j].id != id
  {
    if es == [] then None
    else if es[0].id == id then Some(es[0])
    else
      var r := Find(es[1..], id);
      assert es == [es[0]] + es[1..];
      assert r.Some? ==> exists i :: 0 <= i < |es| && r.value == es[i] && es[i].id == id
                                    && forall j :: 0 <= j < i ==> es[j].id != id by {
        if r.Some? {
          var i :| 0 <= i < |es[1..]| && r.value == es[1..][i] && es[1..][i].id == id
                   && forall j :: 0 <= j < i ==> es[1..][j].id != id;
          assert es[i + 1] == es[1..][i];
          assert forall j :: 0 <= j < i + 1 ==> es[j].id != id by {
            forall j | 0 <= j < i + 1 ensures es[j].id != id {
              assert j > 0 ==> es[j] == es[1..][j - 1];
            }
          }
        }
      }
      r
  }

  datatype Result<T> = Ok(value: T) | NotRetained | NotFound

  class AuditLogService {
    var entries: seq<Entry>

    constructor ()
      ensures entries == []
    {
      entries := [];
    }

    method Record(entry: Entry, loadNow: int, saveNow: int) returns (r: Result<Entry>)
      modifies this
      ensures entries == After(old(entries), Call.Record(entry, loadNow, saveNow))
      ensures r == (if Retained(entries, entry) then Ok(entry) else NotRetained)
      ensures r == Ok(entry) <==> exists i :: 0 <= i < |entries| && entries[i].id == entry.id && entries[i].timestamp == entry.timestamp
    {
      var loaded := LoadEntries(loadNow, saveNow, false);
      SaveEntries(loaded + [entry], saveNow);
      r := if Retained(entries, entry) then Ok(entry) else NotRetained;
    }

    /** Newest first; entries of the same time stay oldest first. */
    method List(keep: Entry -> bool, loadNow: int, saveNow: int) returns (r: seq<Entry>)
      modifies this
      ensures entries == After(old(entries), Read(loadNow, saveNow))
      ensures r == Listing(old(entries), keep, loadNow)
      ensures IsStableSortOf(r, Filter(Retain(old(entries), loadNow), keep), true)
    {
      var loaded := LoadEntries(loadNow, saveNow, true);
      r := StableSort(Filter(loaded, keep), true);
      StableSortIff(Filter(loaded, keep), r, true);
    }

    method Get(id: string, loadNow: int, saveNow: int) returns (r: Result<Entry>)
      modifies this
      ensures entries == After(old(entries), Read(loadNow, saveNow))
      ensures var found := Find(Retain(old(entries), loadNow), id);
              r == if found.Some? then Ok(found.value) else NotFound
    {
      var loaded := LoadEntries(loadNow, saveNow, true);
      var found := Find(loaded, id);
      r := if found.Some? then Ok(found.value) else NotFound;
    }

    method LoadEntries(loadNow: int, saveNow: int, persistBounded: bool) returns (bounded: seq<Entry>)
      modifies this
      ensures bounded == Retain(old(entries), loadNow)
      ensures entries == if persistBounded then After(old(entries), Read(loadNow, saveNow)) else old(entries)
    {
      var dropped, malformed;
      bounded, dropped, malformed := ApplyRetentionPolicy(entries, loadNow);
      var changed := malformed > 0 || dropped > 0 || entries != bounded;
      assert changed <==> entries != bounded;
      if persistBounded && changed { SaveEntries(bounded, saveNow); }
    }

    method SaveEntries(records: seq<Entry>, now: int)
      modifies this
      ensures entries == Retain(records, now)
    {
      var dropped, malformed;
      entries, dropped, malformed := ApplyRetentionPolicy(records, now);
    }
  }

  /** What `list` answers, given the stored log. */
  function Listing(log: seq<Entry>, keep: Entry -> bool, now: int): seq<Entry> {
    StableSort(Filter(Retain(log, now), keep), true)
  }

  /** What `list` shows after any history of calls, told from the whole history: entries that were
      recorded, match and are young enough, newest first, entries of one time in the order in
      which they are retained; and it withholds a matching one only when 10,000 retained entries
      are at least as new. Saving in between never hides or resurrects an entry. */
  lemma ListingIsOfWholeHistory(log: seq<Entry>, start: int, calls: seq<Call>, keep: Entry -> bool, now: int)
    requires Timed(start, calls) && End(start, calls) <= now
    ensures var shown := Listing(Run(log, calls), keep, now);
      var whole := log + Recorded(calls); var kept := Retain(whole, now);
      && NewestFirst(shown)
      && (forall t :: AtTime(shown, t) == AtTime(Filter(kept, keep), t))
      && (forall e :: e in shown ==> e in whole && Recent(e, now) && keep(e))
      && (forall e, x :: e in whole && Recent(e, now) && keep(e) && e !in shown && x in kept ==>
            |kept| == 10_000 && NotAfter(e, x))
  {
    var whole := log + Recorded(calls);
    var kept := Retain(whole, now);
    StoredLogIsRetention(log, start, calls);
    assert Retain(Run(log, calls), now) == kept;
    var shown := Listing(Run(log, calls), keep, now);
    RetainIs(whole, now);
    ShownMembers(kept, keep);
    ShownOrder(kept, keep);
  }

  lemma ShownOrder(kept: seq<Entry>, keep: Entry -> bool)
    requires forall e :: e in kept ==> e.timestamp.Some?
    ensures var shown := StableSort(Filter(kept, keep), true);
      NewestFirst(shown) && forall t :: AtTime(shown, t) == AtTime(Filter(kept, keep), t)
  {
    var shown := StableSort(Filter(kept, keep), true);
    SortKeepsOrder(Filter(kept, keep), true);
    ShownMembers(kept, keep);
    forall i, j | 0 <= i < j < |shown| ensures NotAfter(shown[j], shown[i]) {
      assert shown[i] in shown && shown[j] in shown && InOrder(shown[i], shown[j], true);
    }
  }

  lemma ShownMembers(kept: seq<Entry>, keep: Entry -> bool)
    ensures forall e :: e in StableSort(Filter(kept, keep), true) <==> e in kept && keep(e)
  {
    var shown := StableSort(Filter(kept, keep), true);
    SortKeepsOrder(Filter(kept, keep), true);
    forall e ensures e in shown <==> e in Filter(kept, keep) {
      AtTimeLast(shown, Time(e));
      AtTimeLast(Filter(kept, keep), Time(e));
    }
  }
}
