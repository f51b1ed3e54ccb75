/** Tables of pending authorizations: entries that expire, that are limited in number altogether
  and for each actor, and that are named by an unguessable state. The security service keeps one
  for authorization contexts, the callback server another for wizard intents. */
module PendingTables {
  import opened Prelude

  datatype Entry<T> = Entry(actor: Option<string>, expiresAt: int, data: T)

  type Table<T> = map<string, Entry<T>>

  datatype Limits = Limits(ttlMs: int, maxEntries: nat, maxPerActor: nat)

  /** Entries without an actor are counted together. */
  function ActorKey(actor: Option<string>): string {
    if actor.Some? then actor.value else "anonymous"
  }

  function Purge<T>(t: Table<T>, now: int): Table<T> {
    map s | s in t && now < t[s].expiresAt :: t[s]
  }

  function Expired<T>(t: Table<T>, now: int): Table<T> {
    map s | s in t && t[s].expiresAt <= now :: t[s]
  }

  function OfActor<T>(t: Table<T>, actor: string): set<string> {
    set s | s in t && ActorKey(t[s].actor) == actor
  }

  predicate HasRoom<T>(limits: Limits, t: Table<T>, actor: Option<string>) {
    |t| < limits.maxEntries && |OfActor(t, ActorKey(actor))| < limits.maxPerActor
  }

  ghost predicate WithinLimits<T>(limits: Limits, t: Table<T>) {
    |t| <= limits.maxEntries && forall a :: |OfActor(t, a)| <= limits.maxPerActor
  }

  /** Expiry divides the table: nothing is lost, nothing is kept twice. */
  lemma PurgeSplits<T>(t: Table<T>, now: int)
    ensures Purge(t, now).Keys !! Expired(t, now).Keys
    ensures Purge(t, now) + Expired(t, now) == t
    ensures Purge(Purge(t, now), now) == Purge(t, now)
  {}

  lemma FewerWithinLimits<T>(limits: Limits, t: Table<T>, fewer: Table<T>)
    requires WithinLimits(limits, t)
    requires forall s :: s in fewer ==> s in t && t[s] == fewer[s]
    ensures WithinLimits(limits, fewer)
  {
    SubsetSize(fewer.Keys, t.Keys);
    assert |fewer.Keys| == |fewer| && |t.Keys| == |t|;
    forall a ensures |OfActor(fewer, a)| <= limits.maxPerActor {
      SubsetSize(OfActor(fewer, a), OfActor(t, a));
    }
  }

  /** The check before an insertion keeps both limits, also when the insertion overwrites. */
  lemma InsertWithinLimits<T>(limits: Limits, t: Table<T>, state: string, e: Entry<T>)
    requires WithinLimits(limits, t) && HasRoom(limits, t, e.actor)
    ensures WithinLimits(limits, t[state := e])
  {
    var more := t[state := e];
    assert more.Keys == t.Keys + {state} && |more| == |more.Keys| && |t| == |t.Keys|;
    forall a ensures |OfActor(more, a)| <= limits.maxPerActor {
      if a == ActorKey(e.actor) {
        SubsetSize(OfActor(more, a), OfActor(t, a) + {state});
      } else {
        SubsetSize(OfActor(more, a), OfActor(t, a));
      }
    }
  }

  /** Entries without an actor belong to the name "anonymous". */
  predicate SameActor(a: Option<string>, b: Option<string>) {
    (if a.Some? then a.value else "anonymous") == (if b.Some? then b.value else "anonymous")
  }

  /** Of the entries that are not over, fewer than the limits are pending, altogether and for the
      actor. */
  ghost predicate RoomFor<T>(limits: Limits, t: Table<T>, actor: Option<string>, now: int) {
    && |set s | s in t && now < t[s].expiresAt| < limits.maxEntries
    && |set s | s in t && now < t[s].expiresAt && SameActor(t[s].actor, actor)| < limits.maxPerActor
  }

  lemma HasRoomIff<T>(limits: Limits, t: Table<T>, actor: Option<string>, now: int)
    ensures HasRoom(limits, Purge(t, now), actor) <==> RoomFor(limits, t, actor, now)
  {
    var left := Purge(t, now);
    assert (set s | s in t && now < t[s].expiresAt) == left.Keys;
    assert |left.Keys| == |left|;
    assert (set s | s in t && now < t[s].expiresAt && SameActor(t[s].actor, actor)) == OfActor(left, ActorKey(actor));
  }

  /** The table as it is kept in memory. */
  class PendingTable<T> {
    const limits: Limits
    var entries: Table<T>

    constructor (limits: Limits)
      ensures this.limits == limits && entries == map[]
    {
      this.limits := limits;
      entries := map[];
    }

    /** Entries are deleted while the table is walked. */
    method PurgeExpired(now: int) returns (expired: Table<T>)
      modifies this
      ensures entries == Purge(old(entries), now) && expired == Expired(old(entries), now)
    {
      expired := map[];
      var states := entries.Keys;
      while states != {}
        invariant states <= entries.Keys
        invariant entries == map s | s in old(entries) && (s in states || now < old(entries)[s].expiresAt) :: old(entries)[s]
        invariant expired == map s | s in old(entries) && s !in states && old(entries)[s].expiresAt <= now :: old(entries)[s]
        decreases states
      {
        var s :| s in states;
        states := states - {s};
        if entries[s].expiresAt <= now {
          expired := expired[s := entries[s]];
          entries := entries - {s};
        }
      }
    }

    /** First the size of the table, then a walk that counts the entries of the actor. */
    method CheckRoom(actor: Option<string>) returns (total: bool, own: bool)
      ensures total <==> |entries| < limits.maxEntries
      ensures own <==> |OfActor(entries, ActorKey(actor))| < limits.maxPerActor
    {
      total := |entries| < limits.maxEntries;
      ghost var all := OfActor(entries, ActorKey(actor));
      var count := 0;
      var states := entries.Keys;
      while states != {}
        invariant states <= entries.Keys
        invariant count == |all - states|
        decreases states
      {
        var s :| s in states;
        ghost var before := all - states;
        states := states - {s};
        if ActorKey(entries[s].actor) == ActorKey(actor) {
          assert all - states == before + {s};
          count := count + 1;
        } else {
          assert all - states == before;
        }
      }
      assert all - {} == all;
      own := count < limits.maxPerActor;
    }

    method Insert(state: string, e: Entry<T>)
      modifies this
      ensures entries == old(entries)[state := e]
    {
      entries := entries[state := e];
    }

    method Remove(state: string) returns (found: bool)
      modifies this
      ensures entries == old(entries) - {state} && found == (state in old(entries))
    {
      found := state in entries;
      entries := entries - {state};
    }
  }
}
