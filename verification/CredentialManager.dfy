/** The operations as the manager runs them, statement by statement, against a store it updates.
  Every await takes an arbitrary answer from the environment. Each method is proved to be exactly
  a complete solo run of the corresponding task, so the theorems about interleaved tasks are
  theorems about this code. */
module CredentialManager {
  import opened Prelude
  import opened LifecycleModel
  import opened LifecycleAnswers

  /** A task running alone: its steps answered in order. */
  function Solo(cfg: Config, s: System, t: Task, answers: seq<(Reply, int)>): (System, Task) {
    if answers == [] then (s, t)
    else
      var (s1, t1) := Solo(cfg, s, t, answers[..|answers| - 1]);
      var a := answers[|answers| - 1];
      Advance(cfg, s1, t1, a.0, a.1)
  }

  lemma AdvanceIgnoresTasks(cfg: Config, s: System, t: Task, reply: Reply, content: int, tasks: map<nat, Task>)
    ensures var (s', t') := Advance(cfg, s, t, reply, content);
            Advance(cfg, s.(tasks := tasks), t, reply, content) == (s'.(tasks := tasks), t')
  {}

  lemma AdvanceKeepsTasks(cfg: Config, s: System, t: Task, reply: Reply, content: int)
    ensures Advance(cfg, s, t, reply, content).0.tasks == s.tasks
  {}

  function Continues(tid: nat, answers: seq<(Reply, int)>): (acts: seq<Action>) {
    if answers == [] then []
    else Continues(tid, answers[..|answers| - 1])
         + [Continue(tid, answers[|answers| - 1].0, answers[|answers| - 1].1)]
  }

  lemma {:induction false} RunLast(cfg: Config, s: System, acts: seq<Action>, a: Action)
    ensures Run(cfg, s, acts + [a]) == Do(cfg, Run(cfg, s, acts), a)
    decreases |acts|
  {
    if acts == [] {
      assert acts + [a] == [a] && [a][1..] == [];
      assert Run(cfg, Do(cfg, s, a), []) == Do(cfg, s, a);
    } else {
      assert (acts + [a])[0] == acts[0] && (acts + [a])[1..] == acts[1..] + [a];
      RunLast(cfg, Do(cfg, s, acts[0]), acts[1..], a);
    }
  }

  /** A solo run is a run of the interleaved system in which only this task is scheduled. */
  lemma {:induction false} SoloIsRun(cfg: Config, s: System, tid: nat, t: Task, answers: seq<(Reply, int)>)
    requires tid in s.tasks && s.tasks[tid] == t
    ensures var (s', t') := Solo(cfg, s.(tasks := map[]), t, answers);
            Run(cfg, s, Continues(tid, answers)) == s'.(tasks := s.tasks[tid := t'])
    decreases |answers|
  {
    if answers == [] {
      assert s.tasks[tid := t] == s.tasks;
      assert Run(cfg, s, []) == s;
    } else {
      var front, last := answers[..|answers| - 1], answers[|answers| - 1];
      SoloIsRun(cfg, s, tid, t, front);
      RunLast(cfg, s, Continues(tid, front), Continue(tid, last.0, last.1));
      var (s1, t1) := Solo(cfg, s.(tasks := map[]), t, front);
      SoloTasks(cfg, s.(tasks := map[]), t, front);
      var tasks1 := s.tasks[tid := t1];
      AdvanceIgnoresTasks(cfg, s1, t1, last.0, last.1, tasks1);
      var t2 := Advance(cfg, s1, t1, last.0, last.1).1;
      assert tasks1[tid := t2] == s.tasks[tid := t2];
    }
  }

  lemma {:induction false} SoloTasks(cfg: Config, s: System, t: Task, answers: seq<(Reply, int)>)
    ensures Solo(cfg, s, t, answers).0.tasks == s.tasks
    decreases |answers|
  {
    if answers != [] {
      var front, last := answers[..|answers| - 1], answers[|answers| - 1];
      SoloTasks(cfg, s, t, front);
      var (s1, t1) := Solo(cfg, s, t, front);
      AdvanceKeepsTasks(cfg, s1, t1, last.0, last.1);
    }
  }

  lemma AllOkLast(answers: Answers, last: (Reply, int))
    ensures AllOk(answers + [last]) ==> AllOk(answers) && last.0 == Ok
  {
    var all := answers + [last];
    assert all[|answers|] == last;
    assert forall i :: 0 <= i < |answers| ==> all[i] == answers[i];
  }

  lemma {:induction false} PlayLast(cfg: Config, s: System, t: Task, answers: Answers, last: (Reply, int))
    ensures var (r, u) := Play(cfg, s, t, answers);
      Play(cfg, s, t, answers + [last]) == Advance(cfg, r, u, last.0, last.1)
    decreases |answers|
  {
    var all := answers + [last];
    if answers == [] {
      assert all == [last] && all[1..] == [];
    } else {
      assert all[0] == answers[0] && all[1..] == answers[1..] + [last];
      var (s1, t1) := Advance(cfg, s, t, answers[0].0, answers[0].1);
      PlayLast(cfg, s1, t1, answers[1..], last);
    }
  }

  lemma {:induction false} PlayIsSolo(cfg: Config, s: System, t: Task, answers: Answers)
    ensures Play(cfg, s, t, answers) == Solo(cfg, s, t, answers)
    decreases |answers|
  {
    if answers != [] {
      var front, last := answers[..|answers| - 1], answers[|answers| - 1];
      PlayIsSolo(cfg, s, t, front);
      PlayLast(cfg, s, t, front, last);
      assert answers == front + [last];
    }
  }

  function Successes(n: nat): (r: Answers)
    ensures |r| == n && AllOk(r)
  {
    seq(n, i => (Ok, 0))
  }

  /** A task that has ended stays as it is, so what happened before is all that happens. */
  lemma {:induction false} PlayMore(cfg: Config, s: System, t: Task, answers: Answers, more: Answers)
    requires Play(cfg, s, t, answers).1 == Done
    ensures Play(cfg, s, t, answers + more) == Play(cfg, s, t, answers)
    decreases |answers|
  {
    if answers == [] {
      assert answers + more == more;
      DoneStays(cfg, s, more);
    } else {
      assert (answers + more)[0] == answers[0] && (answers + more)[1..] == answers[1..] + more;
      var (s1, t1) := Advance(cfg, s, t, answers[0].0, answers[0].1);
      PlayMore(cfg, s1, t1, answers[1..], more);
    }
  }

  lemma SmoothDelete(cfg: Config, s: System, c: Credential, answers: Answers, r: System)
    requires Solo(cfg, s, Start(cfg, OpDelete, c), answers) == (r, Done) && AllOk(answers)
    requires Holds(s, c) && c.life != Deleted
    ensures Gone(s, r, c)
  {
    var t := Start(cfg, OpDelete, c);
    PlayIsSolo(cfg, s, t, answers);
    PlayMore(cfg, s, t, answers, Successes(13));
    DeleteRemoves(cfg, s, c, answers + Successes(13));
  }

  /** What an operation gives its caller: a credential, a refusal as a value, or an exception. */
  datatype Result = Success(credential: Credential) | Failure | Threw

  /** What `delete` gives: the deleted credential, the credential when cleanup is to be retried, or
      an exception. */
  datatype DeleteResult = Removed(credential: Credential) | Kept(credential: Credential) | Threw

  class CredentialManager {
    const cfg: Config
    var store: Store
    ghost var written: map<(Id, nat), Credential>
    ghost var invalidated: set<(Id, nat)>
    ghost var origin: System
    ghost var first: Task
    ghost var answers: seq<(Reply, int)>
    ghost var pc: Task

    ghost function State(): System
      reads this
    {
      System(store, written, invalidated, map[])
    }

    /** The manager stands where the task stands after the answers so far. */
    ghost predicate Valid()
      reads this
    {
      Solo(cfg, origin, first, answers) == (State(), pc)
    }

    ghost predicate Stores(c: Credential)
      reads this
    {
      c.id in store.live && store.live[c.id] == c && (c.id, c.version) in written && written[(c.id, c.version)] == c
    }

    ghost predicate HoldsNow(c: Credential)
      reads this
    {
      c.id in store.live && store.live[c.id] == c
    }

    /** Every call and every write so far was answered with success. */
    ghost predicate Smooth()
      reads this
    {
      AllOk(answers)
    }

    ghost predicate StoredRevoked(id: Id)
      reads this
    {
      id in store.live && store.live[id].life == Revoked
    }

    /** A removal was asked for a version with all cleanup settled, under which the secret history
        had been invalidated; `r` is the deleted form of that version. */
    ghost predicate CleanedUp(r: Credential)
      reads this
    {
      var k := (r.id, if r.version > 0 then r.version - 1 else 0);
      && k in written && k in invalidated && r == Next(written[k]).(life := Deleted)
      && written[k].decom.Some? && written[k].decom.value.grant == Complete
      && (cfg.canRevoke ==> Settled(written[k]))
      && (r.id in store.live ==> store.live[r.id] == written[k])
    }

    constructor (cfg: Config, store: Store)
      ensures Valid() && this.cfg == cfg && this.store == store && pc == Done
    {
      this.cfg, this.store := cfg, store;
      written, invalidated, answers := map[], {}, [];
      first, pc := Done, Done;
      origin := System(store, map[], {}, map[]);
    }

    ghost method Launch(t: Task)
      modifies `origin, `first, `answers, `pc
      ensures Valid() && pc == t && first == t && origin == State() && answers == []
    {
      origin, first, answers, pc := State(), t, [], t;
    }

    ghost method Note(reply: Reply, content: int, s: System, t: Task)
      requires Solo(cfg, origin, first, answers) == (s, t)
      requires Advance(cfg, s, t, reply, content).0 == State()
      modifies `answers, `pc
      ensures Valid() && pc == Advance(cfg, s, t, reply, content).1
      ensures Smooth() ==> old(Smooth()) && reply == Ok
    {
      answers := answers + [(reply, content)];
      assert answers[..|answers| - 1] == old(answers);
      AllOkLast(old(answers), (reply, content));
      pc := Advance(cfg, s, t, reply, content).1;
    }

    /** A call to a provider or another service. */
    method Call() returns (reply: Reply)
      requires Valid() && !Writes(pc) && !pc.DeleteRemove?
      modifies this
      ensures Valid() && pc == React(cfg, old(pc), reply)
      ensures store == old(store) && origin == old(origin) && first == old(first)
      ensures written == old(written) && old(invalidated) <= invalidated
      ensures InvalidatesHistory(old(pc)) && reply == Ok ==> (old(pc).c.id, old(pc).c.version) in invalidated
      ensures Smooth() ==> old(Smooth()) && reply == Ok
    {
      reply := *;
      ghost var s, t := State(), pc;
      if InvalidatesHistory(t) && reply == Ok {
        invalidated := invalidated + {(t.c.id, t.c.version)};
      }
      Note(reply, 0, s, t);
    }

    /** `#saveLifecycleIfCurrent`: false stands for an exception. */
    method SaveIfCurrent(c: Credential, expected: nat, ghost content: int) returns (ok: bool)
      requires Valid() && Writes(pc) && c == Intended(cfg, pc, content) && expected == pc.c.version
      modifies this
      ensures Valid() && pc == Resume(cfg, old(pc), c, ok)
      ensures origin == old(origin) && first == old(first) && invalidated == old(invalidated)
      ensures ok ==> Stores(c) && c.id in old(store).live && old(store).live[c.id].version == expected
      ensures store == old(store) || store == old(store).(live := old(store).live[c.id := c])
      ensures written == old(written) || written == old(written)[(c.id, c.version) := c]
      ensures Smooth() ==> old(Smooth())
      ensures Smooth() && old(HoldsNow(pc.c)) && (Terminal(old(pc).c) ==> c.life == old(pc).c.life) ==> ok
    {
      var reply: Reply := *;
      ghost var s, t := State(), pc;
      var r := SaveConditional(store, c, expected, cfg.guard);
      if reply != Fail && r.Saved? {
        store := r.store;
        written := written[(c.id, c.version) := c];
        ok := reply != Lost;
      } else {
        ok := false;
      }
      Note(reply, content, s, t);
    }

    /** `#deleteConditional`, whose outcome the operation does not look at. */
    method Remove(id: Id, expected: nat)
      requires Valid() && pc.DeleteRemove? && id == pc.c.id && expected == pc.c.version
      modifies this
      ensures Valid() && pc == Done && origin == old(origin) && first == old(first)
      ensures written == old(written) && invalidated == old(invalidated)
      ensures store == old(store) || (id !in store.live && id in store.tombstones)
      ensures Smooth() ==> old(Smooth())
    {
      var reply: Reply := *;
      ghost var s, t := State(), pc;
      var r := DeleteConditional(store, id, expected);
      if reply != Fail && r.Saved? { store := r.store; }
      Note(reply, 0, s, t);
    }

    /** Success means that the activated record replaced the one that was validated; a failure
        value means that nothing was stored. */
    method Validate(c: Credential, content: int) returns (r: Result)
      modifies this
      ensures Valid() && pc == Done && origin == old(State()) && first == Start(cfg, OpValidate, c)
      ensures r.Success? ==> !Terminal(c) && r.credential == Next(c).(life := Active, content := content) && Stores(r.credential)
      ensures r.Failure? || Terminal(c) ==> r.Failure? && store == old(store)
      ensures Smooth() && !Terminal(c) && old(HoldsNow(c)) ==> r.Success?
    {
      Launch(Start(cfg, OpValidate, c));
      if Terminal(c) { return Failure; }
      var reply := Call();
      if reply != Ok { return Failure; }
      var validated := Next(c).(life := Active, content := content);
      var ok := SaveIfCurrent(validated, c.version, content);
      return if ok then Success(validated) else Result.Threw;
    }

    /** As for `validate`; the records kept beside the store may fail after the save. */
    method Refresh(c: Credential, content: int) returns (r: Result)
      modifies this
      ensures Valid() && pc == Done && origin == old(State()) && first == Start(cfg, OpRefresh, c)
      ensures r.Success? ==> !Terminal(c) && r.credential == Next(c).(life := Active, content := content) && Stores(r.credential)
      ensures r.Failure? || Terminal(c) ==> r.Failure? && store == old(store)
      ensures Smooth() && !Terminal(c) && old(HoldsNow(c)) ==> r.Threw? || r.Success?
      ensures Smooth() && !Terminal(c) && old(HoldsNow(c)) ==> Stores(Next(c).(life := Active, content := content))
    {
      Launch(Start(cfg, OpRefresh, c));
      if Terminal(c) { return Failure; }
      var reply := Call();
      if reply != Ok { return Failure; }
      var refreshed := Next(c).(life := Active, content := content);
      var ok := SaveIfCurrent(refreshed, c.version, content);
      var recorded: bool := *;
      return if ok && recorded then Success(refreshed) else Result.Threw;
    }

    method ImportExisting(c: Credential, content: int) returns (r: Result)
      modifies this
      ensures Valid() && pc == Done && origin == old(State()) && first == Start(cfg, OpImport, c)
      ensures r.Success? ==> !Terminal(c) && r.credential == Next(c).(life := Active, content := content) && Stores(r.credential)
      ensures Terminal(c) ==> r.Threw? && store == old(store)
      ensures Smooth() && !Terminal(c) && old(HoldsNow(c)) ==> r.Success?
    {
      Launch(Start(cfg, OpImport, c));
      if Terminal(c) { return Result.Threw; }
      var credential := Next(c).(life := Active, content := content);
      var ok := SaveIfCurrent(credential, c.version, content);
      return if ok then Success(credential) else Result.Threw;
    }

    /** A user update keeps the lifecycle state, also a terminal one. */
    method UserUpdate(c: Credential, content: int) returns (r: Result)
      modifies this
      ensures Valid() && pc == Done && origin == old(State()) && first == Start(cfg, OpUpdate, c)
      ensures r.Success? ==> r.credential == Next(c).(content := content) && Stores(r.credential)
      ensures !r.Failure?
      ensures Smooth() && old(HoldsNow(c)) ==> r.Success?
    {
      Launch(Start(cfg, OpUpdate, c));
      var next := Next(c).(content := content);
      var ok := SaveIfCurrent(next, c.version, content);
      return if ok then Success(next) else Result.Threw;
    }

    /** The part of `revoke` for a credential that is already revoked. */
    method RevokeRepeated(c: Credential, ghost after: After) returns (r: Result)
      requires Valid() && c.life == Revoked && pc == RevokeStart(cfg, c, after) && (c.decom.None? ==> after == Return)
      modifies this
      ensures Valid() && pc == (if r.Success? then Finish(r.credential, after) else Done)
      ensures origin == old(origin) && first == old(first)
      ensures r.Success? ==> Contains(c, r.credential)
      ensures old(StoredRevoked(c.id)) ==> StoredRevoked(c.id)
      ensures !r.Failure?
      ensures old(invalidated) <= invalidated
      ensures Smooth() ==> old(Smooth())
      ensures Smooth() && old(HoldsNow(c)) ==> r.Success? && HoldsNow(r.credential)
    {
      var retried := c;
      if c.decom.None? {
        retried := Decommission(cfg, c, RevokeIntent, Revoked);
        var ok := SaveIfCurrent(retried, c.version, 0);
        if !ok { return Result.Threw; }
      }
      r := RetryCleanup(retried, after);
    }

    /** An already revoked credential: the provider is asked again unless its cleanup is over. */
    method RetryCleanup(c: Credential, ghost after: After) returns (r: Result)
      requires Valid() && c.life == Revoked && c.decom.Some? && pc == RevokeRetry(cfg, c, after)
      modifies this
      ensures Valid() && pc == (if r.Success? then Finish(r.credential, after) else Done)
      ensures origin == old(origin) && first == old(first)
      ensures r.Success? ==> Contains(c, r.credential)
      ensures old(StoredRevoked(c.id)) ==> StoredRevoked(c.id)
      ensures !r.Failure?
      ensures old(invalidated) <= invalidated
      ensures Smooth() ==> old(Smooth())
      ensures Smooth() && old(HoldsNow(c)) ==> r.Success? && HoldsNow(r.credential)
    {
      var retried := c;
      if !Settled(c) && cfg.canRevoke {
        var reply := Call();
        retried := WithProvider(c, Outcome(reply));
        var ok := SaveIfCurrent(retried, c.version, 0);
        if !ok {
          if Outcome(reply) != FailedRetryable { return Result.Threw; }
          retried := c;
        }
      }
      r := RepeatInvalidation(retried, after);
    }

    method RepeatInvalidation(c: Credential, ghost after: After) returns (r: Result)
      requires Valid() && c.life == Revoked && c.decom.Some? && pc == RevokeHistory(c, true, after)
      modifies this
      ensures Valid() && pc == (if r.Success? then Finish(r.credential, after) else Done)
      ensures origin == old(origin) && first == old(first)
      ensures r.Success? ==> Contains(c, r.credential)
      ensures old(StoredRevoked(c.id)) ==> StoredRevoked(c.id)
      ensures !r.Failure?
      ensures old(invalidated) <= invalidated
      ensures Smooth() ==> old(Smooth())
      ensures Smooth() && old(HoldsNow(c)) ==> r.Success? && HoldsNow(r.credential)
    {
      var invalidation := Call();
      if invalidation != Ok {
        var failed := WithHistory(c, FailedRetryable);
        var ok := SaveIfCurrent(failed, c.version, 0);
        return Success(if ok then failed else c);
      }
      var audit := Call();
      return if audit == Ok then Success(c) else Result.Threw;
    }

    /** `revoke`, by the state of the credential. */
    method RevokeThen(c: Credential, ghost after: After) returns (r: Result)
      requires Valid() && pc == RevokeStart(cfg, c, after) && (c.life == Revoked && c.decom.None? ==> after == Return)
      modifies this
      ensures Valid() && pc == (if r.Success? then Finish(r.credential, after) else Done)
      ensures origin == old(origin) && first == old(first)
      ensures r.Success? ==> Contains(c, r.credential)
      ensures r.Success? && c.life != Revoked ==> StoredRevoked(c.id) && Invalidated(c, r.credential)
      ensures r.Failure? <==> c.life == Deleted
      ensures c.life == Deleted ==> store == old(store)
      ensures Smooth() ==> old(Smooth())
      ensures Smooth() && old(HoldsNow(c)) && c.life != Deleted ==> r.Success? && HoldsNow(r.credential)
    {
      if c.life == Revoked {
        r := RevokeRepeated(c, after);
      } else if c.life == Deleted {
        r := Failure;
      } else {
        r := RevokeFresh(c, after);
      }
    }

    /** The revoked state is stored before anything else is tried. */
    method RevokeFresh(c: Credential, ghost after: After) returns (r: Result)
      requires Valid() && !Terminal(c) && pc == RevokeContain(c, after)
      modifies this
      ensures Valid() && pc == (if r.Success? then Finish(r.credential, after) else Done)
      ensures origin == old(origin) && first == old(first)
      ensures !r.Failure?
      ensures r.Success? ==> Contains(c, r.credential) && StoredRevoked(c.id) && Invalidated(c, r.credential)
      ensures Smooth() ==> old(Smooth())
      ensures Smooth() && old(HoldsNow(c)) ==> r.Success? && HoldsNow(r.credential)
    {
      var contained := Decommission(cfg, c, RevokeIntent, Revoked);
      var ok := SaveIfCurrent(contained, c.version, 0);
      if !ok { return Result.Threw; }
      r := RecordProvider(contained, after);
      if r.Success? { r := RecordHistory(r.credential, after); }
    }

    /** A provider that fails does not undo the containment; neither does failing to record that. */
    method RecordProvider(c: Credential, ghost after: After) returns (r: Result)
      requires Valid() && c.life == Revoked && c.decom.Some?
      requires pc == if cfg.canRevoke then RevokeCall(c, false, after) else RevokeRecord(c, Complete, false, after)
      modifies this
      ensures Valid() && pc == (if r.Success? then RevokeHistory(r.credential, false, after) else Done)
      ensures origin == old(origin) && first == old(first)
      ensures !r.Failure?
      ensures r.Success? ==> Contains(c, r.credential) && r.credential.decom.value.history == c.decom.value.history
      ensures old(StoredRevoked(c.id)) ==> StoredRevoked(c.id)
      ensures old(invalidated) <= invalidated
      ensures Smooth() ==> old(Smooth())
      ensures Smooth() && old(HoldsNow(c)) ==> r.Success? && HoldsNow(r.credential)
    {
      var status := Complete;
      if cfg.canRevoke {
        var reply := Call();
        status := Outcome(reply);
      }
      var recorded := WithProvider(c, status);
      var ok := SaveIfCurrent(recorded, c.version, 0);
      if ok { return Success(recorded); }
      return if status == FailedRetryable then Success(c) else Result.Threw;
    }

    /** The last third of `revoke`. */
    method RecordHistory(c: Credential, ghost after: After) returns (r: Result)
      requires Valid() && c.life == Revoked && c.decom.Some? && pc == RevokeHistory(c, false, after)
      modifies this
      ensures Valid() && pc == (if r.Success? then Finish(r.credential, after) else Done)
      ensures origin == old(origin) && first == old(first)
      ensures !r.Failure?
      ensures r.Success? ==> Contains(c, r.credential) && Invalidated(c, r.credential)
      ensures old(StoredRevoked(c.id)) ==> StoredRevoked(c.id)
      ensures old(invalidated) <= invalidated
      ensures Smooth() ==> old(Smooth())
      ensures Smooth() && old(HoldsNow(c)) ==> r.Success? && HoldsNow(r.credential)
    {
      var persisted := InvalidateHistory(c, after);
      var audit := Call();
      return if audit == Ok then Success(persisted) else Result.Threw;
    }

    /** A failing invalidation, and one that cannot be recorded, are recorded as failures. */
    method InvalidateHistory(c: Credential, ghost after: After) returns (r: Credential)
      requires Valid() && c.life == Revoked && c.decom.Some? && pc == RevokeHistory(c, false, after)
      modifies this
      ensures Valid() && pc == RevokeAudit(r, after) && origin == old(origin) && first == old(first)
      ensures Contains(c, r) && Invalidated(c, r)
      ensures old(StoredRevoked(c.id)) ==> StoredRevoked(c.id)
      ensures old(invalidated) <= invalidated
      ensures Smooth() ==> old(Smooth())
      ensures Smooth() && old(HoldsNow(c)) ==> HoldsNow(r)
    {
      var invalidation := Call();
      if invalidation == Ok {
        r := WithHistory(c, Complete);
        var recorded := SaveIfCurrent(r, c.version, 0);
        if recorded { return; }
      }
      r := RecordHistoryFailure(c, after);
    }

    /** `#recordDecommissioningFailure` keeps the value it was given when it cannot be stored. */
    method RecordHistoryFailure(c: Credential, ghost after: After) returns (r: Credential)
      requires Valid() && c.life == Revoked && c.decom.Some? && pc == RevokeHistoryRecord(c, FailedRetryable, false, after)
      modifies this
      ensures Valid() && pc == RevokeAudit(r, after) && origin == old(origin) && first == old(first)
      ensures Contains(c, r) && r.decom.value.history in {c.decom.value.history, FailedRetryable}
      ensures old(StoredRevoked(c.id)) ==> StoredRevoked(c.id)
      ensures invalidated == old(invalidated)
      ensures Smooth() ==> old(Smooth())
      ensures Smooth() && old(HoldsNow(c)) ==> HoldsNow(r)
    {
      var failed := WithHistory(c, FailedRetryable);
      var ok := SaveIfCurrent(failed, c.version, 0);
      return if ok then failed else c;
    }

    /** Success means that the credential is contained: the record answered with is revoked, and
        after a fresh revocation the stored one is, whatever the provider said. A cleaned history
        is reported only when it was invalidated. */
    method Revoke(c: Credential) returns (r: Result)
      modifies this
      ensures Valid() && pc == Done && origin == old(State()) && first == Start(cfg, OpRevoke, c)
      ensures r.Success? ==> Contains(c, r.credential)
      ensures r.Success? && c.life != Revoked ==> StoredRevoked(c.id) && Invalidated(c, r.credential)
      ensures r.Failure? <==> c.life == Deleted
      ensures c.life == Deleted ==> store == old(store)
      ensures Smooth() && old(HoldsNow(c)) && c.life != Deleted ==> r.Success? && HoldsNow(r.credential)
    {
      Launch(Start(cfg, OpRevoke, c));
      r := RevokeThen(c, Return);
    }

    /** `delete`: revoke first, then every cleanup step, then the record. A removal is reported
        only when all cleanup is settled and the history invalidated under the removed version. */
    method Delete(c: Credential) returns (r: DeleteResult)
      modifies this
      ensures Valid() && pc == Done && origin == old(State()) && first == Start(cfg, OpDelete, c)
      ensures r.Removed? ==> CleanedUp(r.credential) && r.credential.id == c.id
      ensures r.Kept? ==> r.credential.id == c.id && (c.life != Deleted ==> r.credential.life != Deleted)
      ensures Smooth() && old(HoldsNow(c)) && c.life != Deleted ==>
        && !r.Kept? && c.id !in store.live && c.id in store.tombstones
        && exists version :: (c.id, version) in invalidated
    {
      Launch(Start(cfg, OpDelete, c));
      var credential := c;
      if cfg.canRevoke && c.life != Revoked {
        var revoked := RevokeThen(c, ThenDelete);
        if !revoked.Success? { return DeleteResult.Threw; }
        credential := revoked.credential;
      }
      r := DeleteContained(credential);
      if Smooth() && old(HoldsNow(c)) && c.life != Deleted {
        SmoothDelete(cfg, origin, c, answers, State());
      }
    }

    method DeleteContained(c: Credential) returns (r: DeleteResult)
      requires Valid() && pc == DeleteBegin(c)
      modifies this
      ensures Valid() && pc == Done && origin == old(origin) && first == old(first)
      ensures r.Removed? ==> CleanedUp(r.credential) && r.credential.id == c.id
      ensures r.Kept? ==> r.credential.id == c.id && r.credential.life == c.life
      ensures Smooth() ==> old(Smooth())
      ensures Smooth() && old(HoldsNow(c)) ==> !r.Kept?
    {
      var credential := Decommission(cfg, c, DeleteIntent, c.life);
      var ok := SaveIfCurrent(credential, c.version, 0);
      if !ok { return DeleteResult.Threw; }
      if !Settled(credential) && cfg.canRevoke {
        var reply := Call();
        var next := WithProvider(credential, Outcome(reply));
        ok := SaveIfCurrent(next, credential.version, 0);
        if !ok { return if Outcome(reply) == FailedRetryable then Kept(credential) else DeleteResult.Threw; }
        if Outcome(reply) != Complete { return Kept(next); }
        credential := next;
      }
      r := CleanGrantsAndRemove(credential);
    }

    method CleanGrantsAndRemove(c: Credential) returns (r: DeleteResult)
      requires Valid() && pc == DeleteGrants(c) && c.decom.Some? && (cfg.canRevoke ==> Settled(c))
      modifies this
      ensures Valid() && pc == Done && origin == old(origin) && first == old(first)
      ensures r.Removed? ==> CleanedUp(r.credential) && r.credential.id == c.id
      ensures r.Kept? ==> r.credential.id == c.id && r.credential.life == c.life
      ensures Smooth() ==> old(Smooth())
      ensures Smooth() && old(HoldsNow(c)) ==> !r.Kept?
    {
      var grants := Call();
      if grants == Ok {
        var cleaned := WithGrant(c, Complete);
        var recorded := SaveIfCurrent(cleaned, c.version, 0);
        if recorded {
          r := InvalidateAndRemove(cleaned);
          return;
        }
      }
      var failed := WithGrant(c, FailedRetryable);
      var ok := SaveIfCurrent(failed, c.version, 0);
      return Kept(if ok then failed else c);
    }

    /** The last steps of `delete`: a failing invalidation is the only thing that stops them. */
    method InvalidateAndRemove(c: Credential) returns (r: DeleteResult)
      requires Valid() && pc == DeleteHistory(c) && Stores(c)
      requires c.decom.Some? && c.decom.value.grant == Complete && (cfg.canRevoke ==> Settled(c))
      modifies this
      ensures Valid() && pc == Done && origin == old(origin) && first == old(first)
      ensures r.Removed? ==> CleanedUp(r.credential) && r.credential.id == c.id
      ensures !r.Kept?
      ensures Smooth() ==> old(Smooth())
    {
      var invalidation := Call();
      if invalidation != Ok { return DeleteResult.Threw; }
      Remove(c.id, c.version);
      var audited: bool := *;
      return if audited then Removed(Next(c).(life := Deleted)) else DeleteResult.Threw;
    }

    /** What a successful `revoke` of c answers with. */
    ghost predicate Contains(c: Credential, r: Credential) {
      r.id == c.id && r.life == Revoked && r.decom.Some? && c.version <= r.version
    }

    /** History cleanup is reported as complete only when it was before, or an invalidation succeeded. */
    ghost predicate Invalidated(c: Credential, r: Credential)
      reads this
    {
      r.decom.Some? && r.decom.value.history == Complete ==>
        (c.decom.Some? && c.decom.value.history == Complete) || exists v :: (c.id, v) in invalidated
    }
  }
}
