/** What every interleaving and every failure keeps. */
module LifecycleTheorems {
  import opened Prelude
  import opened LifecycleModel

  // ---------------------------------------------------------------- invariants

  /** The store and its record of everything written. Per id, once a record is revoked every
      later version is revoked. The strict form also keeps settled provider cleanup settled; it
      needs a provider manager and a store that starts without usable settled records. */
  ghost predicate StoreInv(cfg: Config, strict: bool, s: System) {
    && (strict ==> cfg.canRevoke)
    && s.store.live.Keys !! s.store.tombstones
    && (forall id :: id in s.store.live ==>
          && s.store.live[id].id == id
          && (id, s.store.live[id].version) in s.written
          && s.written[(id, s.store.live[id].version)] == s.store.live[id])
    && (forall k :: k in s.written ==>
          && s.written[k].id == k.0 && s.written[k].version == k.1
          && (k.0 in s.store.live || k.0 in s.store.tombstones)
          && (k.0 in s.store.live ==> k.1 <= s.store.live[k.0].version))
    && (forall id, v, w :: (id, v) in s.written && (id, w) in s.written && v <= w ==>
          Follows(strict, s.written[(id, v)], s.written[(id, w)]))
    && (strict ==> forall k :: k in s.written && !Terminal(s.written[k]) ==> !Settled(s.written[k]))
  }

  /** How a later version of a record relates to an earlier one. */
  predicate Follows(strict: bool, c: Credential, d: Credential) {
    && (c.life == Revoked ==> d.life == Revoked)
    && (c.life == Deleted ==> d.life == Deleted)
    && (strict && c.life == Revoked && Settled(c) ==> Settled(d))
  }

  predicate Grants(c: Credential) { c.decom.Some? && c.decom.value.grant == Complete }

  predicate Deleting(c: Credential) { c.decom.Some? && c.decom.value.intent == DeleteIntent }

  /** What a program counter says about the value its task holds. */
  ghost predicate TaskShape(cfg: Config, strict: bool, s: System, t: Task) {
    match t
    case Done => true
    case ValidateCall(c) => !Terminal(c)
    case ValidateSave(c) => !Terminal(c)
    case RefreshCall(c) => !Terminal(c)
    case RefreshSave(c) => !Terminal(c)
    case ImportSave(c) => !Terminal(c)
    case UpdateSave(c) => true
    case RevokeContain(c, _) => !Terminal(c)
    case RevokeAgain(c) => c.life == Revoked && c.decom.None?
    case RevokeCall(c, _, _) => c.life == Revoked && c.decom.Some? && (strict ==> !Settled(c))
    case RevokeRecord(c, _, _, _) => c.life == Revoked && c.decom.Some? && (strict ==> !Settled(c))
    case RevokeHistory(c, _, _) => c.life == Revoked && c.decom.Some?
    case RevokeHistoryRecord(c, _, _, _) => c.life == Revoked && c.decom.Some?
    case RevokeAudit(c, _) => c.life == Revoked && c.decom.Some?
    case DeleteBegin(c) => cfg.canRevoke ==> c.life == Revoked
    case DeleteCall(c) => Deleting(c) && cfg.canRevoke && c.life == Revoked && !Settled(c)
    case DeleteRecord(c, _) => Deleting(c) && cfg.canRevoke && c.life == Revoked && !Settled(c)
    case DeleteGrants(c) => Deleting(c) && (cfg.canRevoke ==> c.life == Revoked && Settled(c))
    case DeleteGrantsRecord(c, status) =>
      && Deleting(c) && (status == Complete || status == FailedRetryable)
      && (cfg.canRevoke ==> c.life == Revoked && Settled(c))
    case DeleteHistory(c) => Deleting(c) && Grants(c) && (cfg.canRevoke ==> c.life == Revoked && Settled(c))
    case DeleteRemove(c) =>
      && Deleting(c) && Grants(c) && (cfg.canRevoke ==> c.life == Revoked && Settled(c))
      && (c.id, c.version) in s.invalidated
  }

  /** The value a task holds was stored at some time. */
  ghost predicate Known(s: System, c: Credential) {
    (c.id, c.version) in s.written && s.written[(c.id, c.version)] == c
  }

  ghost predicate TaskInv(cfg: Config, strict: bool, s: System, t: Task) {
    t.Done? || (Known(s, t.c) && TaskShape(cfg, strict, s, t))
  }

  ghost predicate Inv(cfg: Config, strict: bool, s: System) {
    && StoreInv(cfg, strict, s)
    && forall tid :: tid in s.tasks ==> TaskInv(cfg, strict, s, s.tasks[tid])
  }

  /** The condition under which provider cleanup cannot regress: no usable record already
      claims that its provider cleanup is over. */
  ghost predicate Unsettled(s: System) {
    forall id :: id in s.store.live && !Terminal(s.store.live[id]) ==> !Settled(s.store.live[id])
  }

  lemma AtRestInv(cfg: Config, strict: bool, s: System)
    requires AtRest(s) && (strict ==> cfg.canRevoke && Unsettled(s))
    ensures Inv(cfg, strict, s)
  {}

  /** What a step may do to the bookkeeping: records are only added. */
  ghost predicate Extends(s: System, s': System) {
    && (forall k :: k in s.written ==> k in s'.written && s'.written[k] == s.written[k])
    && s.invalidated <= s'.invalidated
  }

  lemma TaskStable(cfg: Config, strict: bool, s: System, s': System, t: Task)
    requires TaskInv(cfg, strict, s, t) && Extends(s, s')
    ensures TaskInv(cfg, strict, s', t)
  {}

  // ---------------------------------------------------------------- writes

  /** A conditional write by a task that holds a known value replaces exactly that value. */
  lemma WriteKeeps(cfg: Config, strict: bool, s: System, held: Credential, c: Credential, reply: Reply)
    requires StoreInv(cfg, strict, s) && Known(s, held)
    requires c.id == held.id && c.version == held.version + 1 && Follows(strict, held, c)
    requires strict && !Terminal(c) ==> !Settled(c)
    ensures var (s', ok) := Write(cfg, s, held, c, reply);
            && StoreInv(cfg, strict, s') && Extends(s, s') && s'.tasks == s.tasks && s'.invalidated == s.invalidated
            && (ok ==> Known(s', c))
            && s'.store.tombstones == s.store.tombstones
            && (s' != s ==> held.id in s.store.live && s.store.live[held.id] == held
                            && s'.store.live == s.store.live[held.id := c])
  {
    var (s', ok) := Write(cfg, s, held, c, reply);
    if s' != s {
      assert s.store.live[held.id] == held;
      assert (c.id, c.version) !in s.written;
      forall id, v, w | (id, v) in s'.written && (id, w) in s'.written && v <= w
        ensures Follows(strict, s'.written[(id, v)], s'.written[(id, w)])
      {
        if id == c.id && w == c.version && v < w {
          assert Follows(strict, s.written[(id, v)], held);
        }
      }
    }
  }

  /** The store's own guard for terminal states is redundant: a task whose version matches holds
      the stored value, so its write never leaves a terminal state. */
  lemma WriteIgnoresGuard(cfg: Config, strict: bool, s: System, held: Credential, c: Credential, reply: Reply, guard: bool)
    requires StoreInv(cfg, strict, s) && Known(s, held)
    requires c.id == held.id && Follows(strict, held, c)
    ensures Write(cfg.(guard := guard), s, held, c, reply) == Write(cfg, s, held, c, reply)
  {}

  /** A record may be removed only as the last act of a completed `delete`: every cleanup step is
      settled in the stored version, and the secret history was invalidated under it. */
  ghost predicate RemovalReady(cfg: Config, s: System, id: Id) {
    id in s.store.live &&
    var c := s.store.live[id];
    && Deleting(c) && Grants(c)
    && (cfg.canRevoke ==> c.life == Revoked && Settled(c))
    && (id, c.version) in s.invalidated
  }

  /** What one step does to the stored records: each stays, unchanged or replaced by a later
      version that follows it, or is removed behind a tombstone when it was ready for it. */
  ghost predicate StoreStep(cfg: Config, strict: bool, s: System, s': System) {
    && s.store.tombstones <= s'.store.tombstones
    && forall id :: id in s.store.live ==>
         if id in s'.store.live then
           s'.store.live[id] == s.store.live[id]
           || (s'.store.live[id].version == s.store.live[id].version + 1 && Follows(strict, s.store.live[id], s'.store.live[id]))
         else id in s'.store.tombstones && RemovalReady(cfg, s, id)
  }

  ghost predicate Moved(cfg: Config, strict: bool, s: System, s': System) {
    StoreInv(cfg, strict, s') && Extends(s, s') && s'.tasks == s.tasks && StoreStep(cfg, strict, s, s')
  }

  ghost predicate Kept(cfg: Config, strict: bool, s: System, next: (System, Task)) {
    Moved(cfg, strict, s, next.0) && TaskInv(cfg, strict, next.0, next.1)
  }

  /** A task's conditional write, whatever its outcome. */
  lemma WriteStep(cfg: Config, strict: bool, s: System, held: Credential, c: Credential, reply: Reply)
    requires StoreInv(cfg, strict, s) && Known(s, held)
    requires c.id == held.id && c.version == held.version + 1 && Follows(strict, held, c)
    requires strict && !Terminal(c) ==> !Settled(c)
    ensures var (s', ok) := Write(cfg, s, held, c, reply);
            Moved(cfg, strict, s, s') && Known(s', held) && (ok ==> Known(s', c))
  {
    WriteKeeps(cfg, strict, s, held, c, reply);
  }

  lemma NothingMoved(cfg: Config, strict: bool, s: System)
    requires StoreInv(cfg, strict, s)
    ensures Moved(cfg, strict, s, s)
  {}

  lemma Invalidated(cfg: Config, strict: bool, s: System, k: (Id, nat))
    requires StoreInv(cfg, strict, s)
    ensures Moved(cfg, strict, s, s.(invalidated := s.invalidated + {k}))
  {}

  /** What a task wants to store follows what it holds. */
  lemma IntendedFollows(cfg: Config, strict: bool, s: System, t: Task, content: int)
    requires (strict ==> cfg.canRevoke) && TaskShape(cfg, strict, s, t) && Writes(t)
    ensures var c' := Intended(cfg, t, content);
            && c'.id == t.c.id && c'.version == t.c.version + 1 && Follows(strict, t.c, c')
            && ((strict && !Terminal(t.c) ==> !Settled(t.c)) ==> (strict && !Terminal(c') ==> !Settled(c')))
  {}

  /** The shape of the next program counter after a write. */
  lemma ResumeShape(cfg: Config, strict: bool, s: System, t: Task, content: int, ok: bool)
    requires (strict ==> cfg.canRevoke) && TaskShape(cfg, strict, s, t) && Writes(t)
    requires strict && !Terminal(t.c) ==> !Settled(t.c)
    ensures var c' := Intended(cfg, t, content);
            var t' := Resume(cfg, t, c', ok);
            TaskShape(cfg, strict, s, t') && (t'.Done? || t'.c == t.c || (ok && t'.c == c'))
  {}

  lemma ReactShape(cfg: Config, strict: bool, s: System, t: Task, reply: Reply)
    requires TaskShape(cfg, strict, s, t) && !Writes(t) && !t.DeleteRemove?
    ensures var t' := React(cfg, t, reply);
            && (t'.Done? || (!t.Done? && t'.c == t.c))
            && (!t'.DeleteRemove? ==> TaskShape(cfg, strict, s, t'))
            && (t'.DeleteRemove? ==> t.DeleteHistory? && reply == Ok)
  {}

  lemma WriteAdvance(cfg: Config, strict: bool, s: System, t: Task, reply: Reply, content: int)
    requires StoreInv(cfg, strict, s) && TaskInv(cfg, strict, s, t) && Writes(t)
    ensures Kept(cfg, strict, s, Advance(cfg, s, t, reply, content))
  {
    var c' := Intended(cfg, t, content);
    var (s', ok) := Write(cfg, s, t.c, c', reply);
    IntendedFollows(cfg, strict, s, t, content);
    WriteStep(cfg, strict, s, t.c, c', reply);
    ResumeShape(cfg, strict, s, t, content, ok);
    ShapeStable(cfg, strict, s, s', Resume(cfg, t, c', ok));
  }

  lemma ShapeStable(cfg: Config, strict: bool, s: System, s': System, t: Task)
    requires TaskShape(cfg, strict, s, t) && s.invalidated <= s'.invalidated
    ensures TaskShape(cfg, strict, s', t)
  {}

  lemma ReactAdvance(cfg: Config, strict: bool, s: System, t: Task, reply: Reply, content: int)
    requires StoreInv(cfg, strict, s) && TaskInv(cfg, strict, s, t) && !Writes(t) && !t.DeleteRemove?
    ensures Kept(cfg, strict, s, Advance(cfg, s, t, reply, content))
  {
    NothingMoved(cfg, strict, s);
    var t' := React(cfg, t, reply);
    ReactShape(cfg, strict, s, t, reply);
    if InvalidatesHistory(t) && reply == Ok {
      Invalidated(cfg, strict, s, (t.c.id, t.c.version));
    }
  }

  lemma RemoveAdvance(cfg: Config, strict: bool, s: System, c: Credential, reply: Reply, content: int)
    requires StoreInv(cfg, strict, s) && TaskInv(cfg, strict, s, DeleteRemove(c))
    ensures Kept(cfg, strict, s, Advance(cfg, s, DeleteRemove(c), reply, content))
  {
    NothingMoved(cfg, strict, s);
    if c.id in s.store.live && s.store.live[c.id].version == c.version {
      assert s.store.live[c.id] == c;
      assert RemovalReady(cfg, s, c.id);
    }
  }

  lemma AdvanceKeeps(cfg: Config, strict: bool, s: System, t: Task, reply: Reply, content: int)
    requires StoreInv(cfg, strict, s) && TaskInv(cfg, strict, s, t)
    ensures Kept(cfg, strict, s, Advance(cfg, s, t, reply, content))
  {
    if Writes(t) { WriteAdvance(cfg, strict, s, t, reply, content); }
    else if t.DeleteRemove? { RemoveAdvance(cfg, strict, s, t.c, reply, content); }
    else { ReactAdvance(cfg, strict, s, t, reply, content); }
  }

  lemma StartShape(cfg: Config, strict: bool, s: System, op: Op, c: Credential)
    requires StoreInv(cfg, strict, s) && Known(s, c)
    ensures TaskInv(cfg, strict, s, Start(cfg, op, c))
  {}

  lemma TasksStable(cfg: Config, strict: bool, s: System, s': System)
    requires Inv(cfg, strict, s) && Extends(s, s')
    ensures forall tid :: tid in s.tasks ==> TaskInv(cfg, strict, s', s.tasks[tid])
  {
    forall tid | tid in s.tasks ensures TaskInv(cfg, strict, s', s.tasks[tid]) { TaskStable(cfg, strict, s, s', s.tasks[tid]); }
  }

  lemma ImportMoves(cfg: Config, strict: bool, s: System, id: Id, content: int)
    requires StoreInv(cfg, strict, s) && id !in s.store.live && id !in s.store.tombstones
    ensures var c := Credential(id, 1, Active, None, content);
            Moved(cfg, strict, s, s.(store := s.store.(live := s.store.live[id := c]), written := s.written[(id, 1) := c]))
  {
    assert forall v :: (id, v) !in s.written;
  }

  /** One step of any task, or a new task or record, keeps the invariant. */
  lemma StepKeeps(cfg: Config, strict: bool, s: System, a: Action)
    requires Inv(cfg, strict, s)
    ensures Inv(cfg, strict, Do(cfg, s, a)) && StoreStep(cfg, strict, s, Do(cfg, s, a))
  {
    NothingMoved(cfg, strict, s);
    match a
    case Begin(tid, op, id, version) =>
      if (id, version) in s.written { StartShape(cfg, strict, s, op, s.written[(id, version)]); }
    case ImportNew(id, content, reply) =>
      if id !in s.store.live && id !in s.store.tombstones {
        ImportMoves(cfg, strict, s, id, content);
        TasksStable(cfg, strict, s, Do(cfg, s, a));
      }
    case Continue(tid, reply, content) =>
      if tid in s.tasks {
        AdvanceKeeps(cfg, strict, s, s.tasks[tid], reply, content);
        TasksStable(cfg, strict, s, Advance(cfg, s, s.tasks[tid], reply, content).0);
        ContinueKeeps(cfg, strict, s, tid, Advance(cfg, s, s.tasks[tid], reply, content).0, Advance(cfg, s, s.tasks[tid], reply, content).1);
      }
  }

  lemma ContinueKeeps(cfg: Config, strict: bool, s: System, tid: nat, s1: System, t': Task)
    requires Inv(cfg, strict, s) && tid in s.tasks && Moved(cfg, strict, s, s1) && TaskInv(cfg, strict, s1, t')
    requires forall u :: u in s.tasks ==> TaskInv(cfg, strict, s1, s.tasks[u])
    ensures Inv(cfg, strict, s1.(tasks := s.tasks[tid := t'])) && StoreStep(cfg, strict, s, s1.(tasks := s.tasks[tid := t']))
  {
    var s' := s1.(tasks := s.tasks[tid := t']);
    assert Extends(s1, s');
    forall u | u in s'.tasks ensures TaskInv(cfg, strict, s', s'.tasks[u]) { TaskStable(cfg, strict, s1, s', s'.tasks[u]); }
  }

  lemma {:induction false} RunKeeps(cfg: Config, strict: bool, s: System, acts: seq<Action>)
    requires Inv(cfg, strict, s)
    ensures Inv(cfg, strict, Run(cfg, s, acts))
    decreases |acts|
  {
    if acts != [] {
      StepKeeps(cfg, strict, s, acts[0]);
      RunKeeps(cfg, strict, Do(cfg, s, acts[0]), acts[1..]);
    }
  }

  // ---------------------------------------------------------------- theorems

  /** Nothing usable is stored under the id: it is revoked, or gone for good. */
  ghost predicate Contained(s: System, id: Id) {
    if id in s.store.live then s.store.live[id].life == Revoked else id in s.store.tombstones
  }

  lemma {:induction false} ContainedForever(cfg: Config, strict: bool, s: System, acts: seq<Action>, id: Id)
    requires Inv(cfg, strict, s) && Contained(s, id)
    ensures Contained(Run(cfg, s, acts), id)
    decreases |acts|
  {
    if acts != [] {
      StepKeeps(cfg, strict, s, acts[0]);
      ContainedForever(cfg, strict, Do(cfg, s, acts[0]), acts[1..], id);
    }
  }

  /** No resurrection: in every run from a store at rest, under every interleaving and failure,
      a record once stored as revoked is never again stored in another state; and a removed id
      never comes back. This holds with or without the store's own terminal-state guard. */
  lemma NoResurrection(cfg: Config, s0: System, before: seq<Action>, after: seq<Action>, id: Id)
    requires AtRest(s0)
    requires Contained(Run(cfg, s0, before), id)
    ensures Contained(Run(cfg, Run(cfg, s0, before), after), id)
  {
    AtRestInv(cfg, false, s0);
    RunKeeps(cfg, false, s0, before);
    ContainedForever(cfg, false, Run(cfg, s0, before), after, id);
  }

  lemma AdvanceIgnoresGuard(cfg: Config, strict: bool, s: System, t: Task, reply: Reply, content: int, guard: bool)
    requires StoreInv(cfg, strict, s) && TaskInv(cfg, strict, s, t)
    ensures Advance(cfg.(guard := guard), s, t, reply, content) == Advance(cfg, s, t, reply, content)
  {
    if Writes(t) {
      var c' := Intended(cfg, t, content);
      assert Intended(cfg.(guard := guard), t, content) == c';
      IntendedFollows(cfg, strict, s, t, content);
      WriteIgnoresGuard(cfg, strict, s, t.c, c', reply, guard);
      forall ok ensures Resume(cfg.(guard := guard), t, c', ok) == Resume(cfg, t, c', ok) {}
    }
  }

  lemma {:induction false} RunIgnoresGuard(cfg: Config, s: System, acts: seq<Action>, guard: bool)
    requires Inv(cfg, false, s)
    ensures Run(cfg.(guard := guard), s, acts) == Run(cfg, s, acts)
    decreases |acts|
  {
    if acts != [] {
      var a := acts[0];
      if a.Continue? && a.tid in s.tasks {
        AdvanceIgnoresGuard(cfg, false, s, s.tasks[a.tid], a.reply, a.content, guard);
      }
      assert Do(cfg.(guard := guard), s, a) == Do(cfg, s, a);
      StepKeeps(cfg, false, s, a);
      RunIgnoresGuard(cfg, Do(cfg, s, a), acts[1..], guard);
    }
  }

  /** Version comparison alone carries the lifecycle: with the store's guard for terminal states
      switched on or off, every run reaches exactly the same state. */
  lemma GuardIsRedundant(cfg: Config, s0: System, acts: seq<Action>, guard: bool)
    requires AtRest(s0)
    ensures Run(cfg.(guard := guard), s0, acts) == Run(cfg, s0, acts)
  {
    AtRestInv(cfg, false, s0);
    RunIgnoresGuard(cfg, s0, acts, guard);
  }

  /** Removal comes last: when a step of any run removes a record, the stored version was revoked
      with delete intent, its provider and grant cleanup were over, and its secret history had
      been invalidated under exactly that version. */
  lemma RemovalComesLast(cfg: Config, s0: System, acts: seq<Action>, a: Action, id: Id)
    requires AtRest(s0) && cfg.canRevoke
    requires var s := Run(cfg, s0, acts); id in s.store.live && id !in Do(cfg, s, a).store.live
    ensures var s := Run(cfg, s0, acts);
            var c := s.store.live[id];
            && c.life == Revoked && Settled(c) && Grants(c) && Deleting(c)
            && (id, c.version) in s.invalidated
            && id in Do(cfg, s, a).store.tombstones
  {
    AtRestInv(cfg, false, s0);
    RunKeeps(cfg, false, s0, acts);
    StepKeeps(cfg, false, Run(cfg, s0, acts), a);
  }

  /** Every provider revoke call of `revoke` or `delete` is made for a record whose stored state
      is revoked, or that is already gone. */
  lemma ProviderCallFollowsContainment(cfg: Config, s0: System, acts: seq<Action>, tid: nat)
    requires AtRest(s0) && cfg.canRevoke
    requires var s := Run(cfg, s0, acts); tid in s.tasks && (s.tasks[tid].RevokeCall? || s.tasks[tid].DeleteCall?)
    ensures var s := Run(cfg, s0, acts); Contained(s, s.tasks[tid].c.id)
  {
    AtRestInv(cfg, false, s0);
    RunKeeps(cfg, false, s0, acts);
    var s := Run(cfg, s0, acts);
    var c := s.tasks[tid].c;
    assert TaskInv(cfg, false, s, s.tasks[tid]);
    if c.id in s.store.live {
      assert Follows(false, s.written[(c.id, c.version)], s.written[(c.id, s.store.live[c.id].version)]);
    }
  }

  /** Each step leaves a stored version unchanged or raises it by one. */
  lemma VersionsOnlyGrow(cfg: Config, s0: System, acts: seq<Action>, a: Action, id: Id)
    requires AtRest(s0)
    requires var s := Run(cfg, s0, acts); id in s.store.live && id in Do(cfg, s, a).store.live
    ensures var c, d := Run(cfg, s0, acts).store.live[id], Do(cfg, Run(cfg, s0, acts), a).store.live[id];
            d == c || d.version == c.version + 1
  {
    AtRestInv(cfg, false, s0);
    RunKeeps(cfg, false, s0, acts);
    StepKeeps(cfg, false, Run(cfg, s0, acts), a);
  }

  // ------------------------------------------------ settled cleanup stays settled

  /** Revoked with provider cleanup over, or gone. */
  ghost predicate CleanedUp(s: System, id: Id) {
    if id in s.store.live then s.store.live[id].life == Revoked && Settled(s.store.live[id]) else id in s.store.tombstones
  }

  lemma {:induction false} CleanedUpForever(cfg: Config, s: System, acts: seq<Action>, id: Id)
    requires Inv(cfg, true, s) && CleanedUp(s, id)
    ensures CleanedUp(Run(cfg, s, acts), id)
    decreases |acts|
  {
    if acts != [] {
      StepKeeps(cfg, true, s, acts[0]);
      CleanedUpForever(cfg, Do(cfg, s, acts[0]), acts[1..], id);
    }
  }

  /** Provider cleanup that is over stays over, in every run from s0. */
  ghost predicate NeverRegresses(cfg: Config, s0: System) {
    forall before, after, id :: CleanedUp(Run(cfg, s0, before), id) ==> CleanedUp(Run(cfg, Run(cfg, s0, before), after), id)
  }

  /** Two steps of a fresh revocation: the record is stored as revoked, its claim kept. */
  lemma RevokeStored(cfg: Config, s0: System, c: Credential) returns (s: System)
    requires AtRest(s0) && cfg.canRevoke
    requires c.id in s0.store.live && s0.store.live[c.id] == c && !Terminal(c) && Settled(c)
    ensures s == Run(cfg, s0, [Begin(0, OpRevoke, c.id, c.version), Continue(0, Ok, 0)])
    ensures var c' := Decommission(cfg, c, RevokeIntent, Revoked);
            && c.id in s.store.live && s.store.live[c.id] == c'
            && 0 in s.tasks && s.tasks[0] == RevokeCall(c', false, Return)
  {
    var s1 := Do(cfg, s0, Begin(0, OpRevoke, c.id, c.version));
    assert (c.id, c.version) in s0.written;
    assert s1.store == s0.store && s1.tasks[0] == RevokeContain(c, Return);
    s := Do(cfg, s1, Continue(0, Ok, 0));
    RunTwo(cfg, s0, Begin(0, OpRevoke, c.id, c.version), Continue(0, Ok, 0));
  }

  /** The provider fails and the failure is recorded. */
  lemma FailureStored(cfg: Config, s: System, c: Credential) returns (s': System)
    requires 0 in s.tasks && s.tasks[0] == RevokeCall(c, false, Return)
    requires c.id in s.store.live && s.store.live[c.id] == c && c.decom.Some? && c.life == Revoked
    ensures s' == Run(cfg, s, [Continue(0, Fail, 0), Continue(0, Ok, 0)])
    ensures c.id in s'.store.live && s'.store.live[c.id] == WithProvider(c, FailedRetryable)
  {
    var s1 := Do(cfg, s, Continue(0, Fail, 0));
    assert s1.store == s.store && s1.tasks[0] == RevokeRecord(c, FailedRetryable, false, Return);
    s' := Do(cfg, s1, Continue(0, Ok, 0));
    RunTwo(cfg, s, Continue(0, Fail, 0), Continue(0, Ok, 0));
  }

  /** Revoking a usable record that already claims settled provider cleanup stores it as revoked
      and settled; when the provider then fails, the claim is withdrawn. */
  lemma Regression(cfg: Config, s0: System, id: Id)
    requires AtRest(s0) && cfg.canRevoke
    requires id in s0.store.live && !Terminal(s0.store.live[id]) && Settled(s0.store.live[id])
    ensures !NeverRegresses(cfg, s0)
  {
    var c := s0.store.live[id];
    var s := RevokeStored(cfg, s0, c);
    var s' := FailureStored(cfg, s, Decommission(cfg, c, RevokeIntent, Revoked));
    assert CleanedUp(s, id) && !CleanedUp(s', id);
  }

  lemma RunTwo(cfg: Config, s: System, a: Action, b: Action)
    ensures Run(cfg, s, [a, b]) == Do(cfg, Do(cfg, s, a), b)
  {
    assert [a, b][1..] == [b] && [b][1..] == [];
    assert Run(cfg, Do(cfg, s, a), [b]) == Run(cfg, Do(cfg, Do(cfg, s, a), b), []);
  }

  /** With a provider manager configured, settled provider cleanup never regresses in any run
      exactly when the store starts without a usable record that claims it is settled. */
  lemma NeverRegressesIff(cfg: Config, s0: System)
    requires AtRest(s0) && cfg.canRevoke
    ensures NeverRegresses(cfg, s0) <==> Unsettled(s0)
  {
    if Unsettled(s0) {
      AtRestInv(cfg, true, s0);
      forall before, after, id | CleanedUp(Run(cfg, s0, before), id)
        ensures CleanedUp(Run(cfg, Run(cfg, s0, before), after), id)
      {
        RunKeeps(cfg, true, s0, before);
        CleanedUpForever(cfg, Run(cfg, s0, before), after, id);
      }
    } else {
      var id :| id in s0.store.live && !Terminal(s0.store.live[id]) && Settled(s0.store.live[id]);
      Regression(cfg, s0, id);
    }
  }
}
