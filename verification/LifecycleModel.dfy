/** Credential lifecycle operations as interleaved tasks over one conditional store.

  A task is a program counter plus the credential value the operation currently holds. Each
  await of the service is a step boundary. Provider calls, grant and secret-history cleanup,
  audit writes and the store itself may fail at every step; a store write may also take effect
  and still report an error. */
module LifecycleModel {
  import opened Prelude

  type Id = nat

  datatype Life = Registered | Validated | Active | Expiring | Expired | Revoked | Deleted

  datatype Status = Pending | Complete | NotRequired | FailedRetryable

  datatype Intent = RevokeIntent | DeleteIntent

  datatype Decommissioning = Decommissioning(intent: Intent, provider: Status, grant: Status, history: Status)

  /** `content` stands for secrets, metadata and binding fields, which the lifecycle never reads. */
  datatype Credential = Credential(id: Id, version: nat, life: Life, decom: Option<Decommissioning>, content: int)

  predicate Terminal(c: Credential) { c.life == Revoked || c.life == Deleted }

  /** Provider cleanup is over: done, or not needed. */
  predicate Settled(c: Credential) {
    c.decom.Some? && (c.decom.value.provider == Complete || c.decom.value.provider == NotRequired)
  }

  // ---------------------------------------------------------------- the store

  datatype Store = Store(live: map<Id, Credential>, tombstones: set<Id>)

  datatype Reason = Missing | AlreadyExists | DeletedBarrier | VersionMismatch | TerminalRevocation | TerminalDeletion

  datatype Saved = Saved(store: Store) | Refused(reason: Reason)

  /** `saveConditional` with an expected version. The last two tests are the store's own guard
      for terminal states; `guard` switches them so that they can be proved redundant. */
  function SaveConditional(s: Store, c: Credential, expected: nat, guard: bool): Saved {
    if c.id !in s.live then Refused(Missing)
    else if s.live[c.id].version != expected then Refused(VersionMismatch)
    else if guard && s.live[c.id].life == Revoked && c.life != Revoked then Refused(TerminalRevocation)
    else if guard && s.live[c.id].life == Deleted && c.life != Deleted then Refused(TerminalDeletion)
    else Saved(s.(live := s.live[c.id := c]))
  }

  function Create(s: Store, c: Credential): Saved {
    if c.id in s.live then Refused(AlreadyExists)
    else if c.id in s.tombstones then Refused(DeletedBarrier)
    else Saved(s.(live := s.live[c.id := c]))
  }

  function DeleteConditional(s: Store, id: Id, expected: nat): Saved {
    if id !in s.live then Refused(Missing)
    else if s.live[id].version != expected then Refused(VersionMismatch)
    else Saved(Store(s.live - {id}, s.tombstones + {id}))
  }

  // ---------------------------------------------------------------- tasks

  datatype Config = Config(
    /** a provider manager with `revokeCredential` is configured */
    canRevoke: bool,
    /** a grant service and a secret versioning service are configured */
    hasGrants: bool, hasHistory: bool,
    guard: bool)

  /** Where `revoke` continues: it returns to its caller, or `delete` goes on. */
  datatype After = Return | ThenDelete

  datatype Task =
    | Done
    | ValidateCall(c: Credential) | ValidateSave(c: Credential)
    | RefreshCall(c: Credential) | RefreshSave(c: Credential)
    | ImportSave(c: Credential)
    | UpdateSave(c: Credential)
    | RevokeContain(c: Credential, after: After)
    | RevokeAgain(c: Credential)
    | RevokeCall(c: Credential, retry: bool, after: After)
    | RevokeRecord(c: Credential, status: Status, retry: bool, after: After)
    | RevokeHistory(c: Credential, retry: bool, after: After)
    | RevokeHistoryRecord(c: Credential, status: Status, retry: bool, after: After)
    | RevokeAudit(c: Credential, after: After)
    | DeleteBegin(c: Credential)
    | DeleteCall(c: Credential)
    | DeleteRecord(c: Credential, status: Status)
    | DeleteGrants(c: Credential)
    | DeleteGrantsRecord(c: Credential, status: Status)
    | DeleteHistory(c: Credential)
    | DeleteRemove(c: Credential)

  datatype Op = OpValidate | OpRefresh | OpRefreshExpired | OpImport | OpUpdate | OpRevoke | OpDelete

  /** What the environment answers to a step: success, an incompatible provider contract, a
      failure without effect, or (for store writes) an effect whose confirmation is lost. */
  datatype Reply = Ok | Incompatible | Fail | Lost

  /** `written` keeps every record ever stored, by id and version; `invalidated` the versions
      under which the secret history was invalidated. Neither is read by an operation, except
      that an operation may start from any record that was ever read from the store. */
  datatype System = System(
    store: Store, written: map<(Id, nat), Credential>, invalidated: set<(Id, nat)>, tasks: map<nat, Task>)

  datatype Action =
    | Begin(tid: nat, op: Op, id: Id, version: nat)
    | ImportNew(id: Id, content: int, reply: Reply)
    | Continue(tid: nat, reply: Reply, content: int)

  /** `revoke` up to its first await. */
  function RevokeStart(cfg: Config, c: Credential, after: After): Task {
    if c.life == Revoked then
      if c.decom.None? then RevokeAgain(c) else RevokeRetry(cfg, c, after)
    else if c.life == Deleted then Done
    else RevokeContain(c, after)
  }

  function RevokeRetry(cfg: Config, c: Credential, after: After): Task {
    if !Settled(c) && cfg.canRevoke then RevokeCall(c, true, after) else RevokeHistory(c, true, after)
  }

  function Start(cfg: Config, op: Op, c: Credential): Task {
    match op
    case OpValidate => if Terminal(c) then Done else ValidateCall(c)
    case OpRefresh => if Terminal(c) then Done else RefreshCall(c)
    case OpRefreshExpired => if c.life != Active then Done else RefreshCall(c)
    case OpImport => if Terminal(c) then Done else ImportSave(c)
    case OpUpdate => UpdateSave(c)
    case OpRevoke => RevokeStart(cfg, c, Return)
    case OpDelete =>
      if cfg.canRevoke && c.life != Revoked then RevokeStart(cfg, c, ThenDelete) else DeleteBegin(c)
  }

  /** `#initialDecommissioning`: steps already on the record are kept. */
  function InitialDecommissioning(cfg: Config, intent: Intent, c: Credential): Decommissioning {
    if c.decom.Some? then c.decom.value.(intent := intent)
    else Decommissioning(intent,
                         if cfg.canRevoke then Pending else NotRequired,
                         if cfg.hasGrants then Pending else NotRequired,
                         if cfg.hasHistory then Pending else NotRequired)
  }

  function Next(c: Credential): Credential { c.(version := c.version + 1) }

  function Decommission(cfg: Config, c: Credential, intent: Intent, life: Life): Credential {
    Next(c).(decom := Some(InitialDecommissioning(cfg, intent, c)), life := life)
  }

  function WithProvider(c: Credential, s: Status): Credential
    requires c.decom.Some?
  {
    Next(c).(decom := Some(c.decom.value.(provider := s)))
  }

  function WithGrant(c: Credential, s: Status): Credential
    requires c.decom.Some?
  {
    Next(c).(decom := Some(c.decom.value.(grant := s)))
  }

  function WithHistory(c: Credential, s: Status): Credential
    requires c.decom.Some?
  {
    Next(c).(decom := Some(c.decom.value.(history := s)))
  }

  /** A conditional write by a task that holds `held`; the boolean says whether it was confirmed. */
  function Write(cfg: Config, s: System, held: Credential, c: Credential, reply: Reply): (System, bool) {
    var r := SaveConditional(s.store, c, held.version, cfg.guard);
    if reply == Fail || r.Refused? then (s, false)
    else (s.(store := r.store, written := s.written[(c.id, c.version) := c]), reply != Lost)
  }

  function Outcome(reply: Reply): Status {
    match reply case Ok => Complete case Incompatible => NotRequired case _ => FailedRetryable
  }

  function Finish(c: Credential, after: After): Task {
    if after == ThenDelete then DeleteBegin(c) else Done
  }

  /** Steps that write the store. Recording a cleanup step on a record without a
      decommissioning part writes nothing. */
  predicate Writes(t: Task) {
    match t
    case ValidateSave(_) => true
    case RefreshSave(_) => true
    case ImportSave(_) => true
    case UpdateSave(_) => true
    case RevokeContain(_, _) => true
    case RevokeAgain(_) => true
    case RevokeRecord(c, _, _, _) => c.decom.Some?
    case RevokeHistoryRecord(c, _, _, _) => c.decom.Some?
    case DeleteBegin(_) => true
    case DeleteRecord(c, _) => c.decom.Some?
    case DeleteGrantsRecord(c, _) => c.decom.Some?
    case _ => false
  }

  /** The record such a step wants to store. */
  function Intended(cfg: Config, t: Task, content: int): Credential
    requires Writes(t)
  {
    match t
    case ValidateSave(c) => Next(c).(life := Active, content := content)
    case RefreshSave(c) => Next(c).(life := Active, content := content)
    case ImportSave(c) => Next(c).(life := Active, content := content)
    case UpdateSave(c) => Next(c).(content := content)
    case RevokeContain(c, _) => Decommission(cfg, c, RevokeIntent, Revoked)
    case RevokeAgain(c) => Decommission(cfg, c, RevokeIntent, Revoked)
    case RevokeRecord(c, status, _, _) => WithProvider(c, status)
    case RevokeHistoryRecord(c, status, _, _) => WithHistory(c, status)
    case DeleteBegin(c) => Decommission(cfg, c, DeleteIntent, c.life)
    case DeleteRecord(c, status) => WithProvider(c, status)
    case DeleteGrantsRecord(c, status) => WithGrant(c, status)
  }

  /** Where the operation goes once its write was confirmed (`ok`) or threw. Recording a failure
      never throws: the operation goes on with the value it holds. Recording the end of the
      history or grant cleanup is retried as a failure. Every other refused write ends it. */
  function Resume(cfg: Config, t: Task, c': Credential, ok: bool): Task
    requires Writes(t)
  {
    match t
    case RevokeContain(c, after) =>
      if !ok then Done
      else if cfg.canRevoke then RevokeCall(c', false, after)
      else RevokeRecord(c', Complete, false, after)
    case RevokeAgain(c) => if ok then RevokeRetry(cfg, c', Return) else Done
    case RevokeRecord(c, status, retry, after) =>
      if ok then RevokeHistory(c', retry, after)
      else if status == FailedRetryable then RevokeHistory(c, retry, after)
      else Done
    case RevokeHistoryRecord(c, status, retry, after) =>
      if !ok && status != FailedRetryable then RevokeHistoryRecord(c, FailedRetryable, retry, after)
      else if retry then Finish(if ok then c' else c, after)
      else RevokeAudit(if ok then c' else c, after)
    case DeleteBegin(c) =>
      if !ok then Done
      else if !Settled(c') && cfg.canRevoke then DeleteCall(c')
      else DeleteGrants(c')
    case DeleteRecord(c, status) =>
      // a provider that needs no revocation still ends this call: only `complete` goes on
      if ok && status == Complete then DeleteGrants(c') else Done
    case DeleteGrantsRecord(c, status) =>
      if status == FailedRetryable then Done
      else if ok then DeleteHistory(c') else DeleteGrantsRecord(c, FailedRetryable)
    case _ => Done
  }

  /** A step that awaits a provider or another service. */
  function React(cfg: Config, t: Task, reply: Reply): Task
    requires !Writes(t)
  {
    match t
    case ValidateCall(c) => if reply == Ok then ValidateSave(c) else Done
    case RefreshCall(c) => if reply == Ok then RefreshSave(c) else Done
    case RevokeCall(c, retry, after) => RevokeRecord(c, Outcome(reply), retry, after)
    case RevokeRecord(c, _, retry, after) => RevokeHistory(c, retry, after)
    case RevokeHistory(c, retry, after) =>
      if reply != Ok then RevokeHistoryRecord(c, FailedRetryable, retry, after)
      else if retry then RevokeAudit(c, after)
      else RevokeHistoryRecord(c, Complete, retry, after)
    case RevokeHistoryRecord(c, _, retry, after) => if retry then Finish(c, after) else RevokeAudit(c, after)
    case RevokeAudit(c, after) => if reply == Ok then Finish(c, after) else Done
    case DeleteCall(c) => DeleteRecord(c, Outcome(reply))
    case DeleteRecord(c, _) => Done
    case DeleteGrants(c) => DeleteGrantsRecord(c, if reply == Ok then Complete else FailedRetryable)
    case DeleteGrantsRecord(c, status) => if status == Complete then DeleteHistory(c) else Done
    case DeleteHistory(c) => if reply == Ok then DeleteRemove(c) else Done
    case _ => Done
  }

  predicate InvalidatesHistory(t: Task) { t.RevokeHistory? || t.DeleteHistory? }

  /** One step of a task. */
  function Advance(cfg: Config, s: System, t: Task, reply: Reply, content: int): (System, Task) {
    if Writes(t) then
      var c' := Intended(cfg, t, content);
      var (s', ok) := Write(cfg, s, t.c, c', reply);
      (s', Resume(cfg, t, c', ok))
    else if t.DeleteRemove? then
      var r := DeleteConditional(s.store, t.c.id, t.c.version);
      (if reply == Fail || r.Refused? then s else s.(store := r.store), Done)
    else
      (if InvalidatesHistory(t) && reply == Ok then s.(invalidated := s.invalidated + {(t.c.id, t.c.version)}) else s,
       React(cfg, t, reply))
  }

  /** One step of the system. An action that is not enabled changes nothing. */
  function Do(cfg: Config, s: System, a: Action): System {
    match a
    case Begin(tid, op, id, version) =>
      if (id, version) in s.written && (tid !in s.tasks || s.tasks[tid].Done?)
      then s.(tasks := s.tasks[tid := Start(cfg, op, s.written[(id, version)])])
      else s
    case ImportNew(id, content, reply) =>
      var c := Credential(id, 1, Active, None, content);
      var r := Create(s.store, c);
      if reply == Fail || r.Refused? then s
      else s.(store := r.store, written := s.written[(id, 1) := c])
    case Continue(tid, reply, content) =>
      if tid !in s.tasks then s
      else
        var (s', t') := Advance(cfg, s, s.tasks[tid], reply, content);
        s'.(tasks := s.tasks[tid := t'])
  }

  function Run(cfg: Config, s: System, acts: seq<Action>): System
    decreases |acts|
  {
    if acts == [] then s else Run(cfg, Do(cfg, s, acts[0]), acts[1..])
  }

  /** A store at rest: what is stored is what is known, and nothing is in flight. */
  ghost predicate AtRest(s: System) {
    && s.store.live.Keys !! s.store.tombstones
    && (forall id :: id in s.store.live ==> s.store.live[id].id == id)
    && (forall k :: k in s.written <==> k.0 in s.store.live && k.1 == s.store.live[k.0].version)
    && (forall k :: k in s.written ==> s.written[k] == s.store.live[k.0])
    && s.invalidated == {} && s.tasks == map[]
  }
}
