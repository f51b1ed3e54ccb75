/** The authorization flow: start requests and callbacks as interleaved tasks over the two tables
  of pending entries, outside test compatibility mode. Each await of a handler is a step
  boundary, providers and authorization checks may refuse at every step, a handler may stop
  anywhere, and the clock advances between any two steps. */
module OAuthFlow {
  import opened Prelude
  import opened PendingTables
  import opened OAuthContexts
  import opened OAuthWizardIntents

  /** What a start request is for. `digest` is that of the binding token it sends to the browser;
      `requester` is the user of the request, `actor` that user's identity. */
  datatype Start = Start(provider: string, requester: Option<string>, actor: Option<string>,
                         generation: Option<string>, digest: int)

  /** A callback that has claimed an intent, and when. */
  datatype Held = Held(state: string, provider: string, intent: Entry<Intent>, cookie: Option<int>, at: int)

  datatype Outcome = Code | NoCode | ProviderError

  datatype Task =
    | Done
    | StartCreate(state: string)
    | StartProvider(state: string)
    | StartRemember(state: string)
    | StartCancel(state: string)
    | CallbackClaim(provider: string, given: Option<string>, cookie: Option<int>, outcome: Outcome)
    | CallbackCancel(held: Held)
    | CallbackRevalidate(held: Held)
    | CallbackConsume(held: Held)
    | CallbackExchange(held: Held, context: Entry<Context>, at: int)
    | CallbackImport(held: Held, context: Entry<Context>, at: int)

  /** An import that was started, whether or not it succeeded. */
  datatype Import = Import(held: Held, context: Entry<Context>, at: int, succeeded: bool)

  datatype System = System(
    now: int, contexts: Contexts, intents: Intents, serial: nat,
    starts: map<string, Start>, tasks: map<nat, Task>, imports: seq<Import>)

  /** `Quit` is a failure that has an effect of its own: a failed start that discards the context,
      or an import that runs and fails. `No` leaves things as they are; at the import it stands for
      a principal who may no longer import. */
  datatype Answer = Yes | No | Quit

  datatype Action =
    | Tick(ms: nat)
    | PurgeContexts
    | PurgeIntents
    | BeginStart(tid: nat, state: string, start: Start)
    | BeginCallback(tid: nat, provider: string, given: Option<string>, cookie: Option<int>, outcome: Outcome)
    | Continue(tid: nat, answer: Answer, profile: Option<string>)

  datatype Config = Config(contexts: Limits, intents: Limits)

  function Initial(now: int): System { System(now, map[], map[], 0, map[], map[], []) }

  /** States are random identifiers: a start request draws one that was never drawn. */
  predicate Possible(s: System, a: Action) {
    match a
    case BeginStart(tid, state, _) => tid !in s.tasks && state != "" && state !in s.starts
    case BeginCallback(tid, _, _, _, _) => tid !in s.tasks
    case Continue(tid, _, _) => tid in s.tasks
    case _ => true
  }

  function Do(cfg: Config, s: System, a: Action): System
    requires Possible(s, a)
  {
    match a
    case Tick(ms) => s.(now := s.now + ms)
    case PurgeContexts => s.(contexts := Purge(s.contexts, s.now))
    case PurgeIntents => s.(intents := Purge(s.intents, s.now))
    case BeginStart(tid, state, start) =>
      s.(starts := s.starts[state := start], intents := Purge(s.intents, s.now), tasks := s.tasks[tid := StartCreate(state)])
    case BeginCallback(tid, provider, given, cookie, outcome) =>
      s.(intents := Purge(s.intents, s.now), tasks := s.tasks[tid := CallbackClaim(provider, given, cookie, outcome)])
    case Continue(tid, answer, profile) => Advance(cfg, s, tid, s.tasks[tid], answer, profile)
  }

  function Goes(s: System, tid: nat, next: Task): (r: System)
    ensures r.tasks.Keys == s.tasks.Keys + {tid}
  {
    s.(tasks := s.tasks[tid := next])
  }

  function StartOf(s: System, state: string): Start {
    if state in s.starts then s.starts[state] else Start("", None, None, None, 0)
  }

  function Advance(cfg: Config, s: System, tid: nat, task: Task, answer: Answer, profile: Option<string>): System {
    match task
    case Done => s
    case StartCreate(state) =>
      if answer != Yes then Goes(s, tid, Done)
      else
        var start := StartOf(s, state);
        var context := Context(start.provider, profile, s.serial);
        var (contexts, reply) := Create(cfg.contexts, s.contexts, state, start.actor, context, s.now);
        Goes(s.(contexts := contexts, serial := s.serial + 1), tid, if reply == Created then StartProvider(state) else Done)
    case StartProvider(state) =>
      if answer == Yes then Goes(s, tid, StartRemember(state))
      else Goes(if answer == Quit then s.(contexts := s.contexts - {state}) else s, tid, Done)
    case StartRemember(state) =>
      var start := StartOf(s, state);
      var intent := Intent(start.provider, start.generation, start.digest);
      var (intents, r) := Remember(cfg.intents, s.intents, state, start.actor, intent, s.now);
      Goes(s.(intents := intents), tid, if r.Remembered? && answer == Yes then Done else StartCancel(state))
    case StartCancel(state) =>
      var start := StartOf(s, state);
      Goes(s.(contexts := Consume(s.contexts, state, start.provider, profile, start.requester, s.now).0), tid, Done)
    case CallbackClaim(provider, given, cookie, outcome) =>
      var (intents, claim) := ConsumeIntent(s.intents, given, provider, cookie, s.now);
      if !claim.Claimed? || given.None? then Goes(s, tid, Done)
      else
        var held := Held(given.value, provider, claim.entry, cookie, s.now);
        Goes(s.(intents := intents), tid,
          if outcome != Code then CallbackCancel(held)
          else if answer == Yes && HasActor(claim.entry) then CallbackRevalidate(held)
          else Done)
    case CallbackCancel(held) =>
      Goes(s.(contexts := Redeem(s, held, profile).0), tid, Done)
    case CallbackRevalidate(held) => Goes(s, tid, if answer == Yes then CallbackConsume(held) else Done)
    case CallbackConsume(held) =>
      var (contexts, reply) := Redeem(s, held, profile);
      Goes(s.(contexts := contexts), tid, if reply.Returned? then CallbackExchange(held, reply.entry, s.now) else Done)
    case CallbackExchange(held, context, at) =>
      Goes(s, tid, if answer == Yes then CallbackImport(held, context, at) else Done)
    case CallbackImport(held, context, at) =>
      if answer == No then Goes(s, tid, Done)
      else Goes(s.(imports := s.imports + [Import(held, context, at, answer == Yes)]), tid, Done)
  }

  function Redeem(s: System, held: Held, profile: Option<string>): (Contexts, Reply) {
    Consume(s.contexts, held.state, held.provider, profile, held.intent.actor, s.now)
  }

  /** The import needs a user and the generation of that user. */
  predicate HasActor(intent: Entry<Intent>) {
    && intent.actor.Some? && intent.actor.value != ""
    && intent.data.generation.Some? && intent.data.generation.value != ""
  }

  /** The states a run goes through. */
  ghost predicate IsRun(cfg: Config, run: seq<System>, actions: seq<Action>) {
    && |run| == |actions| + 1
    && (exists now :: run[0] == Initial(now))
    && forall i :: 0 <= i < |actions| ==> Possible(run[i], actions[i]) && run[i + 1] == Do(cfg, run[i], actions[i])
  }

  // ---------------------------------------------------------------- what every step keeps

  /** The one place that may lead to an import for a state: a start that has not remembered its
      intent yet, or a callback that has claimed it. */
  function Owned(task: Task): Option<string> {
    match task
    case StartCreate(state) => Some(state)
    case StartProvider(state) => Some(state)
    case StartRemember(state) => Some(state)
    case CallbackCancel(held) => Some(held.state)
    case CallbackRevalidate(held) => Some(held.state)
    case CallbackConsume(held) => Some(held.state)
    case CallbackExchange(held, _, _) => Some(held.state)
    case CallbackImport(held, _, _) => Some(held.state)
    case _ => None
  }

  predicate IntentOf(start: Start, e: Entry<Intent>) {
    e.actor == start.actor && e.data == Intent(start.provider, start.generation, start.digest)
  }

  predicate ContextOf(start: Start, e: Entry<Context>) {
    e.actor == start.actor && e.data.provider == start.provider
  }

  predicate IntentsOk(s: System) {
    && "" !in s.starts
    && forall st :: st in s.intents ==> st in s.starts && IntentOf(s.starts[st], s.intents[st])
  }

  predicate ContextsOk(s: System) {
    forall st :: st in s.contexts ==> st in s.starts && ContextOf(s.starts[st], s.contexts[st])
  }

  /** The claim was made with the token of the start, for its provider, in time. */
  predicate HeldOk(s: System, held: Held) {
    && held.state in s.starts && held.state != ""
    && IntentOf(s.starts[held.state], held.intent)
    && held.provider == held.intent.data.provider
    && held.cookie == Some(held.intent.data.digest)
    && held.at < held.intent.expiresAt && held.at <= s.now
  }

  predicate RedeemedOk(s: System, held: Held, context: Entry<Context>, at: int) {
    && HeldOk(s, held) && HasActor(held.intent)
    && ContextOf(s.starts[held.state], context)
    && held.at <= at <= s.now && at < context.expiresAt
  }

  predicate TaskOk(s: System, task: Task) {
    match task
    case StartCreate(state) => state in s.starts && state != ""
    case StartProvider(state) => state in s.starts && state != ""
    case StartRemember(state) => state in s.starts && state != ""
    case CallbackCancel(held) => HeldOk(s, held)
    case CallbackRevalidate(held) => HeldOk(s, held) && HasActor(held.intent)
    case CallbackConsume(held) => HeldOk(s, held) && HasActor(held.intent)
    case CallbackExchange(held, context, at) => RedeemedOk(s, held, context, at)
    case CallbackImport(held, context, at) => RedeemedOk(s, held, context, at)
    case _ => true
  }

  predicate Imported(s: System, state: string) {
    exists i :: 0 <= i < |s.imports| && s.imports[i].held.state == state
  }

  predicate ImportsOk(s: System) {
    && (forall i :: 0 <= i < |s.imports| ==>
         && RedeemedOk(s, s.imports[i].held, s.imports[i].context, s.imports[i].at)
         && s.imports[i].held.state !in s.intents)
    && forall i, j :: 0 <= i < j < |s.imports| ==> s.imports[i].held.state != s.imports[j].held.state
  }

  predicate Free(s: System, state: string) { state !in s.intents && !Imported(s, state) }

  predicate TasksOk(s: System) {
    forall t :: t in s.tasks ==> TaskOk(s, s.tasks[t])
  }

  predicate Exclusive(s: System) {
    && (forall t :: t in s.tasks && Owned(s.tasks[t]).Some? ==> Free(s, Owned(s.tasks[t]).value))
    && forall t, u :: t in s.tasks && u in s.tasks && t != u && Owned(s.tasks[t]).Some? ==>
         Owned(s.tasks[t]) != Owned(s.tasks[u])
  }

  predicate Inv(s: System) {
    IntentsOk(s) && ContextsOk(s) && TasksOk(s) && ImportsOk(s) && Exclusive(s)
  }
}
