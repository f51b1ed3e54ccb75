/** What every run of the authorization flow keeps. */
module OAuthFlowTheorems {
  import opened Prelude
  import opened PendingTables
  import opened OAuthContexts
  import opened OAuthWizardIntents
  import opened OAuthFlow

  // ---------------------------------------------------------------- a step moves one task

  predicate Grows(s: System, r: System) {
    && s.now <= r.now
    && forall st :: st in s.starts ==> st in r.starts && r.starts[st] == s.starts[st]
  }

  predicate OwnedBefore(s: System, tid: nat, state: string) {
    tid in s.tasks && Owned(s.tasks[tid]) == Some(state)
  }

  /** The right to import for a state is passed on: from a new start, along a task, through the
      intent table. It is never in two places. */
  predicate PassesOn(s: System, r: System, tid: nat, next: Task) {
    && (Owned(next).Some? ==>
         var st := Owned(next).value;
         st !in r.intents && (OwnedBefore(s, tid, st) || st in s.intents || st !in s.starts))
    && forall st :: st in r.intents ==>
         st in s.intents || (OwnedBefore(s, tid, st) && Owned(next) != Some(st))
  }

  predicate Moves(s: System, r: System, tid: nat, next: Task) {
    && Grows(s, r) && r.tasks == s.tasks[tid := next] && r.imports == s.imports
    && IntentsOk(r) && ContextsOk(r) && TaskOk(r, next) && PassesOn(s, r, tid, next)
  }

  lemma TaskStaysOk(s: System, r: System, task: Task)
    requires Grows(s, r) && TaskOk(s, task)
    ensures TaskOk(r, task)
  {}

  lemma MoveKeepsTasks(s: System, r: System, tid: nat, next: Task)
    requires Inv(s) && Moves(s, r, tid, next)
    ensures TasksOk(r)
  {
    forall t | t in r.tasks ensures TaskOk(r, r.tasks[t]) {
      if t != tid { TaskStaysOk(s, r, s.tasks[t]); }
    }
  }

  lemma MoveKeepsImports(s: System, r: System, tid: nat, next: Task)
    requires Inv(s) && Moves(s, r, tid, next)
    ensures ImportsOk(r)
  {
    forall i | 0 <= i < |r.imports|
      ensures RedeemedOk(r, r.imports[i].held, r.imports[i].context, r.imports[i].at)
      ensures r.imports[i].held.state !in r.intents
    {
      assert RedeemedOk(s, s.imports[i].held, s.imports[i].context, s.imports[i].at);
      assert Imported(s, s.imports[i].held.state);
    }
  }

  lemma OwnedIsStarted(s: System, t: nat)
    requires TasksOk(s) && t in s.tasks && Owned(s.tasks[t]).Some?
    ensures Owned(s.tasks[t]).value in s.starts
  {
    assert TaskOk(s, s.tasks[t]);
  }

  lemma NewOwnerIsFree(s: System, r: System, tid: nat, next: Task)
    requires Inv(s) && Moves(s, r, tid, next) && Owned(next).Some?
    ensures Free(r, Owned(next).value)
    ensures forall t :: t in s.tasks && t != tid ==> Owned(s.tasks[t]) != Owned(next)
  {
    var st := Owned(next).value;
    assert Imported(r, st) ==> Imported(s, st);
    if st !in s.starts {
      assert !Imported(s, st);
      forall t | t in s.tasks && t != tid ensures Owned(s.tasks[t]) != Some(st) {
        if Owned(s.tasks[t]) == Some(st) { OwnedIsStarted(s, t); }
      }
    } else if st in s.intents {
      assert !Imported(s, st);
      forall t | t in s.tasks && t != tid ensures Owned(s.tasks[t]) != Some(st) {
        assert Owned(s.tasks[t]).Some? ==> Free(s, Owned(s.tasks[t]).value);
      }
    } else {
      assert Free(s, st);
    }
  }

  lemma MoveKeepsExclusive(s: System, r: System, tid: nat, next: Task)
    requires Inv(s) && Moves(s, r, tid, next)
    ensures Exclusive(r)
  {
    if Owned(next).Some? { NewOwnerIsFree(s, r, tid, next); }
    forall t | t in r.tasks && Owned(r.tasks[t]).Some? ensures Free(r, Owned(r.tasks[t]).value) {
      if t != tid {
        var st := Owned(s.tasks[t]).value;
        assert Free(s, st) && (Imported(r, st) ==> Imported(s, st));
      }
    }
  }

  lemma MoveKeeps(s: System, r: System, tid: nat, next: Task)
    requires Inv(s) && Moves(s, r, tid, next)
    ensures Inv(r)
  {
    MoveKeepsTasks(s, r, tid, next);
    MoveKeepsImports(s, r, tid, next);
    MoveKeepsExclusive(s, r, tid, next);
  }

  // ---------------------------------------------------------------- each step is such a move

  lemma CreateFrom(limits: Limits, t: Contexts, state: string, actor: Option<string>, context: Context, now: int)
    ensures var r := Create(limits, t, state, actor, context, now).0;
      forall st :: st in r ==>
        (st in t && r[st] == t[st]) || (st == state && r[st] == Pending(limits, actor, context, now))
  {}

  lemma ConsumeFrom(t: Contexts, state: string, provider: string, profile: Option<string>, actor: Option<string>, now: int)
    ensures var (r, reply) := Consume(t, state, provider, profile, actor, now);
      && Part(r, t)
      && (reply.Returned? ==> state in t && t[state] == reply.entry && now < reply.entry.expiresAt)
  {}

  lemma ClaimFrom(t: Intents, given: Option<string>, provider: string, cookie: Option<int>, now: int)
    ensures var (r, claim) := ConsumeIntent(t, given, provider, cookie, now);
      if claim.Claimed? then
        && given.Some? && given.value in t && t[given.value] == claim.entry && r == t - {given.value}
        && claim.entry.data.provider == provider && now < claim.entry.expiresAt
        && cookie == Some(claim.entry.data.digest)
      else r == t
  {}

  lemma CreateMoves(cfg: Config, s: System, tid: nat, answer: Answer, profile: Option<string>)
    requires Inv(s) && tid in s.tasks && s.tasks[tid].StartCreate?
    ensures var r := Advance(cfg, s, tid, s.tasks[tid], answer, profile); Moves(s, r, tid, r.tasks[tid])
  {
    assert TaskOk(s, s.tasks[tid]) && Free(s, s.tasks[tid].state);
    var start := s.starts[s.tasks[tid].state];
    CreateFrom(cfg.contexts, s.contexts, s.tasks[tid].state, start.actor, Context(start.provider, profile, s.serial), s.now);
    var r := Advance(cfg, s, tid, s.tasks[tid], answer, profile);
    assert ContextsOk(r);
  }

  lemma ProviderMoves(cfg: Config, s: System, tid: nat, answer: Answer, profile: Option<string>)
    requires Inv(s) && tid in s.tasks && s.tasks[tid].StartProvider?
    ensures var r := Advance(cfg, s, tid, s.tasks[tid], answer, profile); Moves(s, r, tid, r.tasks[tid])
  {
    assert TaskOk(s, s.tasks[tid]) && Free(s, s.tasks[tid].state);
  }

  lemma CancelMoves(cfg: Config, s: System, tid: nat, answer: Answer, profile: Option<string>)
    requires Inv(s) && tid in s.tasks && s.tasks[tid].StartCancel?
    ensures var r := Advance(cfg, s, tid, s.tasks[tid], answer, profile); Moves(s, r, tid, r.tasks[tid])
  {
    var start := StartOf(s, s.tasks[tid].state);
    ConsumeFrom(s.contexts, s.tasks[tid].state, start.provider, profile, start.requester, s.now);
  }

  lemma RememberMoves(cfg: Config, s: System, tid: nat, answer: Answer, profile: Option<string>)
    requires Inv(s) && tid in s.tasks && s.tasks[tid].StartRemember?
    ensures var r := Advance(cfg, s, tid, s.tasks[tid], answer, profile); Moves(s, r, tid, r.tasks[tid])
  {
    assert TaskOk(s, s.tasks[tid]);
  }

  lemma ClaimMoves(cfg: Config, s: System, tid: nat, answer: Answer, profile: Option<string>)
    requires Inv(s) && tid in s.tasks && s.tasks[tid].CallbackClaim?
    ensures var r := Advance(cfg, s, tid, s.tasks[tid], answer, profile); Moves(s, r, tid, r.tasks[tid])
  {
    var t := s.tasks[tid];
    ClaimFrom(s.intents, t.given, t.provider, t.cookie, s.now);
    var r := Advance(cfg, s, tid, t, answer, profile);
    var claim := ConsumeIntent(s.intents, t.given, t.provider, t.cookie, s.now).1;
    if claim.Claimed? {
      assert HeldOk(s, Held(t.given.value, t.provider, claim.entry, t.cookie, s.now));
      TaskStaysOk(s, r, r.tasks[tid]);
    }
  }

  lemma CallbackMoves(cfg: Config, s: System, tid: nat, answer: Answer, profile: Option<string>)
    requires Inv(s) && tid in s.tasks
    requires var t := s.tasks[tid];
      t.CallbackRevalidate? || t.CallbackExchange? || (t.CallbackImport? && answer == No)
    ensures var r := Advance(cfg, s, tid, s.tasks[tid], answer, profile); Moves(s, r, tid, r.tasks[tid])
  {
    assert TaskOk(s, s.tasks[tid]);
    assert Free(s, Owned(s.tasks[tid]).value);
  }

  lemma RedeemMoves(cfg: Config, s: System, tid: nat, answer: Answer, profile: Option<string>)
    requires Inv(s) && tid in s.tasks && (s.tasks[tid].CallbackCancel? || s.tasks[tid].CallbackConsume?)
    ensures var r := Advance(cfg, s, tid, s.tasks[tid], answer, profile); Moves(s, r, tid, r.tasks[tid])
  {
    var held := s.tasks[tid].held;
    assert TaskOk(s, s.tasks[tid]);
    assert Free(s, held.state);
    ConsumeFrom(s.contexts, held.state, held.provider, profile, held.intent.actor, s.now);
  }

  lemma ImportKeeps(s: System, tid: nat, ok: bool)
    requires Inv(s) && tid in s.tasks && s.tasks[tid].CallbackImport?
    ensures var t := s.tasks[tid];
      Inv(Goes(s.(imports := s.imports + [Import(t.held, t.context, t.at, ok)]), tid, Done))
  {
    var t := s.tasks[tid];
    var plain := Goes(s, tid, Done);
    assert TaskOk(s, t) && Free(s, t.held.state);
    assert forall u :: u in s.tasks && u != tid ==> Owned(s.tasks[u]) != Some(t.held.state);
    MoveKeeps(s, plain, tid, Done);
    AppendImport(plain, Import(t.held, t.context, t.at, ok));
  }

  lemma AppendImport(s: System, im: Import)
    requires Inv(s) && RedeemedOk(s, im.held, im.context, im.at) && Free(s, im.held.state)
    requires forall u :: u in s.tasks ==> Owned(s.tasks[u]) != Some(im.held.state)
    ensures Inv(s.(imports := s.imports + [im]))
  {
    var r := s.(imports := s.imports + [im]);
    forall i | 0 <= i < |s.imports| ensures s.imports[i].held.state != im.held.state {
      assert !Imported(s, im.held.state);
    }
    assert ImportsOk(r);
    forall u | u in r.tasks && Owned(r.tasks[u]).Some? ensures Free(r, Owned(r.tasks[u]).value) {
      assert Free(s, Owned(s.tasks[u]).value);
    }
    forall u | u in r.tasks ensures TaskOk(r, r.tasks[u]) { TaskStaysOk(s, r, s.tasks[u]); }
  }

  lemma AdvanceKeeps(cfg: Config, s: System, tid: nat, answer: Answer, profile: Option<string>)
    requires Inv(s) && tid in s.tasks
    ensures Inv(Advance(cfg, s, tid, s.tasks[tid], answer, profile))
  {
    var t := s.tasks[tid];
    var r := Advance(cfg, s, tid, t, answer, profile);
    if t.CallbackImport? && answer != No {
      ImportKeeps(s, tid, answer == Yes);
    } else if !t.Done? {
      match t {
        case StartCreate(_) => CreateMoves(cfg, s, tid, answer, profile);
        case StartRemember(_) => RememberMoves(cfg, s, tid, answer, profile);
        case StartProvider(_) => ProviderMoves(cfg, s, tid, answer, profile);
        case StartCancel(_) => CancelMoves(cfg, s, tid, answer, profile);
        case CallbackClaim(_, _, _, _) => ClaimMoves(cfg, s, tid, answer, profile);
        case CallbackCancel(_) => RedeemMoves(cfg, s, tid, answer, profile);
        case CallbackConsume(_) => RedeemMoves(cfg, s, tid, answer, profile);
        case CallbackRevalidate(_) => CallbackMoves(cfg, s, tid, answer, profile);
        case CallbackExchange(_, _, _) => CallbackMoves(cfg, s, tid, answer, profile);
        case CallbackImport(_, _, _) => CallbackMoves(cfg, s, tid, answer, profile);
      }
      MoveKeeps(s, r, tid, r.tasks[tid]);
    }
  }

  /** Time passing and purging: no task moves. */
  lemma QuietKeeps(s: System, r: System)
    requires Inv(s) && Grows(s, r) && r.starts == s.starts && r.tasks == s.tasks && r.imports == s.imports
    requires Part(r.contexts, s.contexts)
    requires forall st :: st in r.intents ==> st in s.intents && r.intents[st] == s.intents[st]
    ensures Inv(r)
  {
    forall t | t in r.tasks ensures TaskOk(r, r.tasks[t]) { TaskStaysOk(s, r, s.tasks[t]); }
    forall st ensures Imported(r, st) <==> Imported(s, st) {}
    forall t | t in r.tasks && Owned(r.tasks[t]).Some? ensures Free(r, Owned(r.tasks[t]).value) {
      assert Free(s, Owned(s.tasks[t]).value);
    }
  }

  lemma StepKeeps(cfg: Config, s: System, a: Action)
    requires Inv(s) && Possible(s, a)
    ensures Inv(Do(cfg, s, a))
  {
    var r := Do(cfg, s, a);
    match a
    case Tick(_) => QuietKeeps(s, r);
    case PurgeContexts => QuietKeeps(s, r);
    case PurgeIntents => QuietKeeps(s, r);
    case BeginStart(tid, state, _) => MoveKeeps(s, r, tid, StartCreate(state));
    case BeginCallback(tid, provider, given, cookie, outcome) =>
      MoveKeeps(s, r, tid, CallbackClaim(provider, given, cookie, outcome));
    case Continue(tid, answer, profile) => AdvanceKeeps(cfg, s, tid, answer, profile);
  }

  lemma {:induction false} RunKeeps(cfg: Config, run: seq<System>, actions: seq<Action>, n: nat)
    requires IsRun(cfg, run, actions) && n < |run|
    ensures Inv(run[n])
  {
    if n > 0 {
      RunKeeps(cfg, run, actions, n - 1);
      StepKeeps(cfg, run[n - 1], actions[n - 1]);
    }
  }

  /** The import a start request was made for: same provider, same user and generation, the
      browser that was sent the token, and both table entries unexpired when they were taken. */
  predicate ImportOf(start: Start, im: Import) {
    && im.held.provider == start.provider && im.context.data.provider == start.provider
    && im.held.intent.actor == start.actor && im.context.actor == start.actor && start.actor.Some?
    && im.held.intent.data.generation == start.generation && start.generation.Some?
    && im.held.cookie == Some(start.digest)
    && im.held.at < im.held.intent.expiresAt
    && im.at < im.context.expiresAt
    && im.held.at <= im.at
  }

  /** Single use: in every interleaving of start requests, callbacks, refusals and clock steps, at
      most one import is started for a state, whatever becomes of it, and only for the start
      request that drew the state. */
  lemma AtMostOneImport(cfg: Config, run: seq<System>, actions: seq<Action>, n: nat)
    requires IsRun(cfg, run, actions) && n < |run|
    ensures var s := run[n];
      && (forall i, j :: 0 <= i < j < |s.imports| ==> s.imports[i].held.state != s.imports[j].held.state)
      && (forall i :: 0 <= i < |s.imports| ==>
            && s.imports[i].held.state in s.starts
            && ImportOf(s.starts[s.imports[i].held.state], s.imports[i]))
  {
    RunKeeps(cfg, run, actions, n);
    var s := run[n];
    forall i | 0 <= i < |s.imports|
      ensures s.imports[i].held.state in s.starts && ImportOf(s.starts[s.imports[i].held.state], s.imports[i])
    {
      assert RedeemedOk(s, s.imports[i].held, s.imports[i].context, s.imports[i].at);
    }
  }

  // ---------------------------------------------------------------- when a callback imports

  /** Steps of one callback with nothing refused and nothing in between. */
  function Continued(cfg: Config, s: System, tid: nat, profile: Option<string>, n: nat): System {
    if n == 0 || tid !in s.tasks then s
    else
      var before := Continued(cfg, s, tid, profile, n - 1);
      if tid in before.tasks then Advance(cfg, before, tid, before.tasks[tid], Yes, profile) else before
  }

  predicate Ready(s: System, state: string, provider: string, cookie: Option<int>, profile: Option<string>) {
    && state in s.starts && state in s.intents && state in s.contexts
    && s.starts[state].provider == provider && cookie == Some(s.starts[state].digest)
    && HasActor(s.intents[state])
    && s.now < s.intents[state].expiresAt && s.now < s.contexts[state].expiresAt
    && !ProfilesDiffer(profile, s.contexts[state].data.profile)
  }

  /** What happens to a callback with a code up to its redemption of the context. */
  lemma ClaimedIff(cfg: Config, s: System, tid: nat, profile: Option<string>)
    requires Inv(s) && tid in s.tasks && s.tasks[tid].CallbackClaim? && s.tasks[tid].outcome == Code
    ensures var t := s.tasks[tid]; var r := Continued(cfg, s, tid, profile, 2);
      && r.contexts == s.contexts && r.imports == s.imports && r.now == s.now && tid in r.tasks
      && if && t.given.Some? && t.given.value in s.intents && s.starts[t.given.value].provider == t.provider
            && t.cookie == Some(s.starts[t.given.value].digest) && s.now < s.intents[t.given.value].expiresAt
            && HasActor(s.intents[t.given.value])
         then r.tasks[tid] == CallbackConsume(Held(t.given.value, t.provider, s.intents[t.given.value], t.cookie, s.now))
         else r.tasks[tid] == Done
  {
    var t := s.tasks[tid];
    ClaimFrom(s.intents, t.given, t.provider, t.cookie, s.now);
    assert Continued(cfg, s, tid, profile, 1) == Advance(cfg, s, tid, t, Yes, profile);
  }

  /** The redemption finds the context of the claimed intent: the same start request made both. */
  lemma RedeemedIff(s: System, held: Held, profile: Option<string>)
    requires IntentsOk(s) && ContextsOk(s) && held.state in s.intents && held.intent == s.intents[held.state]
    requires held.provider == s.starts[held.state].provider
    ensures var reply := Redeem(s, held, profile).1;
      reply.Returned? <==> && held.state in s.contexts && s.now < s.contexts[held.state].expiresAt
                           && !ProfilesDiffer(profile, s.contexts[held.state].data.profile)
  {}

  /** From a redeemed context on, nothing but a refusal keeps the import from running. */
  lemma ExchangeImports(cfg: Config, s: System, tid: nat, profile: Option<string>)
    requires tid in s.tasks
    requires s.tasks[tid].CallbackExchange? || s.tasks[tid] == Done
    ensures var t := s.tasks[tid];
            var r := Advance(cfg, s, tid, t, Yes, profile);
            && tid in r.tasks
            && var r' := Advance(cfg, r, tid, r.tasks[tid], Yes, profile);
               r'.imports == if t.CallbackExchange? then s.imports + [Import(t.held, t.context, t.at, true)] else s.imports
  {}

  /** A callback with a code that nobody refuses runs the import exactly when both tables hold an
      unexpired entry for its state, its provider is the one of the start request, its cookie the
      token sent then, the flow has a user, and the provider profile has not changed. */
  lemma CallbackImportsIff(cfg: Config, s: System, tid: nat, profile: Option<string>)
    requires Inv(s) && tid in s.tasks && s.tasks[tid].CallbackClaim? && s.tasks[tid].outcome == Code
    ensures var t := s.tasks[tid]; var r := Continued(cfg, s, tid, profile, 5);
      if t.given.Some? && Ready(s, t.given.value, t.provider, t.cookie, profile)
      then |r.imports| == |s.imports| + 1 && r.imports[|s.imports|].held.state == t.given.value
           && r.imports[|s.imports|].succeeded
      else r.imports == s.imports
  {
    ClaimedIff(cfg, s, tid, profile);
    var r2 := Continued(cfg, s, tid, profile, 2);
    var r3 := Continued(cfg, s, tid, profile, 3);
    assert r3 == Advance(cfg, r2, tid, r2.tasks[tid], Yes, profile);
    if r2.tasks[tid].CallbackConsume? {
      var held := r2.tasks[tid].held;
      assert Redeem(r2, held, profile) == Redeem(s, held, profile);
      RedeemedIff(s, held, profile);
    }
    ExchangeImports(cfg, r3, tid, profile);
    var r4 := Continued(cfg, s, tid, profile, 4);
    assert r4 == Advance(cfg, r3, tid, r3.tasks[tid], Yes, profile);
    assert Continued(cfg, s, tid, profile, 5) == Advance(cfg, r4, tid, r4.tasks[tid], Yes, profile);
  }

  // ---------------------------------------------------------------- a whole flow

  /** A start request that nobody refuses, with room in both tables, leaves a context and an intent
      for its state, with its provider, actor, generation and token, for their full lifetimes. */
  lemma StartPrepares(cfg: Config, s: System, tid: nat, profile: Option<string>)
    requires tid in s.tasks && s.tasks[tid].StartCreate? && TaskOk(s, s.tasks[tid])
    requires var start := s.starts[s.tasks[tid].state];
      start.provider != "" && RoomFor(cfg.contexts, s.contexts, start.actor, s.now)
      && RoomFor(cfg.intents, s.intents, start.actor, s.now)
    ensures var state := s.tasks[tid].state; var start := s.starts[state]; var r := Continued(cfg, s, tid, profile, 3);
      && tid in r.tasks && r.tasks[tid] == Done && r.now == s.now && r.starts == s.starts && r.imports == s.imports
      && state in r.contexts && state in r.intents
      && r.contexts[state] == Entry(start.actor, s.now + cfg.contexts.ttlMs, Context(start.provider, profile, s.serial))
      && r.intents[state] == Entry(start.actor, s.now + cfg.intents.ttlMs, Intent(start.provider, start.generation, start.digest))
  {
    var state := s.tasks[tid].state;
    var start := s.starts[state];
    HasRoomIff(cfg.contexts, s.contexts, start.actor, s.now);
    HasRoomIff(cfg.intents, s.intents, start.actor, s.now);
    CreateAnswers(cfg.contexts, s.contexts, state, start.actor, Context(start.provider, profile, s.serial), s.now);
    assert Continued(cfg, s, tid, profile, 0) == s;
    var s1 := Continued(cfg, s, tid, profile, 1);
    assert s1 == Advance(cfg, s, tid, s.tasks[tid], Yes, profile);
    assert s1.tasks[tid] == StartProvider(state);
    var s2 := Continued(cfg, s, tid, profile, 2);
    assert s2 == Advance(cfg, s1, tid, s1.tasks[tid], Yes, profile);
    assert s2.tasks[tid] == StartRemember(state);
    assert Continued(cfg, s, tid, profile, 3) == Advance(cfg, s2, tid, s2.tasks[tid], Yes, profile);
  }

  lemma AdvanceKeys(cfg: Config, s: System, tid: nat, answer: Answer, profile: Option<string>)
    requires tid in s.tasks
    ensures Advance(cfg, s, tid, s.tasks[tid], answer, profile).tasks.Keys == s.tasks.Keys
  {
    assert s.tasks.Keys + {tid} == s.tasks.Keys;
  }

  lemma {:induction false} ContinuedKeeps(cfg: Config, s: System, tid: nat, profile: Option<string>, n: nat)
    requires Inv(s) && tid in s.tasks
    ensures Inv(Continued(cfg, s, tid, profile, n)) && tid in Continued(cfg, s, tid, profile, n).tasks
    ensures Continued(cfg, s, tid, profile, n).tasks.Keys == s.tasks.Keys
  {
    if n > 0 {
      ContinuedKeeps(cfg, s, tid, profile, n - 1);
      var before := Continued(cfg, s, tid, profile, n - 1);
      AdvanceKeeps(cfg, before, tid, Yes, profile);
      AdvanceKeys(cfg, before, tid, Yes, profile);
      assert Continued(cfg, s, tid, profile, n) == Advance(cfg, before, tid, before.tasks[tid], Yes, profile);
    }
  }

  /** The whole flow: a start request, then some time, then a callback with its state and a code.
      If nobody refuses and nothing else happens, the import runs exactly when the callback is for
      the provider of the start request, shows the token sent then, the flow has a user, and
      neither lifetime is over. */
  lemma FlowImportsIff(cfg: Config, s: System, tid: nat, profile: Option<string>,
                       ms: nat, cb: nat, provider: string, cookie: Option<int>)
    requires Inv(s) && tid in s.tasks && s.tasks[tid].StartCreate? && cb !in s.tasks
    requires TaskOk(s, s.tasks[tid])
    requires var start := s.starts[s.tasks[tid].state];
      start.provider != "" && RoomFor(cfg.contexts, s.contexts, start.actor, s.now)
      && RoomFor(cfg.intents, s.intents, start.actor, s.now)
    ensures var state := s.tasks[tid].state; var start := s.starts[state];
      var called := Called(cfg, s, tid, profile, ms, cb, provider, cookie);
      var r := Continued(cfg, called, cb, profile, 5);
      r.imports != s.imports <==>
        && provider == start.provider && cookie == Some(start.digest)
        && start.actor.Some? && start.actor.value != "" && start.generation.Some? && start.generation.value != ""
        && ms < cfg.contexts.ttlMs && ms < cfg.intents.ttlMs
  {
    CalledIs(cfg, s, tid, profile, ms, cb, provider, cookie);
    CallbackImportsIff(cfg, Called(cfg, s, tid, profile, ms, cb, provider, cookie), cb, profile);
  }

  /** The state a callback finds after its start request: the entries are there until they expire. */
  lemma CalledIs(cfg: Config, s: System, tid: nat, profile: Option<string>,
                 ms: nat, cb: nat, provider: string, cookie: Option<int>)
    requires Inv(s) && tid in s.tasks && s.tasks[tid].StartCreate? && cb !in s.tasks
    requires TaskOk(s, s.tasks[tid])
    requires var start := s.starts[s.tasks[tid].state];
      start.provider != "" && RoomFor(cfg.contexts, s.contexts, start.actor, s.now)
      && RoomFor(cfg.intents, s.intents, start.actor, s.now)
    ensures var state := s.tasks[tid].state; var start := s.starts[state];
      var r := Called(cfg, s, tid, profile, ms, cb, provider, cookie);
      && Inv(r) && r.now == s.now + ms && r.starts == s.starts && r.imports == s.imports
      && cb in r.tasks && r.tasks[cb] == CallbackClaim(provider, Some(state), cookie, Code)
      && state in r.contexts
      && r.contexts[state] == Entry(start.actor, s.now + cfg.contexts.ttlMs, Context(start.provider, profile, s.serial))
      && (state in r.intents <==> ms < cfg.intents.ttlMs)
      && (state in r.intents ==> r.intents[state] == Entry(start.actor, s.now + cfg.intents.ttlMs,
                                                           Intent(start.provider, start.generation, start.digest)))
  {
    var state := s.tasks[tid].state;
    StartPrepares(cfg, s, tid, profile);
    var ready := Continued(cfg, s, tid, profile, 3);
    ContinuedKeeps(cfg, s, tid, profile, 3);
    var later := Do(cfg, ready, Tick(ms));
    StepKeeps(cfg, ready, Tick(ms));
    StepKeeps(cfg, later, BeginCallback(cb, provider, Some(state), cookie, Code));
  }

  /** The start request has run, `ms` milliseconds have passed, and the callback comes in. */
  function Called(cfg: Config, s: System, tid: nat, profile: Option<string>, ms: nat, cb: nat, provider: string, cookie: Option<int>): System
    requires tid in s.tasks && s.tasks[tid].StartCreate?
  {
    var later := Do(cfg, Continued(cfg, s, tid, profile, 3), Tick(ms));
    if cb in later.tasks then later
    else Do(cfg, later, BeginCallback(cb, provider, Some(s.tasks[tid].state), cookie, Code))
  }

  // ---------------------------------------------------------------- abandoned flows

  /** A callback that brings an error or no code gives up its flow: when it may claim the intent,
      neither entry is left and nothing is imported. */
  lemma AbandonedCallbackLeavesNothing(cfg: Config, s: System, tid: nat, profile: Option<string>)
    requires Inv(s) && tid in s.tasks && s.tasks[tid].CallbackClaim? && s.tasks[tid].outcome != Code
    requires var t := s.tasks[tid];
      && t.given.Some? && t.given.value in s.intents && t.given.value in s.contexts
      && s.starts[t.given.value].provider == t.provider && t.cookie == Some(s.starts[t.given.value].digest)
      && s.now < s.intents[t.given.value].expiresAt
      && !(profile.Some? && s.contexts[t.given.value].data.profile.Some? && profile != s.contexts[t.given.value].data.profile)
    ensures var state := s.tasks[tid].given.value; var r := Continued(cfg, s, tid, profile, 2);
      && tid in r.tasks && r.tasks[tid] == Done && r.imports == s.imports
      && r.intents == s.intents - {state} && r.contexts == s.contexts - {state}
  {
    var t := s.tasks[tid];
    ClaimFrom(s.intents, t.given, t.provider, t.cookie, s.now);
    assert Continued(cfg, s, tid, profile, 0) == s;
    var s1 := Continued(cfg, s, tid, profile, 1);
    assert s1 == Advance(cfg, s, tid, t, Yes, profile);
    assert s1.tasks[tid] == CallbackCancel(Held(t.given.value, t.provider, s.intents[t.given.value], t.cookie, s.now));
    assert Continued(cfg, s, tid, profile, 2) == Advance(cfg, s1, tid, s1.tasks[tid], Yes, profile);
  }

  /** A start request whose intent cannot be remembered, or whose redirect turns out wrong, takes
      its context back when the requester is the actor of the flow. */
  lemma AbandonedStartTakesContextBack(cfg: Config, s: System, tid: nat, answer: Answer, profile: Option<string>)
    requires Inv(s) && tid in s.tasks && s.tasks[tid].StartRemember? && s.tasks[tid].state in s.contexts
    requires var state := s.tasks[tid].state; var start := s.starts[state];
      && state in s.starts && start.requester == start.actor
      && !(profile.Some? && s.contexts[state].data.profile.Some? && profile != s.contexts[state].data.profile)
      && (answer != Yes || !RoomFor(cfg.intents, s.intents, start.actor, s.now))
    ensures var state := s.tasks[tid].state;
      var s1 := Advance(cfg, s, tid, s.tasks[tid], answer, profile);
      && tid in s1.tasks && s1.contexts == s.contexts
      && var r := Advance(cfg, s1, tid, s1.tasks[tid], Yes, profile);
         r.tasks[tid] == Done && r.contexts == s.contexts - {state} && r.imports == s.imports
  {
    var state := s.tasks[tid].state;
    var start := s.starts[state];
    HasRoomIff(cfg.intents, s.intents, start.actor, s.now);
    var s1 := Advance(cfg, s, tid, s.tasks[tid], answer, profile);
    assert s1.tasks[tid] == StartCancel(state);
  }

  /** A provider that cannot begin the flow ends the start request; the context is discarded when
      the provider throws or has a configuration of its own. */
  lemma ProviderRefusesStart(cfg: Config, s: System, tid: nat, profile: Option<string>)
    requires tid in s.tasks && s.tasks[tid].StartProvider?
    ensures Advance(cfg, s, tid, s.tasks[tid], Quit, profile)
            == s.(contexts := s.contexts - {s.tasks[tid].state}, tasks := s.tasks[tid := Done])
    ensures Advance(cfg, s, tid, s.tasks[tid], No, profile) == s.(tasks := s.tasks[tid := Done])
  {}

  /** Every refusal ends a callback that brings a code, with nothing imported and no context taken:
      the limiter's, that of the actor's authorization, the provider's, and that of the principal
      who is about to import. */
  lemma RefusalEndsCallback(cfg: Config, s: System, tid: nat, profile: Option<string>)
    requires tid in s.tasks
    requires var t := s.tasks[tid];
      (t.CallbackClaim? && t.outcome == Code) || t.CallbackRevalidate? || t.CallbackExchange? || t.CallbackImport?
    ensures var r := Advance(cfg, s, tid, s.tasks[tid], No, profile);
      tid in r.tasks && r.tasks[tid] == Done && r.imports == s.imports && r.contexts == s.contexts
  {}

  /** Start requests and callbacks begin by sweeping the expired intents, as the timer sweeps the
      expired contexts; nothing else leaves the tables. */
  lemma Sweeps(cfg: Config, s: System, tid: nat, state: string, start: Start, provider: string,
               given: Option<string>, cookie: Option<int>, outcome: Outcome)
    requires tid !in s.tasks && state != "" && state !in s.starts
    ensures var swept := map st | st in s.intents && s.now < s.intents[st].expiresAt :: s.intents[st];
      && Do(cfg, s, BeginStart(tid, state, start)).intents == swept
      && Do(cfg, s, BeginCallback(tid, provider, given, cookie, outcome)).intents == swept
      && Do(cfg, s, PurgeIntents).intents == swept
      && Do(cfg, s, BeginStart(tid, state, start)).contexts == s.contexts
    ensures Do(cfg, s, PurgeContexts).contexts
            == (map st | st in s.contexts && s.now < s.contexts[st].expiresAt :: s.contexts[st])
  {}
}
