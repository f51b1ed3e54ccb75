/** The table of pending authorization contexts, and the books it keeps: every context that was
  ever issued is either still pending or left in exactly one way. */
module OAuthContexts {
  import opened Prelude
  import opened PendingTables

  /** `transaction` is the serial number of the context; a profile is known by its digest. */
  datatype Context = Context(provider: string, profile: Option<string>, transaction: nat)

  type Contexts = Table<Context>

  datatype Reason =
    | ProviderRequired | UnknownState | ProviderMismatch | ProfileMismatch | ActorMismatch
    | StateExpired | CapacityExceeded | ActorCapacityExceeded

  datatype Reply =
    | Created
    | NoState
    | Returned(entry: Entry<Context>)
    | Refused(reason: Reason)

  /** `createAuthorizationContext`; an empty state stands for a provider that uses none. */
  function Create(limits: Limits, t: Contexts, state: string, actor: Option<string>, context: Context, now: int)
    : (Contexts, Reply)
  {
    var left := Purge(t, now);
    if context.provider == "" then (t, Refused(ProviderRequired))
    else if state == "" then (t, NoState)
    else if |left| >= limits.maxEntries then (left, Refused(CapacityExceeded))
    else if |OfActor(left, ActorKey(actor))| >= limits.maxPerActor then (left, Refused(ActorCapacityExceeded))
    else (left[state := Pending(limits, actor, context, now)], Created)
  }

  function Pending(limits: Limits, actor: Option<string>, context: Context, now: int): Entry<Context> {
    Entry(actor, now + limits.ttlMs, context)
  }

  predicate ProfilesDiffer(a: Option<string>, b: Option<string>) { a.Some? && b.Some? && a != b }

  /** `consumeCallbackContext`, with the order of its tests. */
  function Consume(t: Contexts, state: string, provider: string, profile: Option<string>,
                   actor: Option<string>, now: int): (Contexts, Reply)
  {
    if state == "" then (t, NoState)
    else if state !in t then (t, Refused(UnknownState))
    else
      var e := t[state];
      if e.data.provider != provider then (t, Refused(ProviderMismatch))
      else if ProfilesDiffer(profile, e.data.profile) then (t, Refused(ProfileMismatch))
      else if e.actor.Some? && e.actor != actor then (t, Refused(ActorMismatch))
      else if e.expiresAt <= now then (t - {state}, Refused(StateExpired))
      else (t - {state}, Returned(e))
  }

  // ---------------------------------------------------------------- the books

  datatype Call =
    | CallCreate(state: string, actor: Option<string>, provider: string, profile: Option<string>, now: int)
    | CallConsume(state: string, provider: string, profile: Option<string>, actor: Option<string>, now: int)
    | CallPurge(now: int)
    | CallDiscard(state: string)

  datatype Fate = Live | Consumed | TimedOut | Discarded | Overwritten

  /** What was asked for, when, and what was put into the table for it. */
  datatype Issue = Issue(state: string, ask: Ask, entry: Entry<Context>, fate: Fate)

  datatype Ask = Ask(actor: Option<string>, provider: string, profile: Option<string>, at: int)

  datatype Books = Books(contexts: Contexts, issued: seq<Issue>)

  const OPENED: Books := Books(map[], [])

  predicate Among(issue: Issue, t: Contexts) { issue.state in t && t[issue.state] == issue.entry }

  function Enter(issue: Issue, gone: Contexts, fate: Fate): Issue {
    if Among(issue, gone) then issue.(fate := fate) else issue
  }

  /** Enter the fate of every issued context that is among the entries that left. */
  function EnterAll(issued: seq<Issue>, gone: Contexts, fate: Fate): (r: seq<Issue>)
    ensures |r| == |issued|
    ensures forall id :: 0 <= id < |issued| ==> r[id] == Enter(issued[id], gone, fate)
  {
    seq(|issued|, id requires 0 <= id < |issued| => Enter(issued[id], gone, fate))
  }

  function One(t: Contexts, state: string): Contexts { if state in t then map[state := t[state]] else map[] }

  function AskOf(call: Call): Ask
    requires call.CallCreate?
  {
    Ask(call.actor, call.provider, call.profile, call.now)
  }

  /** Fates are entered from what a call reports. */
  function BooksAfterCreate(limits: Limits, b: Books, call: Call): Books
    requires call.CallCreate?
  {
    var context := Context(call.provider, call.profile, |b.issued|);
    var (after, reply) := Create(limits, b.contexts, call.state, call.actor, context, call.now);
    var swept := EnterAll(b.issued, Expired(b.contexts, call.now), TimedOut);
    match reply
    case Created =>
      var issue := Issue(call.state, AskOf(call), Pending(limits, call.actor, context, call.now), Live);
      Books(after, EnterAll(swept, One(Purge(b.contexts, call.now), call.state), Overwritten) + [issue])
    case Refused(CapacityExceeded) => Books(after, swept)
    case Refused(ActorCapacityExceeded) => Books(after, swept)
    case _ => Books(after, b.issued)
  }

  function Answer(b: Books, call: Call): (Contexts, Reply)
    requires call.CallConsume?
  {
    Consume(b.contexts, call.state, call.provider, call.profile, call.actor, call.now)
  }

  function BooksAfterConsume(b: Books, call: Call): Books
    requires call.CallConsume?
  {
    var (after, reply) := Answer(b, call);
    match reply
    case Returned(_) => Books(after, EnterAll(b.issued, One(b.contexts, call.state), Consumed))
    case Refused(StateExpired) => Books(after, EnterAll(b.issued, One(b.contexts, call.state), TimedOut))
    case _ => Books(after, b.issued)
  }

  function Step(limits: Limits, b: Books, call: Call): Books {
    match call
    case CallCreate(_, _, _, _, _) => BooksAfterCreate(limits, b, call)
    case CallConsume(_, _, _, _, _) => BooksAfterConsume(b, call)
    case CallPurge(now) =>
      Books(Purge(b.contexts, now), EnterAll(b.issued, Expired(b.contexts, now), TimedOut))
    case CallDiscard(state) =>
      Books(b.contexts - {state}, EnterAll(b.issued, One(b.contexts, state), Discarded))
  }

  function Run(limits: Limits, calls: seq<Call>): Books {
    if calls == [] then OPENED else Step(limits, Run(limits, calls[..|calls| - 1]), calls[|calls| - 1])
  }

  predicate IsLive(issue: Issue, state: string, e: Entry<Context>) {
    issue.state == state && issue.entry == e && issue.fate == Live
  }

  /** Every pending entry is one that was issued, under the state it was issued for. */
  predicate LiveIsIssued(b: Books) {
    forall s :: s in b.contexts ==>
      var id := b.contexts[s].data.transaction;
      id < |b.issued| && IsLive(b.issued[id], s, b.contexts[s])
  }

  /** An issued context that has met no fate is pending; so it is pending exactly then. */
  predicate Conserved(b: Books) {
    forall id :: 0 <= id < |b.issued| ==>
      && b.issued[id].entry.data.transaction == id
      && (b.issued[id].fate == Live <==> Among(b.issued[id], b.contexts))
  }

  ghost predicate Balanced(b: Books) { LiveIsIssued(b) && Conserved(b) && "" !in b.contexts }

  predicate Part(part: Contexts, t: Contexts) { forall s :: s in part ==> s in t && t[s] == part[s] }

  predicate Parts(t: Contexts, left: Contexts, gone: Contexts) {
    && Part(gone, t) && Part(left, t)
    && forall s :: s in t ==> (s in left <==> s !in gone)
  }

  /** Taking entries out of the table and entering their fate keeps the books. */
  lemma TakeOut(b: Books, left: Contexts, gone: Contexts, fate: Fate)
    requires Balanced(b) && fate != Live && Parts(b.contexts, left, gone)
    ensures Balanced(Books(left, EnterAll(b.issued, gone, fate)))
  {
    var after := Books(left, EnterAll(b.issued, gone, fate));
    forall s | s in left
      ensures left[s].data.transaction < |after.issued| && IsLive(after.issued[left[s].data.transaction], s, left[s])
    {
      assert s in b.contexts;
    }
    forall id | 0 <= id < |after.issued|
      ensures after.issued[id].entry.data.transaction == id
      ensures after.issued[id].fate == Live <==> Among(after.issued[id], left)
    {
      TakeOutOne(b, left, gone, fate, id);
    }
  }

  lemma TakeOutOne(b: Books, left: Contexts, gone: Contexts, fate: Fate, id: nat)
    requires Conserved(b) && fate != Live && Parts(b.contexts, left, gone)
    requires id < |b.issued|
    ensures var issue := Enter(b.issued[id], gone, fate);
      issue.entry == b.issued[id].entry && (issue.fate == Live <==> Among(issue, left))
  {}

  lemma PutIn(b: Books, state: string, ask: Ask, e: Entry<Context>)
    requires Balanced(b) && state !in b.contexts && state != ""
    requires e.data.transaction == |b.issued|
    ensures Balanced(Books(b.contexts[state := e], b.issued + [Issue(state, ask, e, Live)]))
  {}

  lemma CreateBalances(limits: Limits, b: Books, call: Call)
    requires Balanced(b) && call.CallCreate?
    ensures Balanced(BooksAfterCreate(limits, b, call))
  {
    var left, gone := Purge(b.contexts, call.now), Expired(b.contexts, call.now);
    TakeOut(b, left, gone, TimedOut);
    CreateCases(limits, b, call);
    if BooksAfterCreate(limits, b, call) == Issued(limits, b, call) && call.state != "" {
      var e := Pending(limits, call.actor, Context(call.provider, call.profile, |b.issued|), call.now);
      Replace(Books(left, EnterAll(b.issued, gone, TimedOut)), call.state, AskOf(call), e);
    }
  }

  /** The books after a context was created: the expired left, then the one it replaces. */
  function Issued(limits: Limits, b: Books, call: Call): Books
    requires call.CallCreate?
  {
    var left, gone := Purge(b.contexts, call.now), Expired(b.contexts, call.now);
    var e := Pending(limits, call.actor, Context(call.provider, call.profile, |b.issued|), call.now);
    Books(left[call.state := e],
      EnterAll(EnterAll(b.issued, gone, TimedOut), One(left, call.state), Overwritten) + [Issue(call.state, AskOf(call), e, Live)])
  }

  lemma CreateCases(limits: Limits, b: Books, call: Call)
    requires call.CallCreate?
    ensures var r := BooksAfterCreate(limits, b, call);
      || r == b
      || r == Books(Purge(b.contexts, call.now), EnterAll(b.issued, Expired(b.contexts, call.now), TimedOut))
      || (call.state != "" && r == Issued(limits, b, call))
  {}

  lemma ConsumeCases(b: Books, call: Call)
    requires call.CallConsume?
    ensures var r := BooksAfterConsume(b, call); var left := b.contexts - {call.state};
      || r == b
      || r == Books(left, EnterAll(b.issued, One(b.contexts, call.state), Consumed))
      || r == Books(left, EnterAll(b.issued, One(b.contexts, call.state), TimedOut))
  {}

  lemma Replace(b: Books, state: string, ask: Ask, e: Entry<Context>)
    requires Balanced(b) && state != "" && e.data.transaction == |b.issued|
    ensures Balanced(Books(b.contexts[state := e], EnterAll(b.issued, One(b.contexts, state), Overwritten) + [Issue(state, ask, e, Live)]))
  {
    var former := One(b.contexts, state);
    TakeOut(b, b.contexts - {state}, former, Overwritten);
    assert (b.contexts - {state})[state := e] == b.contexts[state := e];
    PutIn(Books(b.contexts - {state}, EnterAll(b.issued, former, Overwritten)), state, ask, e);
  }

  lemma ConsumeBalances(b: Books, call: Call)
    requires Balanced(b) && call.CallConsume?
    ensures Balanced(BooksAfterConsume(b, call))
  {
    var left, one := b.contexts - {call.state}, One(b.contexts, call.state);
    ConsumeCases(b, call);
    TakeOut(b, left, one, Consumed);
    TakeOut(b, left, one, TimedOut);
  }

  lemma StepBalances(limits: Limits, b: Books, call: Call)
    requires Balanced(b)
    ensures Balanced(Step(limits, b, call))
  {
    match call
    case CallCreate(_, _, _, _, _) => CreateBalances(limits, b, call);
    case CallConsume(_, _, _, _, _) => ConsumeBalances(b, call);
    case CallPurge(now) => TakeOut(b, Purge(b.contexts, now), Expired(b.contexts, now), TimedOut);
    case CallDiscard(state) => TakeOut(b, b.contexts - {state}, One(b.contexts, state), Discarded);
  }

  /** Every entry stands for what was asked: its provider, profile and actor, and a lifetime that
      starts when it was asked for. */
  predicate Honest(limits: Limits, b: Books) {
    forall id :: 0 <= id < |b.issued| ==>
      var issue := b.issued[id];
      && issue.entry.actor == issue.ask.actor && issue.entry.expiresAt == issue.ask.at + limits.ttlMs
      && issue.entry.data.provider == issue.ask.provider && issue.entry.data.profile == issue.ask.profile
  }

  lemma StepHonest(limits: Limits, b: Books, call: Call)
    requires Honest(limits, b)
    ensures Honest(limits, Step(limits, b, call))
  {
    match call
    case CallCreate(_, _, _, _, _) => CreateCases(limits, b, call);
    case CallConsume(_, _, _, _, _) => ConsumeCases(b, call);
    case CallPurge(_) =>
    case CallDiscard(_) =>
  }

  /** Either a call only takes entries out, or it adds one for which there was room. */
  lemma StepShrinksOrFits(limits: Limits, b: Books, call: Call)
    ensures var after := Step(limits, b, call).contexts;
      || Part(after, b.contexts)
      || (call.CallCreate?
          && var left := Purge(b.contexts, call.now);
             var e := Pending(limits, call.actor, Context(call.provider, call.profile, |b.issued|), call.now);
             HasRoom(limits, left, call.actor) && after == left[call.state := e])
  {}

  lemma StepWithinLimits(limits: Limits, b: Books, call: Call)
    requires WithinLimits(limits, b.contexts)
    ensures WithinLimits(limits, Step(limits, b, call).contexts)
  {
    var after := Step(limits, b, call).contexts;
    StepShrinksOrFits(limits, b, call);
    if Part(after, b.contexts) {
      FewerWithinLimits(limits, b.contexts, after);
    } else {
      var left := Purge(b.contexts, call.now);
      FewerWithinLimits(limits, b.contexts, left);
      var e := Pending(limits, call.actor, Context(call.provider, call.profile, |b.issued|), call.now);
      InsertWithinLimits(limits, left, call.state, e);
    }
  }

  /** In every reachable state each issued context is pending or has exactly one fate, and the
      total and the per-actor limit hold. */
  lemma {:induction false} BooksBalance(limits: Limits, calls: seq<Call>)
    ensures Balanced(Run(limits, calls)) && WithinLimits(limits, Run(limits, calls).contexts)
    ensures Honest(limits, Run(limits, calls))
  {
    if calls != [] {
      BooksBalance(limits, calls[..|calls| - 1]);
      StepHonest(limits, Run(limits, calls[..|calls| - 1]), calls[|calls| - 1]);
      StepBalances(limits, Run(limits, calls[..|calls| - 1]), calls[|calls| - 1]);
      StepWithinLimits(limits, Run(limits, calls[..|calls| - 1]), calls[|calls| - 1]);
    } else {
      forall a ensures OfActor(OPENED.contexts, a) == {} {}
    }
  }

  ghost predicate Continues(b: Books, after: Books) {
    && |b.issued| <= |after.issued|
    && forall id :: 0 <= id < |b.issued| ==>
         && after.issued[id].(fate := Live) == b.issued[id].(fate := Live)
         && (b.issued[id].fate != Live ==> after.issued[id].fate == b.issued[id].fate)
  }

  lemma EnterContinues(b: Books, left: Contexts, gone: Contexts, fate: Fate)
    requires Conserved(b) && Part(gone, b.contexts)
    ensures Continues(b, Books(left, EnterAll(b.issued, gone, fate)))
  {}

  lemma CreateContinues(limits: Limits, b: Books, call: Call)
    requires Balanced(b) && call.CallCreate?
    ensures Continues(b, BooksAfterCreate(limits, b, call))
  {
    var left, gone := Purge(b.contexts, call.now), Expired(b.contexts, call.now);
    var swept := Books(left, EnterAll(b.issued, gone, TimedOut));
    TakeOut(b, left, gone, TimedOut);
    EnterContinues(b, left, gone, TimedOut);
    EnterContinues(swept, left, One(left, call.state), Overwritten);
    CreateCases(limits, b, call);
  }

  /** A fate is final, and what was issued is never rewritten. */
  lemma FatesAreFinal(limits: Limits, b: Books, call: Call)
    requires Balanced(b)
    ensures Continues(b, Step(limits, b, call))
  {
    match call
    case CallCreate(_, _, _, _, _) => CreateContinues(limits, b, call);
    case CallConsume(state, _, _, _, _) =>
      ConsumeCases(b, call);
      EnterContinues(b, b.contexts - {state}, One(b.contexts, state), Consumed);
      EnterContinues(b, b.contexts - {state}, One(b.contexts, state), TimedOut);
    case CallPurge(now) => EnterContinues(b, Purge(b.contexts, now), Expired(b.contexts, now), TimedOut);
    case CallDiscard(state) => EnterContinues(b, b.contexts - {state}, One(b.contexts, state), Discarded);
  }

  /** When a callback gets its context, told from the history alone: one was asked for under
      exactly this state, for this provider, profile and actor, has met no fate yet, and its
      lifetime since then is not over. */
  predicate Redeemable(limits: Limits, b: Books, id: nat, call: Call)
    requires call.CallConsume?
  {
    id < |b.issued| && b.issued[id].fate == Live && Fits(b.issued[id], call) && call.now < b.issued[id].ask.at + limits.ttlMs
  }

  predicate Fits(issue: Issue, call: Call)
    requires call.CallConsume?
  {
    && issue.state == call.state && issue.ask.provider == call.provider
    && (call.profile.Some? && issue.ask.profile.Some? ==> issue.ask.profile == call.profile)
    && (issue.ask.actor.Some? ==> issue.ask.actor == call.actor)
  }

  predicate Redeemed(limits: Limits, b: Books, e: Entry<Context>, call: Call, after: Books)
    requires call.CallConsume?
  {
    var id := e.data.transaction;
    && Redeemable(limits, b, id, call) && b.issued[id].entry == e
    && after.contexts == b.contexts - {call.state}
    && after.issued == b.issued[id := b.issued[id].(fate := Consumed)]
  }

  lemma RedeemableIsReturned(limits: Limits, b: Books, call: Call, id: nat)
    requires call.CallConsume? && Balanced(b) && Honest(limits, b) && Redeemable(limits, b, id, call)
    ensures Answer(b, call).1.Returned?
  {
    assert Among(b.issued[id], b.contexts);
  }

  lemma ReturnedIsRedeemable(limits: Limits, b: Books, call: Call)
    requires call.CallConsume? && Balanced(b) && Honest(limits, b) && Answer(b, call).1.Returned?
    ensures Answer(b, call).1.entry == b.contexts[call.state]
    ensures Redeemable(limits, b, Answer(b, call).1.entry.data.transaction, call)
    ensures b.issued[Answer(b, call).1.entry.data.transaction].entry == Answer(b, call).1.entry
  {}

  lemma ReturnedIsRedeemed(limits: Limits, b: Books, call: Call)
    requires call.CallConsume? && Balanced(b) && Honest(limits, b) && Answer(b, call).1.Returned?
    ensures Redeemed(limits, b, Answer(b, call).1.entry, call, BooksAfterConsume(b, call))
  {
    ReturnedIsRedeemable(limits, b, call);
    var id := Answer(b, call).1.entry.data.transaction;
    var one := One(b.contexts, call.state);
    var after := EnterAll(b.issued, one, Consumed);
    forall k | 0 <= k < |b.issued| ensures after[k] == if k == id then b.issued[k].(fate := Consumed) else b.issued[k] {
      assert k == id <==> Among(b.issued[k], one);
    }
    assert after == b.issued[id := b.issued[id].(fate := Consumed)];
  }

  lemma ConsumeReturnsIff(limits: Limits, calls: seq<Call>, call: Call)
    requires call.CallConsume?
    ensures var b := Run(limits, calls); var reply := Answer(b, call).1;
            && (reply.Returned? <==> exists id: nat :: Redeemable(limits, b, id, call))
            && (reply.Returned? ==> Redeemed(limits, b, reply.entry, call, Step(limits, b, call)))
            && (!reply.Returned? && reply != Refused(StateExpired) ==> Step(limits, b, call) == b)
  {
    var b := Run(limits, calls);
    BooksBalance(limits, calls);
    if Answer(b, call).1.Returned? { ReturnedIsRedeemed(limits, b, call); }
    if id: nat :| Redeemable(limits, b, id, call) { RedeemableIsReturned(limits, b, call, id); }
    RefusedChangesNothing(b, call);
  }

  lemma RefusedChangesNothing(b: Books, call: Call)
    requires call.CallConsume?
    ensures var reply := Answer(b, call).1;
      !reply.Returned? && reply != Refused(StateExpired) ==> BooksAfterConsume(b, call) == b
  {}

  // ---------------------------------------------------------------- who leaves, and why

  predicate Over(limits: Limits, issue: Issue, now: int) { issue.ask.at + limits.ttlMs <= now }

  /** The one way in which a call ends a pending context, told from what was asked. */
  function FateBy(limits: Limits, issue: Issue, call: Call, created: bool): Fate {
    match call
    case CallPurge(now) => if Over(limits, issue, now) then TimedOut else Live
    case CallDiscard(state) => if issue.state == state then Discarded else Live
    case CallConsume(_, _, _, _, now) =>
      if !Fits(issue, call) then Live else if Over(limits, issue, now) then TimedOut else Consumed
    case CallCreate(state, _, provider, _, now) =>
      if state == "" || provider == "" then Live
      else if Over(limits, issue, now) then TimedOut
      else if created && issue.state == state then Overwritten else Live
  }

  /** What a request for a context is answered, and what is entered for it: it needs a provider, a
      state, and room among the contexts that are not over. */
  lemma CreatesIff(limits: Limits, b: Books, call: Call)
    requires call.CallCreate?
    ensures var r := BooksAfterCreate(limits, b, call);
      var creates := call.provider != "" && call.state != "" && RoomFor(limits, b.contexts, call.actor, call.now);
      && |r.issued| == |b.issued| + (if creates then 1 else 0)
      && (creates ==> r.issued[|b.issued|].state == call.state && r.issued[|b.issued|].fate == Live
                      && r.issued[|b.issued|].ask == Ask(call.actor, call.provider, call.profile, call.now))
  {
    HasRoomIff(limits, b.contexts, call.actor, call.now);
  }

  /** Which answer a request for a context gets, by the first thing that is missing. */
  lemma CreateAnswers(limits: Limits, t: Contexts, state: string, actor: Option<string>, context: Context, now: int)
    ensures Create(limits, t, state, actor, context, now).1
      == if context.provider == "" then Refused(ProviderRequired)
         else if state == "" then NoState
         else if |set s | s in t && now < t[s].expiresAt| >= limits.maxEntries then Refused(CapacityExceeded)
         else if !RoomFor(limits, t, actor, now) then Refused(ActorCapacityExceeded)
         else Created
  {
    HasRoomIff(limits, t, actor, now);
    assert (set s | s in t && now < t[s].expiresAt) == Purge(t, now).Keys;
    assert |Purge(t, now).Keys| == |Purge(t, now)|;
  }

  /** Which answer a callback gets, told from the history: the state must be pending, then the
      provider, the profile, the actor and the lifetime are examined in this order. */
  lemma ConsumeAnswers(limits: Limits, calls: seq<Call>, call: Call)
    requires call.CallConsume?
    ensures var b := Run(limits, calls); var reply := Answer(b, call).1;
      && (call.state == "" ==> reply == NoState)
      && (call.state != "" && (forall id :: 0 <= id < |b.issued| && b.issued[id].fate == Live ==> b.issued[id].state != call.state)
          ==> reply == Refused(UnknownState))
      && forall id :: 0 <= id < |b.issued| && b.issued[id].fate == Live && b.issued[id].state == call.state ==>
           reply == AnswerFor(limits, b.issued[id], call)
  {
    var b := Run(limits, calls);
    BooksBalance(limits, calls);
    if call.state in b.contexts {
      assert b.issued[b.contexts[call.state].data.transaction].state == call.state;
    }
    forall id | 0 <= id < |b.issued| && b.issued[id].fate == Live && b.issued[id].state == call.state
      ensures Answer(b, call).1 == AnswerFor(limits, b.issued[id], call)
    {
      assert Among(b.issued[id], b.contexts);
    }
  }

  function AnswerFor(limits: Limits, issue: Issue, call: Call): Reply
    requires call.CallConsume?
  {
    if issue.ask.provider != call.provider then Refused(ProviderMismatch)
    else if call.profile.Some? && issue.ask.profile.Some? && issue.ask.profile != call.profile then Refused(ProfileMismatch)
    else if issue.ask.actor.Some? && issue.ask.actor != call.actor then Refused(ActorMismatch)
    else if Over(limits, issue, call.now) then Refused(StateExpired)
    else Returned(issue.entry)
  }

  /** Every pending context is ended by a call exactly when that is due, and in exactly that way. */
  lemma FateIs(limits: Limits, calls: seq<Call>, call: Call, id: nat)
    requires id < |Run(limits, calls).issued| && Run(limits, calls).issued[id].fate == Live
    ensures var b := Run(limits, calls); var after := Step(limits, b, call);
      id < |after.issued|
      && after.issued[id].fate == FateBy(limits, b.issued[id], call, |after.issued| > |b.issued|)
  {
    var b := Run(limits, calls);
    BooksBalance(limits, calls);
    assert Among(b.issued[id], b.contexts);
    match call
    case CallCreate(_, _, _, _, _) => CreateFate(limits, b, call, id);
    case CallConsume(_, _, _, _, _) => ConsumeFate(limits, b, call, id);
    case CallPurge(_) =>
    case CallDiscard(_) =>
  }

  lemma CreateFate(limits: Limits, b: Books, call: Call, id: nat)
    requires call.CallCreate? && Balanced(b) && Honest(limits, b) && id < |b.issued| && b.issued[id].fate == Live
    ensures var after := BooksAfterCreate(limits, b, call);
      id < |after.issued| && after.issued[id].fate == FateBy(limits, b.issued[id], call, |after.issued| > |b.issued|)
  {
    assert Among(b.issued[id], b.contexts);
    var issue, left := b.issued[id], Purge(b.contexts, call.now);
    assert Among(issue, left) <==> !Over(limits, issue, call.now);
    assert Among(issue, One(left, call.state)) <==> !Over(limits, issue, call.now) && issue.state == call.state;
  }

  lemma ConsumeFate(limits: Limits, b: Books, call: Call, id: nat)
    requires call.CallConsume? && Balanced(b) && Honest(limits, b) && id < |b.issued| && b.issued[id].fate == Live
    ensures var after := BooksAfterConsume(b, call);
      id < |after.issued| && after.issued[id].fate == FateBy(limits, b.issued[id], call, false)
  {
    assert Among(b.issued[id], b.contexts);
    assert Among(b.issued[id], One(b.contexts, call.state)) <==> b.issued[id].state == call.state;
  }

  predicate HandsOut(b: Books, call: Call, id: nat) {
    call.CallConsume? && Answer(b, call).1.Returned? && Answer(b, call).1.entry.data.transaction == id
  }

  /** How often a context was handed out over a run. */
  function Returns(limits: Limits, calls: seq<Call>, id: nat): nat {
    if calls == [] then 0
    else
      var front, call := calls[..|calls| - 1], calls[|calls| - 1];
      Returns(limits, front, id) + if HandsOut(Run(limits, front), call, id) then 1 else 0
  }

  predicate IsConsumed(b: Books, id: nat) { id < |b.issued| && b.issued[id].fate == Consumed }

  lemma ConsumedWhenHandedOut(limits: Limits, calls: seq<Call>, call: Call, id: nat)
    ensures var b := Run(limits, calls); var after := Step(limits, b, call);
      && (HandsOut(b, call, id) ==> !IsConsumed(b, id))
      && (IsConsumed(after, id) <==> IsConsumed(b, id) || HandsOut(b, call, id))
  {
    var b := Run(limits, calls);
    BooksBalance(limits, calls);
    FatesAreFinal(limits, b, call);
    if call.CallConsume? {
      ConsumeReturnsIff(limits, calls, call);
      if !Answer(b, call).1.Returned? { NothingConsumed(limits, b, call, id); }
    } else {
      NothingConsumed(limits, b, call, id);
    }
  }

  lemma NothingConsumed(limits: Limits, b: Books, call: Call, id: nat)
    requires Conserved(b)
    requires call.CallConsume? ==> !Answer(b, call).1.Returned?
    ensures IsConsumed(Step(limits, b, call), id) ==> IsConsumed(b, id)
  {
    if call.CallCreate? { CreateCases(limits, b, call); }
  }

  /** Single use: over any run, a context is handed out at most once, and exactly when its fate
      is Consumed. */
  lemma {:induction false} ReturnedOnce(limits: Limits, calls: seq<Call>, id: nat)
    ensures Returns(limits, calls, id) == if IsConsumed(Run(limits, calls), id) then 1 else 0
  {
    if calls != [] {
      ReturnedOnce(limits, calls[..|calls| - 1], id);
      ConsumedWhenHandedOut(limits, calls[..|calls| - 1], calls[|calls| - 1], id);
    }
  }
}
