/** What every run of the access and token services keeps. */
module PrincipalsTheorems {
  import opened Prelude
  import opened PrincipalsModel

  // ---------------------------------------------------------------- deleted names stay out

  /** A new list of users is safe to store when nobody new is behind the barrier and everybody
      who leaves is. */
  ghost predicate Safe(users: seq<User>, tombstones: seq<Tombstone>, next: seq<User>) {
    && (forall id :: HasUser(next, id) && !HasUser(users, id) ==> !Barred(tombstones, id))
    && (forall id :: HasUser(users, id) && !HasUser(next, id) ==> Barred(tombstones, id))
  }

  ghost predicate Extends(more: seq<Tombstone>, tombstones: seq<Tombstone>) {
    forall id :: Barred(tombstones, id) ==> Barred(more, id)
  }

  /** What an operation has loaded is still what is stored, since only one runs at a time; what it
      is about to store is safe. */
  ghost predicate AccessOk(s: System) {
    match s.access
    case Idle => true
    case LoadUsers(op) => !op.Replace?
    case LoadTombstones(op, users) =>
      !op.Update? && (!op.Replace? ==> users == s.users && (Closed(s) ==> s.flag) && (op.Bootstrap? ==> !Closed(s)))
    case ReplaceLoadUsers(op, tombstones) => op.Replace? && tombstones == s.tombstones && NamesFree(op.records, tombstones)
    case RevokeNext(op, _, next, tombstones) => Pending(s, op, next, tombstones)
    case RevokeEach(op, _, _, next, tombstones) => Pending(s, op, next, tombstones)
    case SaveTombstones(op, next, tombstones) => Pending(s, op, next, tombstones)
    case SaveUsers(op, next, completed) =>
      Safe(s.users, s.tombstones, next) && (Closed(s) ==> completed) && (op.Bootstrap? ==> !Closed(s))
  }

  ghost predicate Pending(s: System, op: Op, next: seq<User>, tombstones: seq<Tombstone>) {
    && !op.Bootstrap? && !op.Create? && Safe(s.users, tombstones, next) && Extends(tombstones, s.tombstones)
    && (Closed(s) ==> s.flag)
  }

  /** Bootstrapping is over for good once a user was ever stored. */
  predicate Closed(s: System) { s.completed || s.users != [] }

  lemma CreateIsSafe(users: seq<User>, tombstones: seq<Tombstone>, user: User)
    requires !Barred(tombstones, user.id)
    ensures Safe(users, tombstones, users + [user])
  {
    assert (users + [user])[..|users|] == users;
    HasUserSplit(users + [user]);
  }

  lemma ReplaceIsSafe(users: seq<User>, tombstones: seq<Tombstone>, records: seq<User>)
    requires NamesFree(records, tombstones)
    ensures Safe(users, BarRemoved(tombstones, users, records), records)
  {
    forall id | HasUser(records, id) ensures !Barred(tombstones, id) {
      var i :| 0 <= i < |records| && records[i].id == id;
    }
  }

  lemma DeleteIsSafe(users: seq<User>, tombstones: seq<Tombstone>, user: User)
    requires user in users
    ensures Safe(users, BarDeleted(tombstones, user), Without(users, user.id))
  {
    WithoutNames(users, user.id);
  }

  lemma DecideKeeps(s: System, op: Op, tombstones: seq<Tombstone>)
    requires tombstones == s.tombstones && (Closed(s) ==> s.flag)
    requires op.Bootstrap? ==> !Closed(s)
    requires op.Replace? ==> NamesFree(op.records, tombstones)
    ensures AccessOk(s.(access := Decide(op, s.users, tombstones, s.flag)))
  {
    match op
    case Create(user) => if !Barred(tombstones, user.id) { CreateIsSafe(s.users, tombstones, user); }
    case Bootstrap(user, _) => if !Barred(tombstones, user.id) { CreateIsSafe(s.users, tombstones, user); assert s.users + [user] == [user]; }
    case Delete(id) =>
      var user := FindUser(s.users, id);
      if user.Some? { DeleteIsSafe(s.users, tombstones, user.value); }
    case Replace(records, _) => ReplaceIsSafe(s.users, tombstones, records);
    case Update(_, _, _) =>
  }

  lemma UpdateIsSafe(users: seq<User>, tombstones: seq<Tombstone>, id: UserId, active: bool, details: int)
    ensures Safe(users, tombstones, Patched(users, id, active, details))
  {}

  lemma LoadKeeps(s: System, reply: Reply)
    requires AccessOk(s) && (s.access.LoadUsers? || s.access.LoadTombstones? || s.access.ReplaceLoadUsers?)
    ensures AccessOk(Advance(s, s.access, reply))
  {
    match s.access
    case LoadUsers(op) =>
      if op.Update? { UpdateIsSafe(s.users, s.tombstones, op.id, op.active, op.details); }
    case LoadTombstones(op, users) =>
      if reply == Ok && !op.Replace? { DecideKeeps(s, op, s.tombstones); }
    case ReplaceLoadUsers(op, tombstones) =>
      if reply == Ok { DecideKeeps(s.(flag := Flag(s)), op, tombstones); }
  }

  lemma AdvanceKeeps(s: System, reply: Reply)
    requires AccessOk(s)
    ensures AccessOk(Advance(s, s.access, reply))
  {
    if s.access.LoadUsers? || s.access.LoadTombstones? || s.access.ReplaceLoadUsers? { LoadKeeps(s, reply); }
  }

  /** Token operations leave the access service's stores alone. */
  lemma CallFrame(s: System, key: nat, call: Call, reply: Reply, id: TokenId, usage: Usage)
    ensures var r := AdvanceCall(s, key, call, reply, id, usage);
      && r.users == s.users && r.completed == s.completed && r.tombstones == s.tombstones && r.access == s.access
      && (s.flag ==> r.flag) && r.time == s.time
  {}

  lemma FrameKeeps(s: System, r: System)
    requires AccessOk(s)
    requires r.users == s.users && r.completed == s.completed && r.tombstones == s.tombstones && r.access == s.access
    requires s.flag ==> r.flag
    ensures AccessOk(r)
  {}

  lemma StepKeeps(s: System, a: Action)
    requires AccessOk(s) && Possible(s, a)
    ensures AccessOk(Do(s, a))
  {
    match a
    case Begin(_) =>
    case Proceed(reply) => AdvanceKeeps(s, reply); FrameKeeps(Advance(s, s.access, reply), Do(s, a));
    case BeginCall(_, _) => FrameKeeps(s, Do(s, a));
    case ProceedCall(key, reply, id, usage) =>
      CallFrame(s, key, s.calls[key], reply, id, usage);
      FrameKeeps(s, Do(s, a));
    case Restart =>
  }

  lemma {:induction false} RunKeeps(run: seq<System>, actions: seq<Action>, n: nat)
    requires IsRun(run, actions) && n < |run|
    ensures AccessOk(run[n]) && run[n].time == n
  {
    if n > 0 {
      RunKeeps(run, actions, n - 1);
      StepKeeps(run[n - 1], actions[n - 1]);
    }
  }

  predicate Gone(s: System, id: UserId) { !HasUser(s.users, id) && Barred(s.tombstones, id) }

  lemma AdvanceGone(s: System, reply: Reply, id: UserId)
    requires AccessOk(s)
    ensures var r := Advance(s, s.access, reply);
      Gone(s, id) || (HasUser(s.users, id) && !HasUser(r.users, id)) ==> Gone(r, id)
  {
    assert s.access.SaveUsers? || Advance(s, s.access, reply).users == s.users;
  }

  /** Nobody leaves the list without being barred, and nobody barred enters it. */
  lemma StepGone(s: System, a: Action, id: UserId)
    requires AccessOk(s) && Possible(s, a)
    ensures Gone(s, id) || (HasUser(s.users, id) && !HasUser(Do(s, a).users, id)) ==> Gone(Do(s, a), id)
  {
    match a
    case Proceed(reply) => AdvanceGone(s, reply, id);
    case ProceedCall(key, reply, tid, usage) => CallFrame(s, key, s.calls[key], reply, tid, usage);
    case _ =>
  }

  /** A name that has left the list of users, by deletion or replacement, never comes back and is
      behind the barrier from then on, in every interleaving and after every failure. */
  lemma {:induction false} RemovedStaysOut(run: seq<System>, actions: seq<Action>, i: nat, j: nat, k: nat, id: UserId)
    requires IsRun(run, actions) && i <= j <= k < |run|
    requires HasUser(run[i].users, id) && !HasUser(run[j].users, id)
    ensures Gone(run[k], id)
    decreases k
  {
    RunKeeps(run, actions, k - 1);
    StepGone(run[k - 1], actions[k - 1], id);
    if j < k {
      RemovedStaysOut(run, actions, i, j, k - 1, id);
    } else if !HasUser(run[k - 1].users, id) {
      RemovedStaysOut(run, actions, i, k - 1, k - 1, id);
    }
  }

  // ---------------------------------------------------------------- the bootstrap

  lemma StepClosed(s: System, a: Action)
    requires AccessOk(s) && Possible(s, a) && Closed(s)
    ensures Closed(Do(s, a))
  {
    if a.ProceedCall? { CallFrame(s, a.key, s.calls[a.key], a.reply, a.id, a.usage); }
  }

  lemma {:induction false} ClosedStays(run: seq<System>, actions: seq<Action>, i: nat, j: nat)
    requires IsRun(run, actions) && i <= j < |run| && Closed(run[i])
    ensures Closed(run[j])
    decreases j
  {
    if i < j {
      ClosedStays(run, actions, i, j - 1);
      RunKeeps(run, actions, j - 1);
      StepClosed(run[j - 1], actions[j - 1]);
    }
  }

  /** Once the bootstrap was marked complete or any user was stored, no bootstrap stores another
      one, even when all users have been removed again and after any number of restarts. */
  lemma BootstrapStaysClosed(run: seq<System>, actions: seq<Action>, i: nat, j: nat)
    requires IsRun(run, actions) && i <= j < |run| && Closed(run[i])
    ensures !(run[j].access.SaveUsers? && run[j].access.op.Bootstrap?)
    ensures Closed(run[j])
  {
    ClosedStays(run, actions, i, j);
    RunKeeps(run, actions, j);
  }

  // ---------------------------------------------------------------- tokens

  /** At that time the owner was the active user of the token's generation. */
  ghost predicate StillGood(run: seq<System>, at: nat, token: Token) { at < |run| && OwnedNow(run[at].users, token) }

  /** The token has no expiry, or a later one. */
  predicate InForce(t: Token, now: int) {
    t.grant.expiresAt.None? || now < t.grant.expiresAt.value
  }

  /** Until the time `at` the token was not revoked. */
  predicate Unspoiled(run: seq<System>, at: nat, id: TokenId) { at < |run| && !Revoked(run[at].tokens, id) }

  ghost predicate CallOk(run: seq<System>, n: nat, call: Call) {
    match call
    case AuthLookup(id, token, loaded, clock) =>
      loaded < n && Unspoiled(run, loaded, id) && !token.revoked && InForce(token, clock)
    case AuthSave(id, token, loaded, lookedUp, clock) =>
      && InForce(token, clock) && loaded < n && Unspoiled(run, loaded, id) && !token.revoked
      && lookedUp < n && StillGood(run, lookedUp, token)
    case _ => true
  }

  ghost predicate AcceptedOk(run: seq<System>, n: nat, a: Accepted) {
    && a.seen.lookedUp < n && StillGood(run, a.seen.lookedUp, a.token)
    && a.seen.checked < n && Unspoiled(run, a.seen.checked, a.id)
    && a.seen.loaded < n && Unspoiled(run, a.seen.loaded, a.id)
    && InForce(a.token, a.seen.clock)
  }

  ghost predicate CallsOk(run: seq<System>, n: nat)
    requires n < |run|
  {
    && (forall k :: k in run[n].calls ==> CallOk(run, n, run[n].calls[k]))
    && (forall i :: 0 <= i < |run[n].accepted| ==> AcceptedOk(run, n, run[n].accepted[i]))
  }

  lemma {:induction false} CallsKeep(run: seq<System>, actions: seq<Action>, n: nat)
    requires IsRun(run, actions) && n < |run|
    ensures CallsOk(run, n)
  {
    if n > 0 {
      CallsKeep(run, actions, n - 1);
      RunKeeps(run, actions, n - 1);
      CallStep(run, actions, n - 1);
    }
  }

  /** The calls and acceptances after a step are those before it, except the call that moved. */
  lemma CallStep(run: seq<System>, actions: seq<Action>, n: nat)
    requires n + 1 < |run| && n < |actions| && CallsOk(run, n) && run[n].time == n
    requires Possible(run[n], actions[n]) && run[n + 1] == Do(run[n], actions[n])
    ensures CallsOk(run, n + 1)
  {
    var s, a, r := run[n], actions[n], run[n + 1];
    match a
    case Begin(_) =>
    case Proceed(reply) => assert r.calls == s.calls && r.accepted == s.accepted by { AdvanceLeavesCalls(s, reply); }
    case Restart =>
    case BeginCall(key, call) =>
    case ProceedCall(key, reply, id, usage) =>
      assert CallOk(run, n, s.calls[key]);
      CallMoves(run, n, s.calls[key], reply, id, usage);
      forall k | k in r.calls ensures CallOk(run, n + 1, r.calls[k]) {
        assert k != key ==> r.calls[k] == s.calls[k];
      }
  }

  lemma AdvanceLeavesCalls(s: System, reply: Reply)
    ensures var r := Advance(s, s.access, reply); r.calls == s.calls && r.accepted == s.accepted
  {}

  lemma CallMoves(run: seq<System>, n: nat, call: Call, reply: Reply, id: TokenId, usage: Usage)
    requires n < |run| && CallOk(run, n, call)
    ensures var r := Respond(run[n].users, run[n].tokens, n, call, reply, id, usage);
      CallOk(run, n + 1, r.call) && (r.accepted.Some? ==> AcceptedOk(run, n + 1, r.accepted.value))
  {
    if call.AuthLookup? { OwnsIff(run[n].users, call.token); }
  }

  /** Deleted principals stay out: a token is accepted only if its owner was looked up before the
      shorter list of users was stored, however the token was made and whether or not it was
      revoked. Every acceptance rests on an active owner of the token's own generation, and on a
      token that had not expired when it was read. */
  lemma DeletedOwnerIsRefused(run: seq<System>, actions: seq<Action>, i: nat, j: nat, n: nat, id: UserId)
    requires IsRun(run, actions) && i <= j < |run| && n < |run|
    requires HasUser(run[i].users, id) && !HasUser(run[j].users, id)
    ensures forall x :: 0 <= x < |run[n].accepted| && run[n].accepted[x].token.owner == id ==>
      run[n].accepted[x].seen.lookedUp < j
    ensures forall x :: 0 <= x < |run[n].accepted| ==>
      && StillGood(run, run[n].accepted[x].seen.lookedUp, run[n].accepted[x].token)
      && InForce(run[n].accepted[x].token, run[n].accepted[x].seen.clock)
  {
    CallsKeep(run, actions, n);
    forall x | 0 <= x < |run[n].accepted| && run[n].accepted[x].token.owner == id
      ensures run[n].accepted[x].seen.lookedUp < j
    {
      var a := run[n].accepted[x];
      var k := a.seen.lookedUp;
      assert AcceptedOk(run, n, a) && HasUser(run[k].users, id);
      if j <= k { RemovedStaysOut(run, actions, i, j, k, id); }
    }
  }

  lemma StepRevoked(s: System, a: Action, id: TokenId)
    requires Possible(s, a) && Revoked(s.tokens, id)
    ensures Revoked(Do(s, a).tokens, id)
  {
    match a
    case Proceed(reply) => AdvanceRevoked(s, reply, id);
    case ProceedCall(key, reply, tid, usage) => CallRevoked(s, key, s.calls[key], reply, tid, usage, id);
    case _ =>
  }

  lemma AdvanceRevoked(s: System, reply: Reply, id: TokenId)
    requires Revoked(s.tokens, id)
    ensures Revoked(Advance(s, s.access, reply).tokens, id)
  {}

  lemma CallRevoked(s: System, key: nat, call: Call, reply: Reply, tid: TokenId, usage: Usage, id: TokenId)
    requires Revoked(s.tokens, id)
    ensures Revoked(AdvanceCall(s, key, call, reply, tid, usage).tokens, id)
  {}

  /** A stored revocation is never undone, also by an operation that read the token before. */
  lemma {:induction false} RevokedStays(run: seq<System>, actions: seq<Action>, i: nat, j: nat, id: TokenId)
    requires IsRun(run, actions) && i <= j < |run| && Revoked(run[i].tokens, id)
    ensures Revoked(run[j].tokens, id)
    decreases j
  {
    if i < j {
      RevokedStays(run, actions, i, j - 1, id);
      StepRevoked(run[j - 1], actions[j - 1], id);
    }
  }

  /** A revoked token is accepted only by a call that made its last check before the revocation:
      its save of the time of last use or, without one, its read of the token. */
  lemma RevokedIsRefused(run: seq<System>, actions: seq<Action>, j: nat, n: nat, id: TokenId)
    requires IsRun(run, actions) && j < |run| && n < |run| && Revoked(run[j].tokens, id)
    ensures forall x :: 0 <= x < |run[n].accepted| && run[n].accepted[x].id == id ==>
      run[n].accepted[x].seen.checked < j
  {
    CallsKeep(run, actions, n);
    forall x | 0 <= x < |run[n].accepted| && run[n].accepted[x].id == id
      ensures run[n].accepted[x].seen.checked < j
    {
      var a := run[n].accepted[x];
      assert AcceptedOk(run, n, a);
      if j <= a.seen.checked { RevokedStays(run, actions, j, a.seen.checked, id); }
    }
  }

  // ---------------------------------------------------------------- why the barrier is needed

  lemma Extend(run: seq<System>, actions: seq<Action>, a: Action) returns (run': seq<System>, actions': seq<Action>)
    requires IsRun(run, actions) && Possible(run[|actions|], a)
    ensures IsRun(run', actions') && run'[|actions'|] == Do(run[|actions|], a)
  {
    run', actions' := run + [Do(run[|actions|], a)], actions + [a];
  }

  const ANN: User := User(1, 1, true, 0)
  const FOREVER: Grant := Grant({}, None)

  /** The deletion has just listed the tokens to revoke: none. */
  lemma DeletionUnderWay() returns (run: seq<System>, actions: seq<Action>)
    ensures IsRun(run, actions)
    ensures var s := run[|actions|];
      && s.access == RevokeEach(Delete(1), [], [], [], [Tombstone(1, 1)])
      && s.users == [ANN] && s.tokens == map[] && s.calls == map[]
  {
    var s := System([ANN], true, [], map[], false, Idle, map[], [], 0);
    assert s.users[0].id == 1;
    assert HasUser(s.users, 1) && FindUser(s.users, 1) == Some(ANN);
    run, actions := [s], [];
    run, actions := Extend(run, actions, Begin(Delete(1)));
    run, actions := Extend(run, actions, Proceed(Ok));
    run, actions := Extend(run, actions, Proceed(Ok));
    assert Without([ANN], 1) == [];
    assert run[|actions|].access == RevokeNext(Delete(1), [1], [], [Tombstone(1, 1)]);
    assert Unrevoked(map[], 1) == [];
    run, actions := Extend(run, actions, Proceed(Ok));
  }

  /** A token for the user is created at that moment. */
  lemma TokenSlipsIn() returns (run: seq<System>, actions: seq<Action>)
    ensures IsRun(run, actions)
    ensures var s := run[|actions|];
      && s.access == RevokeEach(Delete(1), [], [], [], [Tombstone(1, 1)])
      && s.tokens == map[5 := Token(1, 1, 7, FOREVER, false, 0)]
  {
    run, actions := DeletionUnderWay();
    run, actions := Extend(run, actions, BeginCall(0, CreateLookup(1, 7, FOREVER)));
    assert Lookup([ANN], 1) == Some(ANN);
    run, actions := Extend(run, actions, ProceedCall(0, Ok, 5, Usage(false, 0)));
    assert run[|actions|].calls[0] == CreateSave(Token(1, 1, 7, FOREVER, false, 0));
    run, actions := Extend(run, actions, ProceedCall(0, Ok, 5, Usage(false, 0)));
  }

  /** Revoking the tokens of a user does not by itself keep the user out: a token created during
      the deletion is left unrevoked. Only the lookup of its owner refuses it. */
  lemma RevocationAloneIsNotEnough() returns (run: seq<System>, actions: seq<Action>)
    ensures IsRun(run, actions)
    ensures var r := run[|actions|];
      && r.access == Idle && Gone(r, 1)
      && 5 in r.tokens && r.tokens[5].owner == 1 && !r.tokens[5].revoked && !OwnedNow(r.users, r.tokens[5])
  {
    run, actions := TokenSlipsIn();
    run, actions := Extend(run, actions, Proceed(Ok));
    run, actions := Extend(run, actions, Proceed(Ok));
    run, actions := Extend(run, actions, Proceed(Ok));
    assert run[|actions|].tombstones == [Tombstone(1, 1)];
    run, actions := Extend(run, actions, Proceed(Ok));
    assert run[|actions|].tombstones[0].id == 1;
  }
}
