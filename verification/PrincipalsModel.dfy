/** Users, the barrier of deleted identities, and API tokens.

  The access service runs one mutation at a time but writes its store in several steps, each of
  which may fail, or take effect and still report an error. Token operations run beside it, any
  number at once. Restarting drops everything that is not in a store. */
module PrincipalsModel {
  import opened Prelude

  type UserId = nat
  type TokenId = nat

  /** `details` stands for names, role and times. */
  datatype User = User(id: UserId, generation: int, active: bool, details: int)

  datatype Tombstone = Tombstone(id: UserId, generation: int)

  /** `secret` stands for the hash of the bearer token. */
  datatype Token = Token(owner: UserId, generation: int, secret: int, grant: Grant, revoked: bool, details: int)

  /** What a token is good for, and how long. */
  datatype Grant = Grant(scopes: set<string>, expiresAt: Option<int>)

  predicate Expired(t: Token, now: int) { t.grant.expiresAt.Some? && t.grant.expiresAt.value <= now }

  // ---------------------------------------------------------------- lists

  predicate HasUser(users: seq<User>, id: UserId) { exists i :: 0 <= i < |users| && users[i].id == id }

  predicate Barred(tombstones: seq<Tombstone>, id: UserId) {
    exists i :: 0 <= i < |tombstones| && tombstones[i].id == id
  }

  /** The first user of that name. */
  function FindUser(users: seq<User>, id: UserId): (r: Option<User>)
    ensures r.Some? ==> r.value in users && r.value.id == id
    ensures r.None? <==> !HasUser(users, id)
  {
    if users == [] then None
    else if users[0].id == id then assert HasUser(users, id); Some(users[0])
    else
      var r := FindUser(users[1..], id);
      assert HasUser(users, id) <==> HasUser(users[1..], id) by {
        if HasUser(users, id) {
          var i :| 0 <= i < |users| && users[i].id == id;
          assert users[1..][i - 1].id == id;
        }
      }
      r
  }

  /** `#findActiveUser` as the token service sees it. */
  function Lookup(users: seq<User>, id: UserId): Option<User> {
    var user := FindUser(users, id);
    if user.Some? && user.value.active then user else None
  }

  /** The user at i is the one that counts for its name: the first of that name, and active. */
  predicate ActiveAt(users: seq<User>, i: nat, id: UserId) {
    i < |users| && users[i].id == id && users[i].active && forall j :: 0 <= j < i ==> users[j].id != id
  }

  /** What `#findActiveUser` finds, told from the list itself. */
  lemma {:induction false} LookupIs(users: seq<User>, id: UserId)
    ensures Lookup(users, id).Some? <==> exists i: nat :: ActiveAt(users, i, id)
    ensures forall i: nat :: ActiveAt(users, i, id) ==> Lookup(users, id) == Some(users[i])
  {
    if users != [] && users[0].id != id {
      var rest := users[1..];
      LookupIs(rest, id);
      assert Lookup(users, id) == Lookup(rest, id);
      forall i: nat ensures ActiveAt(rest, i, id) <==> ActiveAt(users, i + 1, id) {
        ShiftActive(users, i, id);
      }
      forall i: nat | ActiveAt(users, i, id) ensures i > 0 && ActiveAt(rest, i - 1, id) {
        ShiftActive(users, if i > 0 then i - 1 else 0, id);
      }
    } else if users != [] {
      assert users[0].active ==> ActiveAt(users, 0, id);
      assert forall i: nat :: ActiveAt(users, i, id) ==> i == 0;
    }
  }

  lemma ShiftActive(users: seq<User>, i: nat, id: UserId)
    requires users != [] && users[0].id != id
    ensures ActiveAt(users[1..], i, id) <==> ActiveAt(users, i + 1, id)
  {
    if i < |users| - 1 {
      assert users[1..][i] == users[i + 1];
      assert forall j :: 0 < j < i + 1 ==> users[j] == users[1..][j - 1];
      assert forall j :: 0 <= j < i ==> users[1..][j] == users[j + 1];
    }
  }

  function Without(users: seq<User>, id: UserId): seq<User> {
    if users == [] then []
    else
      var last := users[|users| - 1];
      Without(users[..|users| - 1], id) + if last.id == id then [] else [last]
  }

  lemma {:induction false} WithoutMembers(users: seq<User>, id: UserId)
    ensures forall u :: u in Without(users, id) <==> u in users && u.id != id
  {
    if users != [] {
      WithoutMembers(users[..|users| - 1], id);
      assert users == users[..|users| - 1] + [users[|users| - 1]];
    }
  }

  lemma WithoutNames(users: seq<User>, id: UserId)
    ensures forall u :: HasUser(Without(users, id), u) <==> HasUser(users, u) && u != id
  {
    var next := Without(users, id);
    WithoutMembers(users, id);
    forall u ensures HasUser(next, u) <==> HasUser(users, u) && u != id {
      if HasUser(next, u) {
        var i :| 0 <= i < |next| && next[i].id == u;
        assert next[i] in next;
      }
      if HasUser(users, u) && u != id {
        var i :| 0 <= i < |users| && users[i].id == u;
        assert users[i] in next;
      }
    }
  }

  /** A shorter list means that there was such a user. */
  lemma {:induction false} WithoutLength(users: seq<User>, id: UserId)
    ensures |Without(users, id)| <= |users|
    ensures |Without(users, id)| == |users| <==> !HasUser(users, id)
  {
    if users != [] {
      WithoutLength(users[..|users| - 1], id);
      HasUserSplit(users);
    }
  }

  lemma WithoutLast(users: seq<User>, user: User, id: UserId)
    ensures Without(users + [user], id) == Without(users, id) + if user.id == id then [] else [user]
  {
    assert (users + [user])[..|users|] == users;
  }

  /** Removing a name works place by place: every other user stays where it is among the rest. */
  lemma {:induction false} WithoutAround(before: seq<User>, behind: seq<User>, id: UserId)
    ensures Without(before + behind, id) == Without(before, id) + Without(behind, id)
    decreases |behind|
  {
    if behind == [] {
      assert before + behind == before;
    } else {
      var front, last := behind[..|behind| - 1], behind[|behind| - 1];
      WithoutAround(before, front, id);
      assert front + [last] == behind;
      Regroup(before, front, [last]);
      WithoutLast(before + front, last, id);
      WithoutLast(front, last, id);
      Regroup(Without(before, id), Without(front, id), if last.id == id then [] else [last]);
    }
  }

  lemma Regroup(a: seq<User>, b: seq<User>, c: seq<User>)
    ensures a + (b + c) == a + b + c
  {}

  /** The tombstones after `replaceUsers`: one more for every previous user who is not kept. */
  function BarRemoved(tombstones: seq<Tombstone>, previous: seq<User>, kept: seq<User>): (r: seq<Tombstone>)
    ensures tombstones <= r
    ensures forall id :: Barred(r, id) <==> Barred(tombstones, id) || (HasUser(previous, id) && !HasUser(kept, id))
    ensures forall i :: |tombstones| <= i < |r| ==>
      exists j :: 0 <= j < |previous| && r[i].id == previous[j].id && r[i].generation == previous[j].generation
  {
    if previous == [] then tombstones
    else
      var front, last := previous[..|previous| - 1], previous[|previous| - 1];
      var before := BarRemoved(tombstones, front, kept);
      assert forall id :: HasUser(previous, id) <==> HasUser(front, id) || last.id == id by { HasUserSplit(previous); }
      if HasUser(kept, last.id) || Barred(before, last.id) then before
      else
        var bar := Tombstone(last.id, last.generation);
        assert forall id :: Barred(before + [bar], id) <==> Barred(before, id) || id == last.id by { BarredSplit(before, bar); }
        before + [bar]
  }

  lemma HasUserSplit(users: seq<User>)
    requires users != []
    ensures forall id :: HasUser(users, id) <==> HasUser(users[..|users| - 1], id) || users[|users| - 1].id == id
  {
    forall id ensures HasUser(users, id) <==> HasUser(users[..|users| - 1], id) || users[|users| - 1].id == id {
      if HasUser(users[..|users| - 1], id) {
        var i :| 0 <= i < |users| - 1 && users[..|users| - 1][i].id == id;
        assert users[i].id == id;
      }
      if HasUser(users, id) && users[|users| - 1].id != id {
        var i :| 0 <= i < |users| && users[i].id == id;
        assert users[..|users| - 1][i].id == id;
      }
    }
  }

  lemma BarredSplit(tombstones: seq<Tombstone>, bar: Tombstone)
    ensures forall id :: Barred(tombstones + [bar], id) <==> Barred(tombstones, id) || id == bar.id
  {
    var r := tombstones + [bar];
    forall id ensures Barred(r, id) <==> Barred(tombstones, id) || id == bar.id {
      if id == bar.id { assert r[|tombstones|].id == id; }
      if Barred(tombstones, id) {
        var i :| 0 <= i < |tombstones| && tombstones[i].id == id;
        assert r[i].id == id;
      }
    }
  }

  /** The tombstones after `deleteUser`. */
  function BarDeleted(tombstones: seq<Tombstone>, user: User): (r: seq<Tombstone>)
    ensures forall id :: Barred(r, id) <==> Barred(tombstones, id) || id == user.id
    ensures !Barred(tombstones, user.id) ==> |r| == |tombstones| + 1 && r[|tombstones|].generation == user.generation
    ensures tombstones <= r
  {
    BarredSplit(tombstones, Tombstone(user.id, user.generation));
    if Barred(tombstones, user.id) then tombstones else tombstones + [Tombstone(user.id, user.generation)]
  }

  /** The first user of that name gets the patch. */
  function Patched(users: seq<User>, id: UserId, active: bool, details: int): (r: seq<User>)
    ensures |r| == |users| && forall i :: 0 <= i < |users| ==> r[i].id == users[i].id && r[i].generation == users[i].generation
    ensures forall u :: HasUser(r, u) <==> HasUser(users, u)
  {
    if users == [] then []
    else
      var r := if users[0].id == id then [users[0].(active := active, details := details)] + users[1..]
               else [users[0]] + Patched(users[1..], id, active, details);
      assert forall u :: HasUser(r, u) <==> HasUser(users, u) by {
        assert |r| == |users|;
        forall u ensures HasUser(r, u) <==> HasUser(users, u) { SameNames(r, users, u); }
      }
      r
  }

  lemma SameNames(a: seq<User>, b: seq<User>, u: UserId)
    requires |a| == |b| && forall i :: 0 <= i < |a| ==> a[i].id == b[i].id
    ensures HasUser(a, u) <==> HasUser(b, u)
  {
    if HasUser(a, u) { var i :| 0 <= i < |a| && a[i].id == u; assert b[i].id == u; }
    if HasUser(b, u) { var i :| 0 <= i < |b| && b[i].id == u; assert a[i].id == u; }
  }

  // ---------------------------------------------------------------- tokens

  type Tokens = map<TokenId, Token>

  /** A save never takes back a stored revocation. */
  function SaveToken(tokens: Tokens, id: TokenId, t: Token): Tokens {
    tokens[id := if id in tokens && tokens[id].revoked then t.(revoked := true) else t]
  }

  predicate Revoked(tokens: Tokens, id: TokenId) { id in tokens && tokens[id].revoked }

  // ---------------------------------------------------------------- operations

  datatype Op =
    | Create(user: User)
    | Bootstrap(user: User, proven: bool)
    | Update(id: UserId, active: bool, details: int)
    | Delete(id: UserId)
    | Replace(records: seq<User>, revoke: bool)

  /** Where the one running access operation stands. */
  datatype Access =
    | Idle
    | LoadUsers(op: Op)
    | LoadTombstones(op: Op, users: seq<User>)
    | ReplaceLoadUsers(op: Op, tombstones: seq<Tombstone>)
    | RevokeNext(op: Op, owners: seq<UserId>, next: seq<User>, tombstones: seq<Tombstone>)
    | RevokeEach(op: Op, todo: seq<(TokenId, Token)>, owners: seq<UserId>, next: seq<User>, tombstones: seq<Tombstone>)
    | SaveTombstones(op: Op, next: seq<User>, tombstones: seq<Tombstone>)
    | SaveUsers(op: Op, next: seq<User>, completed: bool)

  /** The times in `Seen` say when the token was read, its owner looked up, and when it was last
      made sure that it was not revoked. */
  datatype Seen = Seen(loaded: nat, lookedUp: nat, checked: nat, clock: int)

  datatype Call =
    | Ended
    | CreateLookup(owner: UserId, secret: int, grant: Grant)
    | CreateSave(token: Token)
    | AuthFind(secret: int)
    | AuthLoad(id: TokenId, secret: int)
    | AuthLookup(id: TokenId, token: Token, loaded: nat, clock: int)
    | AuthSave(id: TokenId, token: Token, loaded: nat, lookedUp: nat, clock: int)
    | RevokeLoad(id: TokenId)
    | RevokeSave(id: TokenId, token: Token)

  datatype Accepted = Accepted(id: TokenId, token: Token, seen: Seen)

  datatype System = System(
    users: seq<User>, completed: bool, tombstones: seq<Tombstone>, tokens: Tokens,
    flag: bool, access: Access, calls: map<nat, Call>, accepted: seq<Accepted>, time: nat)

  datatype Reply = Ok | Fail | Lost

  /** Whether the time of last use is to be stored, and what the clock says. */
  datatype Usage = Usage(touch: bool, now: int)

  /** In `ProceedCall`, `id` names the token to find or to create. */
  datatype Action =
    | Begin(op: Op)
    | Proceed(reply: Reply)
    | BeginCall(key: nat, call: Call)
    | ProceedCall(key: nat, reply: Reply, id: TokenId, usage: Usage)
    | Restart

  predicate Possible(s: System, a: Action) {
    match a
    case Begin(_) => s.access == Idle
    case BeginCall(key, call) => key !in s.calls && (call.CreateLookup? || call.AuthFind? || call.RevokeLoad?)
    case ProceedCall(key, _, _, _) => key in s.calls
    case _ => true
  }

  function Begun(op: Op): Access { if op.Replace? then LoadTombstones(op, []) else LoadUsers(op) }

  function Do(s: System, a: Action): System
    requires Possible(s, a)
  {
    var next := match a
      case Begin(op) => s.(access := Begun(op))
      case Proceed(reply) => Advance(s, s.access, reply)
      case BeginCall(key, call) => s.(calls := s.calls[key := call])
      case ProceedCall(key, reply, id, usage) => AdvanceCall(s, key, s.calls[key], reply, id, usage)
      case Restart => s.(access := Idle, calls := map[], flag := false);
    next.(time := s.time + 1)
  }

  /** Every load of the user list also refreshes the flag in memory. */
  function Flag(s: System): bool { s.flag || s.completed || s.users != [] }

  function SavingUsers(op: Op, next: seq<User>, flag: bool): Access {
    SaveUsers(op, next, op.Create? || op.Bootstrap? || flag || next != [])
  }

  predicate NamesFree(records: seq<User>, tombstones: seq<Tombstone>) {
    forall i :: 0 <= i < |records| ==> !Barred(tombstones, records[i].id)
  }

  /** `replaceUsers` revokes the tokens of everyone who is not kept with the same generation; of
      several records of one name the last counts. */
  function Changed(previous: seq<User>, records: seq<User>): seq<UserId> {
    if previous == [] then []
    else
      var kept := LastOf(records, previous[0].id);
      (if kept.None? || kept.value.generation != previous[0].generation then [previous[0].id] else [])
      + Changed(previous[1..], records)
  }

  function LastOf(users: seq<User>, id: UserId): Option<User> {
    if users == [] then None
    else if users[|users| - 1].id == id then Some(users[|users| - 1])
    else LastOf(users[..|users| - 1], id)
  }

  /** What an access operation goes on with once it has loaded users and tombstones. */
  function Decide(op: Op, users: seq<User>, tombstones: seq<Tombstone>, flag: bool): Access {
    match op
    case Create(user) =>
      if HasUser(users, user.id) || Barred(tombstones, user.id) then Idle else SavingUsers(op, users + [user], flag)
    case Bootstrap(user, _) => if Barred(tombstones, user.id) then Idle else SavingUsers(op, [user], flag)
    case Delete(id) =>
      var user := FindUser(users, id);
      if user.None? then Idle else RevokeNext(op, [id], Without(users, id), BarDeleted(tombstones, user.value))
    case Replace(records, revoke) =>
      RevokeNext(op, if revoke then Changed(users, records) else [], records, BarRemoved(tombstones, users, records))
    case Update(_, _, _) => Idle
  }

  function Advance(s: System, at: Access, reply: Reply): System {
    match at
    case Idle => s
    case LoadUsers(op) =>
      if reply != Ok then s.(access := Idle)
      else
        var loaded := s.(flag := Flag(s));
        if op.Bootstrap? && (Flag(s) || !op.proven) then loaded.(access := Idle)
        else if op.Update? then
          loaded.(access := if HasUser(s.users, op.id)
                            then SavingUsers(op, Patched(s.users, op.id, op.active, op.details), Flag(s)) else Idle)
        else loaded.(access := LoadTombstones(op, s.users))
    case LoadTombstones(op, users) =>
      if reply != Ok then s.(access := Idle)
      else if op.Replace? then
        s.(access := if NamesFree(op.records, s.tombstones) then ReplaceLoadUsers(op, s.tombstones) else Idle)
      else s.(access := Decide(op, users, s.tombstones, s.flag))
    case ReplaceLoadUsers(op, tombstones) =>
      if reply != Ok then s.(access := Idle)
      else s.(flag := Flag(s), access := Decide(op, s.users, tombstones, Flag(s)))
    case RevokeNext(op, owners, next, tombstones) =>
      if owners == [] then s.(access := SaveTombstones(op, next, tombstones))
      else if reply != Ok then s.(access := Idle)
      else s.(access := RevokeEach(op, Unrevoked(s.tokens, owners[0]), owners[1..], next, tombstones))
    case RevokeEach(op, todo, owners, next, tombstones) =>
      if todo == [] then s.(access := if reply == Ok then RevokeNext(op, owners, next, tombstones) else Idle)
      else
        var (id, token) := todo[0];
        s.(tokens := if reply == Fail then s.tokens else SaveToken(s.tokens, id, token.(revoked := true)),
           access := if reply == Ok then RevokeEach(op, todo[1..], owners, next, tombstones) else Idle)
    case SaveTombstones(op, next, tombstones) =>
      s.(tombstones := if reply == Fail then s.tombstones else tombstones,
         access := if reply == Ok then SavingUsers(op, next, s.flag) else Idle)
    case SaveUsers(_, next, completed) =>
      if reply == Fail then s.(access := Idle)
      else s.(users := next, completed := completed, flag := if reply == Ok then completed else s.flag, access := Idle)
  }

  /** The tokens of a user that are not revoked yet. */
  function Unrevoked(tokens: Tokens, owner: UserId): seq<(TokenId, Token)> {
    Listed(tokens, owner, set id | id in tokens)
  }

  function Highest(ids: set<TokenId>): (id: TokenId)
    requires ids != {}
    ensures id in ids && forall j :: j in ids ==> j <= id
  {
    HasHighest(ids);
    var id :| id in ids && forall j :: j in ids ==> j <= id;
    id
  }

  lemma HasHighest(ids: set<TokenId>)
    requires ids != {}
    ensures exists id :: id in ids && forall j :: j in ids ==> j <= id
  {
    var id :| id in ids;
    var rest := ids - {id};
    var top: TokenId;
    if rest == {} {
      top := id;
    } else {
      HasHighest(rest);
      var h :| h in rest && forall j :: j in rest ==> j <= h;
      top := if id <= h then h else id;
    }
    assert top in ids;
    forall j | j in ids ensures j <= top {
      assert j == id || j in rest;
    }
  }

  /** The store lists tokens in some order; here by number. */
  function Listed(tokens: Tokens, owner: UserId, ids: set<TokenId>): (r: seq<(TokenId, Token)>)
    requires ids <= tokens.Keys
    ensures forall p :: p in r <==> p.0 in ids && tokens[p.0] == p.1 && p.1.owner == owner && !p.1.revoked
  {
    if ids == {} then []
    else
      var id := Highest(ids);
      var r := Listed(tokens, owner, ids - {id});
      if tokens[id].owner == owner && !tokens[id].revoked then r + [(id, tokens[id])] else r
  }

  /** A token is good when its owner is an active user of the generation it was made for. */
  predicate Owns(users: seq<User>, token: Token) {
    var user := Lookup(users, token.owner);
    user.Some? && user.value.generation == token.generation
  }

  /** The owner of a token is active now, with the generation of the token. */
  ghost predicate OwnedNow(users: seq<User>, t: Token) {
    exists i: nat :: ActiveAt(users, i, t.owner) && users[i].generation == t.generation
  }

  lemma OwnsIff(users: seq<User>, t: Token)
    ensures Owns(users, t) <==> OwnedNow(users, t)
  {
    LookupIs(users, t.owner);
  }

  /** What a step of a token operation leaves: the tokens, where the operation stands, and the
      token it accepts, if any. */
  datatype Outcome = Outcome(tokens: Tokens, call: Call, accepted: Option<Accepted>)

  function Respond(users: seq<User>, tokens: Tokens, time: nat, call: Call, reply: Reply, id: TokenId, usage: Usage): Outcome {
    match call
    case Ended => Outcome(tokens, Ended, None)
    case CreateLookup(owner, secret, grant) =>
      var user := Lookup(users, owner);
      if reply != Ok || user.None? then Outcome(tokens, Ended, None)
      else Outcome(tokens, CreateSave(Token(owner, user.value.generation, secret, grant, false, 0)), None)
    case CreateSave(token) => Outcome(if reply == Fail then tokens else SaveToken(tokens, id, token), Ended, None)
    case AuthFind(secret) =>
      if reply == Ok && id in tokens && tokens[id].secret == secret then Outcome(tokens, AuthLoad(id, secret), None)
      else Outcome(tokens, Ended, None)
    case AuthLoad(tid, secret) =>
      if reply != Ok || tid !in tokens || tokens[tid].secret != secret || tokens[tid].revoked || Expired(tokens[tid], usage.now)
      then Outcome(tokens, Ended, None)
      else Outcome(tokens, AuthLookup(tid, tokens[tid], time, usage.now), None)
    case AuthLookup(tid, token, loaded, clock) =>
      if reply != Ok || !Owns(users, token) then Outcome(tokens, Ended, None)
      else if usage.touch then Outcome(tokens, AuthSave(tid, token, loaded, time, clock), None)
      else Outcome(tokens, Ended, Some(Accepted(tid, token, Seen(loaded, time, loaded, clock))))
    case AuthSave(tid, token, loaded, lookedUp, clock) =>
      var saved := if reply == Fail then tokens else SaveToken(tokens, tid, token);
      Outcome(saved, Ended,
        if reply == Ok && !saved[tid].revoked then Some(Accepted(tid, token, Seen(loaded, lookedUp, time, clock))) else None)
    case RevokeLoad(tid) =>
      if reply == Ok && tid in tokens && !tokens[tid].revoked then Outcome(tokens, RevokeSave(tid, tokens[tid]), None)
      else Outcome(tokens, Ended, None)
    case RevokeSave(tid, token) =>
      Outcome(if reply == Fail then tokens else SaveToken(tokens, tid, token.(revoked := true)), Ended, None)
  }

  /** Looking up a user also loads the list of users. */
  function AdvanceCall(s: System, key: nat, call: Call, reply: Reply, id: TokenId, usage: Usage): System {
    var r := Respond(s.users, s.tokens, s.time, call, reply, id, usage);
    s.(tokens := r.tokens, calls := s.calls[key := r.call],
       flag := if reply == Ok && (call.CreateLookup? || call.AuthLookup?) then Flag(s) else s.flag,
       accepted := s.accepted + if r.accepted.Some? then [r.accepted.value] else [])
  }

  /** Whatever the stores hold at first, nothing is running. */
  predicate AtRest(s: System) {
    s.access == Idle && s.calls == map[] && s.accepted == [] && !s.flag && s.time == 0
  }

  ghost predicate IsRun(run: seq<System>, actions: seq<Action>) {
    && |run| == |actions| + 1 && AtRest(run[0])
    && forall i :: 0 <= i < |actions| ==> Possible(run[i], actions[i]) && run[i + 1] == Do(run[i], actions[i])
  }
}
