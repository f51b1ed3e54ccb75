/** The access service over lists in memory: its operations change the lists step by step and are
  proved to end where the step machine of PrincipalsModel ends when nothing fails or interferes. */
module AccessManagementService {
  import opened Prelude
  import opened PrincipalsModel

  // ---------------------------------------------------------------- an operation on its own

  function Rank(at: Access): nat {
    match at
    case Idle => 0
    case SaveUsers(_, _, _) => 1
    case SaveTombstones(_, _, _) => 2
    case RevokeNext(_, _, _, _) => 3
    case RevokeEach(_, _, _, _, _) => 3
    case ReplaceLoadUsers(_, _) => 4
    case LoadTombstones(_, _) => 5
    case LoadUsers(_) => 6
  }

  /** How many owners and tokens are still to be revoked. */
  function Left(at: Access): (nat, nat) {
    match at
    case RevokeNext(_, owners, _, _) => (2 * |owners|, 0)
    case RevokeEach(_, todo, owners, _, _) => (2 * |owners| + 1, |todo|)
    case _ => (0, 0)
  }

  /** Run an operation to its end with nothing failing. */
  function Finish(s: System): System
    decreases Rank(s.access), Left(s.access).0, Left(s.access).1
  {
    if s.access == Idle then s else Finish(Advance(s, s.access, Ok))
  }

  function Performed(s: System, op: Op): System { Finish(s.(access := Begun(op))) }

  /** Where an operation stands once everything is loaded and checked. */
  function Decided(s: System, op: Op): Access {
    match op
    case Replace(records, _) => if NamesFree(records, s.tombstones) then Decide(op, s.users, s.tombstones, s.flag) else Idle
    case Update(id, active, details) =>
      if HasUser(s.users, id) then SavingUsers(op, Patched(s.users, id, active, details), s.flag) else Idle
    case Bootstrap(_, proven) => if s.flag || !proven then Idle else Decide(op, s.users, s.tombstones, s.flag)
    case _ => Decide(op, s.users, s.tombstones, s.flag)
  }

  lemma PerformedDecided(s: System, op: Op)
    requires s.access == Idle && Flag(s) == s.flag
    ensures Performed(s, op) == Finish(s.(access := Decided(s, op)))
  {
    var begun := s.(access := Begun(op));
    var once := Advance(begun, begun.access, Ok);
    assert Finish(begun) == Finish(once);
    if once.access != Idle && !op.Update? {
      assert Finish(once) == Finish(Advance(once, once.access, Ok));
      assert op.Replace? || Advance(once, once.access, Ok) == s.(access := Decided(s, op));
    }
  }

  lemma FinishSaveUsers(s: System)
    requires s.access.SaveUsers?
    ensures Finish(s) == s.(users := s.access.next, completed := s.access.completed, flag := s.access.completed, access := Idle)
  {}

  lemma PerformedUpdate(s: System, op: Op)
    requires s.access == Idle && Flag(s) == s.flag && op.Update?
    ensures Performed(s, op) == if HasUser(s.users, op.id)
      then s.(users := Patched(s.users, op.id, op.active, op.details), completed := true) else s
    ensures HasUser(s.users, op.id) ==> s.flag
  {
    PerformedDecided(s, op);
    if HasUser(s.users, op.id) { FinishSaveUsers(s.(access := Decided(s, op))); }
  }

  lemma PerformedDelete(s: System, id: UserId)
    requires s.access == Idle && Flag(s) == s.flag
    ensures var user := FindUser(s.users, id);
      Performed(s, Delete(id)) == if user.None? then s
      else s.(tokens := RevokeAll(s.tokens, id), users := Without(s.users, id),
              tombstones := BarDeleted(s.tombstones, user.value), completed := true)
    ensures HasUser(s.users, id) ==> s.flag
  {
    PerformedDecided(s, Delete(id));
    if HasUser(s.users, id) {
      FinishRevokeNext(s.(access := Decided(s, Delete(id))));
      RevokeOne(s.tokens, id);
    }
  }

  lemma PerformedReplace(s: System, records: seq<User>, revoke: bool)
    requires s.access == Idle && Flag(s) == s.flag
    ensures var flag := s.flag || records != [];
      Performed(s, Replace(records, revoke)) == if !NamesFree(records, s.tombstones) then s
      else s.(tokens := if revoke then RevokeOwners(s.tokens, Changed(s.users, records)) else s.tokens, users := records,
              tombstones := BarRemoved(s.tombstones, s.users, records), completed := flag, flag := flag)
  {
    var op := Replace(records, revoke);
    PerformedDecided(s, op);
    if NamesFree(records, s.tombstones) { FinishRevokeNext(s.(access := Decided(s, op))); }
  }

  lemma FinishSaveTombstones(s: System)
    requires s.access.SaveTombstones?
    ensures var a := s.access; var flag := a.op.Create? || a.op.Bootstrap? || s.flag || a.next != [];
      Finish(s) == s.(users := a.next, tombstones := a.tombstones, completed := flag, flag := flag, access := Idle)
  {
    FinishSaveUsers(Advance(s, s.access, Ok));
  }

  function SaveAll(tokens: Tokens, todo: seq<(TokenId, Token)>): Tokens
    decreases |todo|
  {
    if todo == [] then tokens else SaveAll(SaveToken(tokens, todo[0].0, todo[0].1.(revoked := true)), todo[1..])
  }

  /** The tokens after `revokeTokensForUser`. */
  function RevokeAll(tokens: Tokens, owner: UserId): Tokens {
    map id | id in tokens :: if tokens[id].owner == owner then tokens[id].(revoked := true) else tokens[id]
  }

  function RevokeOwners(tokens: Tokens, owners: seq<UserId>): Tokens
    decreases |owners|
  {
    if owners == [] then tokens else RevokeOwners(RevokeAll(tokens, owners[0]), owners[1..])
  }

  predicate Lists(todo: seq<(TokenId, Token)>, id: TokenId) { exists i :: 0 <= i < |todo| && todo[i].0 == id }

  function RevokeListed(tokens: Tokens, todo: seq<(TokenId, Token)>): Tokens {
    map id | id in tokens :: if Lists(todo, id) then tokens[id].(revoked := true) else tokens[id]
  }

  /** The listed tokens are the stored ones, except perhaps that they are not revoked yet. */
  predicate Current(tokens: Tokens, todo: seq<(TokenId, Token)>) {
    forall i :: 0 <= i < |todo| ==>
      todo[i].0 in tokens && tokens[todo[i].0].(revoked := true) == todo[i].1.(revoked := true)
  }

  lemma ListsFirst(todo: seq<(TokenId, Token)>, id: TokenId)
    requires todo != []
    ensures Lists(todo, id) <==> todo[0].0 == id || Lists(todo[1..], id)
  {
    if Lists(todo[1..], id) {
      var i :| 0 <= i < |todo[1..]| && todo[1..][i].0 == id;
      assert todo[i + 1].0 == id;
    }
    if Lists(todo, id) && todo[0].0 != id {
      var i :| 0 <= i < |todo| && todo[i].0 == id;
      assert todo[1..][i - 1].0 == id;
    }
  }

  /** Saving some revocations one by one revokes exactly the listed tokens. */
  lemma {:induction false} SaveAllAt(tokens: Tokens, todo: seq<(TokenId, Token)>)
    requires Current(tokens, todo)
    ensures SaveAll(tokens, todo) == RevokeListed(tokens, todo)
    decreases |todo|
  {
    if todo == [] {
      assert RevokeListed(tokens, todo) == tokens;
    } else {
      var (id, token) := todo[0];
      var after := SaveToken(tokens, id, token.(revoked := true));
      assert after == tokens[id := tokens[id].(revoked := true)];
      assert Current(after, todo[1..]);
      SaveAllAt(after, todo[1..]);
      forall k | k in tokens ensures RevokeListed(after, todo[1..])[k] == RevokeListed(tokens, todo)[k] {
        ListsFirst(todo, k);
      }
      assert RevokeListed(after, todo[1..]) == RevokeListed(tokens, todo);
    }
  }

  lemma UnrevokedSaved(tokens: Tokens, owner: UserId)
    ensures SaveAll(tokens, Unrevoked(tokens, owner)) == RevokeAll(tokens, owner)
  {
    var todo := Unrevoked(tokens, owner);
    forall i | 0 <= i < |todo|
      ensures todo[i].0 in tokens && tokens[todo[i].0].(revoked := true) == todo[i].1.(revoked := true)
    {
      assert todo[i] in todo;
    }
    SaveAllAt(tokens, todo);
    forall id | id in tokens
      ensures Lists(todo, id) <==> tokens[id].owner == owner && !tokens[id].revoked
    {
      if tokens[id].owner == owner && !tokens[id].revoked { assert (id, tokens[id]) in todo; }
      if Lists(todo, id) {
        var i :| 0 <= i < |todo| && todo[i].0 == id;
        assert todo[i] in todo;
      }
    }
    assert RevokeListed(tokens, todo) == RevokeAll(tokens, owner);
  }

  lemma {:induction false} FinishRevokeEach(s: System)
    requires s.access.RevokeEach?
    ensures var a := s.access;
      Finish(s) == Finish(s.(tokens := SaveAll(s.tokens, a.todo), access := RevokeNext(a.op, a.owners, a.next, a.tombstones)))
    decreases |s.access.todo|
  {
    if s.access.todo != [] { FinishRevokeEach(Advance(s, s.access, Ok)); }
  }

  lemma {:induction false} FinishRevokeNext(s: System)
    requires s.access.RevokeNext?
    ensures var a := s.access; var flag := a.op.Create? || a.op.Bootstrap? || s.flag || a.next != [];
      Finish(s) == s.(tokens := RevokeOwners(s.tokens, a.owners), users := a.next, tombstones := a.tombstones,
                      completed := flag, flag := flag, access := Idle)
    decreases |s.access.owners|
  {
    var a := s.access;
    var r := Advance(s, a, Ok);
    if a.owners == [] {
      FinishSaveTombstones(r);
    } else {
      FinishRevokeEach(r);
      UnrevokedSaved(s.tokens, a.owners[0]);
      FinishRevokeNext(r.(tokens := RevokeAll(s.tokens, a.owners[0]), access := RevokeNext(a.op, a.owners[1..], a.next, a.tombstones)));
    }
  }

  // ---------------------------------------------------------------- the services

  datatype Result = Done | AlreadyExists | DeletionBarrier | NotFound | BootstrapClosed | BootstrapProofInvalid

  datatype Authentication =
    | Unknown
    | Denied(id: TokenId)
    | Admitted(id: TokenId, owner: UserId, scopes: set<string>)

  class ApiTokenService {
    var tokens: Tokens

    constructor ()
      ensures tokens == map[]
    {
      tokens := map[];
    }

    method Save(id: TokenId, token: Token) returns (saved: Token)
      modifies this
      ensures tokens == SaveToken(old(tokens), id, token) && saved == tokens[id]
    {
      if id in tokens && tokens[id].revoked && !token.revoked {
        tokens := tokens[id := token.(revoked := true)];
      } else {
        tokens := tokens[id := token];
      }
      saved := tokens[id];
    }

    method RevokeTokensForUser(owner: UserId) returns (count: nat)
      modifies this
      ensures tokens == RevokeAll(old(tokens), owner)
      ensures count == |Unrevoked(old(tokens), owner)|
    {
      var todo := Unrevoked(tokens, owner);
      UnrevokedSaved(tokens, owner);
      count := 0;
      while count < |todo|
        invariant count <= |todo|
        invariant SaveAll(tokens, todo[count..]) == SaveAll(old(tokens), todo)
      {
        assert todo[count..][0] == todo[count] && todo[count..][1..] == todo[count + 1..];
        var _ := Save(todo[count].0, todo[count].1.(revoked := true));
        count := count + 1;
      }
      assert todo[count..] == [];
    }

    /** A token is bound to the generation its owner has now, and to the scopes and the expiry asked for. */
    method CreateToken(users: seq<User>, owner: UserId, id: TokenId, secret: int, grant: Grant) returns (ok: bool)
      requires id !in tokens
      modifies this
      ensures ok <==> exists i: nat :: ActiveAt(users, i, owner)
      ensures forall i: nat :: ActiveAt(users, i, owner) ==>
        tokens == old(tokens)[id := Token(owner, users[i].generation, secret, grant, false, 0)]
      ensures !ok ==> tokens == old(tokens)
    {
      LookupIs(users, owner);
      var principal := Lookup(users, owner);
      if principal.None? { return false; }
      var _ := Save(id, Token(owner, principal.value.generation, secret, grant, false, 0));
      return true;
    }

    /** Revoking twice changes nothing the second time. */
    method RevokeToken(id: TokenId) returns (found: bool)
      modifies this
      ensures found <==> id in old(tokens)
      ensures tokens.Keys == old(tokens).Keys && (found ==> Revoked(tokens, id))
      ensures forall k :: k in tokens && (k != id || Revoked(old(tokens), k)) ==> tokens[k] == old(tokens)[k]
      ensures found ==> tokens[id] == old(tokens)[id].(revoked := true)
    {
      if id !in tokens { return false; }
      if !tokens[id].revoked { var _ := Save(id, tokens[id].(revoked := true)); }
      return true;
    }

    /** The bearer of a secret is let in exactly when the first token found with this secret is
        neither revoked nor expired and its owner is an active user of the same generation. The
        answer carries the owner and scopes of that token. */
    method Authenticate(users: seq<User>, secret: int, touch: bool, now: int) returns (r: Authentication)
      modifies this
      ensures r.Unknown? <==> forall id :: id in old(tokens) ==> old(tokens)[id].secret != secret
      ensures !r.Unknown? ==>
        && r.id in old(tokens) && old(tokens)[r.id].secret == secret
        && var t := old(tokens)[r.id];
           r.Admitted? <==> !t.revoked && (t.grant.expiresAt.Some? ==> now < t.grant.expiresAt.value) && OwnedNow(users, t)
      ensures r.Admitted? ==> r.owner == old(tokens)[r.id].owner && r.scopes == old(tokens)[r.id].grant.scopes
      ensures tokens == if r.Admitted? && touch then old(tokens)[r.id := old(tokens)[r.id].(details := now)] else old(tokens)
    {
      var ids := tokens.Keys;
      while ids != {}
        invariant ids <= tokens.Keys && tokens == old(tokens)
        invariant forall id :: id in tokens && id !in ids ==> tokens[id].secret != secret
        decreases ids
      {
        var id :| id in ids;
        ids := ids - {id};
        if tokens[id].secret == secret {
          var apiToken := tokens[id];
          OwnsIff(users, apiToken);
          if apiToken.revoked || Expired(apiToken, now) || !Owns(users, apiToken) { return Denied(id); }
          if touch { var _ := Save(id, apiToken.(details := now)); }
          return Admitted(id, apiToken.owner, apiToken.grant.scopes);
        }
      }
      return Unknown;
    }
  }

  class AccessManagementService {
    const apiTokenService: ApiTokenService
    var users: seq<User>
    var principalTombstones: seq<Tombstone>
    var bootstrapCompleted: bool

    ghost predicate Valid()
      reads this
    {
      users != [] ==> bootstrapCompleted
    }

    /** Nobody in the list is behind the barrier. A deletion that failed between its two saves
        leaves a state in which this does not hold. */
    ghost predicate Separate()
      reads this
    {
      forall id :: HasUser(users, id) ==> !Barred(principalTombstones, id)
    }

    ghost function State(): System
      reads this, apiTokenService
    {
      System(users, bootstrapCompleted, principalTombstones, apiTokenService.tokens, bootstrapCompleted, Idle, map[], [], 0)
    }

    constructor (apiTokenService: ApiTokenService)
      ensures Valid() && Separate() && this.apiTokenService == apiTokenService
      ensures users == [] && principalTombstones == [] && !bootstrapCompleted
    {
      this.apiTokenService := apiTokenService;
      users, principalTombstones, bootstrapCompleted := [], [], false;
    }

    method CreateUser(user: User) returns (r: Result)
      requires Valid()
      modifies this
      ensures old(Separate()) ==> Separate()
      ensures Valid() && State() == Performed(old(State()), Create(user))
      ensures r == if HasUser(old(users), user.id) then AlreadyExists
                   else if Barred(old(principalTombstones), user.id) then DeletionBarrier else Done
      ensures users == if r == Done then old(users) + [user] else old(users)
    {
      ghost var s := State();
      PerformedDecided(s, Create(user));
      var found := Known(user.id);
      if found { return AlreadyExists; }
      var barred := Blocked(user.id);
      if barred { return DeletionBarrier; }
      FinishSaveUsers(s.(access := Decided(s, Create(user))));
      HasUserSplit(users + [user]);
      assert (users + [user])[..|users|] == users;
      users, bootstrapCompleted := users + [user], true;
      return Done;
    }

    method BootstrapFirstAdministrator(user: User, proven: bool) returns (r: Result)
      requires Valid()
      modifies this
      ensures old(Separate()) ==> Separate()
      ensures Valid() && State() == Performed(old(State()), Bootstrap(user, proven))
      ensures r == if old(bootstrapCompleted) then BootstrapClosed else if !proven then BootstrapProofInvalid
                   else if Barred(old(principalTombstones), user.id) then DeletionBarrier else Done
      ensures users == if r == Done then [user] else old(users)
    {
      ghost var s := State();
      ghost var op := Bootstrap(user, proven);
      PerformedDecided(s, op);
      if bootstrapCompleted || |users| > 0 { return BootstrapClosed; }
      if !proven { return BootstrapProofInvalid; }
      var barred := Blocked(user.id);
      if barred { return DeletionBarrier; }
      FinishSaveUsers(s.(access := Decided(s, op)));
      users, bootstrapCompleted := [user], true;
      return Done;
    }

    method UpdateUser(id: UserId, active: bool, details: int) returns (r: Result)
      requires Valid()
      modifies this
      ensures old(Separate()) ==> Separate()
      ensures Valid() && State() == Performed(old(State()), Update(id, active, details))
      ensures r == if HasUser(old(users), id) then Done else NotFound
      ensures users == Patched(old(users), id, active, details)
    {
      ghost var s := State();
      ghost var op := Update(id, active, details);
      PerformedUpdate(s, op);
      var index := FindIndex(id);
      if index == |users| { PatchedNone(users, id, active, details); return NotFound; }
      PatchedAt(users, index, active, details);
      users := users[index := users[index].(active := active, details := details)];
      return Done;
    }

    /** The first user of that name, or the length of the list. */
    method FindIndex(id: UserId) returns (index: nat)
      ensures index <= |users| && (index < |users| ==> users[index].id == id)
      ensures forall i :: 0 <= i < index ==> users[i].id != id
      ensures index < |users| <==> HasUser(users, id)
    {
      index := 0;
      while index < |users| && users[index].id != id
        invariant index <= |users|
        invariant forall i :: 0 <= i < index ==> users[i].id != id
      {
        index := index + 1;
      }
    }

    method DeleteUser(id: UserId) returns (r: Result)
      requires Valid()
      modifies this, apiTokenService
      ensures old(Separate()) ==> Separate()
      ensures Valid() && State() == Performed(old(State()), Delete(id))
      ensures r == if HasUser(old(users), id) then Done else NotFound
      ensures r == Done ==> !HasUser(users, id) && Barred(principalTombstones, id)
      ensures forall u :: u != id ==> (HasUser(users, u) <==> HasUser(old(users), u))
      ensures r == Done ==> apiTokenService.tokens == RevokeAll(old(apiTokenService.tokens), id)
    {
      ghost var s := State();
      PerformedDelete(s, id);
      var deleted := FindUser(users, id);
      var next := Without(users, id);
      WithoutLength(users, id);
      if |next| == |users| { return NotFound; }
      var _ := apiTokenService.RevokeTokensForUser(id);
      var barred := Blocked(id);
      if !barred {
        principalTombstones := principalTombstones + [Tombstone(deleted.value.id, deleted.value.generation)];
      }
      WithoutNames(users, id);
      users, bootstrapCompleted := next, bootstrapCompleted || |next| > 0;
      return Done;
    }

    method ReplaceUsers(records: seq<User>, skipTokenRevocation: bool) returns (r: Result)
      requires Valid()
      modifies this, apiTokenService
      ensures old(Separate()) ==> Separate()
      ensures Valid() && State() == Performed(old(State()), Replace(records, !skipTokenRevocation))
      ensures r == if NamesFree(records, old(principalTombstones)) then Done else DeletionBarrier
      ensures r == Done ==> users == records && Separate()
      ensures r == Done ==> forall id :: Barred(principalTombstones, id) <==>
        Barred(old(principalTombstones), id) || (HasUser(old(users), id) && !HasUser(records, id))
      ensures r == Done && !skipTokenRevocation ==>
        RevokedFor(old(apiTokenService.tokens), apiTokenService.tokens, old(users), records)
      ensures r != Done || skipTokenRevocation ==> apiTokenService.tokens == old(apiTokenService.tokens)
    {
      PerformedReplace(State(), records, !skipTokenRevocation);
      var free := AllFree(records);
      if !free { return DeletionBarrier; }
      var nextTombstones := BarAll(records);
      if !skipTokenRevocation { RevokeChanged(records); }
      ReplacedAreFree(users, principalTombstones, records);
      principalTombstones := nextTombstones;
      users, bootstrapCompleted := records, bootstrapCompleted || |records| > 0;
      return Done;
    }

    method AllFree(records: seq<User>) returns (free: bool)
      ensures free == NamesFree(records, principalTombstones)
    {
      var i := 0;
      while i < |records|
        invariant i <= |records|
        invariant forall j :: 0 <= j < i ==> !Barred(principalTombstones, records[j].id)
      {
        var barred := Blocked(records[i].id);
        if barred { return false; }
        i := i + 1;
      }
      return true;
    }

    /** The tombstones are pushed one by one while the previous users are walked. */
    method BarAll(records: seq<User>) returns (nextTombstones: seq<Tombstone>)
      ensures nextTombstones == BarRemoved(principalTombstones, users, records)
    {
      nextTombstones := principalTombstones;
      var i := 0;
      while i < |users|
        invariant i <= |users|
        invariant nextTombstones == BarRemoved(principalTombstones, users[..i], records)
      {
        assert users[..i + 1][..i] == users[..i];
        var previous := users[i];
        if FindUser(records, previous.id).None? {
          var found := Listed(nextTombstones, previous.id);
          if !found { nextTombstones := nextTombstones + [Tombstone(previous.id, previous.generation)]; }
        }
        i := i + 1;
      }
      assert users[..i] == users;
    }

    method RevokeChanged(records: seq<User>)
      modifies apiTokenService
      ensures apiTokenService.tokens == RevokeOwners(old(apiTokenService.tokens), Changed(users, records))
      ensures RevokedFor(old(apiTokenService.tokens), apiTokenService.tokens, users, records)
    {
      RevokeOwnersIs(apiTokenService.tokens, Changed(users, records));
      ChangedAre(users, records);
      var i := 0;
      while i < |users|
        invariant i <= |users|
        invariant RevokeOwners(apiTokenService.tokens, Changed(users[i..], records))
                  == RevokeOwners(old(apiTokenService.tokens), Changed(users, records))
      {
        assert users[i..][0] == users[i] && users[i..][1..] == users[i + 1..];
        var next := LastOf(records, users[i].id);
        if next.None? || next.value.generation != users[i].generation {
          ghost var owners := Changed(users[i..], records);
          assert owners[0] == users[i].id && owners[1..] == Changed(users[i + 1..], records);
          var _ := apiTokenService.RevokeTokensForUser(users[i].id);
        } else {
          assert Changed(users[i..], records) == Changed(users[i + 1..], records);
        }
        i := i + 1;
      }
    }

    method Known(id: UserId) returns (found: bool)
      ensures found == HasUser(users, id)
    {
      found := FindUser(users, id).Some?;
    }

    method Blocked(id: UserId) returns (found: bool)
      ensures found == Barred(principalTombstones, id)
    {
      found := Listed(principalTombstones, id);
    }

    method Listed(tombstones: seq<Tombstone>, id: UserId) returns (found: bool)
      ensures found == Barred(tombstones, id)
    {
      var i := 0;
      while i < |tombstones|
        invariant i <= |tombstones| && forall j :: 0 <= j < i ==> tombstones[j].id != id
      {
        if tombstones[i].id == id { return true; }
        i := i + 1;
      }
      return false;
    }
  }

  lemma {:induction false} PatchedAt(users: seq<User>, i: nat, active: bool, details: int)
    requires i < |users| && forall j :: 0 <= j < i ==> users[j].id != users[i].id
    ensures Patched(users, users[i].id, active, details)
            == users[i := users[i].(active := active, details := details)]
  {
    if i > 0 {
      assert users[1..][i - 1] == users[i];
      PatchedAt(users[1..], i - 1, active, details);
    }
  }

  lemma {:induction false} PatchedNone(users: seq<User>, id: UserId, active: bool, details: int)
    requires forall j :: 0 <= j < |users| ==> users[j].id != id
    ensures Patched(users, id, active, details) == users
  {
    if users != [] { PatchedNone(users[1..], id, active, details); }
  }

  lemma RevokeOne(tokens: Tokens, id: UserId)
    ensures RevokeOwners(tokens, [id]) == RevokeAll(tokens, id)
  {
    assert [id][1..] == [];
  }

  /** The user is kept: of the records of that name the last has the same generation. */
  predicate Kept(u: User, records: seq<User>) {
    exists j :: 0 <= j < |records| && records[j].id == u.id && records[j].generation == u.generation
                && forall k :: j < k < |records| ==> records[k].id != u.id
  }

  predicate Dropped(users: seq<User>, records: seq<User>, id: UserId) {
    exists i :: 0 <= i < |users| && users[i].id == id && !Kept(users[i], records)
  }

  /** Exactly the tokens of users who are not kept are revoked, and no token changes otherwise. */
  ghost predicate RevokedFor(before: Tokens, after: Tokens, users: seq<User>, records: seq<User>) {
    after == map id | id in before ::
      if Dropped(users, records, before[id].owner) then before[id].(revoked := true) else before[id]
  }

  lemma {:induction false} LastOfIs(records: seq<User>, u: User)
    ensures var r := LastOf(records, u.id);
      r.Some? && r.value.generation == u.generation <==> Kept(u, records)
  {
    if records != [] {
      var front, last := records[..|records| - 1], records[|records| - 1];
      if last.id == u.id {
        assert last.generation == u.generation ==> Kept(u, records) by {
          assert records[|records| - 1] == last;
        }
      } else {
        LastOfIs(front, u);
        KeptByFront(records, u);
      }
    }
  }

  lemma KeptByFront(records: seq<User>, u: User)
    requires records != [] && records[|records| - 1].id != u.id
    ensures Kept(u, records) <==> Kept(u, records[..|records| - 1])
  {
    var front := records[..|records| - 1];
    if Kept(u, records) {
      var j :| 0 <= j < |records| && records[j].id == u.id && records[j].generation == u.generation
               && forall k :: j < k < |records| ==> records[k].id != u.id;
      assert front[j] == records[j];
    }
    if Kept(u, front) {
      var j :| 0 <= j < |front| && front[j].id == u.id && front[j].generation == u.generation
               && forall k :: j < k < |front| ==> front[k].id != u.id;
      assert records[j] == front[j];
      assert forall k :: j < k < |front| ==> records[k] == front[k];
    }
  }

  lemma {:induction false} ChangedAre(users: seq<User>, records: seq<User>)
    ensures forall id :: id in Changed(users, records) <==> Dropped(users, records, id)
  {
    if users != [] {
      ChangedAre(users[1..], records);
      LastOfIs(records, users[0]);
      forall id ensures Dropped(users, records, id) <==>
        Dropped(users[1..], records, id) || (users[0].id == id && !Kept(users[0], records))
      {
        if Dropped(users[1..], records, id) {
          var i :| 0 <= i < |users[1..]| && users[1..][i].id == id && !Kept(users[1..][i], records);
          assert users[i + 1] == users[1..][i];
        }
        if Dropped(users, records, id) && !(users[0].id == id && !Kept(users[0], records)) {
          var i :| 0 <= i < |users| && users[i].id == id && !Kept(users[i], records);
          assert users[1..][i - 1] == users[i];
        }
      }
    }
  }

  lemma {:induction false} RevokeOwnersIs(tokens: Tokens, owners: seq<UserId>)
    ensures RevokeOwners(tokens, owners)
            == map id | id in tokens :: if tokens[id].owner in owners then tokens[id].(revoked := true) else tokens[id]
    decreases |owners|
  {
    if owners == [] {
      assert RevokeOwners(tokens, owners) == tokens;
    } else {
      var once := RevokeAll(tokens, owners[0]);
      RevokeOwnersIs(once, owners[1..]);
      assert owners == [owners[0]] + owners[1..];
      assert forall id :: id in once ==> once[id].owner == tokens[id].owner;
    }
  }

  lemma ReplacedAreFree(users: seq<User>, tombstones: seq<Tombstone>, records: seq<User>)
    requires NamesFree(records, tombstones)
    ensures forall id :: HasUser(records, id) ==> !Barred(BarRemoved(tombstones, users, records), id)
  {
    forall id | HasUser(records, id) ensures !Barred(tombstones, id) {
      var i :| 0 <= i < |records| && records[i].id == id;
    }
  }
}
