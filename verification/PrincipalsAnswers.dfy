/** What the token operations come to when nothing fails and nobody interferes, told from the
  stored users and tokens alone. */
module PrincipalsAnswers {
  import opened Prelude
  import opened PrincipalsModel

  /** Some steps of one call, each answered with success. */
  function Undisturbed(s: System, key: nat, id: TokenId, usage: Usage, n: nat): System {
    if n == 0 then s
    else
      var before := Undisturbed(s, key, id, usage, n - 1);
      if key in before.calls then AdvanceCall(before, key, before.calls[key], Ok, id, usage) else before
  }

  lemma Last(s: System, key: nat, id: TokenId, usage: Usage, n: nat)
    requires key in Undisturbed(s, key, id, usage, n).calls
    ensures var before := Undisturbed(s, key, id, usage, n);
      Undisturbed(s, key, id, usage, n + 1) == AdvanceCall(before, key, before.calls[key], Ok, id, usage)
  {}

  /** The bearer of a token is accepted exactly when the token has the secret shown, is neither
      revoked nor past its expiry, and its owner is active with the token's generation. */
  ghost predicate Acceptable(s: System, id: TokenId, secret: int, now: int) {
    && id in s.tokens && s.tokens[id].secret == secret && !s.tokens[id].revoked
    && (s.tokens[id].grant.expiresAt.Some? ==> now < s.tokens[id].grant.expiresAt.value)
    && OwnedNow(s.users, s.tokens[id])
  }

  /** The read inside the queue tests everything again: the token found before may have changed. */
  lemma ReadIff(s: System, key: nat, id: TokenId, other: TokenId, secret: int, usage: Usage)
    requires key in s.calls && s.calls[key] == AuthLoad(id, secret)
    ensures var r := Undisturbed(s, key, other, usage, 1);
      && r.tokens == s.tokens && r.users == s.users && r.accepted == s.accepted && key in r.calls
      && if id in s.tokens && s.tokens[id].secret == secret && !s.tokens[id].revoked
            && (s.tokens[id].grant.expiresAt.Some? ==> usage.now < s.tokens[id].grant.expiresAt.value)
         then r.calls[key] == AuthLookup(id, s.tokens[id], s.time, usage.now)
         else r.calls[key] == Ended
  {
    Last(s, key, other, usage, 0);
  }

  /** From that read on, a bearer is accepted exactly when the token is acceptable then. */
  lemma MatchedAcceptsIff(s: System, key: nat, id: TokenId, other: TokenId, secret: int, usage: Usage)
    requires key in s.calls && s.calls[key] == AuthLoad(id, secret)
    ensures var r := Undisturbed(s, key, other, usage, 3);
      && r.tokens == s.tokens
      && r.accepted == if Acceptable(s, id, secret, usage.now)
                       then s.accepted + [Accepted(id, s.tokens[id], Seen(s.time, s.time, s.time, usage.now))]
                       else s.accepted
  {
    ReadIff(s, key, id, other, secret, usage);
    if id in s.tokens { OwnsIff(s.users, s.tokens[id]); }
    Last(s, key, other, usage, 1);
    Last(s, key, other, usage, 2);
  }

  lemma {:induction false} UndisturbedShift(s: System, key: nat, id: TokenId, usage: Usage, n: nat)
    requires key in s.calls
    ensures Undisturbed(s, key, id, usage, n + 1)
            == Undisturbed(AdvanceCall(s, key, s.calls[key], Ok, id, usage), key, id, usage, n)
  {
    Last(s, key, id, usage, 0);
    if n > 0 { UndisturbedShift(s, key, id, usage, n - 1); }
  }

  /** From the presentation of a secret on, with the token that was found. */
  lemma AuthenticateAcceptsIff(s: System, key: nat, id: TokenId, secret: int, usage: Usage)
    requires key in s.calls && s.calls[key] == AuthFind(secret)
    ensures var r := Undisturbed(s, key, id, usage, 4);
      && r.tokens == s.tokens
      && r.accepted == if Acceptable(s, id, secret, usage.now)
                       then s.accepted + [Accepted(id, s.tokens[id], Seen(s.time, s.time, s.time, usage.now))]
                       else s.accepted
  {
    var found := AdvanceCall(s, key, s.calls[key], Ok, id, usage);
    UndisturbedShift(s, key, id, usage, 3);
    if found.calls[key] == Ended {
      EndedStays(found, key, id, usage, 3);
    } else {
      MatchedAcceptsIff(found, key, id, id, secret, usage);
    }
  }

  lemma {:induction false} EndedStays(s: System, key: nat, id: TokenId, usage: Usage, n: nat)
    requires key in s.calls && s.calls[key] == Ended
    ensures var r := Undisturbed(s, key, id, usage, n);
      r.tokens == s.tokens && r.accepted == s.accepted && key in r.calls && r.calls[key] == Ended
  {
    if n > 0 { EndedStays(s, key, id, usage, n - 1); }
  }

  /** Looking up an owner loads the list of users, which may reveal that bootstrapping is over. */
  lemma LookupRefreshesFlag(s: System, key: nat, reply: Reply, id: TokenId, usage: Usage)
    requires key in s.calls
    ensures var r := AdvanceCall(s, key, s.calls[key], reply, id, usage);
      var loads := reply == Ok && (s.calls[key].CreateLookup? || s.calls[key].AuthLookup?);
      r.flag <==> s.flag || (loads && (s.completed || s.users != []))
  {}

  // ---------------------------------------------------------------- failures of access operations

  /** A failing load or save ends the operation. A failed save has no effect; one whose confirmation
      is lost has stored what it would have stored otherwise. */
  lemma FailureEndsOperation(s: System, bad: Reply)
    requires s.access != Idle && bad != Ok && !(s.access.RevokeNext? && s.access.owners == [])
    ensures var r := Advance(s, s.access, bad); var ok := Advance(s, s.access, Ok);
      && r.access == Idle
      && (bad == Fail ==> r.users == s.users && r.tombstones == s.tombstones && r.tokens == s.tokens && r.completed == s.completed)
      && (bad == Lost && (s.access.SaveUsers? || s.access.SaveTombstones? || s.access.RevokeEach?) ==>
            r.users == ok.users && r.tombstones == ok.tombstones && r.tokens == ok.tokens && r.completed == ok.completed)
  {}

  /** A restart keeps the stores and nothing else. */
  lemma RestartKeepsStores(s: System)
    ensures var r := Do(s, Restart);
      && r.users == s.users && r.tombstones == s.tombstones && r.tokens == s.tokens && r.completed == s.completed
      && r.access == Idle && r.calls == map[] && !r.flag
  {}

  lemma CreateTokenStoresIff(s: System, key: nat, id: TokenId, owner: UserId, secret: int, grant: Grant, usage: Usage)
    requires key in s.calls && s.calls[key] == CreateLookup(owner, secret, grant) && id !in s.tokens
    ensures var r := Undisturbed(s, key, id, usage, 2);
      && (forall i: nat :: ActiveAt(s.users, i, owner) ==>
            r.tokens == s.tokens[id := Token(owner, s.users[i].generation, secret, grant, false, 0)])
      && ((forall i: nat :: !ActiveAt(s.users, i, owner)) ==> r.tokens == s.tokens)
  {
    LookupIs(s.users, owner);
    Last(s, key, id, usage, 0);
    Last(s, key, id, usage, 1);
  }

  lemma RevokeTokenRevokes(s: System, key: nat, id: TokenId, tid: TokenId, usage: Usage)
    requires key in s.calls && s.calls[key] == RevokeLoad(tid)
    ensures var r := Undisturbed(s, key, id, usage, 2);
      r.tokens == if tid in s.tokens then s.tokens[tid := s.tokens[tid].(revoked := true)] else s.tokens
  {
    Last(s, key, id, usage, 0);
    Last(s, key, id, usage, 1);
  }
}
