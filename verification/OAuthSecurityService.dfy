/** The security service over its table of pending contexts. */
module OAuthSecurityService {
  import opened Prelude
  import opened PendingTables
  import opened OAuthContexts

  class OAuthSecurityService {
    const contexts: PendingTable<Context>

    constructor (limits: Limits)
      ensures fresh(contexts) && contexts.limits == limits && contexts.entries == map[]
    {
      contexts := new PendingTable(limits);
    }

    method CreateAuthorizationContext(state: string, actor: Option<string>, context: Context, now: int)
      returns (reply: Reply)
      modifies contexts
      ensures (contexts.entries, reply) == Create(contexts.limits, old(contexts.entries), state, actor, context, now)
    {
      if context.provider == "" { return Refused(ProviderRequired); }
      if state == "" { return NoState; }
      var _ := contexts.PurgeExpired(now);
      var total, own := contexts.CheckRoom(actor);
      if !total { return Refused(CapacityExceeded); }
      if !own { return Refused(ActorCapacityExceeded); }
      contexts.Insert(state, Pending(contexts.limits, actor, context, now));
      return Created;
    }

    method ConsumeCallbackContext(provider: string, state: string, profile: Option<string>,
                                  expectedActor: Option<string>, now: int) returns (reply: Reply)
      modifies contexts
      ensures (contexts.entries, reply) == Consume(old(contexts.entries), state, provider, profile, expectedActor, now)
    {
      if state == "" { return NoState; }
      if state !in contexts.entries { return Refused(UnknownState); }
      var context := contexts.entries[state];
      if context.data.provider != provider { return Refused(ProviderMismatch); }
      if ProfilesDiffer(profile, context.data.profile) { return Refused(ProfileMismatch); }
      if context.actor.Some? && context.actor != expectedActor { return Refused(ActorMismatch); }
      var _ := contexts.Remove(state);
      return if context.expiresAt <= now then Refused(StateExpired) else Returned(context);
    }

    method PurgeExpiredContexts(now: int) returns (expired: Contexts)
      modifies contexts
      ensures contexts.entries == Purge(old(contexts.entries), now)
      ensures expired == Expired(old(contexts.entries), now)
    {
      expired := contexts.PurgeExpired(now);
    }

    method DiscardAuthorizationContext(state: string) returns (found: bool)
      modifies contexts
      ensures contexts.entries == if state == "" then old(contexts.entries) else old(contexts.entries) - {state}
      ensures found <==> state != "" && state in old(contexts.entries)
    {
      if state == "" { return false; }
      found := contexts.Remove(state);
    }
  }
}
