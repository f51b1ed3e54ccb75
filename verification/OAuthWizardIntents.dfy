/** The callback server's table of wizard intents, bound to the browser by a cookie token. */
module OAuthWizardIntents {
  import opened Prelude
  import opened PendingTables

  /** `digest` is the digest of the binding token sent as a cookie; `generation` the generation
      of the principal that started the flow. */
  datatype Intent = Intent(provider: string, generation: Option<string>, digest: int)

  type Intents = Table<Intent>

  datatype Remembered = Remembered | CapacityExceeded

  function Remember(limits: Limits, t: Intents, state: string, actor: Option<string>, intent: Intent, now: int)
    : (Intents, Remembered)
  {
    var left := Purge(t, now);
    if HasRoom(limits, left, actor)
    then (left[state := Entry(actor, now + limits.ttlMs, intent)], Remembered.Remembered)
    else (left, Remembered.CapacityExceeded)
  }

  datatype Claim = Claimed(entry: Entry<Intent>) | IntentRequired | WizardActorMismatch

  /** The claim of a callback: a state parameter that need not be a string, and a cookie that need
      not be there, given by the digest of its value. */
  function ConsumeIntent(t: Intents, state: Option<string>, provider: string, cookie: Option<int>, now: int)
    : (Intents, Claim)
  {
    if state.None? || state.value !in t then (t, IntentRequired)
    else
      var e := t[state.value];
      if e.data.provider != provider || e.expiresAt <= now then (t, IntentRequired)
      else if cookie != Some(e.data.digest) then (t, WizardActorMismatch)
      else (t - {state.value}, Claimed(e))
  }

  /** The limits hold after every call, whatever is remembered, claimed or purged. */
  lemma IntentsWithinLimits(limits: Limits, t: Intents, state: string, actor: Option<string>, intent: Intent,
                            claim: Option<string>, provider: string, cookie: Option<int>, now: int)
    requires WithinLimits(limits, t)
    ensures WithinLimits(limits, Purge(t, now))
    ensures WithinLimits(limits, Remember(limits, t, state, actor, intent, now).0)
    ensures WithinLimits(limits, ConsumeIntent(t, claim, provider, cookie, now).0)
  {
    var left := Purge(t, now);
    FewerWithinLimits(limits, t, left);
    if HasRoom(limits, left, actor) {
      InsertWithinLimits(limits, left, state, Entry(actor, now + limits.ttlMs, intent));
    }
    FewerWithinLimits(limits, t, ConsumeIntent(t, claim, provider, cookie, now).0);
  }

  /** A remembered intent can be claimed for its whole lifetime and not a moment longer, with its
      provider and its token; it is remembered exactly when there is room. */
  lemma RememberedCanBeClaimedIff(limits: Limits, t: Intents, state: string, actor: Option<string>, intent: Intent, at: int,
                                  provider: string, cookie: Option<int>, now: int)
    ensures var (after, r) := Remember(limits, t, state, actor, intent, at);
      && (r.Remembered? <==> RoomFor(limits, t, actor, at))
      && (r.Remembered? ==>
            var claim := ConsumeIntent(after, Some(state), provider, cookie, now).1;
            && (claim.Claimed? <==> provider == intent.provider && cookie == Some(intent.digest) && now < at + limits.ttlMs)
            && (claim.WizardActorMismatch? <==>
                  provider == intent.provider && cookie != Some(intent.digest) && now < at + limits.ttlMs)
            && (claim.Claimed? ==> claim.entry.actor == actor && claim.entry.data == intent))
  {
    HasRoomIff(limits, t, actor, at);
  }

  class WizardIntents {
    const oauthWizardIntents: PendingTable<Intent>

    constructor (limits: Limits)
      ensures fresh(oauthWizardIntents) && oauthWizardIntents.limits == limits && oauthWizardIntents.entries == map[]
    {
      oauthWizardIntents := new PendingTable(limits);
    }

    method RememberOAuthWizardIntent(state: string, actor: Option<string>, intent: Intent, now: int)
      returns (r: Remembered)
      modifies oauthWizardIntents
      ensures (oauthWizardIntents.entries, r)
              == Remember(oauthWizardIntents.limits, old(oauthWizardIntents.entries), state, actor, intent, now)
    {
      var _ := oauthWizardIntents.PurgeExpired(now);
      var total, own := oauthWizardIntents.CheckRoom(actor);
      if !total || !own { return Remembered.CapacityExceeded; }
      oauthWizardIntents.Insert(state, Entry(actor, now + oauthWizardIntents.limits.ttlMs, intent));
      return Remembered.Remembered;
    }

    method ConsumeOAuthWizardIntent(state: Option<string>, provider: string, cookie: Option<int>, now: int)
      returns (claim: Claim)
      modifies oauthWizardIntents
      ensures (oauthWizardIntents.entries, claim)
              == ConsumeIntent(old(oauthWizardIntents.entries), state, provider, cookie, now)
    {
      if state.None? || state.value !in oauthWizardIntents.entries { return IntentRequired; }
      var intent := oauthWizardIntents.entries[state.value];
      if intent.data.provider != provider || intent.expiresAt <= now { return IntentRequired; }
      if cookie != Some(intent.data.digest) { return WizardActorMismatch; }
      var _ := oauthWizardIntents.Remove(state.value);
      return Claimed(intent);
    }
  }
}
