# Verified model of the Sekalum core

This project models six parts of Sekalum, a credential management service, and proves what they
promise over all inputs, runs and interleavings. `dafny verify dfyconfig.toml` checks everything.

Each part has the same shape. The state and its single steps are functions; theorems speak about
every run of those steps; where the service changes objects step by step, a class does the same with
its own fields and loops, and its methods are proved to perform exactly the steps of the functions.
What an operation answers and leaves behind is also stated from the raw state alone, without the
functions that compute it (`AbuseAnswers.dfy`, `LifecycleAnswers.dfy`, `PrincipalsAnswers.dfy`, and lemmas
beside the other models), including that it does its work when nothing fails.

- **Abuse admission** (`Abuse*.dfy`). Token buckets with lazy refill, per-domain quotas, shared overflow
  buckets, idle eviction, and leases with reserves. Rates, all-or-nothing charging, memory, waiting
  times, lease caps and the conservation of lease counters are proved over all runs. Some properties
  hold only under a condition on the settings. For the lease cap the condition is exact for all
  settings, for the rate bound it is exact for the pre-auth emergency bucket; the shipped defaults are
  proved to meet every condition.
- **Credential lifecycle** (`Lifecycle*.dfy`, `CredentialManager.dfy`). Validate, refresh, re-import, user
  update, revoke and delete as tasks over one store with compare-and-set on the version. Any task may
  start from any record that was ever stored, any call may fail, and a write may take effect and
  still report an error.
- **Audit log** (`AuditRetention.dfy`, `AuditLog.dfy`). The log that is trimmed on every call equals one
  trim of the whole history.
- **OAuth pending flows** (`PendingTables.dfy`, `OAuth*.dfy`). Two tables of single-use entries, their
  books, and the flow of start requests and callbacks through both: the `state` parameter of section
  10.12 of RFC 6749.
- **Principals and tokens** (`Principals*.dfy`, `AccessManagementService.dfy`). Users, the barrier of deleted
  names and API tokens, with store failures and restarts between any two steps.
- **CSV export** (`CsvExport.dfy`) and **binding guard** (`CredentialBinding.dfy`). A printer and a reader for
  section 2 of RFC 4180; canonical JSON trees.

## Model

| member | source | states |
|---|---|---|
| AbuseModel.DescriptorsDistinct | src/security/abuse-admission.js:296-363 | the descriptors of one request never share a domain, so their identity and overflow buckets cannot coincide |
| AbuseIsolation.DescriptorsAre | src/security/abuse-admission.js:296-363 | by which subjects a request is limited: one bucket for each domain that concerns its class, and the emergency bucket of its phase unless it is authenticated containment |
| AbuseAnswers.DescriptorsInTurn | src/security/abuse-admission.js:296-363 | descriptors are examined from the source to the shared emergency bucket |
| AbuseIsolation.BudgetsApart | src/security/abuse-admission.js:212-248 | over any run, nothing is charged to a bucket, shared and overflow ones included, of a class no request of the run belongs to; authenticated containment never spends the emergency budget |
| AbuseModel.SlotIs | src/security/abuse-admission.js:369-395 | from the raw quotas: when a descriptor gets its own bucket, the overflow bucket of its domain and class, or none; at most that one bucket is touched, and a new one is full |
| AbuseModel.ScanKeysPresent | src/security/abuse-admission.js:222-236 | every bucket found by the first loop of `decide` is in the table that the second loop charges |
| AbuseModel.LeasePoliciesMembers | src/security/abuse-admission.js:423-425 | a lease names exactly the distinct classes of the descriptors that take leases, each once |
| AbuseRates.SlotKeepsLevels | src/security/abuse-admission.js:369-395 | finding or creating a bucket changes the level of no bucket at any time |
| AbuseRates.AllOrNothing | src/security/abuse-admission.js:212-248 | an ALLOW lowers the level of each of its pairwise distinct buckets by exactly the cost; any other answer leaves every level unchanged at every later time |
| AbuseAnswers.AllowTakesRequestedCost | src/security/abuse-admission.js:212-248 | an ALLOW carries the requested cost when it is between 1 and 20 and 1 otherwise, and takes exactly that from one bucket for each descriptor, computed from the raw tokens, times and settings; any other answer takes nothing |
| AbuseAnswers.RefusalHasReason | src/security/abuse-admission.js:397-420 | a refusal names its reason: a bucket of some descriptor held less than the requested cost, and the answer is the least admissible number of seconds for it; or the full table has no bucket for a descriptor |
| AbuseAnswers.UnknownIsRefused | src/security/abuse-admission.js:212-267 | an unknown class is refused by `decide`, `admit` and `reserve` without any effect |
| AbuseRates.DecideStepLevel | src/security/abuse-admission.js:212-248 | cleanup and decision together move the level of a bucket by exactly what the decision charged to it |
| AbuseRates.ForgettingInvisibleIff | src/security/abuse-admission.js:473-482 | every bucket that may be forgotten for idleness is full again if and only if the idle time is at least capacity times refill time |
| AbuseRates.ReachableOk | src/security/abuse-admission.js:369-401 | in every reachable state no bucket is overdrawn or overfull and no refill is later than the last use |
| AbuseRates.SpentBound | src/security/abuse-admission.js:212-248 | over a window without `reset`, what was admitted plus what is left is at most what was there plus what was refilled |
| AbuseRates.RateBound | src/security/abuse-admission.js:212-248 | after any history, in every window without `reset`, the cost admitted against a bucket is at most capacity plus the refill of the window, given the idle-time condition |
| AbuseTight.DoubleDrain | src/security/abuse-admission.js:473-482 | when the idle-time condition fails for the pre-auth emergency bucket, a concrete run drains it twice and beats the bound |
| AbuseTight.RateBoundIff | src/security/abuse-admission.js:473-482 | for the pre-auth emergency bucket the rate bound holds over all runs if and only if the idle-time condition does |
| AbuseEviction.DecideAgrees | src/security/abuse-admission.js:212-248 | two tables with equal levels give the same decision and keep equal levels |
| AbuseEviction.IdleEvictionInvisible | src/security/abuse-admission.js:473-482 | under the idle-time condition and while no quota is reached, every decision of a run is that of a limiter that never forgets a bucket |
| AbuseRetry.RetryAfterWithin | src/security/abuse-admission.js:408-420 | the returned number of seconds is always within the configured minimum and maximum |
| AbuseAnswers.RetryIsLeast | src/security/abuse-admission.js:408-412 | the seconds are the least within the bounds that cover the wait, or the maximum when none do |
| AbuseRetry.RetryAfterIsEnoughIff | src/security/abuse-admission.js:397-420 | after the returned seconds the refusing bucket holds the cost if and only if the cost fits its capacity and the maximum did not cut the wait short |
| AbuseRetry.DecideWithinQuotas | src/security/abuse-admission.js:369-395 | one decision keeps the table within its total and the identity buckets of each domain within their quota |
| AbuseRetry.BoundedTable | src/security/abuse-admission.js:369-395 | in every reachable state at most `maxTotalKeys` buckets exist, and per domain at most its configured quota of identity buckets plus one overflow bucket for each of the 15 classes |
| AbuseLeases.LeaseNames | src/security/abuse-admission.js:423-425 | a lease names only the class of the request and the emergency class, and the class of the request whenever that class takes leases |
| AbuseLeases.StepPreserves | src/security/abuse-admission.js:422-482 | every event keeps lease numbers unique and, with both reserves in force, the caps and reserves |
| AbuseLeases.LeaseCaps | src/security/abuse-admission.js:422-471 | with both reserves in force, live leases never exceed the cap and operational leases never exceed the cap less both reserves |
| AbuseAnswers.ClassCaps | src/security/abuse-admission.js:452-469 | in every run the live leases that name a class number at most its concurrency and at most the cap |
| AbuseAnswers.ReserveBlockedIff | src/security/abuse-admission.js:261-267 | for every class, `reserve` blocks if and only if the unexpired leases fill the part of the cap the request may use, or a class its lease would name; otherwise exactly one lease is added, for the full duration, naming just the limited classes of the request |
| AbuseAnswers.AdmitBlockedIff | src/security/abuse-admission.js:250-259 | `admit` answers like `decide` unless that is an ALLOW, and then like `reserve` on the same leases |
| AbuseLeases.ContainmentRefusedIff | src/security/abuse-admission.js:261-267 | after any history, `reserve` blocks an identity-phase containment request if and only if the whole containment reserve is live once expired leases are gone; without a reserve, if and only if the class takes leases and one is live |
| AbuseLeases.LeaseCapIff | src/security/abuse-admission.js:426-451 | for all valid settings the cap holds in every run if and only if both reserves are positive, that is, if the containment and bootstrap classes take leases and the cap leaves room beside them |
| AbuseLeases.WithoutContainmentClass | src/security/abuse-admission.js:423-451 | when the containment class takes no leases, runs exist with any number of live leases: they name no class and no test counts them |
| AbuseLeases.WithoutPreAuthReserve | src/security/abuse-admission.js:426-451 | without a pre-auth reserve a run exists whose live leases exceed the cap by one |
| AbusePolicy.Whole | src/security/abuse-admission.js:81-85 | a whole-number setting is the given value when that is admissible, and the default otherwise |
| AbusePolicy.Duration | src/security/abuse-admission.js:81-85 | a duration setting is the given value when that is admissible, and the default otherwise |
| AbusePolicy.PolicyConfig | src/security/abuse-admission.js:144-163 | every override of a class yields a valid configuration with minimum at most maximum retry |
| AbusePolicy.SettingsOf | src/security/abuse-admission.js:176-210 | every options value, with any quotas and overrides, the containment ones included, yields valid settings within the documented ranges |
| AbusePolicy.SettingsReadOptions | src/security/abuse-admission.js:176-201 | each limit and time is that of its own option when admissible, and its default otherwise |
| AbusePolicy.QuotasReadOptions | src/security/abuse-admission.js:202-208 | each quota is that of its own domain |
| AbusePolicy.PoliciesReadOptions | src/security/abuse-admission.js:144-163 | each field of a class is that of the override of this class and field |
| AbusePolicy.NoOptionsAreDefaults | src/security/abuse-admission.js:35-67 | without options the settings are the shipped defaults |
| AbusePolicy.DefaultsMeetConditions | src/security/abuse-admission.js:51-67 | the shipped defaults satisfy the conditions of the rate bound, of invisible eviction and of the lease caps |
| AbuseAdmission.AbuseAdmission.constructor | src/security/abuse-admission.js:176-210 | any options will do: the limiter works with their normalised settings, is empty, and its counters agree with its leases |
| AbuseAdmission.AbuseAdmission.Release | src/security/abuse-admission.js:269-278 | removes the lease and lowers the counter of each of its classes by one; a second release changes nothing |
| AbuseAnswers.ReleaseAndResetAnswer | src/security/abuse-admission.js:269-285 | a release removes just the named lease and says whether there was one; a reset forgets all but the numbering |
| AbuseAdmission.AbuseAdmission.Cleanup | src/security/abuse-admission.js:473-482 | releases exactly the expired leases and, once per interval, forgets exactly the idle buckets |
| AbuseAdmission.AbuseAdmission.BucketFor | src/security/abuse-admission.js:369-395 | finds, creates or diverts exactly as the step function does |
| AbuseAdmission.AbuseAdmission.FindBuckets | src/security/abuse-admission.js:222-230 | the first loop of `decide` stops at the first short or missing bucket |
| AbuseAdmission.AbuseAdmission.ChargeBuckets | src/security/abuse-admission.js:232-236 | the second loop charges exactly the buckets found |
| AbuseAdmission.AbuseAdmission.DecideBuckets | src/security/abuse-admission.js:222-247 | the two loops together give the table and answer of the decision: no bucket is charged unless all hold enough |
| AbuseAdmission.AbuseAdmission.Decide | src/security/abuse-admission.js:212-248 | limiter and answer are exactly those of one decision step; the lease counters still agree with the live leases |
| AbuseAdmission.AbuseAdmission.ReserveIsUsedUp | src/security/abuse-admission.js:426-443 | the first test, read from the counters, is that of the live leases |
| AbuseAdmission.AbuseAdmission.AnyClassFull | src/security/abuse-admission.js:452-462 | the loop over the classes finds one exactly when the live leases fill one |
| AbuseAdmission.AbuseAdmission.LeaseIsRefused | src/security/abuse-admission.js:426-462 | the counters refuse exactly when the live leases themselves exhaust the reserve or a class of the request |
| AbuseAdmission.AbuseAdmission.AcquireLease | src/security/abuse-admission.js:422-471 | grants exactly one new lease or none; counters still equal the live leases of each class |
| AbuseAdmission.AbuseAdmission.Admit | src/security/abuse-admission.js:250-259 | limiter and answer are those of one admit step: a lease is sought exactly after an ALLOW |
| AbuseAdmission.AbuseAdmission.Reserve | src/security/abuse-admission.js:261-267 | limiter and answer are those of one reserve step, which charges no bucket |
| AbuseAdmission.AbuseAdmission.Reset | src/security/abuse-admission.js:280-285 | empties tables and counters |
| LifecycleTheorems.WriteKeeps | src/managers/credential-manager.js:1993-2004 | a conditional write whose version matches replaces exactly the value the task holds, and keeps the invariant |
| LifecycleTheorems.IntendedFollows | src/managers/credential-manager.js:1138-1378 | what each operation wants to store is a lawful successor of what it holds |
| LifecycleTheorems.StepKeeps | src/managers/credential-manager.js:1076-1378 | every step of every operation, with any reply, keeps the invariant of store, history and tasks |
| LifecycleTheorems.NoResurrection | src/managers/credential-manager.js:1993-2009 | in every interleaving and under every failure, a stored revoked credential never becomes usable again |
| LifecycleTheorems.GuardIsRedundant | src/storage/credential-collection-store-adapter.js:445-460 | with the store's own terminal-state guard on or off, every run reaches the same state |
| LifecycleTheorems.RemovalComesLast | src/managers/credential-manager.js:1076-1136 | a step that removes a record does so only when the stored version has all cleanup settled and the history was invalidated under it |
| LifecycleTheorems.ProviderCallFollowsContainment | src/managers/credential-manager.js:1290-1348 | every provider revoke call is made for a record whose stored state is revoked, or which is gone |
| LifecycleTheorems.VersionsOnlyGrow | src/models/credential.js:174-181 | each step leaves a stored version unchanged or raises it by one |
| LifecycleTheorems.Regression | src/managers/credential-manager.js:1874-1895 | a concrete run in which a usable record that claims settled provider cleanup loses the claim |
| LifecycleTheorems.NeverRegressesIff | src/managers/credential-manager.js:1874-1939 | settled provider cleanup stays settled in every run if and only if no usable stored record claims it at the start |
| LifecycleAnswers.ValidateStores | src/managers/credential-manager.js:1138-1266 | answered with success throughout, validate and refresh store the active record under the next version, and nothing else changes |
| LifecycleAnswers.RefreshExpiredStores | src/managers/credential-manager.js:507-548 | the refresh of expired credentials does so for active ones and leaves others alone |
| LifecycleAnswers.ImportStores | src/managers/credential-manager.js:249-293 | so does a re-import |
| LifecycleAnswers.UpdateStores | src/managers/credential-manager.js:717-792 | a user update stores the new content under the next version with the same lifecycle state |
| LifecycleAnswers.RevokeStores | src/managers/credential-manager.js:1317-1378 | answered with success throughout, a first revocation stores a revoked record with provider and history cleanup complete and invalidates the history |
| LifecycleAnswers.RevokeAgainStores | src/managers/credential-manager.js:1293-1315 | a repeated one asks the provider again exactly unless its cleanup is over, and invalidates the history again |
| LifecycleAnswers.RevokeAgainStarts | src/managers/credential-manager.js:1294-1296 | a revoked record without a decommissioning part is given one |
| LifecycleAnswers.DeleteRemoves | src/managers/credential-manager.js:1076-1136 | answered with success throughout, `delete` of a stored record removes it behind a tombstone, after its history was invalidated, and touches no other |
| LifecycleAnswers.CleanupOpens | src/managers/credential-manager.js:1874-1895 | the first write keeps recorded cleanup steps and otherwise opens one for each configured service |
| LifecycleAnswers.ProviderAnswerIsRecorded | src/managers/credential-manager.js:1101-1104 | a provider success is recorded as complete, an incompatible contract as not required, anything else as to be retried |
| LifecycleAnswers.GrantFailureIsRecorded | src/managers/credential-manager.js:1107-1119 | a failing grant cleanup is recorded as to be retried and ends the deletion |
| LifecycleAnswers.HistoryFailureIsRecorded | src/managers/credential-manager.js:1352-1368 | a failing history invalidation is recorded as to be retried |
| LifecycleAnswers.LostGrantRecord | src/managers/credential-manager.js:1107-1119 | so is a grant cleanup that succeeded but could not be recorded |
| LifecycleAnswers.LostHistoryRecord | src/managers/credential-manager.js:1352-1368 | so is an invalidation that succeeded but could not be recorded |
| LifecycleAnswers.HistoryFollowsProviderFailure | src/managers/credential-manager.js:1333-1361 | the history is invalidated after a failing provider, even when that failure cannot be recorded |
| LifecycleAnswers.BeginFailureEnds | src/managers/credential-manager.js:1897-1906 | a containment or begin of a deletion that is not confirmed ends the operation |
| LifecycleAnswers.RecordFailureEnds | src/managers/credential-manager.js:1333-1341 | so does a provider answer that cannot be recorded |
| LifecycleAnswers.ProviderEndsDeletion | src/managers/credential-manager.js:1097-1106 | a deletion goes on after its provider call only when that reported success and this was recorded |
| LifecycleAnswers.CallFailureEnds | src/managers/credential-manager.js:1115-1144 | a failing audit, last invalidation or validating provider ends the operation without any effect |
| LifecycleAnswers.GuardKeepsTerminal | src/storage/credential-collection-store-adapter.js:445-460 | the store's guard keeps a terminal state against any writer |
| CredentialManager.SoloIsRun | src/managers/credential-manager.js:1211-1378 | an operation running by itself is a run of the interleaved system |
| CredentialManager.CredentialManager.SaveIfCurrent | src/managers/credential-manager.js:1993-2004 | the write is that of the task, which goes on the same way; success means the expected version was stored and now the given record is |
| CredentialManager.CredentialManager.Remove | src/storage/credential-collection-store-adapter.js:183-223 | the conditional removal is the last step of the delete task, whatever the store answers |
| CredentialManager.CredentialManager.Validate | src/managers/credential-manager.js:1138-1175 | call and write are the steps of a validate task; success means the activated record is stored under the next version, a failure value that nothing was, and a terminal credential is always refused |
| CredentialManager.CredentialManager.Refresh | src/managers/credential-manager.js:1211-1266 | call and write are the steps of a refresh task; success, failure and refusal mean the same as for validate |
| CredentialManager.CredentialManager.ImportExisting | src/managers/credential-manager.js:249-293 | the write is the step of a re-import task; success means the imported record is stored under the next version, and a terminal credential is refused |
| CredentialManager.CredentialManager.UserUpdate | src/managers/credential-manager.js:830-919 | the write is the step of a user update task; success means the changed record is stored under the next version with the same lifecycle state |
| CredentialManager.CredentialManager.Revoke | src/managers/credential-manager.js:1290-1378 | its calls and writes are the steps of a revoke task, first or repeated; success means the answered record is revoked, after a fresh revocation the stored one too, and a cleaned history was invalidated; it succeeds when every call and write does; a failure value is given exactly for a deleted credential |
| CredentialManager.CredentialManager.Delete | src/managers/credential-manager.js:1076-1136 | its calls and writes are the steps of a delete task; a removal is reported only when grant and provider cleanup are settled in the removed version and the history was invalidated under it; a stored record is kept only if some call or write failed, and otherwise is removed behind a tombstone |
| AuditRetention.StableSortIff | src/services/audit-retention-policy.js:37 | the sort is the stable sort: a list is its result if and only if it is ordered and keeps, for every time, the entries of that time in their order |
| AuditRetention.YoungOfSort | src/services/audit-retention-policy.js:35-37 | filtering by age commutes with sorting |
| AuditRetention.YoungOfLast | src/services/audit-retention-policy.js:35-38 | filtering the newest n by age is the newest n of the filtered |
| AuditRetention.RetainIs | src/services/audit-retention-policy.js:18-45 | at most 10,000 entries, oldest first, none thirty days old; a recent entry is missing only if 10,000 entries at least as new are kept |
| AuditRetention.RetainAbsorbs | src/services/audit-retention-policy.js:18-45 | trimming, appending and trimming later equals one trim of everything, as lists, ties included |
| AuditRetention.NewestKeptIff | src/services/audit-retention-policy.js:35-38 | an entry not older than the others is kept if and only if it is young enough, and then follows the newest 9,999 others |
| AuditRetention.AppendedKeptIff | src/services/audit-retention-policy.js:35-38 | an appended entry is kept if and only if it is young enough and fewer than 10,000 eligible entries are stamped later; otherwise no entry of its time is |
| AuditRetention.ApplyRetentionPolicy | src/services/audit-retention-policy.js:18-45 | the loop and the pipeline compute the policy; dropped and malformed are the exact counts |
| AuditLog.StoredLogIsRetention | src/services/audit-log-service.js:20-28 | from any log and over any calls, the stored log is one trim of the whole history as of the last save, and stays interchangeable with it |
| AuditLog.RecordFailsIff | src/services/audit-log-service.js:20-28 | for every log and history, `record` reports AUDIT_EVENT_NOT_RETAINED if and only if its entry outlived the retention period before it was saved, or 10,000 eligible entries are stamped later |
| AuditLog.FreshRecordFailsIff | src/services/audit-log-service.js:20-28 | from a log without entries stamped after the clock, the first alone decides: count and ties never push a fresh record out |
| AuditLog.ListingIsOfWholeHistory | src/services/audit-log-service.js:30-38 | after any history of calls `list` shows recorded, matching, eligible entries, newest first with ties in order, and withholds one only when 10,000 retained entries are at least as new |
| AuditLog.FilterAround | src/services/audit-log-service.js:33-34 | exactly the matching entries are kept, each in its place among the rest |
| AuditLog.Find | src/services/audit-log-service.js:40-52 | the first entry of that id, and none if and only if no entry has it |
| AuditLog.AuditLogService.Record | src/services/audit-log-service.js:20-28 | load, append, save: the new log is the step's, and the reply is success exactly when an entry of that id and time is in it |
| AuditLog.AuditLogService.List | src/services/audit-log-service.js:30-38 | returns the stable descending order of the matching retained entries |
| AuditLog.AuditLogService.Get | src/services/audit-log-service.js:40-52 | returns the entry or NOT_FOUND after the same load |
| AuditLog.AuditLogService.LoadEntries | src/services/audit-log-service.js:84-119 | returns the trimmed log and saves it exactly when asked and changed |
| AuditLog.AuditLogService.SaveEntries | src/services/audit-log-service.js:121-132 | stores the trimmed entries |
| PendingTables.PurgeSplits | src/oauth/oauth-security-service.js:166-175 | purging divides the table exactly by expiry and purging again changes nothing |
| PendingTables.InsertWithinLimits | src/oauth/oauth-security-service.js:228-240 | an insertion after the capacity check keeps the total and the per-actor limit, also when it overwrites |
| PendingTables.PendingTable.PurgeExpired | src/oauth/oauth-security-service.js:166-175 | the loop removes and returns exactly the expired entries |
| PendingTables.PendingTable.CheckRoom | src/oauth/oauth-security-service.js:228-240 | the size test and the counting loop decide exactly whether there is room |
| OAuthContexts.BooksBalance | src/oauth/oauth-security-service.js:118-180 | in every reachable state each issued context is pending or has exactly one fate (consumed, timed out, discarded, overwritten), and both limits hold |
| OAuthContexts.FatesAreFinal | src/oauth/oauth-security-service.js:118-180 | a fate never changes and an issue is never rewritten |
| OAuthContexts.FateIs | src/oauth/oauth-security-service.js:118-180 | a pending context is ended by a call exactly when that is due and in exactly that way, told from what was asked and when: swept or refused once its lifetime is over, consumed by a fitting callback, discarded, or overwritten by a new one for its state |
| OAuthContexts.CreatesIff | src/oauth/oauth-security-service.js:118-122 | a context is entered, for just what was asked at that time, if and only if it has a provider and a state and there is room among the contexts that are not over |
| OAuthContexts.CreateAnswers | src/oauth/oauth-security-service.js:228-240 | otherwise the answer names the first thing that is missing |
| OAuthContexts.ConsumeReturnsIff | src/oauth/oauth-security-service.js:127-164 | a consume returns a context if and only if one was asked for under this state, has no fate, names this provider, profile and actor, and less than its lifetime has passed since; a mismatch changes nothing |
| OAuthContexts.ConsumeAnswers | src/oauth/oauth-security-service.js:134-163 | which answer a callback gets, from the history: state, provider, profile, actor and lifetime are examined in this order |
| OAuthContexts.ReturnedOnce | src/oauth/oauth-security-service.js:127-164 | over any run a context is handed out at most once, and exactly when its fate is consumed |
| OAuthSecurityService.OAuthSecurityService.CreateAuthorizationContext | src/oauth/oauth-security-service.js:41-125 | checks, purge, capacity and insertion in the source's order give the table and reply of the step |
| OAuthSecurityService.OAuthSecurityService.ConsumeCallbackContext | src/oauth/oauth-security-service.js:127-164 | the tests in the source's order give the table and reply of the step |
| OAuthSecurityService.OAuthSecurityService.PurgeExpiredContexts | src/oauth/oauth-security-service.js:166-175 | removes and returns exactly the expired contexts |
| OAuthSecurityService.OAuthSecurityService.DiscardAuthorizationContext | src/oauth/oauth-security-service.js:177-180 | removes the state, reports whether it was there, and ignores an empty one |
| OAuthWizardIntents.IntentsWithinLimits | src/oauth/oauth-callback-server.js:1294-1306 | remembering, claiming and purging keep both limits |
| OAuthWizardIntents.RememberedCanBeClaimedIff | src/oauth/oauth-callback-server.js:1209-1287 | an intent is remembered exactly when there is room, and can then be claimed with its provider and token for exactly its lifetime |
| OAuthWizardIntents.WizardIntents.RememberOAuthWizardIntent | src/oauth/oauth-callback-server.js:1209-1222 | purge, capacity check and insertion give the step's table |
| OAuthWizardIntents.WizardIntents.ConsumeOAuthWizardIntent | src/oauth/oauth-callback-server.js:1265-1287 | only a matching, unexpired claim with the right cookie removes the intent |
| OAuthFlowTheorems.ClaimFrom | src/oauth/oauth-callback-server.js:1265-1287 | a claim succeeds only for a stored intent of this provider, in time, with its token, and takes it out; otherwise nothing changes |
| OAuthFlowTheorems.StepKeeps | src/oauth/oauth-callback-server.js:1000-1206 | every step keeps the right to import for a state in at most one place |
| OAuthFlowTheorems.AtMostOneImport | src/oauth/oauth-callback-server.js:1099-1206 | in every interleaving at most one import is started per state, whether it succeeds or throws, for the provider, actor, generation and browser of the start request, with both entries unexpired when taken |
| OAuthFlowTheorems.CallbackImportsIff | src/oauth/oauth-callback-server.js:1099-1206 | a callback that nobody refuses imports if and only if both tables hold a matching unexpired entry and the flow has a user |
| OAuthFlowTheorems.StartPrepares | src/oauth/oauth-callback-server.js:1000-1041 | an unrefused start request with room leaves context and intent for its state, with its data and their full lifetimes |
| OAuthFlowTheorems.FlowImportsIff | src/oauth/oauth-callback-server.js:1000-1206 | a start request, some time, and a callback, undisturbed: the import runs if and only if provider and token are those of the start request, the flow has a user, and neither lifetime is over |
| OAuthFlowTheorems.AbandonedCallbackLeavesNothing | src/oauth/oauth-callback-server.js:1112-1131 | a callback with an error or without a code gives up its flow: neither entry is left and nothing imported |
| OAuthFlowTheorems.AbandonedStartTakesContextBack | src/oauth/oauth-callback-server.js:1034-1065 | a start request that cannot remember its intent, or has a wrong redirect, takes its context back |
| OAuthFlowTheorems.ProviderRefusesStart | src/managers/provider-manager.js:106-130 | a provider that cannot begin ends the start request, discarding the context where the source does |
| OAuthFlowTheorems.RefusalEndsCallback | src/oauth/oauth-callback-server.js:1133-1206 | a refusal of the limiter, the authorization, the provider or the principal check ends the callback without import |
| OAuthFlowTheorems.Sweeps | src/oauth/oauth-callback-server.js:1259-1263 | start requests and callbacks sweep exactly the expired intents |
| PrincipalsModel.WithoutAround | src/services/access-management-service.js:268-273 | removing a name works place by place: every other user keeps its place among the rest |
| PrincipalsModel.WithoutNames | src/services/access-management-service.js:268-273 | exactly that name is gone from the list |
| PrincipalsModel.WithoutLength | src/services/access-management-service.js:269-273 | the list is shorter if and only if there was such a user |
| PrincipalsModel.LookupIs | src/services/access-management-service.js:516-530 | a principal is found exactly when the first user of the name is active |
| PrincipalsModel.BarRemoved | src/services/access-management-service.js:324-334 | after a replacement exactly the former tombstones and the users not kept are barred, with the generations of those users |
| PrincipalsModel.BarDeleted | src/services/access-management-service.js:279-286 | after a deletion exactly the former tombstones and the deleted user are barred, with that user's generation |
| AccessManagementService.PatchedAt | src/services/access-management-service.js:230-249 | an update changes exactly the first user of the name, and only its status and details |
| PrincipalsTheorems.StepKeeps | src/services/access-management-service.js:152-360 | in every step what an operation has loaded is still stored, and what it is about to store bars everyone who leaves and admits nobody barred |
| PrincipalsTheorems.RemovedStaysOut | src/services/access-management-service.js:264-360 | a name that left the list of users never comes back and stays barred, in every interleaving, after every failure and restart |
| PrincipalsTheorems.BootstrapStaysClosed | src/services/access-management-service.js:152-187 | once the bootstrap was marked complete or any user stored, no bootstrap stores another, even after all users are removed and after restarts |
| PrincipalsTheorems.CallMoves | src/services/api-token-service.js:286-369 | each step of a token operation keeps its record of when the token was read, its owner looked up and its revocation checked |
| PrincipalsTheorems.DeletedOwnerIsRefused | src/services/api-token-service.js:286-336 | a token is accepted only if its owner was looked up before the owner left the list; every acceptance rests on a first user of the owner's name who was active with the token's generation, and on a token not expired when read |
| PrincipalsTheorems.RevokedStays | src/storage/api-token-store.js:73-81 | a stored revocation is never undone, also by a save of an older read |
| PrincipalsTheorems.RevokedIsRefused | src/services/api-token-service.js:286-369 | a revoked token is accepted only by a call whose last check came before the revocation |
| PrincipalsAnswers.AuthenticateAcceptsIff | src/services/api-token-service.js:262-369 | undisturbed, a bearer is accepted if and only if the token found has the secret, is neither revoked nor expired, and the first user of its owner's name is active with its generation |
| PrincipalsAnswers.MatchedAcceptsIff | src/services/api-token-service.js:286-369 | the same from the second read of the token on, whatever was found before |
| PrincipalsAnswers.CreateTokenStoresIff | src/services/api-token-service.js:76-120 | undisturbed, a token is stored exactly for an active principal, with its generation |
| PrincipalsAnswers.RevokeTokenRevokes | src/services/api-token-service.js:238-260 | undisturbed, a known token is revoked and no other changes |
| PrincipalsAnswers.LookupRefreshesFlag | src/services/access-management-service.js:450-466 | looking up an owner loads the users and so may reveal that bootstrapping is over; no other token step touches that flag |
| PrincipalsAnswers.FailureEndsOperation | src/services/access-management-service.js:152-360 | a failing load or save ends an access operation; a failed save has no effect, a lost confirmation the full one |
| PrincipalsAnswers.RestartKeepsStores | src/services/access-management-service.js:84-107 | a restart keeps the stores and nothing else |
| PrincipalsTheorems.RevocationAloneIsNotEnough | src/services/api-token-service.js:166-183 | a concrete run leaves an unrevoked token of a deleted user, which only the owner lookup refuses |
| AccessManagementService.PerformedDecided | src/services/access-management-service.js:152-360 | where the step machine stands after loading and checking, for each operation |
| AccessManagementService.FinishRevokeNext | src/services/access-management-service.js:335-347 | the revocation loops and the two saves end in the closed form of the operation |
| AccessManagementService.SaveAllAt | src/services/api-token-service.js:166-183 | saving listed revocations one by one revokes exactly the listed tokens |
| AccessManagementService.ApiTokenService.Save | src/storage/api-token-store.js:34-51 | stores the token but never takes back a stored revocation |
| AccessManagementService.ApiTokenService.RevokeTokensForUser | src/services/api-token-service.js:166-183 | the loop revokes exactly the tokens of the user and counts those that were not revoked |
| AccessManagementService.ApiTokenService.CreateToken | src/services/api-token-service.js:76-120 | a token is made exactly when the first user of the name is active, bound to that user's generation and to the scopes and expiry asked for |
| AccessManagementService.ApiTokenService.RevokeToken | src/services/api-token-service.js:238-260 | revokes a known token and changes no other; a second time nothing changes |
| AccessManagementService.ApiTokenService.Authenticate | src/services/api-token-service.js:262-369 | the bearer is let in if and only if the token found for the secret is neither revoked nor expired and the first user of its owner's name is active with its generation; the answer carries its owner and scopes, and refusals change nothing |
| AccessManagementService.AccessManagementService.CreateUser | src/services/access-management-service.js:189-221 | ends where the step machine ends, on any list; refuses exactly known and barred names |
| AccessManagementService.AccessManagementService.BootstrapFirstAdministrator | src/services/access-management-service.js:152-187 | ends where the step machine ends; open only before any user was stored |
| AccessManagementService.AccessManagementService.UpdateUser | src/services/access-management-service.js:227-258 | ends where the step machine ends, on any list; only the first user of the name is patched |
| AccessManagementService.AccessManagementService.FindIndex | src/services/access-management-service.js:230-234 | the first user of the name, or none exactly when there is none |
| AccessManagementService.AccessManagementService.DeleteUser | src/services/access-management-service.js:264-294 | ends where the step machine ends, on any list, also when the name is barred already; exactly this user is gone, is barred, and all its tokens are revoked |
| AccessManagementService.AccessManagementService.ReplaceUsers | src/services/access-management-service.js:302-360 | ends where the step machine ends, on any list; refuses exactly when a record is barred; exactly the dropped users become barred; exactly the tokens of users not kept with their generation are revoked |
| AccessManagementService.AccessManagementService.BarAll | src/services/access-management-service.js:324-334 | the loop pushes exactly the tombstones of the users not kept |
| AccessManagementService.AccessManagementService.RevokeChanged | src/services/access-management-service.js:335-344 | the loop revokes exactly the tokens of everyone not kept with the same generation, of several records of one name the last counting |
| AccessManagementService.AccessManagementService.AllFree | src/services/access-management-service.js:308-320 | the records are free exactly when none of them is barred |
| CsvExport.HeadersAreKeys | src/services/export-service.js:85-90 | the headers are exactly the keys that occur, each once, and later rows only add at the end |
| CsvExport.HeadersInOrder | src/services/export-service.js:85-90 | the headers stand in the order in which the keys first appear, row by row and within a row |
| CsvExport.CollectHeaders | src/services/export-service.js:85-90 | the set built key by key is that list |
| CsvExport.CellIs | src/services/export-service.js:98 | the cell under a header is the value of that key in the row, and empty where the row lacks the key |
| CsvExport.EscapeReads | src/services/export-service.js:136-143 | a printed cell reads back as the guarded text, whatever follows it |
| CsvExport.QuotedIff | src/services/export-service.js:136-143 | a cell is quoted exactly when it holds a quote, a comma or a line break, and stands as it is otherwise |
| CsvExport.ExportReads | src/services/export-service.js:82-100 | reading an export with at least one column returns the headers and, for every row, its value under each, each with the formula guard; no cell begins a formula; without columns the export is empty |
| CsvExport.GuardConfusesIff | src/services/export-service.js:136-138 | the guard maps two texts to one if and only if they are equal or one is the other formula with the apostrophe |
| CsvExport.SameExportIff | src/services/export-service.js:82-100 | two tables have the same export if and only if they have the same shape and differ at most by the guard |
| CredentialBinding.SortIs | src/security/credential-binding-guard.js:11-18 | sorting puts the same fields in ascending key order |
| CredentialBinding.LessIsLexicographic | src/security/credential-binding-guard.js:15 | keys are compared like words in a dictionary |
| CredentialBinding.CanonicalIff | src/security/credential-binding-guard.js:11-18 | canonical forms are equal if and only if the values agree up to the order of object keys at every depth |
| CredentialBinding.MatchesIff | src/security/credential-binding-guard.js:20-55 | with an injective digest, the guard passes if and only if the six binding fields and, with identity anchors, the two identity fields agree, missing ones counting as null |

## Left out

Properties that need a condition, and what it is:

- AbuseRates.RateBound: needs an idle time of at least capacity times refill time; without it the bound fails (AbuseTight.DoubleDrain), and AbuseTight.RateBoundIff gives both directions for the pre-auth emergency bucket, which every pre-auth request charges.
- AbuseEviction.IdleEvictionInvisible: needs the same condition for every bucket, and that no quota is reached, since a quota depends on which buckets are remembered.
- AbuseLeases.LeaseCaps: needs both reserves positive, and AbuseLeases.LeaseCapIff proves that the cap holds in every run exactly then, for all valid settings. When the containment class is configured without leases there is no bound at all.
- LifecycleTheorems.NeverRegressesIff: a usable record may be stored with a settled provider status, which a fresh revocation carries over and a failing provider then withdraws.
- AuditLog.FreshRecordFailsIff: needs an initial log without entries stamped after the clock; AuditLog.RecordFailsIff is exact for every log.
- AccessManagementService.ApiTokenService.CreateToken: the new identifier is random, hence taken as unused.
- CsvExport.CellIs: a header that a row lacks is read from an ordinary object in the source, so a header such as `constructor` or `__proto__` prints an inherited value there; the model prints an empty cell.
- AccessManagementService.ApiTokenService.Authenticate: when several tokens share a secret, any one of them may be the one examined.

Modelled differently:

- Clocks never go back; time is real in the limiter and whole milliseconds elsewhere; numbers are exact, so rounding of floating point does not appear.
- SHA-256, random identifiers, timing-safe comparison and the text of JSON are taken as injective or as fresh values.
- A bucket is a value in a map instead of a shared object; within one decision nothing evicts it, so aliasing would show no difference.
- The caller of the limiter resolves identities (trimming, fall-backs); the INTERNAL_ADMISSION_FAILURE branch cannot be reached and `snapshot` only reads.
- `refreshExpiredCredentials` selects credentials and refreshes one after the other; each is a refresh of its own that may start from any record once read. The creation of a new credential is a step of the system, not a method of the class.
- A credential's secrets, metadata and binding are one opaque value in the lifecycle. The order of concurrent provider replies is arbitrary; retries are new tasks.
- The audit store and the list kept in memory without one are the same field; a store that fails before writing leaves the log as it was. Entries are already normalised, and a filter is an arbitrary predicate.
- In the OAuth flow the purges that run inside other requests and on the timer are steps of their own which may happen at any time; admission, authorization and provider answers are arbitrary. Both services read one clock. The service is configured.
- Access operations are serialised by their queue; token operations are not assumed to be.
- Rows reach the CSV printer flattened to texts; a digit-like key may be reordered by JavaScript objects, which no theorem depends on. Strings are compared by character instead of by UTF-16 unit; any total order gives the same result.

Not modelled:

- `importCredentialBatch`, the non-user `updateCredential` and the rollback of an update: they copy a given lifecycle state or reuse an old version number.
- Timestamps, failure codes, secret-version records and the provider's override of identifiers in lifecycle records.
- Convergence of cleanup: `revoke` never runs grant cleanup and a retried `revoke` does not record history cleanup, so only safety is stated.
- Snapshots and restores of users, tombstones and the audit log; management backups.
- Delegation rules of token creation, pre-authentication failure windows, role permissions and the entropy test of the bootstrap secret: flat tables and counters.
- Test compatibility mode and its login route.
- `#flattenObject` and `#flattenManagementData`: a simple recursion without a law of its own.
- Routing, pages, cookies, headers, provider adapters, transport, encryption and storage adapters.
