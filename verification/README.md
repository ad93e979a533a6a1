# DripLine: a verified model

DripLine is a trading bot with a desktop shell. This project models the parts of it that are
protocols, state machines and data transformations, and proves what they promise. Every claim
is a Dafny theorem over all inputs, all runs or all reachable states, except the witnesses:
`RequestHistory.ResultCanBeRewritten` and `ExpiredAnswerCanBeWrong`, `Launch.SupersededCanLoad`,
`Redaction.ApiKeySpellings` and `SummaryCanPanic` each exhibit one input or run on which the code
does not do what is expected of it, beside the theorem that says exactly when that happens.

| file | what it covers |
|---|---|
| `Approvals`, `ApprovalStore`, `ApprovalProtocol`, `RequestHistory` | the durable approval queue for external agents: statements, operations, and every interleaving of the programs that use it |
| `Json`, `Canonical`, `Permissions` | the compact JSON text, the canonical form that binds a request to its arguments, the authorization decision and the stored policy |
| `SchemaMigration` | the crash-convergent migration of the pairing table |
| `ConfigAccess`, `JsonPath` | reading and writing the configuration by dotted path, and the protection of key material |
| `Redaction`, `Text`, `AuditTable` | masking and bounding what is stored or shown, and the bounded audit table |
| `Verification` | the handover of transaction verdicts between two tasks |
| `AtomicWrite`, `LegacyConfig` | crash-safe replacement of the configuration file and the merge of its legacy sections |
| `TokenRotation`, `DataAccess`, `Connectivity` | single-flight token rotation, the outage detector, endpoint health with hysteresis |
| `CoreResolver`, `Launch`, `LineDecoder` | choosing, launching and rolling back a staged core, and reading its output line by line |
| `Blacklist`, `Filtering`, `EventWriter` | one filtering run and the batching event writer |

Concurrent code is a state machine whose steps are the atomic actions of the source: one SQL
statement, one file operation, one stretch of code between two awaits. A crash is a step. The
same operations also appear as methods of classes that update their fields as the source does,
proved against the functions of the state machine. SHA-256 is an injective constructor.

## Where the code and its documentation disagree

The model follows the code.

- `is_sensitive_key` lists `apikey`, and its comment names `api_key`; a key is split at `_`, so
  `api_key` is not masked while `apiKey` is (`Redaction.SeparatedKeyIff`, `ApiKeySpellings`).
- `sanitize` cuts its text at byte 2048 with `String::truncate`, which panics inside a
  character. `Redaction.SanitizeSummary` gives the exact condition, `SummaryCanPanic` a value.
- The integrity update in `claim` has no state guard, unlike every other update. A stored result
  is final except in exactly that case (`RequestHistory.ResultRewritten`).
- `row_to_handle` answers "expired" even when its update moved no row; `ExpiredAnswerExact` says
  when that answer is right.
- The boot sequences check that they are current after waiting for the backend, but not again
  after recording the adoption, and may then open the dashboard although superseded
  (`Launch.LoadAfterAdoption`).
- Signing out does not cancel a refresh in flight, whose answer restores the session
  (`TokenRotation.SessionAppearsOnlyBy`).
- `consecutive_failures` counts failures since the last recovery point, not in a row
  (`Connectivity.ShortStreaksKeepTheCount`), and registering `internet` again while it is down
  makes the offline flag disagree until the next check (`Connectivity.MirrorStep`).
- A config change whose save fails is reported as an error although the live configuration has
  changed (`ConfigAccess.ConfigStore.Apply`).

## Model

| member | source | states |
|---|---|---|
| ApprovalProtocol.AtMostOnceExecution | src/agent_control/bridge.rs:223-273 | in every interleaving of calls, polls, approvals, denials, sweeps, recovery passes, store failures and crashes, from any well-formed table: no request is claimed or run twice, and each run follows a claim made strictly before expiry, then a policy check that did not refuse, and executes exactly the arguments the intact row stores |
| ApprovalProtocol.FinishedRunsAreFinal | src/agent_control/bridge.rs:223-273 | a run that claimed its row and returned without a store failure left that row final |
| ApprovalProtocol.RecoveryLeavesNothingInFlight | src/agent_control/store.rs:279-316 | after a crash, the recovery pass and a sweep, every row is final or pending and not yet due |
| ApprovalProtocol.StepKeeps | src/agent_control/bridge.rs:137-289 | every step of every program keeps the whole invariant: unique bindings, results exactly in done and failed rows, exclusive holders, claims and permissions on record |
| RequestHistory.StepGoesForward | src/agent_control/approvals.rs:156-434 | no statement takes a row back, rebinds it or removes it |
| RequestHistory.RowsGoForward | src/agent_control/approvals.rs:33-69 | over any run a row keeps its binding and arguments and its rank never falls |
| RequestHistory.FinalStatesStay | src/agent_control/approvals.rs:33-69 | a done, failed, denied or expired row keeps that state for ever |
| RequestHistory.BindingKeepsItsRow | src/agent_control/approvals.rs:208-256 | the row a client, tool and digest select is the same one for the rest of every run |
| RequestHistory.BridgeOnlyInsertsOrExpires | src/agent_control/bridge.rs:137-216 | bridge steps only insert intact pending rows without a result, or expire a pending one |
| RequestHistory.RetryGetsTheStoredResult | src/agent_control/bridge.rs:181-205 | once an intact request has a result, a later call of the same binding after any run is answered with that stored result, runs nothing and changes no row, whatever state other rows are in |
| RequestHistory.ResultRewritten | src/agent_control/approvals.rs:358-369 | a stored result changes in a step if and only if that step is the integrity update without a state guard, reaching a row failed in the meantime with another result |
| RequestHistory.ResultsAreWrittenOnce | src/agent_control/approvals.rs:416-434 | on a row whose digest matches, a stored result is never replaced in any run, whatever state other rows are in |
| RequestHistory.ResultCanBeRewritten | src/agent_control/approvals.rs:358-369 | a concrete run in which recovery fails a tampered row and the integrity update then replaces its result |
| RequestHistory.ExpiredAnswerExact | src/agent_control/approvals.rs:170-196 | telling a caller that its pending request expired is accurate if and only if nobody decided the row between the read and the expiry update |
| RequestHistory.ExpiredAnswerCanBeWrong | src/agent_control/approvals.rs:170-196 | a concrete run in which a caller is told "expired" and the approved request then runs |
| ApprovalProtocol.Objection | src/agent_control/bridge.rs:243-257 | the check after the claim has no objection if and only if control is enabled, the pairing is active, the tool exists and the pairing's policy does not deny its category |
| Approvals.OneRowPerCall | src/agent_control/approvals.rs:119-140 | two calls of one client and tool share a row if and only if their arguments mean the same |
| Approvals.StoredResultReadsBack | src/agent_control/approvals.rs:142-152 | a stored result reads back as the sanitized value it was written from |
| ApprovalStore.Store.CreateOrReuse | src/agent_control/approvals.rs:208-256 | inserts a pending row exactly when the binding is new, answers from the row the binding selects, and otherwise only expires that row when overdue |
| ApprovalStore.Store.RowToHandle | src/agent_control/approvals.rs:156-197 | the answer for a row as it was read, and the only change: a row that was overdue then is expired if it is still pending |
| ApprovalStore.Store.ViewForClient | src/agent_control/approvals.rs:259-274 | a request of another client is reported missing and left alone |
| ApprovalStore.Store.Deny | src/agent_control/approvals.rs:307-329 | denies exactly a pending row and reports its context; otherwise nothing changes |
| ApprovalStore.Store.Claim | src/agent_control/approvals.rs:333-397 | claims exactly a pending, unexpired, intact and readable row; a tampered or unreadable one is failed with its own result; otherwise nothing changes |
| ApprovalStore.Store.MarkExecuting | src/agent_control/approvals.rs:400-410 | moves exactly a claimed row, and reports when it did not |
| ApprovalStore.Store.Finish | src/agent_control/approvals.rs:416-434 | closes exactly an executing row with the sanitized result, and reports when it did not |
| ApprovalStore.Store.Fail | src/agent_control/bridge.rs:232-241 | a claimed or executing row ends failed with the stored reason; a row recovery has failed meanwhile stays as it is |
| ApprovalStore.Store.ExecuteApproved | src/agent_control/bridge.rs:223-273 | a claimable request ends final with a result, having run its stored arguments once if policy allows it and not at all otherwise; every other row and an unclaimable request are untouched |
| ApprovalStore.Store.RunClaimed | src/agent_control/bridge.rs:243-273 | the part after the claim: outcome, arguments run and final row |
| ApprovalStore.Store.Sweep | src/agent_control/store.rs:328-347 | expires every overdue pending row and nothing else |
| ApprovalStore.Store.RecoverInterrupted | src/agent_control/store.rs:279-316 | fails exactly the claimed and executing rows, expires the overdue ones, replays nothing |
| Canonical.CanonicalTextIffSameMeaning | src/agent_control/approvals.rs:116-136 | two values have one canonical text if and only if they mean the same, objects being unordered (RFC 8259, section 4) |
| Canonical.StoredArgumentsMeanTheCall | src/agent_control/approvals.rs:371-396 | the arguments parsed from the stored text mean what the caller sent |
| Canonical.CanonicalUnique | src/agent_control/approvals.rs:119-136 | canonical values with the same meaning are equal |
| Canonical.NormKeepsMeaning | src/agent_control/approvals.rs:120-134 | sorting keys at every depth keeps the meaning |
| Canonical.InsertCorrect | src/agent_control/approvals.rs:123-131 | inserting a field keeps the list sorted and adds exactly that field |
| Json.RoundTrip | src/agent_control/approvals.rs:135-152 | the compact text of a value parses back to exactly that value |
| Json.StringRoundTrip | src/agent_control/approvals.rs:135-152 | escaped text reads back, up to its closing quote, as the characters it was written from |
| Permissions.PairedDecision | src/agent_control/mod.rs:67-109 | a pairing is decided by its own level for the tool's category alone, and raising the level never weakens the decision |
| Permissions.DeniedNeverRuns | src/agent_control/mod.rs:80-109 | a denied category is refused whoever asks, read-only automation never mutates, and the assistant never skips a required confirmation |
| Permissions.PolicyRoundTrip | src/agent_control/permissions.rs:90-99 | a stored policy is never empty text and reads back as itself |
| SchemaMigration.InterruptionsConverge | src/agent_control/store.rs:217-255 | stopped after any statement any number of times, the table still leads to what one uninterrupted run makes, and a completed run has made it |
| SchemaMigration.EachRowHoldsItsPolicy | src/agent_control/store.rs:217-273 | each row of a version 1 table then holds text that reads as exactly the policy of its old scope, and is otherwise untouched |
| SchemaMigration.RowsStay | src/agent_control/store.rs:217-255 | no pairing appears or disappears at any point |
| SchemaMigration.UpdateKeeps | src/agent_control/store.rs:240-246 | one row update keeps the destination and leaves exactly the remaining rows to do |
| SchemaMigration.DropKeeps | src/agent_control/store.rs:249-250 | dropping the scope column is safe exactly when no row is left, and finishes |
| SchemaMigration.ScopeKeepsItsPower | src/agent_control/store.rs:257-273 | a migrated pairing executes a tool if and only if its scope allowed that category |
| SchemaMigration.PairingDb.SelectWithoutPolicy | src/agent_control/store.rs:235-238 | lists each row without a policy once, with its scope |
| SchemaMigration.PairingDb.MigrateScopeToPermissions | src/agent_control/store.rs:217-255 | from whatever an earlier run left, ends with the migrated table |
| ConfigAccess.TouchesSecretIffFirstSegment | src/agent_control/config_access.rs:36-46 | the prefix tests on the raw text hold if and only if the path is the root or its first dot-separated segment names key material |
| ConfigAccess.IndexAliases | src/agent_control/config_access.rs:98-112 | any number of leading zeros, with or without one plus sign, leave the array index a segment stands for unchanged |
| ConfigAccess.IndexNeedsDigits | src/agent_control/config_access.rs:98-112 | a segment is an index only if nothing but digits is left after one plus sign |
| ConfigAccess.PutGet | src/agent_control/config_access.rs:118-163 | what was written at a position is read there |
| ConfigAccess.GetPut | src/agent_control/config_access.rs:118-163 | writing back what is there changes nothing |
| ConfigAccess.PutPut | src/agent_control/config_access.rs:118-163 | a second write hides the first |
| ConfigAccess.PutFrame | src/agent_control/config_access.rs:118-163 | a position neither above nor below the written one keeps its value or absence |
| ConfigAccess.SetAtLaws | src/agent_control/config_access.rs:98-163 | `set_at` succeeds if and only if `resolve` does and with its errors, returns the old value, makes the path resolve to the new one, can be undone, and changes no unrelated position |
| ConfigAccess.Resolve | src/agent_control/config_access.rs:98-112 | the loop over segments finds the value at the located position or the right error |
| ConfigAccess.SetAtPath | src/agent_control/config_access.rs:118-163 | walking the parents, replacing the last segment's value and putting each parent back writes exactly the located position, or fails like `resolve` |
| ConfigAccess.SetAtKeepsSecrets | src/agent_control/config_access.rs:118-163 | a write whose trimmed path does not touch key material leaves both secrets as they were, present or absent |
| ConfigAccess.BatchKeepsSecrets | src/agent_control/config_access.rs:191-218 | no accepted batch changes either secret |
| ConfigAccess.UndoRestores | src/agent_control/config_access.rs:200-208 | the reported previous values, written back last first, restore the original document exactly |
| ConfigAccess.BuildUpdated | src/agent_control/config_access.rs:191-218 | the loop applies the updates in order to a copy and asks the schema once |
| ConfigAccess.FirstSecret | src/agent_control/config_access.rs:234-243 | the check before a batch finds the first path that touches key material, if any |
| ConfigAccess.ConfigStore.Apply | src/agent_control/config_access.rs:228-265 | any refused, unresolved or rejected entry leaves live and saved documents alone; a failed save is reported after the live document has changed |
| ConfigAccess.ConfigStore.Read | src/agent_control/config_access.rs:167-174 | reads come from the redacted document, whole or at a path |
| ConfigAccess.RedactSecretsHides | src/agent_control/config_access.rs:59-72 | a read is independent of the stored key material and everything else is unchanged |
| Verification.AwaitThenSettle | src/actions/verification.rs:41-105 | a waiter registered first is finished exactly once with the settled verdict, whatever other signatures do before and after |
| Verification.SettleThenAwait | src/actions/verification.rs:41-105 | a verdict settled first is handed over exactly once if its entry survived; otherwise nothing finishes and the waiter stays |
| Verification.SurvivesExact | src/actions/verification.rs:80-98 | an entry survives a stretch of traffic if and only if no step of it drops the entry |
| Verification.DropsExact | src/actions/verification.rs:80-98 | a step drops an entry if and only if it settles another signature and the entry has expired or is the oldest of a full map |
| Verification.EvictedWhenFull | src/actions/verification.rs:84-96 | an unexpired entry is evicted only when at least 511 other signatures hold verdicts no older than it |
| Verification.EvictedOnlyByLater | src/actions/verification.rs:84-96 | in every run from an empty registry under a strictly increasing clock, an unexpired entry is evicted only when at least 511 other signatures hold verdicts settled strictly later |
| Verification.RunsKeepTimesDistinct | src/actions/verification.rs:72-105 | under such a clock no two verdicts share an instant at any point of any run |
| Verification.EvictedByLater | src/actions/verification.rs:84-96 | the eviction step behind it, from a registry whose instants are distinct |
| Verification.TimesStayDistinct | src/actions/verification.rs:72-105 | one step under such a clock keeps the instants distinct |
| Verification.RunKeepsInv | src/actions/verification.rs:25-38 | no signature is both awaited and unclaimed and at most 512 verdicts are kept, in every run |
| Verification.OthersLeaveWaiter | src/actions/verification.rs:41-105 | traffic on other signatures finishes nothing of a signature and leaves its waiter |
| Verification.Handover.AwaitVerification | src/actions/verification.rs:41-69 | registering hands a waiting verdict over and forgets it, or records the waiter |
| Verification.Handover.SettleVerification | src/actions/verification.rs:72-105 | settling finishes the waiter, or purges, evicts at most one oldest entry and keeps the verdict |
| Verification.FindOldest | src/actions/verification.rs:85-90 | the eviction scan finds an entry no other is older than |
| AtomicWrite.DestinationIsWhole | src/config/utils.rs:130-269 | with any number of concurrent writers and a crash after any step, the destination is the original or one writer's complete, synced document in a mode within 0600 |
| AtomicWrite.StrangersAreNeverTouched | src/config/utils.rs:155-205 | a temp file no live writer owns, synced or not, is never created, overwritten, removed or taken over in any run; only a crash can touch one that was never synced |
| AtomicWrite.CrashesGarbleOnlyUnsynced | src/config/utils.rs:155-205 | through any number of crashes such a file, as long as no crash loses it, stays unowned with its mode, and only crashes have changed what an unsynced one holds |
| AtomicWrite.CrashOnStranger | src/config/utils.rs:207-219 | a crash loses a temp file if and only if it was never synced and is among the lost ones, and leaves the others without an owner |
| AtomicWrite.TempsAreOwnerOnly | src/config/utils.rs:139-165 | a writer's temp file is never readable by anyone but the owner |
| AtomicWrite.ReturnLeavesNoTemp | src/config/utils.rs:207-256 | a writer that returns has removed its temp file unless that removal itself failed |
| AtomicWrite.RenamePublishes | src/config/utils.rs:251-256 | a successful rename makes exactly the writer's document and mode visible |
| AtomicWrite.StepKeeps | src/config/utils.rs:130-269 | every writer step, start and crash keeps the invariant of the directory |
| AtomicWrite.MaskedModeIsOwnerOnly | src/config/utils.rs:139-153 | masking with 0600 leaves owner bits only, whatever the mode and umask were |
| AtomicWrite.Directory.OpenTemp | src/config/utils.rs:155-205 | takes the first of at most sixteen names, in order, that is free; gives up only if all of them are taken or creation fails |
| AtomicWrite.Directory.WriteConfigAtomic | src/config/utils.rs:130-269 | success changes the destination alone, to the whole document; failure changes nothing, except that a temp file whose removal also failed is left, readable by the owner alone |
| TokenRotation.SingleFlight | src/account/mod.rs:215-293 | over any interleaving at most one refresh is in flight, and a token that was rotated away or refused is never sent again |
| TokenRotation.OneRotationServesAll | src/account/mod.rs:220-253 | while a rotated token outlives the margin every waiting caller gets it and no request is made |
| TokenRotation.RotationCalms | src/account/mod.rs:270-326 | the one successful answer puts the world in that state |
| TokenRotation.SessionAppearsOnlyBy | src/account/mod.rs:270-326 | a signed-out client gets a session if and only if it signs in or a refresh already in flight is answered |
| TokenRotation.SignedOutStays | src/account/mod.rs:545-551 | signing out lasts as long as no refresh was under way |
| TokenRotation.SignOutCanBeUndone | src/account/mod.rs:270-326 | an answer to a refresh in flight restores the session that was signed out |
| TokenRotation.StepKeeps | src/account/mod.rs:215-326 | every caller and server step keeps the invariant that live tokens are unspent |
| TokenRotation.Account.AccessToken | src/account/mod.rs:220-253 | a usable token is returned without a request; otherwise the refresh token is spent once and its answer settled; nothing is spent offline or signed out |
| TokenRotation.Account.RefreshSession | src/account/mod.rs:270-293 | one exchange: what is kept, returned and dropped for each answer |
| DataAccess.AccessState.Record | src/data_server/access.rs:204-241 | the stored counters keep summarising the whole history after recording an outcome |
| DataAccess.AccessState.RecordTransportFailure | src/data_server/access.rs:185-201 | a failure extends the run: saturating count, first instant kept, outage exactly from the third failure at least 10 s after the first |
| DataAccess.AccessState.ForgetRefusals | src/data_server/access.rs:259-273 | a refusal is forgotten, any other standing is left exactly as it was |
| DataAccess.BurstIsNotAnOutage | src/data_server/access.rs:166-201 | any number of failures within ten seconds leaves a service that answered standing |
| DataAccess.AnswerRestores | src/data_server/access.rs:204-241 | one answer ends any outage |
| DataAccess.CallsRecordSoundly | src/data_server/mod.rs:145-212 | a call records Ready if and only if it was made and answered with success, and a refusal never reads as working |
| DataAccess.UsableAfterForget | src/data_server/mod.rs:228-243 | after a sign-in the decision to call depends on live facts only; otherwise only a recorded refusal outside an outage stops a call |
| Connectivity.HealthRefinesHistory | src/connectivity/state.rs:57-185 | in every run each endpoint's counters (wrapping at 32 bits), whole health value with its recorded failure count, and last success are those read off its own history of checks since it was registered |
| Connectivity.LastMarkIsLast | src/connectivity/state.rs:115-177 | the check the health is read off is the last one that recovered or tripped |
| Connectivity.MetadataIsLatest | src/connectivity/state.rs:57-100 | in every run criticality and fallback are what was last registered or ensured, and checks leave them alone |
| Connectivity.LeavesDownByStreak | src/connectivity/state.rs:115-148 | an endpoint that is down comes up only on `recovery_threshold` healthy checks in a row |
| Connectivity.EntersDownByFailures | src/connectivity/state.rs:149-177 | it goes down only after `failure_threshold` failed checks with no recovery point between them |
| Connectivity.ShortStreaksKeepTheCount | src/connectivity/state.rs:115-148 | successes short of a recovery neither reset the failure count nor the state |
| Connectivity.MirrorStep | src/connectivity/state.rs:57-185 | a step leaves the offline flag equal to confirmed-unhealthy unless, and exactly if, it re-registers `internet` while that is down |
| Connectivity.CheckResyncs | src/connectivity/state.rs:179-184 | the next check of `internet` always restores the agreement |
| Connectivity.MirrorTracksInternet | src/connectivity/state.rs:57-185 | in every run without such a re-registration the flag equals confirmed-unhealthy |
| Connectivity.ConnectivityState.RegisterEndpoint | src/connectivity/state.rs:57-68 | all five maps after a registration |
| Connectivity.ConnectivityState.EnsureEndpointMetadata | src/connectivity/state.rs:71-100 | an endpoint already present keeps its health and counters and takes the new metadata |
| Connectivity.ConnectivityState.UpdateHealth | src/connectivity/state.rs:103-185 | the branches of one check implement the step of the history model |
| Redaction.RedactFixedIff | src/agent_control/audit.rs:236-262 | redaction changes nothing if and only if the value is already bounded and masked, and is idempotent |
| Redaction.BoundedMasksEverywhere | src/agent_control/audit.rs:236-262 | in a redacted value a sensitive key maps to the mask at every depth |
| Redaction.RedactHidesSecrets | src/agent_control/audit.rs:236-262 | values that differ only under sensitive keys redact to the same value |
| Redaction.ReachedValuesSurvive | src/agent_control/audit.rs:236-262 | every position redaction reaches keeps its own redacted value |
| Redaction.ClampIdempotent | src/agent_control/audit.rs:264-273 | clamping twice is clamping once although the result may exceed the limit by three bytes |
| Redaction.ClampFixedIff | src/agent_control/audit.rs:264-273 | exactly the short strings and the already clamped ones are left alone |
| Redaction.Clamp | src/agent_control/audit.rs:264-273 | the countdown to a character boundary keeps the longest prefix that fits |
| Redaction.SanitizeValueBounds | src/agent_control/audit.rs:174-203 | a stored result serialises within 4096 bytes, is bounded and masked, and sanitizing it again changes nothing |
| Redaction.SanitizeValueHidesSecrets | src/agent_control/audit.rs:174-203 | nothing under a sensitive key influences a stored result |
| Redaction.DecisionFieldsSurvive | src/agent_control/audit.rs:179-197 | when a result collapses, the small fields a caller decides on keep their redacted values |
| Redaction.SanitizeValueValid | src/agent_control/audit.rs:174-203 | a stored result is well-formed JSON |
| Redaction.SeparatedKeyIff | src/agent_control/audit.rs:211-234 | exactly when a key of two words with a separator between them is masked: it contains secret, mnemonic or passphrase, or one of the two words is listed and no public token name is contained; the two together never count |
| Redaction.SingleWordIff | src/agent_control/audit.rs:211-234 | exactly when a key of one word is masked |
| Redaction.ApiKeySpellings | src/agent_control/audit.rs:211-234 | the instance the comment names: `apiKey` is masked and `api_key` is not |
| Redaction.SanitizeSummary | src/agent_control/audit.rs:155-168 | a summary is produced if and only if the redacted text fits or byte 2048 starts a character, and then which text it is |
| Redaction.SummaryCanPanic | src/agent_control/audit.rs:155-168 | a concrete value whose summary cuts inside a character |
| Redaction.AsciiBoundary | src/agent_control/audit.rs:155-168 | plain ASCII text is always cut cleanly |
| Text.FitIsLastBoundary | src/agent_control/audit.rs:264-273 | the longest prefix of whole characters ends at the last character boundary within the limit |
| Text.FitPrefixAppend | src/agent_control/audit.rs:264-273 | cutting is unaffected by what follows the part that fits |
| AuditTable.AuditLog.Record | src/agent_control/audit.rs:95-120 | one insert and prune leave exactly the newest unexpired rows, at most 5000 |
| AuditTable.AuditLog.Prune | src/agent_control/store.rs:354-367 | keeps exactly the newest unexpired rows |
| AuditTable.PruneKeepsNewest | src/agent_control/store.rs:354-367 | deleting up to the id just past the cap keeps exactly the newest rows |
| AuditTable.NewRowIsKept | src/agent_control/audit.rs:95-120 | the row just written is always kept as the newest |
| Launch.OneRollbackPerGeneration | electron/src/main.js:106-144 | in every run a generation schedules at most one rollback, while current, of a staged core on its first run, and never after it reported ready |
| Launch.RollbackRunsTheBundle | electron/src/main.js:106-144 | a rollback relaunches while its generation is current; the generation it starts runs the bundle and is never rolled back |
| Launch.SupersededStaysSilent | electron/src/main.js:1503-1530 | a superseded boot sequence neither begins an adoption nor reports an error |
| Launch.LoadAfterAdoption | electron/src/main.js:1511-1516 | in every run, whatever happens while the adoption of the current generation is recorded: the sequence then loads a dashboard if and only if some port is known, it has been superseded by then if and only if some step of that wait started a backend, and what it loads is the current backend if and only if that one has reported ready |
| Launch.SupersededCanLoad | electron/src/main.js:1511-1516 | a concrete run: a restart asked for from the dashboard clears the port and launches a second backend, which reports ready before the first sequence opens the dashboard |
| Launch.StretchGeneration | electron/src/main.js:600-611 | a waiting adoption is left alone by every other step, and the generation has moved if and only if one of them started a backend |
| Launch.StepKeeps | electron/src/main.js:600-771 | every handler step keeps the invariant of the launch state |
| Launch.MainProcess.RecoverFailedStagedCore | electron/src/main.js:106-144 | schedules exactly when the gate allows it |
| Launch.MainProcess.StartBackend | electron/src/main.js:600-771 | a launch bumps the generation, clears readiness and runs the imposed core if there is one |
| Launch.MainProcess.OnExit | electron/src/main.js:717-765 | an exit counts for the current generation only: rollback, silence or a report |
| Launch.MainProcess.AfterWait | electron/src/main.js:1511-1530 | how a boot sequence goes on after its wait |
| Launch.MainProcess.RelaunchBundle | electron/src/main.js:126-134 | the relaunch with the bundled core, unless superseded or another relaunch runs |
| Launch.MainProcess.AfterAdoption | electron/src/main.js:1443-1463 | the dashboard is opened at the port in use, and not at all without one |
| CoreResolver.CompareVersions | electron/src/core_resolver.js:42-51 | on any two texts the early-exit comparison is the lexicographic order of their three numbers |
| CoreResolver.CompareIsPreorder | electron/src/core_resolver.js:42-51 | it is a total preorder, equal exactly on equal numbers |
| CoreResolver.StagedOnlyIfNewerAndTrusted | electron/src/core_resolver.js:58-96 | a staged core is chosen only if strictly newer, never recorded as failed, complete, and inside its own directory |
| CoreResolver.RetainedIff | electron/src/core_resolver.js:106-117 | a recorded version is still recorded if and only if few enough new ones followed it |
| CoreResolver.QuarantineBlocks | electron/src/core_resolver.js:72-96 | a recorded version is never launched from a staged pointer |
| CoreResolver.CoreDir.QuarantineStagedCore | electron/src/core_resolver.js:215-225 | records the version and then drops the pointer; neither happens if the record cannot be written, and the record stays if the pointer cannot be removed |
| CoreResolver.CoreDir.MarkCoreAdopted | electron/src/core_resolver.js:133-143 | adds the version to the adoption record only |
| CoreResolver.CoreDir.PruneStagedCores | electron/src/core_resolver.js:231-254 | drops staged trees, pointer and adoptions, and keeps the quarantine |
| CoreResolver.CoreDir.ResolveCore | electron/src/core_resolver.js:165-209 | returns the staged core if and only if it is chosen and its file has the recorded size and digest, and quarantines it otherwise |
| LineDecoder.DecodeAll | electron/src/backend_launch.js:11-36 | however a stream is cut into chunks, the emitted lines are those of the one-shot reading |
| LineDecoder.PiecesConcat | electron/src/backend_launch.js:15-22 | appending text affects only the unterminated piece |
| LineDecoder.PiecesJoin | electron/src/backend_launch.js:15-22 | the pieces joined by newlines are the stream |
| LineDecoder.PiecesHaveNoNewline | electron/src/backend_launch.js:15-22 | no piece contains a newline |
| LineDecoder.Decoder.Drain | electron/src/backend_launch.js:15-22 | the drain loop terminates, emits exactly the complete pending lines and keeps the rest |
| LineDecoder.Decoder.Push | electron/src/backend_launch.js:25-28 | a chunk joins what was received, and what is emitted stays in step with it |
| LineDecoder.Decoder.End | electron/src/backend_launch.js:29-34 | everything received has been emitted, a last line only if there is one |
| Blacklist.Aggregate | src/filtering/engine.rs:94-209 | each mint has exactly the reasons the three listings give it, none twice; records without a mint are skipped, failed listings are empty |
| Blacklist.Normalize | src/filtering/engine.rs:211-233 | reasons grow exactly by the database reason for flagged mints without any; the token kept for a mint is flagged if and only if the mint has reasons |
| Blacklist.BlacklistedIff | src/filtering/engine.rs:211-233 | a mint has reasons if and only if a listing or the token store blacklists it |
| Filtering.ApplyAllFilters | src/filtering/engine.rs:563-633 | the pipeline of early returns yields the first failing stage |
| Filtering.PassesIff | src/filtering/engine.rs:563-633 | a token passes if and only if every applicable evaluator accepts it and an enabled market source covers it |
| Filtering.MissingDataIff | src/filtering/engine.rs:579-627 | exactly when, and for which source, a token is rejected for missing data |
| Filtering.RunPartitions | src/filtering/engine.rs:283-400 | passed and rejected mints partition the loaded ones, each once, by their verdict |
| Filtering.DecisionsAre | src/filtering/engine.rs:283-380 | a decision list has one entry per mint with the verdict and the kept or new time |
| Filtering.Classify | src/filtering/engine.rs:283-400 | the loop builds those lists, the entry map and counters that agree with them |
| Filtering.CountsAddUp | src/filtering/engine.rs:643-650 | the per-reason counts, summed in any order, are the rejected total |
| Filtering.FilteringStats.RecordRejection | src/filtering/engine.rs:644-650 | one rejection is counted once, under its reason |
| Filtering.HistoryIsTheBest | src/filtering/engine.rs:496-514 | a history is sorted, holds the best 1000 decisions, and nothing dropped ranks before anything kept |
| Filtering.RankingIsUnique | src/filtering/engine.rs:496-514 | with one decision per mint every sort gives the same ranking |
| Filtering.DecisionKeepsItsTime | src/filtering/engine.rs:264-274 | a mint decided the same way as in the previous history keeps its time, any other gets a new one |
| Filtering.HistoriesStayDistinct | src/filtering/engine.rs:496-514 | histories list each mint once, so the next run can rely on it |
| Filtering.ComputeSnapshot | src/filtering/engine.rs:250-517 | the snapshot of a run, from the loaded tokens and the previous snapshot |
| LegacyConfig.MergePrecedence | src/config/migrate.rs:231-360 | after the merge a field holds its explicit value, else the legacy value, else its default |
| LegacyConfig.MergeFrame | src/config/migrate.rs:231-360 | no other field changes, appears or disappears |
| LegacyConfig.NothingCollides | src/config/migrate.rs:231-360 | no two of the legacy leaves share a destination |
| LegacyConfig.NothingMoves | src/config/migrate.rs:236-240 | without the legacy sections nothing moves and nothing can fail |
| LegacyConfig.MovedIs | src/config/migrate.rs:112-158 | what every field holds after any list of such moves with distinct destinations |
| LegacyConfig.ConfigCell.Fill | src/config/migrate.rs:112-158 | fills leaves in order and stops at the first that would move with the wrong type |
| LegacyConfig.ConfigCell.FillProviders | src/config/migrate.rs:259-269 | every leaf of every provider is merged on its own |
| LegacyConfig.ConfigCell.MigrateLegacySections | src/config/migrate.rs:231-360 | succeeds if and only if both sections decode and every moving provider leaf fits, reports false if and only if neither section is there, and then which configuration results |
| EventWriter.EventsKeepTheirOrder | src/events/mod.rs:281-355 | in every run each accepted event is handed over, in the batch or queued, in order; the batch stays below 100; subscribers saw what the database was given; the cache is the newest 5000 reversed |
| EventWriter.CloseDrains | src/events/mod.rs:301-307 | after the last sender is gone everything is handed over and the writer stops |
| EventWriter.PushedIsNewest | src/events/mod.rs:337-346 | pushing to the front and popping from the back keeps exactly the newest events |
| EventWriter.StepKeeps | src/events/mod.rs:281-334 | every branch of the loop keeps the conservation of events |
| EventWriter.WriterTask.PushToCacheAndBroadcast | src/events/mod.rs:337-355 | the nested loops push the whole batch and send it in order |
| EventWriter.WriterTask.Write | src/events/mod.rs:322-334 | an empty batch does nothing; any other moves on whole |
| EventWriter.WriterTask.OnReceive | src/events/mod.rs:291-309 | one turn of the receiving branch, the closing one included |
| EventWriter.WriterTask.OnTick | src/events/mod.rs:312-315 | one turn of the timer branch |

## Left out

- Numbers in JSON are the text written for them; floats are not interpreted.
- The JSON reader accepts the compact text the writer produces, has no recursion limit and does not merge duplicate keys; objects are field lists in iteration order.
- ApprovalStore.Store.CreateOrReuse: the summary and decided-by columns and the listing of pending requests are not modelled; a random id is a parameter that is not in the table yet.
- Audit records written inside approval steps, and the checking of a pairing's secret, are not modelled; they do not touch the approval table.
- ConfigAccess.SetAtPath: instead of writing through a mutable reference, the changed value is put back into each parent on the way up; what an error lists as available is not modelled.
- ConfigAccess.ConfigStore.Apply: decoding a document into the typed configuration is a predicate that accepts or rejects it.
- SchemaMigration.PairingDb.MigrateScopeToPermissions: the credential columns are represented by the other columns of a row; another process migrating at the same time is not modelled.
- Permissions.PolicyRoundTrip: level names in the configuration, which are read without regard to case, are not modelled.
- AtomicWrite.Directory.WriteConfigAtomic: replacement on Windows, which the source calls not atomic, and links or directories at the destination are not modelled; a crash keeps what was renamed.
- TokenRotation.SingleFlight: the session lives in memory only; failures to store it, the browser and wallet sign-in exchanges and the profile refresh are not modelled.
- DataAccess.AccessState.Record: two calls recording at the same moment are not modelled; records are taken one at a time.
- DataAccess.CallsRecordSoundly: the extraction of the minimum version from a refusal's sentence is not modelled.
- Connectivity.HealthRefinesHistory: the aggregates over endpoints are not modelled; instants are numbers.
- LineDecoder.DecodeAll: works on characters; the decoding of UTF-8 across chunks belongs to the platform.
- CoreResolver.CompareVersions: numbers are unbounded, so versions beyond 2^53 compare exactly here; a dotted piece counts as a number only if it is all digits, while JavaScript also reads fractions, exponents, hexadecimal and padded numbers.
- CoreResolver.CoreDir.ResolveCore: file contents are a size and a digest, and Windows path rules are not modelled.
- CoreResolver.CoreDir.PruneStagedCores: pruning that keeps one staged tree is not modelled, only the pruning a launch performs.
- Launch.LoadAfterAdoption: the port itself is not modelled, only which generation reported it; one that is no number is not modelled.
- Launch.OneRollbackPerGeneration: windows, status texts and timers are not modelled; a timer that fires is a step that may happen.
- Filtering.ApplyAllFilters: what each source evaluator answers for a token is an input; evaluators are not modelled.
- Filtering.ComputeSnapshot: the order in which a run visits its tokens is an input, since a hash map decides it; prices, open positions, candle data, creation times, batched database updates and the published lists are not modelled.
- LegacyConfig.ConfigCell.MigrateLegacySections: a legacy section written as a list instead of a table is treated as malformed; the canonical configuration is a map from paths to values.
- EventWriter.WriterTask.Write: what the database stores, and the row ids it gives, are not modelled; a failed insert still reaches cache and subscribers, as in the source.
- HTTP, the SQL engine, encryption, tool bodies, language-model calls and the user interface are outside the model.
