# Verified model of the time tracker's server protocols

The time tracker keeps its data in single documents and protects them with protocols written by
hand: reservations and locks on one project document, an idempotency receipt per create request,
observers that are replaced while callbacks of the old one are still under way, compare-and-swap
edits, a promise chain per dashboard creator. This project models those protocols and the algorithms
beside them, and proves what they promise over every run or for every input.

A protocol is a state machine. One step is one atomic store operation or one stretch of code between
two awaits; any number of processes take part, an operation whose reply was lost may still be applied
later, and everything else that touches the same documents is a step too. `Exec` runs any sequence of
steps, so a lemma about `Exec` is about every interleaving. Where the source updates an object step
by step there is a class or a method with the same fields, branches and flags, and its contract ties
it to the machine or to a function whose properties are proved. The `Answers` files say what each
operation answers in terms of the stored documents and the inputs alone, in both directions, and what
a caller gets that nothing disturbs.

| file | what it models |
|---|---|
| `ProjectChildFence`, `ProjectChildFenceProofs`, `ProjectChildFenceAnswers`, `ProjectFenceProcedures` | child creation, empty-project deletion and writer recovery on one project document |
| `IdempotentCreate`, `IdempotentCreateProofs`, `IdempotentAnswers`, `IdempotentTiming`, `IdempotentProcedure`, `RequestFingerprint` | reserve, recover, create and complete over a receipt store with TTL deletion, and when two requests are the same |
| `PublicationReconciler`, `RestartableObserver`, `DashboardPublication`, `DashboardAnswers` | the diffing reconciler, the generation-token observer, and the public dashboard publication built from both |
| `WebhookOrder` | the last-writer rule for webhook events and the access decision they drive |
| `ProjectLifecycle`, `LifecycleAnswers`, `LifecycleProcedures`, `ResourceRevision` | optimistic edits and archiving of projects, and revision tags |
| `DashboardQuota` | the promise-chain mutex around the dashboard quota |
| `ApiPagination`, `CursorCodec` | keyset pages, a client following nextCursor, and the cursor text |
| `EditDistance`, `ProjectStats`, `ProjectStatsAnswers`, `DateMigration`, `DateMigrationAnswers`, `CanonicalEncoding`, `RateLimit`, `RateLimitAnswers` | the one-row edit distance, incremental statistics, the date migration preview, canonical recovery tags, the token bucket |
| `DailyMail`, `ExportCollection`, `LdapEscaping` | at-most-once daily mail, collecting a paged export, the LDAP escapers |
| `Strings`, `SortedKeys`, `Calendar`, `Options` | lexicographic order, decimal text, entries sorted by key, the proleptic Gregorian calendar and time values, options |

## Findings

- The fence leaves no orphan under the single-instance assumption; one write of an older boot that
  lands after its reservation was recovered does leave one (`LateWriteOrphans`).
- The completion filter of the idempotency store names the fingerprint but not the resource. If a
  receipt expires while a request is still bound to it, that request can complete the next receipt
  and answer with one resource's id and another's result (`MixedGenerations`). It cannot happen if
  every request is done with its receipt before the receipt's earliest expiry
  (`PromptRunsCreateOnce`), and a client can see to that: it makes all attempts within the pending
  retention of the first, less a limit, and ends each within the limit, which is at most half the
  retention (`TimelyClientsCreateOnce`).
- The dashboard quota is exceeded by at most as many dashboards as inserts that land after they were
  reported as failed (`QuotaHolds`), and every number of such inserts can exceed it by that number
  (`LateInsertsExceed`).
- Two create requests share a fingerprint exactly when they differ in nothing but the order of keys,
  entries that are undefined or named `__proto__`, the sign of a zero, holes of arrays for null, and a
  date for the object `{ $date: text }` that spells it (`FingerprintIff`).
- A daily mail whose send throws although the mail server accepted it goes out again: with n such sends
  at most n + 1 mails of a recipient and day go out (`MailsBounded`), and for every n that many can
  (`MisreportedSends`).
- A project edit compares dates as days but stores instants. If the start date has a time of day, the
  end date can be moved to the start's own day, and the stored end is then before the stored start
  (`EndMovedToStartDay`; `NoonStart` for a start at noon of 2024-01-01). A commit on ordered instants
  leaves them ordered exactly unless it sets only the end date, to the day on which the unchanged
  start has a time of day, or while the unchanged start is after the year 9999, whose text sorts
  first (`CommitKeepsInstantsIff`). Below such a start every end date is accepted, and then even the
  days are out of order (`EndSetBelowLateStart`, `CommitKeepsDaysIff`). From ordered days and a start
  not after the year 9999 the days stay ordered in every run (`DatesOrderedInAnyRun`).
- A project edit echoes a changed description as it was sent, while the stored one is sanitized when
  it is read again; the response equals the stored project exactly when sanitizing changes nothing
  (`ResponseEchoesStored`), and every text that sanitizing changes is accepted and then reads back
  differently (`EchoedTextDiffers`).
- The similarity of two strings can be negative when lower-casing lengthens one of them
  (`NegativeSimilarity`). It is not negative whenever neither lower-cased string is longer than the
  longer original, and for strings that share nothing in lower case in no other case
  (`CalculateSimilarity`).
- The statistics tracker and the aggregation read a text such as "7h" differently, find different
  rates for a record without an owner when a rate is filed under "undefined", and treat an empty task
  rate differently. All five totals agree for a record exactly when it is read alike (`TotalsAgreeIff`);
  numbers, missing values and owned records are.
- Of the token bucket class: a rate below one request a minute never admits anything, whatever
  Retry-After says; from one request a minute on the advertised wait is exactly long enough
  (`WaitSufficesIff`). No caller in the repository passes a rate below ten: `boundedRate` guards the
  limiters of server/apiRateLimit.js and server/webhookVerificationRoute.js.

## Model

| member | source | states |
|---|---|---|
| ProjectChildFenceProofs.NoOrphanInAnyRun | imports/api/projects/server/projectChildFence.js:234-291 | in every interleaving of creators, deletes, recoveries, restarts, lost replies and late operations, every child's project exists |
| ProjectChildFenceProofs.FenceShapeInAnyRun | imports/api/projects/server/projectChildFence.js:123-172 | the writer and metadata lists name the same distinct reservations, at most 64, never beside a held lock, and at most one deleter is inside the lock |
| ProjectChildFenceProofs.StepKeeps | imports/api/projects/server/projectChildFence.js:123-540 | every single step of any process keeps the invariant those two rest on |
| ProjectChildFenceProofs.LiveCreatorSucceeds | imports/api/projects/server/projectChildFence.js:149-182 | a creator of the running boot always verifies, and its release removes exactly its own entry from both lists |
| ProjectChildFenceProofs.ReleaseRemovesExactly | imports/api/projects/server/projectChildFence.js:149-172 | the two pulls of a release remove one entry at the same place of both lists and keep the order of the rest |
| ProjectChildFenceProofs.RecoveryClearsExactly | imports/api/projects/server/projectChildFence.js:442-463 | a recovery that reports success removed one reservation of an older boot, at least 15 minutes old; any other outcome changed no project |
| ProjectChildFenceProofs.CandidateUnprotected | imports/api/projects/server/projectChildFence.js:308-374 | what the analysis offers for recovery is no longer protected by its boot or its age |
| ProjectChildFenceProofs.LateWriteOrphans | server/projectFenceRecovery.js:25-37 | without the single-instance assumption a late write leaves an orphan: a run from an empty project |
| ProjectChildFenceAnswers.AcquireIff | imports/api/projects/server/projectChildFence.js:123-147 | in every reachable state a live creator is admitted exactly when its project is there and visible, carries no lock, does not list its id and holds fewer than 64 entries; then its entry is appended to both lists, and otherwise no project changes |
| ProjectChildFenceAnswers.UndisturbedCreate | imports/api/projects/server/projectChildFence.js:184-291 | from every reachable state a creator left alone is admitted, stores its child and leaves the fence as it was, or is blocked and changes nothing: no third answer |
| ProjectChildFenceAnswers.ThrowingOperation | imports/api/projects/server/projectChildFence.js:205-227 | an operation that throws before writing gives back exactly its reservation; one that throws otherwise keeps it |
| ProjectChildFenceAnswers.LockIff | imports/api/projects/server/projectChildFence.js:470-507 | a delete takes its lock exactly on a visible project with no lock, no task-graph lock and no reservation of either list |
| ProjectChildFenceAnswers.UndisturbedDelete | imports/api/projects/server/projectChildFence.js:470-530 | a delete left alone removes a free project without children, leaves one with children as it was, and otherwise conflicts |
| ProjectChildFenceAnswers.UndisturbedRecovery | imports/api/projects/server/projectChildFence.js:308-374 | from every reachable state a recovery left alone clears a reservation exactly when an older boot took it at least 15 minutes ago, recovery is allowed, no graph lock is held and its resource is in no other project; every other case has its own status and changes nothing |
| ProjectChildFenceAnswers.AnalyzeIff | imports/api/projects/server/projectChildFence.js:308-352 | of any document, reachable or not: not found exactly when neither list names the reservation, and past the checks exactly when one writer and one valid entry do, with no lock, and then by permission, boot and age in this order |
| ProjectChildFenceAnswers.BeginsIff | imports/api/projects/server/projectChildFence.js:37-49 | creators, deletes and recoveries begin exactly with identifiers of 8 to 128 of the allowed characters, and a resource id of 1 to 128 |
| ProjectChildFenceAnswers.LostCreatorLands | imports/api/projects/server/projectChildFence.js:184-291 | an operation of a creator whose reply was lost does to the store, when it lands, what it would have done at once |
| ProjectChildFenceAnswers.LostDeleterLands | imports/api/projects/server/projectChildFence.js:470-530 | the same for a delete |
| ProjectChildFenceAnswers.LostRecoveryLands | imports/api/projects/server/projectChildFence.js:442-463 | the same for a recovery |
| ProjectFenceProcedures.Store.WithProjectChildWriter | imports/api/projects/server/projectChildFence.js:192-291 | both procedures as written, with releaseReservation and releaseMustMatch, take the machine's steps under any interference and end with the result it records, with no child, the created one included, left without its project |
| ProjectFenceProcedures.Store.Attempt | imports/api/projects/server/projectChildFence.js:205-227 | the try block leaves its creator either done or about to release, as the two flags say |
| ProjectFenceProcedures.Store.AcquireProjectChildWriter | imports/api/projects/server/projectChildFence.js:123-147 | it answers true exactly when the stored project is visible, without locks, without the id and with fewer than 64 entries; then both stored lists are the old ones with the new entry at the end, and otherwise the projects are unchanged |
| ProjectFenceProcedures.Store.VerifyProjectChildWriter | imports/api/projects/server/projectChildFence.js:174-182 | the verification decides between release, compensation and an unknown outcome |
| ProjectFenceProcedures.Store.ReleaseProjectChildWriter | imports/api/projects/server/projectChildFence.js:149-172 | a release that must match and does not turns the result into an unknown outcome |
| ProjectFenceProcedures.Store.DeleteEmptyProjectWithFence | imports/api/projects/server/projectChildFence.js:470-530 | the delete as written, with keepLock, takes the machine's steps and ends with the status it records; a deleted project is gone for good and no child names it |
| ProjectFenceProcedures.Store.CountChildren | imports/api/projects/server/projectChildFence.js:508-513 | the two counts, finishing in either order, decide between deleting and unlocking |
| ProjectFenceProcedures.OthersKeepCreator | imports/api/projects/server/projectChildFence.js:192-291 | nothing another process does moves a creator or its boot |
| ProjectFenceProcedures.OthersKeepDeleter | imports/api/projects/server/projectChildFence.js:470-530 | nothing another process does moves a deleter or its boot |
| IdempotentCreateProofs.WithoutExpiryCreatedOnce | server/apiIdempotency.js:264-299 | without expiry create starts at most once, at most one response is not a replay, and all carry the same resource and result |
| IdempotentCreateProofs.AtMostOnceAndAgreement | server/apiIdempotency.js:191-355 | the same for each receipt when no receipt expires under a request bound to it |
| IdempotentCreateProofs.NoExpiryIsClean | server/apiIdempotency.js:191-355 | runs without expiry are such runs, with one receipt |
| IdempotentCreateProofs.RetryInsideWindow | server/apiIdempotency.js:4-9 | whatever expires, a retry made up to the advertised replayExpiresAt is answered at its first read with the same result, and creates nothing |
| IdempotentCreateProofs.DeletedNeverReappears | imports/api/apiidempotency/server/resourceCreate.js:22-41 | a resource the protocol created and somebody deleted never comes back, in any run |
| IdempotentCreateProofs.StepKeeps | server/apiIdempotency.js:191-355 | every step, expiry and late operations included, keeps the invariant of the retry window |
| IdempotentCreateProofs.MixedGenerations | server/apiIdempotency.js:176-187 | a run in which a completion meant for an expired receipt completes the next one |
| IdempotentAnswers.ResponsesReportStored | server/apiIdempotency.js:234-299 | in every run the document of every response was really stored under its resource at a moment of the run, and replayExpiresAt is that moment plus the retention |
| IdempotentAnswers.TakenUpFromStore | imports/api/apiidempotency/server/resourceCreate.js:12-48 | whoever begins to complete a result does so while the resource holds the reported document |
| IdempotentAnswers.RecoveryRefuses | imports/api/apiidempotency/server/resourceCreate.js:12-27 | a recovery that meets another document, or no document where it may not create, ends rejected with receipt, resources and responses unchanged |
| IdempotentAnswers.DuplicateRefused | imports/api/apiidempotency/server/resourceCreate.js:30-48 | so does an insert that finds another document under its id |
| IdempotentAnswers.UndisturbedRequest | server/apiIdempotency.js:301-355 | from every reachable state a request left alone gets exactly one answer: without a receipt it creates and answers with its own document, and with one it replays, recovers, or is refused, as fingerprint, completion and stored document say; with a failing guard it never creates |
| IdempotentAnswers.RaceLost | server/apiIdempotency.js:314-355 | a request that loses the race for the receipt gets what that receipt has for it |
| IdempotentAnswers.ReadBack | server/apiIdempotency.js:244-262 | a completion that did not match answers with what is completed under its own fingerprint, and throws otherwise |
| IdempotentAnswers.LostReplyLands | server/apiIdempotency.js:191-355 | a reservation, insert or completion whose reply was lost does to the store, when it lands, what it would have done at once |
| IdempotentTiming.PromptRunsCreateOnce | server/apiIdempotency.js:191-355 | at-most-once creation and agreement for each receipt if every request is done with its receipt before the receipt's earliest expiry |
| IdempotentTiming.TimelyClientsCreateOnce | server/apiIdempotency.js:191-355 | the same under conditions on the client alone: when its attempts begin and how long each acts |
| IdempotentTiming.TimelyIsPrompt | server/apiIdempotency.js:234-262 | such a client is done with every receipt before its earliest expiry |
| IdempotentTiming.PromptIsClean | server/apiIdempotency.js:4-9 | with a TTL clock ahead by less than the grace, no receipt then expires under a bound request |
| IdempotentTiming.EarliestExpiryIs | server/apiIdempotency.js:331-344 | the earliest expiry is reservedAt plus the pending retention, or the advertised replayExpiresAt |
| IdempotentProcedure.Store.ExecuteIdempotentCreate | server/apiIdempotency.js:191-355 | the procedure as written takes the machine's steps under any interference, and what it returns or throws is what the machine records; the returned document was really stored under the returned resource, and without expiry it agrees with every other answer |
| IdempotentProcedure.Store.ReserveAndResume | server/apiIdempotency.js:327-355 | the part after the guards: reserve, or take up the reservation found |
| IdempotentProcedure.Store.AfterGuardError | server/apiIdempotency.js:314-325 | after a failed guard only an exact replay is answered, nothing is created |
| IdempotentProcedure.Store.ResumeReservation | server/apiIdempotency.js:264-299 | recover first, create only by the reserver, recover once more when the create fails, then complete |
| IdempotentProcedure.Store.CompleteReservation | server/apiIdempotency.js:234-262 | complete, or read back; the answer is the stored completion |
| IdempotentProcedure.Store.Create | imports/api/apiidempotency/server/resourceCreate.js:30-48 | the insert with its duplicate and failure paths |
| RequestFingerprint.FingerprintIff | server/apiIdempotency.js:44-87 | two requests share a fingerprint exactly when they are equal up to key order, undefined and `__proto__` entries, the sign of zero, holes for null, and dates for the objects that spell them |
| RequestFingerprint.PresentSorted | server/apiIdempotency.js:67-71 | sorting the keys and skipping entries forgets their order and the skipped ones, and nothing else |
| RequestFingerprint.DateIff | server/apiIdempotency.js:50-53 | an object has the form of a date exactly when its one entry left is that date's text under `$date` |
| RequestFingerprint.AcceptedIff | server/apiIdempotency.js:44-75 | a request is refused exactly if it is undefined or something in it is out of place |
| IdempotentProcedure.OthersKeep | server/apiIdempotency.js:191-355 | nothing another request does moves this one |
| PublicationReconciler.Reconciler.Reconcile | imports/utils/reactivePublication.js:22-44 | after any reconcile the client's view is the desired set field for field; every message sent is legal and justified by the change |
| PublicationReconciler.Reconciler.RemoveAll | imports/utils/reactivePublication.js:47-49 | everything published is retracted and the view is empty |
| PublicationReconciler.ReconcileAll | imports/utils/reactivePublication.js:19-54 | over any sequence of desired sets all messages are legal and the view ends at the last set |
| PublicationReconciler.ChangedPublicationFields | imports/utils/reactivePublication.js:1-17 | merging the computed changes into what the client shows gives what it should show |
| PublicationReconciler.MergeChanges | imports/utils/reactivePublication.js:1-17 | the same for the function, and no changes means nothing visible differs |
| PublicationReconciler.ChangesAreChanges | imports/utils/reactivePublication.js:1-17 | no field is listed that did not change |
| RestartableObserver.ShownIsReported | imports/utils/reactivePublication.js:114-195 | in every interleaving the documents are what the active observer reported, its handle is the only open one, and nothing is held after stop |
| RestartableObserver.StaleCallbackInert | imports/utils/reactivePublication.js:114-195 | a callback of a replaced, stopped or starting observer changes and announces nothing |
| RestartableObserver.LatestRestartTakesOver | imports/utils/reactivePublication.js:114-195 | only the latest restart takes over, with all it reported meanwhile; an older one is stopped |
| RestartableObserver.ActiveIsAnnounced | imports/utils/reactivePublication.js:114-187 | a callback of the active observer is applied and announced; a restart without a cursor announces the empty set, and one with a cursor announces nothing yet |
| RestartableObserver.KnownIff | imports/utils/reactivePublication.js:136-154 | a document is known exactly when the last callback about it is no removal |
| RestartableObserver.FieldIsLastWord | imports/utils/reactivePublication.js:56-64 | a known document's field is what the last callback that decides it said |
| RestartableObserver.ApplyObserverChange | imports/utils/reactivePublication.js:56-64 | the field loop applies a change, undefined clearing a field |
| RestartableObserver.RestartableDocumentObserver.Restart | imports/utils/reactivePublication.js:120-173 | restart up to its first await is one step of the machine |
| RestartableObserver.RestartableDocumentObserver.OnObserved | imports/utils/reactivePublication.js:136-154 | an observer callback is one step of the machine |
| RestartableObserver.RestartableDocumentObserver.OnResolved | imports/utils/reactivePublication.js:156-173 | a completed observe call is one step of the machine |
| RestartableObserver.RestartableDocumentObserver.Halt | imports/utils/reactivePublication.js:178-185 | stop is one step of the machine |
| DashboardPublication.ClientShowsCurrentDashboard | imports/api/dashboards/server/publications.js:371-420 | whenever the client holds a timecard, it comes from an observer started with the dashboard as last observed, with an unchanged password and at most the allowed number |
| DashboardPublication.ChangeClearsClient | imports/api/dashboards/server/publications.js:371-420 | a change of the dashboard empties the client at once, and a failed publication stays empty |
| DashboardPublication.NextKeeps | imports/api/dashboards/server/publications.js:371-420 | every callback and resumption keeps the invariant behind both |
| DashboardAnswers.LatestRefreshShows | imports/api/dashboards/server/publications.js:371-440 | from every reachable state with a waiting refresh of a streamable dashboard and an unchanged password: if it gets through and nothing newer, no stop and no failure intervenes, the client holds exactly the public fields of the replay of its observer's callbacks, as long as these were never more than 5000 |
| DashboardAnswers.ResumeIff | imports/api/dashboards/server/publications.js:395-412 | a resumed refresh goes on exactly if it is the latest, nothing has stopped or failed, and the dashboard may be streamed with the password it was opened with; otherwise it ends |
| DashboardAnswers.ChangeBeginsRefresh | imports/api/dashboards/server/publications.js:371-394 | every change of the dashboard begins a refresh |
| DashboardAnswers.ProjectsBeginRefresh | imports/api/dashboards/server/publications.js:421-440 | a change of the projects begins one once they are initialized, and too many projects fail the publication |
| DashboardAnswers.TooManyFail | imports/api/dashboards/server/publications.js:371-420 | more timecards than the limit fail the publication for good and empty the client |
| DashboardAnswers.ProjectsCount | imports/api/dashboards/server/publications.js:421-440 | the first refresh begins like any other, and once the projects are initialized every change of them begins one |
| DashboardAnswers.OverIsOver | imports/api/dashboards/server/publications.js:371-420 | a publication that has stopped or failed neither fails again nor shows anything more |
| DashboardAnswers.SafeIsPublic | imports/api/dashboards/server/publicationSecurity.js:103-107 | a shown field is one that is reported and on the list of public fields, with the reported value |
| DashboardPublication.DashboardTimecards.OnDashboard | imports/api/dashboards/server/publications.js:371-420 | the dashboard callback on the real fields, observer and reconciler is that step |
| DashboardPublication.DashboardTimecards.OnCallback | imports/api/dashboards/server/publications.js:371-420 | a timecard callback on the real fields is that step, the limit failure included |
| DashboardPublication.DashboardTimecards.OnSelector | imports/api/dashboards/server/publications.js:371-420 | a refresh resumes with the selector it awaited only if nothing newer has begun |
| DashboardPublication.DashboardTimecards.OnStarted | imports/api/dashboards/server/publications.js:371-420 | an observer that has started takes over, or is stopped, on the real fields |
| DashboardPublication.DashboardTimecards.OnStop | imports/api/dashboards/server/publications.js:371-420 | stopping the subscription on the real fields |
| WebhookOrder.Converges | server/webhookVerificationRoute.js:64-100 | delivered in any order with any repeats, the stored event is the latest one and every decision is that of the latest alone |
| WebhookOrder.DeliveryOrderIrrelevant | server/webhookVerificationRoute.js:128-158 | two deliveries of the same events decide alike at every time |
| WebhookOrder.LatestIsMaximum | server/webhookVerificationRoute.js:64-92 | the latest event is the lexicographic maximum of timestamp and id |
| WebhookOrder.AcceptsUpwards | server/webhookVerificationRoute.js:64-92 | once an event is accepted every later one is |
| WebhookOrder.DecisionEverywhere | imports/utils/publicationAuthentication.js:27-36 | agreeing on what the lock reads means the same access decision at every time |
| WebhookOrder.DeadlineDependsOnOrder | server/webhookVerificationRoute.js:128-158 | the raw deadline does depend on the order |
| WebhookOrder.LatestDecides | server/webhookVerificationRoute.js:128-158 | after any delivery whose latest event is accepted, access is blocked exactly if that event is incomplete and there is no period or more than the period in days has passed since its timestamp |
| WebhookOrder.OthersUntouched | server/webhookVerificationRoute.js:64-100 | events of another interface, for an unrequired verification, or older than what is stored change nothing |
| WebhookOrder.LockDecision | imports/utils/publicationAuthentication.js:27-36 | an unrequired or completed verification never blocks; a required, uncompleted one blocks exactly after its deadline, and always without one |
| WebhookOrder.BlocksFromThenOn | imports/utils/publicationAuthentication.js:27-36 | once blocked, a record stays blocked until something is delivered |
| WebhookOrder.UserRecord.ApplyResult | server/webhookVerificationRoute.js:128-158 | one conditional update accepts exactly the events the rule admits |
| ProjectLifecycle.DatesOrderedInAnyRun | imports/api/projects/server/projectLifecycle.js:167-217 | over any stored dates whose days are in order and whose start is not after the year 9999, in every run in which only edits change the dates, the start day is never after the end day: no write skew |
| ProjectLifecycle.InstantsOrderedInAnyRun | imports/api/projects/server/projectLifecycle.js:167-217 | the instants stay in order too if the first start date is a midnight |
| ProjectLifecycle.CommitKeepsInstantsIff | imports/api/projects/server/projectLifecycle.js:179-207 | one commit on ordered instants leaves them ordered exactly unless it sets only the end date, to the day on which the start has a time of day or below a start after the year 9999 |
| ProjectLifecycle.CommitKeepsDaysIff | imports/api/projects/server/projectLifecycle.js:179-207 | one commit on ordered days leaves them ordered exactly unless it sets only the end date below a start after the year 9999 |
| ProjectLifecycle.EndMovedToStartDay | imports/api/projects/server/projectLifecycle.js:44-57 | a run for every start with a time of day: moving the end date to the start's day is accepted and stores an end before the start |
| ProjectLifecycle.NoonStart | imports/api/projects/server/projectLifecycle.js:44-57 | the same for a start at noon of 2024-01-01 and an end moved from 2024-01-02 |
| ProjectLifecycle.EndSetBelowLateStart | imports/api/projects/server/projectLifecycle.js:44-57 | a run for every start after the year 9999: any end date is accepted and stored before the start, as a day and as an instant |
| ProjectLifecycle.IsoOrder | imports/api/projects/server/projectLifecycle.js:44-57 | date texts of years 0 to 9999 compare as their days, and all other texts sort before them |
| ProjectLifecycle.DateOutcome | imports/api/projects/server/projectLifecycle.js:44-57 | the date an edit leaves behind reads back as the text it was checked with, whatever was stored |
| ProjectLifecycle.CommitMatchesValidation | imports/api/projects/server/projectLifecycle.js:105-118 | a success commits against exactly the state it validated, raises the revision by one and returns the stored tag; a failure changes nothing |
| ProjectLifecycle.ConfirmMatchesValidation | imports/api/projects/server/projectLifecycle.js:208-210 | an edit that changes nothing confirms the validated state and returns its tag |
| ProjectLifecycle.ResponseEchoesStored | imports/api/projects/server/projectLifecycle.js:46-57 | the reported details are the stored ones, for a changed description exactly when sanitizing leaves it alone |
| ProjectLifecycle.EchoedTextDiffers | imports/api/projects/server/projectLifecycle.js:46-57 | a run for every text that sanitizing changes: it is accepted as a description and reads back differently from the response |
| LifecycleAnswers.SuccessWasExpected | imports/api/projects/server/projectLifecycle.js:167-248 | in every run a committed or confirmed request met, at that instant, a stored project without a lock whose own tag is the one the expected revision prints to, and whose archived flag or named details equal the expected ones |
| LifecycleAnswers.TagGoodForOneCommit | imports/utils/resourceRevision.js:57-65 | once a change was written under a revision, at once or late, no other change that expects this revision is ever written |
| LifecycleAnswers.UndisturbedRequest | imports/api/projects/server/projectLifecycle.js:167-248 | a request left alone gets through exactly if the project is there and as expected, the dates fit, and a write does not meet the last revision; otherwise nothing changes |
| LifecycleAnswers.ValidatedIff | imports/api/projects/server/projectLifecycle.js:59-103 | what is validated: the tag, no lock, the expected values, and the order of the dates |
| LifecycleAnswers.ExpectedTag | imports/utils/resourceRevision.js:57-65 | a validated project prints the tag that the caller sent |
| LifecycleAnswers.ReadsIff | imports/api/projects/server/projectLifecycle.js:59-103 | what a stored detail reads as, value by value, and when it is missing |
| LifecycleAnswers.BodyIff | imports/api/projects/server/projectLifecycle.js:167-178 | the bodies a request may carry: the same details on both sides, each with an allowed value |
| LifecycleAnswers.DatesFitIff | imports/api/projects/server/projectLifecycle.js:179-188 | the dates fit exactly if they are in years 0 to 9999 with the start day not after the end day, or one is missing |
| LifecycleAnswers.LateDatesOrder | imports/api/projects/server/projectLifecycle.js:44-57 | two stored dates after the year 9999 compare by year and month, which is what their first ten characters hold |
| LifecycleAnswers.EditWritesExactly | imports/api/projects/server/projectLifecycle.js:189-217 | an edit writes its changed fields, the description to both copies and dates as midnights, removes emptied ones, counts the revision up, and leaves every other field alone |
| LifecycleAnswers.ArchiveWritesExactly | imports/api/projects/server/projectLifecycle.js:219-248 | archiving writes the flag and the revision and leaves every other field alone |
| LifecycleAnswers.WriteIff | imports/api/projects/server/projectLifecycle.js:105-118 | a write commits exactly if the project is still there and no field of the snapshot changed, appeared or disappeared since the read |
| LifecycleAnswers.LostWriteLands | imports/api/projects/server/projectLifecycle.js:105-118 | the same for a write of an edit or archive request |
| LifecycleProcedures.ProjectStore.EditProject | imports/api/projects/server/projectLifecycle.js:167-248 | both procedures as written take the machine's steps under any interference; a commit applied exactly the validated change, and a success that changes nothing returns the tag of a stored project that validates it; in both cases the tag the caller sent was the tag of the stored project |
| LifecycleProcedures.BuildModifier | imports/api/projects/server/projectLifecycle.js:189-207 | the loop over the changed fields, in any order, builds the $set and $unset of the machine |
| LifecycleProcedures.OthersKeep | imports/api/projects/server/projectLifecycle.js:167-248 | nothing another editor does moves this one |
| ResourceRevision.TagRoundTrip | imports/utils/resourceRevision.js:25-55 | a printed tag parses back to its revision, the legacy form included |
| ResourceRevision.TagsDistinguish | imports/utils/resourceRevision.js:25-36 | two revisions share a tag only if they are equal |
| ResourceRevision.KindsDistinguish | imports/utils/resourceRevision.js:38-55 | a tag of one kind is never accepted for another |
| ResourceRevision.DecimalRoundTrip | imports/utils/resourceRevision.js:25-55 | the decimal text of a revision is canonical and parses back |
| ResourceRevision.ParseIff | imports/utils/resourceRevision.js:38-55 | a text parses to a revision exactly if it is that revision's tag |
| DashboardQuota.NeverOverlapInOrder | imports/api/dashboards/server/creationSecurity.js:41-64 | operations of one creator never overlap and run in arrival order |
| DashboardQuota.EntryIffUnfinished | imports/api/dashboards/server/creationSecurity.js:41-64 | the map has an entry exactly while a call of that creator is unfinished |
| DashboardQuota.MayBeginIff | imports/api/dashboards/server/creationSecurity.js:50-55 | a waiting call may begin exactly when all earlier calls of its creator are done, however they ended |
| DashboardQuota.ThrowingNeverBlocks | imports/api/dashboards/server/creationSecurity.js:56-61 | from every reachable state all calls can end even if every operation throws, and then the map is empty |
| DashboardQuota.QuotaHolds | imports/api/dashboards/server/methods.js:39-51 | a creator who starts at or below 100 exceeds 100 by no more than the inserts that landed late |
| DashboardQuota.QuotaNeverExceeded | imports/api/dashboards/server/methods.js:39-51 | and never at all while no insert lands after it was reported as failed |
| DashboardQuota.LateInsertsExceed | imports/api/dashboards/server/methods.js:167-179 | the bound is tight: for every n a run with n late inserts ends at 100 + n |
| DashboardQuota.UndisturbedCall | imports/api/dashboards/server/methods.js:39-51 | from every reachable state a call that finds the calls of its creator done and is left alone adds one dashboard exactly if the creator has fewer than 100 |
| DashboardQuota.CountDecides | imports/api/dashboards/server/methods.js:39-51 | the count lets a call go on exactly below 100 stored dashboards; the insert counts one more, at once or late, and a deletion one less |
| DashboardQuota.NextKeeps | imports/api/dashboards/server/creationSecurity.js:41-64 | every step keeps the chain and the map |
| DashboardQuota.DashboardCreationCoordinator.Enter | imports/api/dashboards/server/creationSecurity.js:49-54 | run up to its await, on the tails map, is the arrival step |
| DashboardQuota.DashboardCreationCoordinator.Finish | imports/api/dashboards/server/creationSecurity.js:57-60 | the finally block deletes the entry only if it is its own |
| ApiPagination.FollowingNextCursor | server/apiPagination.js:257-299 | while others insert and delete, the pages a client collects never go back in date and go up in id on one date, hold only entries that were there, and at the end every entry present throughout |
| ApiPagination.FixedCollection | server/apiPagination.js:257-299 | on a fixed collection the pages concatenate to the whole sorted collection |
| ApiPagination.FetchTimeentryPage | server/apiPagination.js:257-299 | a page is returned exactly for well-formed ascending documents, and each error names the first offence; the cursor is the last item's |
| ApiPagination.CorrectAnswerAccepted | server/apiPagination.js:257-299 | the answer of a correct store passes the order check and is the page of the model |
| ApiPagination.PageFacts | server/apiPagination.js:154-167 | a page holds exactly the entries behind the cursor up to its own last key, and every page but the last is full |
| ApiPagination.WalkTakesSteps | server/apiPagination.js:48-96 | going through the cursor text loses nothing |
| ApiPagination.StepsAscend | server/apiPagination.js:154-167 | keys ascend strictly across pages |
| ApiPagination.StepsMissNothing | server/apiPagination.js:154-167 | an entry present in every snapshot is not skipped |
| ApiPagination.KeyOrder | server/apiPagination.js:280-285 | date and id order keys totally |
| CursorCodec.CursorRoundTrip | server/apiPagination.js:48-96 | every issued cursor fits 2048 characters and decodes to its own position |
| CursorCodec.CursorBoundToScope | server/apiPagination.js:63-96 | a cursor is refused for any other scope |
| CursorCodec.AcceptedIsCanonical | server/apiPagination.js:63-72 | no two accepted texts stand for the same bytes |
| CursorCodec.DecodeEncode | server/apiPagination.js:55-60 | base64url of RFC 4648 section 5 decodes to what was encoded |
| CursorCodec.EncodedShape | server/apiPagination.js:55-60 | its alphabet and length |
| CursorCodec.EncodedBits | server/apiPagination.js:55-60 | each character is the alphabet's for the six bits at its place, as section 4 of RFC 4648 lays them out |
| CursorCodec.DecodeIff | server/apiPagination.js:63-96 | a position is returned exactly for the base64url text of a document of this version and scope with an id of 1 to 128 characters and a canonical date; other JSON is a mismatch and everything else an invalid cursor |
| EditDistance.ComputeEditDistance | imports/utils/server_method_helpers.js:836-859 | the loop over one overwritten row returns the cost of some script of edits, and no script is cheaper |
| EditDistance.Achievable | imports/utils/server_method_helpers.js:836-859 | a script of that cost exists |
| EditDistance.NoneShorter | imports/utils/server_method_helpers.js:836-859 | no script is cheaper |
| EditDistance.Lipschitz | imports/utils/server_method_helpers.js:836-859 | one unit more changes the distance by at most one |
| EditDistance.ZeroIffEqual | imports/utils/server_method_helpers.js:836-859 | zero exactly for equal strings |
| EditDistance.Symmetric | imports/utils/server_method_helpers.js:867-882 | the distance is symmetric, so swapping longer and shorter is harmless |
| EditDistance.CalculateSimilarity | imports/utils/server_method_helpers.js:867-882 | for non-empty strings one less the cost of a cheapest script per unit of the longer one; at most 1, and 1 exactly for strings equal ignoring case; not negative when neither lower-cased string outgrows the longer original, and for strings sharing nothing in lower case exactly then |
| EditDistance.NothingShared | imports/utils/server_method_helpers.js:836-859 | texts without a common unit are as far apart as the longer one is long |
| EditDistance.AtMostLonger | imports/utils/server_method_helpers.js:836-859 | no texts are further apart than that |
| EditDistance.NegativeSimilarity | imports/utils/server_method_helpers.js:867-882 | a negative similarity |
| EditDistance.CheapestScript | imports/utils/server_method_helpers.js:836-859 | the distance is the cost of a cheapest script |
| ProjectStats.Track | imports/utils/projectStats.js:82-147 | after any events the snapshot is the sum over the reported records, which is what the aggregation computes |
| ProjectStats.Tracker.Replace | imports/utils/projectStats.js:103-116 | one record is replaced, the totals follow, and the flag tells whether the snapshot changed |
| ProjectStats.Tracker.Removed | imports/utils/projectStats.js:125-137 | one record is dropped, the totals follow, and the flag tells whether the snapshot changed |
| ProjectStats.Tracker.Changed | imports/utils/projectStats.js:120-124 | a change is merged into a known record and ignored for an unknown one |
| ProjectStats.SwapContribution | imports/utils/projectStats.js:108-115 | the field loop adds the difference of two contributions; the flag tells whether a total moved |
| ProjectStats.DropContribution | imports/utils/projectStats.js:129-132 | the field loops of a removal |
| ProjectStats.ExpressionIsAmount | imports/utils/projectStats.js:28-66 | the pipeline's expressions, evaluated on a record, give the tracker's contribution |
| ProjectStats.AggregationIsRecomputation | imports/utils/projectStats.js:28-66 | so the aggregation equals the recomputed sums for records both sides read alike |
| ProjectStats.SwitchIsLookup | imports/utils/projectStats.js:30-41 | the switch over truthy rates is the lookup with its fallback |
| ProjectStats.HoursAgreeIff | imports/utils/projectStats.js:14-21 | for one record the hour totals agree exactly when both sides read its hours alike |
| ProjectStats.TotalsAgreeIff | imports/utils/projectStats.js:28-66 | for one record all five totals agree exactly when it is read alike, so that condition is the weakest |
| ProjectStats.AllAmountsAgreeIff | imports/utils/projectStats.js:28-66 | the five amounts of a record agree exactly when its hours are read alike and are none or find the same rate |
| ProjectStats.RevenueAgreesIff | imports/utils/projectStats.js:42-49 | revenue agrees for hours read alike exactly when they are none or the rates agree, and for agreeing rates exactly when the hours do or the rate is none |
| ProjectStats.HoursFieldAgreesIff | imports/utils/projectStats.js:50-59 | each hour total agrees exactly when the hours it counts are read alike |
| ProjectStats.RatesAgreeIff | imports/utils/projectStats.js:28-45 | the two rates agree exactly under a condition on the task rate, the owner and the rate filed under "undefined" |
| ProjectStats.SumWithout | imports/utils/projectStats.js:82-147 | a sum over records does not depend on their order |
| ProjectStatsAnswers.TrackerTotals | imports/utils/projectStats.js:68-147 | the kept totals are plain sums over any list of the records: hours, hours times the rate by its precedence (a task rate where a project has them, the owner's, the project's), and the hours dated within each month |
| ProjectStatsAnswers.StoreTotals | imports/utils/projectStats.js:28-66 | the same for the aggregation, with what the store reads from each record |
| ProjectStatsAnswers.ThereIff | imports/utils/projectStats.js:118-147 | a record counts exactly when it was added and neither removed nor cleared away since |
| ProjectStatsAnswers.LastWord | imports/utils/projectStats.js:120-124 | each of its fields is what the last event that names the field said |
| DateMigration.ProposalIsCanonical | imports/utils/timecardDateMigration.js:270-358 | a proposal reclassifies as canonical and is not migrated again |
| DateMigration.MigratableIff | imports/utils/timecardDateMigration.js:148-223 | migratable means a valid date and neither new field |
| DateMigration.TimeConserved | imports/utils/timecardDateMigration.js:270-358 | proposed midnight, start time and lost milliseconds add up to the source instant in UTC or in the zone |
| DateMigration.LegacyTimeConserved | imports/utils/timecardDateMigration.js:270-358 | in the legacy display mode they do so less the reported shift in whole days |
| DateMigration.DifferenceCountsDays | imports/utils/timecardDateMigration.js:138-142 | the difference of two date-only texts counts the calendar days between them, is zero only for equal texts, not negative exactly in text order, and adds up |
| DateMigrationAnswers.ProposedExactly | imports/utils/timecardDateMigration.js:270-358 | for a legacy record of the years 1 to 9999 the preview proposes the day in UTC or in the zone, its midnight and the minute of the clock, reports both shifts and what is below the minute, and warns of exactly what applies |
| DateMigrationAnswers.NotProposed | imports/utils/timecardDateMigration.js:270-358 | in every other case the preview refuses, reports the record unchanged, or is out of range |
| DateMigrationAnswers.ClassIff | imports/utils/timecardDateMigration.js:148-223 | a record is quarantined exactly with all its objections; without any it is canonical with a date-only value, ambiguous at a midnight without one, and legacy at any other time |
| DateMigrationAnswers.StartTimeIff | imports/utils/timecardDateMigration.js:44-46 | a start time is two digits of an hour below 24, a colon and two digits of a minute |
| Calendar.DateOnlyOrder | imports/utils/timecardDateMigration.js:36-57 | date-only texts compare as the dates they name |
| Calendar.ParseFormat | imports/utils/timecardDateMigration.js:36-57 | a formatted date is accepted and reads back |
| Calendar.FormatParse | imports/utils/timecardDateMigration.js:36-42 | an accepted text is the canonical form of its date |
| Calendar.EpochDay | imports/utils/timecardDateMigration.js:138-142 | the day number that stands for 1970-01-01, counted from the calendar rules |
| Calendar.DayNumberClosed | imports/utils/timecardDateMigration.js:138-142 | the day number in closed form, with no table and no counting |
| CanonicalEncoding.CanonicalIff | server/projectFenceRecovery.js:43-77 | canonical forgets the order of keys and nothing else: dates, texts, numbers, 0 and -0 stay apart |
| CanonicalEncoding.StableIff | server/projectFenceRecovery.js:79-92 | stable previews coincide exactly when the previews differ in nothing but ages |
| CanonicalEncoding.ValidatorsCoincideIff | server/projectFenceRecovery.js:94-115 | two validators have the same input exactly when the project id, the four fence fields with their presence, and the previews apart from ages coincide |
| CanonicalEncoding.FenceIff | server/projectFenceRecovery.js:94-111 | the fence part coincides exactly when each field is present or absent in both with the same value |
| SortedKeys.SortForgetsOrder | server/projectFenceRecovery.js:71-73 | sorting by key forgets the order of the entries and nothing else |
| CanonicalEncoding.StableKeepsProper | server/projectFenceRecovery.js:79-92 | dropping ages keeps every key single |
| CanonicalEncoding.AcceptedIff | server/projectFenceRecovery.js:43-77 | canonical throws exactly if somewhere in the value is something that is no data |
| RateLimit.WindowBound | server/apiRateLimit.js:39-65 | with a clock that never goes back a key that is not evicted is admitted at most capacity plus refill of the window, whatever other keys do |
| RateLimit.UndisturbedWaitAdmits | server/apiRateLimit.js:60-64 | after a wait of retryAfterSeconds a caller is admitted, even if its bucket was evicted meanwhile |
| RateLimit.WaitSufficesIff | server/apiRateLimit.js:60-64 | a wait in whole seconds suffices exactly when it is at least retryAfterSeconds and a full bucket holds a token |
| RateLimit.SizeBounded | server/apiRateLimit.js:26-37 | the map never holds more than maxKeys buckets, or one |
| RateLimit.EvictsLeastRecentlySeen | server/apiRateLimit.js:26-37 | only a new key evicts, and what goes is a bucket unused for longest |
| RateLimit.ConsumeKeeps | server/apiRateLimit.js:39-65 | every bucket stays between empty and full |
| RateLimitAnswers.AdmittedIff | server/apiRateLimit.js:39-65 | with a clock that never goes back a key that was new and is not evicted is admitted exactly when no stretch of its own requests up to now holds more than the capacity and its refill |
| RateLimitAnswers.BucketAdmitsIff | server/apiRateLimit.js:39-65 | the same for one bucket, and KeyHasItsBucket says that it is the key's |
| RateLimit.TokenBucketLimiter.Take | server/apiRateLimit.js:39-65 | consume on the real map is that function |
| RateLimit.TokenBucketLimiter.EvictIfNecessary | server/apiRateLimit.js:26-37 | the eviction loop removes the first key with the smallest lastSeen |
| DailyMail.DeliveredAtMostOnce | imports/api/notifications/server/dailyMailDelivery.js:131-181 | in every run a call that has delivered a recipient's mail of one day stays so, and from then on no other call of that recipient and day is sending or has delivered |
| DailyMail.MailsBounded | imports/api/notifications/server/dailyMailDelivery.js:161-172 | with n sends that threw although their message was accepted at most n + 1 mails of a recipient and day go out |
| DailyMail.MisreportedSends | imports/api/notifications/server/dailyMailDelivery.js:161-172 | the bound is tight: for every n a run with n such sends and n + 1 mails |
| DailyMail.UndisturbedMail | imports/api/notifications/server/dailyMailDelivery.js:131-181 | a call left alone sends exactly if nothing was sent before the upgrade and its recipient and day have no row; if the send throws the row is gone again; otherwise it answers false and changes nothing |
| DailyMail.LostReplyLands | imports/api/notifications/server/dailyMailDelivery.js:83-113 | an insert, release or completion that failed with an unknown outcome does to the rows, when it lands, what it would have done at once |
| DailyMail.NextKeeps | imports/api/notifications/server/dailyMailDelivery.js:83-113 | every store operation, late ones included, keeps the invariant |
| ExportCollection.CollectExportPages | imports/utils/exportCollection.js:18-92 | ends for every server, offering a full set of accepted pages or the first problem |
| ExportCollection.TakePage | imports/utils/exportCollection.js:44-91 | one turn takes the page over exactly when every check passes |
| ExportCollection.ExportFrom | imports/utils/exportCollection.js:18-92 | an honest server's list comes out complete and in order; from any server only a full set of distinct rows is offered |
| ExportCollection.GoodPages | imports/utils/exportCollection.js:18-92 | pages but the last are full, keys are distinct and the limits hold |
| ExportCollection.HonestNeverFails | imports/utils/exportCollection.js:44-91 | no check ever refuses an honest server within the limits |
| ExportCollection.TakenOverIff | imports/utils/exportCollection.js:44-91 | a page is taken over exactly if nothing interrupts, it is the page asked for, the total is as announced and allowed, it is full or the last, its rows are plain, its keys fresh, and it fits |
| ExportCollection.CodesAreTrue | imports/utils/exportCollection.js:44-91 | each code of a refusal names a reason that is there |
| LdapEscaping.FilterRoundTrip | imports/utils/ldapSecurity.js:93-104 | an escaped value reads, by RFC 4515 section 3, as exactly the original |
| LdapEscaping.FilterIsInert | imports/utils/ldapSecurity.js:93-104 | no filter metacharacter survives |
| LdapEscaping.RdnRoundTrip | imports/utils/ldapSecurity.js:106-131 | an escaped value is well formed by RFC 4514 section 3 and spells exactly the original |
| LdapEscaping.EscapersInjective | imports/utils/ldapSecurity.js:93-131 | different values stay different |
| LdapEscaping.FilterIsMinimal | imports/utils/ldapSecurity.js:93-104 | only the five metacharacters are escaped, and other texts stay as they are |
| LdapEscaping.RdnIsMinimal | imports/utils/ldapSecurity.js:106-131 | a character stands for itself exactly if it is no special, no control character, no space at an end and no sharp in front |
| LdapEscaping.CountTrailingSpaces | imports/utils/ldapSecurity.js:111-112 | the trailing-space loop |

## Left out

- HTTP and Meteor plumbing: headers, JSON bodies, publish and method registration, DDP rate limits, argument and option checks made before a protocol starts.
- MongoDB: every operation is one atomic step on the documents it names; `$eq` against an array element and duplicate errors on other indexes are not modelled.
- SHA-256, JSON text, ISO dates and number texts are injective functions given as parameters or names; JSON of a recovery tag is not spelled out.
- The task-graph lock is a flag that other code sets and clears at will; taskGraphFence.js is not part of this model, nor is the recovery of its locks.
- ProjectChildFence assumes that every child creator uses the fence, and that writes of an older boot have settled 15 minutes after their reservation.
- ProjectFenceProcedures: a process that crashes in the middle returns nothing; crashes and lost replies are steps of the machine and of the others.
- IdempotentProcedure: the same, for requests that crash; the receipt's identity fields (user, operation, key) are fixed.
- DailyMail: assumes that no call outlives the week its row is kept, and that reservation ids are not shared; normalizing the recipient is left out.
- createCoalescedAsyncRefresh: a request arriving between its loop test and its last callback is not served, so its comment is not asserted.
- ProjectLifecycle: stored dates that are not instants (legacy texts or numbers) take part in the comparison of texts, but the order of dates is stated for instants; an invalid stored date, on which the source throws, is left out.
- Object.is on object references and arrays in project details: details are scalars.
- Numbers in statistics and the token bucket are exact; rounding of doubles is not modelled. Records whose date is null or a number are left out of ProjectStats.
- EditDistance treats lower-casing as any function on sequences of code units.
- DateMigration covers years 1 to 9999 and offsets in whole seconds; names of time zones and the writer lease are left out.
- ApiPagination treats the order of ids in the source and in the store as one total order; they differ only for ids outside the basic plane. A collection that keeps growing may never be finished, so no termination is claimed for it.
- CanonicalEncoding: values are finite trees, so the cycle check never fires; only data that canonical accepts has a tag.
- ExportCollection: what a row contains and the timers behind cancellation are left out; an interruption is an outcome of a turn.
- LdapEscaping: lengths and lone surrogates are checked before the escapers; escapeLdapHexFilterValue and the template helpers would only add easy members.
- Task suggestion pagination, subscription gates, the webhook receipt store, timers and the user interface are left out.
