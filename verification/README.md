# Verification of the stateful core

Dafny models of the parts of the repository that keep state over time or must invert each other, with proofs of
what they promise. `dafny verify dfyconfig.toml` checks the whole project.

## What is modelled

| module | part of the system |
|---|---|
| `OrderedMap` | a JavaScript `Map` with its insertion order |
| `PoolProtocol`, `PoolFactory` | the per-tenant connection pool cache: as a transition system whose steps are the stretches of code between two `await`s, and as a class whose methods perform those steps |
| `Timeline`, `Saga` | the onboarding workflow with its compensation and status events, and the fold that shows them |
| `MeteringKeys`, `Metering`, `MeteringRuns` | marketplace metering: collection, three interleaved batches, retries, the clouds' ledgers; what runs report and how attempts go |
| `AccessReview` | the access-review loop: responses, reminder, deadline, effects |
| `HeartbeatMonitor` | the escalating heartbeat loop of an installation |
| `Relations`, `OwnerGuard`, `OwnerRace` | relation writes under interleaving and replay; the last-owner guard over runs of operations; guards and writes that interleave |
| `SessionStores`, `LoginProtocol` | session and pending-login stores; login, callback, lookup and logout |
| `AuditRows`, `AuditPaging`, `AuditView` | the audit page: merging history and live rows, cursor paging, and both together |
| `AuditCsv` | the CSV export and a reader for section 2 of RFC 4180 with LF as record break |
| `Strings`, `CloudNames` | Go's string splitting and the cloud role and group names |
| `BenchGate` | the benchmark regression gate |
| `Options` | the optional value that the models share |

A protocol is a total function `Next(state, event)`; an event that cannot occur in a state leaves it unchanged, so
every sequence of events is a run and a statement about `Exec(events)` is one about every reachable state. Classes
carry the fields that the source updates, and their methods are proved equal to these steps. So that no step function
is its own specification, lemmas beside it say what a step does to the fields of the state, and what a run keeps of it,
without the function's own helpers.

Places where the code does less than it or its documentation says, each stated with the exact condition:

- The audit cursor is a strict comparison with the oldest loaded timestamp. The column holds microseconds, but only
  milliseconds are written (apps/api/src/audit_emitter.ts:38-55, packages/auth/src/middleware.ts:337), so mutations in
  one millisecond have equal timestamps. Those that a page boundary separates are never loaded; those that agree in
  action and principal too are shown once. `AuditView.ShownExactlyOnce` says when neither happens, for every order in
  which the queries may find equal timestamps; `AuditView.LostRow` gives a log.
- A bar in an action, principal id or timestamp lets two events share a deduplication key
  (`AuditRows.KeyIsOwnIffBarFree`). Principal ids in the table are UUIDs (packages/db/migrations/008_audit_log.sql:32),
  so only a live envelope could carry one in its principal id, and no live row can hide a row of the history
  (`AuditRows.HistoryWins`).
- The audit view's `since` and `until` are sent to a query that rejects unknown fields
  (apps/api/src/routers/audit.ts:54-67); the model's filters are the two that the query knows.
- Azure is sent no idempotency key (apps/workers/billing/activities_marketplace.go:162-168), although the comment at
  lines 21-25 relies on one. The model lets Azure recognise a repetition by resource, plan and effective time.
- The idempotency key holds the end of the period (line 225 of that file), not its start as line 35 says.
- The GCP reader splits on `_`, so `billing_manager` and resource types with an underscore are not read back, names
  with more than seven segments lose the middle ones, and a hyphen in one of the last five segments is rewritten.
- The access-review loop compares map sizes. It ends with an assignment undecided if and only if it reads a response
  for a foreign assignment and no deadline (`AccessReview.EndsCompleteIff`); while the responses it reads
  are on topic, a repeated assignment id keeps it from ending (`AccessReview.EndsWhenAllDecided`).
- Two tenants with one Azure subscription and plan are charged once together. `Metering.PaidAreOwnIffAccountsDiffer`
  and `Metering.OwnChargeIffFirst` say when a paid record is charged as its own tenant's.
- The collector reads `marketplace_source` afresh on each attempt (line 195 of the same file) while the conflict clause
  keeps the old row. A tenant whose source changes between two attempts is charged on two clouds under one key
  (`Metering.ChangedSourceChargesTwice`). `Metering.KeyChargedOnceIff` gives the exact condition, and
  `Metering.FixedSourcesChargeOnce` says that fixed sources meet it.
- A load is answered by publishing its pool, and its callers resume later. In a cache for one tenant the next load's
  turn can end that pool before they do (`PoolProtocol.EndedBeforeDelivery`); a delivered pool is live if and only if
  its tenant has not been evicted since (`PoolProtocol.LiveUntilEvicted`).
- `progressPercent` is 100 from 200 steps on with a step missing (`Timeline.ProgressMeaning`).
- Removing and changing roles is not guarded and can take ownership from the last active owner
  (`OwnerGuard.KeepsOwnerIff`), and so can suspensions one of which writes between the guard and the write of another
  (`OwnerRace.HarmlessIffSerial`).

Assumptions, all visible as preconditions or in the model: random states are fresh, the clock of the session store
does not run backwards where a lemma says so, row ids are primary keys, `toISOString` is strictly increasing up to
the year 10000, clouds deduplicate as described above, the Azure subscription and plan of a tenant are fixed for a
whole metering run, and where a lemma says so tenants that share an Azure subscription share its plan.

## Model

| member | source | states |
|---|---|---|
| PoolProtocol.StepKeepsInv | packages/db/src/pool.ts:81-142 | every step of every interleaving keeps the consistency of cache, in-flight map, timers and pools |
| PoolProtocol.RunKeepsInv | packages/db/src/pool.ts:66-142 | that consistency holds in every reachable state |
| PoolProtocol.EachPoolInOnePlace | packages/db/src/pool.ts:90-142 | a constructed pool is held by its tenant's load, cached under its tenant, or ended by exactly one call: none leaks, none ends twice |
| PoolProtocol.OnePoolPerTenant | packages/db/src/pool.ts:109-142 | a tenant has at most one pool that has not been ended |
| PoolProtocol.TimersMatchEntries | packages/db/src/pool.ts:61-102 | cached and loading tenants are disjoint, pending idle timers correspond one to one to entries, the cache and its connections stay within the bound |
| PoolProtocol.AnswersAreOwnLivePools | packages/db/src/pool.ts:109-142 | at the moment of the answer, a request is answered with a pool of its own tenant that has not been ended |
| PoolProtocol.LiveUntilEvicted | packages/db/src/pool.ts:116-134 | at any later moment, when a caller or one who joined its load resumes, the answered pool is of that tenant, and it is live if and only if the tenant has not been evicted since |
| PoolProtocol.EndedBeforeDelivery | packages/db/src/pool.ts:122-134 | two loads into a cache for one: the second ends the pool that the first was answered with in the step before |
| PoolProtocol.InsertionsBalanceEvictions | packages/db/src/pool.ts:122-142 | insertions equal evictions plus cached entries, and evictions never exceed the loads started, which bounds the awaiting loop |
| PoolProtocol.SingleFlight | packages/db/src/pool.ts:119-142 | loads of a tenant overlap neither each other nor a cached entry of that tenant |
| PoolProtocol.CacheIsOrderedByUse | packages/db/src/pool.ts:75-79 | the insertion order of the map is the order of last use, on every run |
| PoolProtocol.CapacityEvictsLeastRecentlyUsed | packages/db/src/pool.ts:122-129 | a capacity eviction removes the entry with the oldest last use and no other |
| PoolProtocol.EvictsIffFull | packages/db/src/pool.ts:122-134 | on every run a load that tests the capacity loop evicts exactly if the cache holds entries and at least cacheSize of them, and otherwise publishes its pool and ends nothing |
| PoolProtocol.RequestMeans | packages/db/src/pool.ts:109-141 | a request of a cached tenant gets its pool, any other joins or starts the load of its tenant, and none builds, ends or drops a pool |
| PoolProtocol.FetchMeans | packages/db/src/pool.ts:104-138 | on every run the secret that a load waits for becomes the next pool of its tenant, held by that load and by no cache entry; a failed load takes only itself away |
| PoolProtocol.ExpiryEvicts | packages/db/src/pool.ts:81-102 | the timer of an entry that expires evicts its tenant and ends its pool |
| PoolProtocol.TimerIsOfLastUse | packages/db/src/pool.ts:75-88 | on every run the timer of an entry is the one that the last use of its tenant started |
| PoolFactory.Factory.ScheduleIdleEviction | packages/db/src/pool.ts:81-88 | a new timer for the tenant becomes pending, the others stay |
| PoolFactory.Factory.Evict | packages/db/src/pool.ts:90-102 | performs the eviction of the protocol; an absent tenant changes nothing |
| PoolFactory.Factory.PoolForTenant | packages/db/src/pool.ts:109-141 | a request performs the lookup step and is resolved at once exactly on a hit |
| PoolFactory.Factory.Fetched | packages/db/src/pool.ts:104-107 | the resolved secret performs the construction step |
| PoolFactory.Factory.FetchFailed | packages/db/src/pool.ts:104-137 | a rejected load leaves the in-flight map and nothing else changes |
| PoolFactory.Factory.TakeTurn | packages/db/src/pool.ts:122-134 | one test of the capacity loop evicts the first key or publishes the pool |
| PoolFactory.Factory.EndSettled | packages/db/src/pool.ts:94-101 | the settled `end()` returns the load to its loop |
| PoolFactory.Factory.IdleTimeout | packages/db/src/pool.ts:81-88 | an expired timer evicts its tenant |
| PoolFactory.Factory.FinishLoad | packages/db/src/pool.ts:122-138 | without interleaving, the whole loop ends exactly the least recently used pools that do not fit and caches the new one last |
| Saga.Workflow.CleanUp | apps/workers/onboarding/workflow.go:148-175 | cleanup walks the completed steps backwards, ignores errors and then announces the failure |
| Saga.Workflow.Run | apps/workers/onboarding/workflow.go:127-235 | the activity calls are those of the specified trace and the returned error is the specified one |
| Saga.FailureUndoesCompletedSteps | apps/workers/onboarding/workflow.go:148-235 | a failure compensates exactly the completed steps in reverse order; success and a failing first step compensate nothing |
| Saga.EachStepRunsOnce | apps/workers/onboarding/workflow.go:179-235 | every run calls the forward activities of the steps up to and including the first that fails, each once and in order |
| Saga.SuccessInPlace | apps/workers/onboarding/workflow.go:141-235 | the calls of a successful run place by place: each forward activity between its own start and success |
| Saga.FailureInPlace | apps/workers/onboarding/workflow.go:148-235 | the calls of a failed run place by place: the failing activity between its start and its failure with its error, all cleanups after that, then the announcement, and the failed workflow last |
| Saga.OnboardingUndoes | apps/workers/onboarding/workflow.go:148-235 | what the onboarding undoes, by the number of completed steps |
| Saga.OnlyForwardErrorsMatter | apps/workers/onboarding/workflow.go:42-78 | errors of cleanups and of status events change neither the calls nor the returned error |
| Saga.DeliveredTimelineIsSound | frontend/src/components/WorkflowTimeline.tsx:61-111 | for any delivered stream that drops or repeats events, at most one row is failed, it is last, and a succeeded workflow shows none |
| Saga.SuccessIsShown | frontend/src/components/WorkflowTimeline.tsx:61-111 | the whole stream of a successful run shows every step succeeded, in order |
| Saga.FailureIsShown | frontend/src/components/WorkflowTimeline.tsx:61-111 | the whole stream of a failed run shows the steps before as succeeded, the failing one as failed, and no later one |
| Saga.OnboardingNamesAreDistinct | apps/workers/onboarding/workflow.go:180-235 | the five steps of the workflow have different names, so the saga theorems apply to it |
| Timeline.DeriveTimeline | frontend/src/components/WorkflowTimeline.tsx:61-111 | the loop over a mutable step map computes the declarative summary of any event list |
| Timeline.NamesByFirstOccurrence | frontend/src/components/WorkflowTimeline.tsx:67-103 | rows are the steps that occur, each once, in order of first occurrence |
| Timeline.RowTells | frontend/src/components/WorkflowTimeline.tsx:71-101 | a row shows the phase of the last event of its step, the times of its last start and last end, and the last error text it had |
| Timeline.RowOmits | frontend/src/components/WorkflowTimeline.tsx:71-101 | a step that has not started or not ended shows no such time, and one that never had an error text shows none |
| Timeline.WorkflowTells | frontend/src/components/WorkflowTimeline.tsx:61-82 | the workflow shows phase and error of its last event and the type of the first event |
| Timeline.PendingShown | frontend/src/components/WorkflowTimeline.tsx:61-76 | without an event of its own the workflow is shown as pending |
| Timeline.CountsSucceeded | frontend/src/components/WorkflowTimeline.tsx:101-103 | the count is that of the rows shown as succeeded |
| Timeline.RepeatsAreInvisible | frontend/src/components/WorkflowTimeline.tsx:71-101 | an event repeated in place changes nothing that is shown |
| Timeline.ProgressMeaning | frontend/src/components/WorkflowTimeline.tsx:118-121 | the percentage is in 0..100, and 100 if and only if there is a step and the missing share rounds away; below 200 steps that means all succeeded |
| Timeline.ProgressIsNearest | frontend/src/components/WorkflowTimeline.tsx:118-121 | the percentage is the integer nearest to a hundred times the share of rows that succeeded, halves upwards |
| MeteringKeys.KeyIsInjective | apps/workers/billing/activities_marketplace.go:225-225 | an idempotency key determines tenant and period, whatever characters a tenant id contains |
| MeteringKeys.KeyReadsBack | apps/workers/billing/activities_marketplace.go:225-225 | a key is the tenant id, a colon and the decimal digits of the period end, and is read back at its last colon |
| Metering.SplitByCloud | apps/workers/billing/workflow_marketplace.go:153-166 | each batch holds exactly the records of its source in order; other sources are dropped |
| Metering.BatchInOrder | apps/workers/billing/workflow_marketplace.go:153-166 | a batch keeps order and repetitions: each record stands behind exactly those of its source that came before it |
| Metering.Store.CollectMeteringData | apps/workers/billing/activities_marketplace.go:189-241 | the returned records report tenant, source, period and active users of the rows found; known rows stay as they are and each tenant read before a failure has a row, pending if it is new |
| Metering.Store.Submit | apps/workers/billing/activities_marketplace.go:43-89 | how each way a submission can end changes ledger and row |
| Metering.StepKeepsInv | apps/workers/billing/workflow_marketplace.go:18-60 | every step of the interleaved batches keeps table, ledger and progress consistent |
| MeteringRuns.OnlyFoundIsReported | apps/workers/billing/activities_marketplace.go:189-241 | on every run each record that a cloud accepted, that stands in the table or that was paid has the tenant, source, period and active users of a row that a collection found |
| MeteringRuns.CollectionMeans | apps/workers/billing/activities_marketplace.go:189-241 | a collection, even one that fails, leaves known rows as they are and a row for each tenant it has read, and sends nothing |
| MeteringRuns.NothingIsUndone | apps/workers/billing/workflow_marketplace.go:18-60 | no step takes back a charge or a paid record, changes the record of a row, or makes a submitted row pending |
| MeteringRuns.AttemptBegins | apps/workers/billing/workflow_marketplace.go:32-51 | a collection that succeeds with rows begins an attempt at the first record of each batch; any other begins none |
| MeteringRuns.TryMeans | apps/workers/billing/workflow_marketplace.go:169-184 | a batch tries its next record until a try succeeds or the record has had five, and each way a try can end has exactly its effect on ledger, row and batch |
| MeteringRuns.LateTryMeans | apps/workers/billing/activities_marketplace.go:43-89 | a try of any earlier attempt that arrives late has its effect on ledger and row, and touches no attempt |
| MeteringRuns.AttemptEnds | apps/workers/billing/workflow_marketplace.go:44-60 | an attempt ends when no batch has work left, and pays its records if and only if every batch has submitted its last one |
| Metering.SubmittedRowsAreInALedger | apps/workers/billing/activities_marketplace.go:79-88 | a row marked submitted stands for a request that some cloud has accepted for its tenant and period |
| Metering.SubmittedOnItsCloud | apps/workers/billing/activities_marketplace.go:79-88 | while sources do not change, that request was accepted by the cloud that the row names |
| Metering.ChargedAtMostOnce | apps/workers/billing/activities_marketplace.go:21-25 | whatever is sent and however often, a cloud charges an account at most once a period |
| Metering.OwnChargeIffFirst | apps/workers/billing/activities_marketplace.go:162-168 | a tenant's records of a period are charged exactly once if the first accepted request with their key is the tenant's own, and otherwise not at all |
| Metering.NeverChargedTwice | apps/workers/billing/workflow_marketplace.go:44-58 | on every run of metering, wherever its attempts fail, no cloud charges an account twice for a period |
| Metering.NilMeansChargedOnce | apps/workers/billing/workflow_marketplace.go:44-60 | after an attempt that returned nil the account named by each of its known-source records has been charged exactly once by the cloud of that record, and stays so |
| Metering.PaidAreOwnIffAccountsDiffer | apps/workers/billing/workflow_marketplace.go:44-60 | on all runs every such record is charged exactly once as its own tenant's if and only if no two tenants share an Azure subscription and plan |
| Metering.ChargedOncePerCloud | apps/workers/billing/activities_marketplace.go:21-25 | an idempotency key is charged at most once by each cloud that has accepted a request with it, and exactly once if tenants share no account |
| Metering.KeyChargedOnceIff | apps/workers/billing/activities_marketplace.go:189-241 | on every run a key is charged at most once over all clouds if, and with different accounts only if, the requests accepted with it are all on one cloud |
| Metering.PaidKeyChargedOnceIff | apps/workers/billing/workflow_marketplace.go:18-60 | after an attempt that returned nil, the key of a known-source record is charged exactly once over all clouds if and only if the requests accepted with it are on one cloud |
| Metering.FixedSourcesChargeOnce | apps/workers/billing/activities_marketplace.go:189-241 | while no tenant's source changes within a period, every key is charged at most once over all clouds, for every run |
| Metering.ChangedSourceChargesTwice | apps/workers/billing/activities_marketplace.go:195-203 | a run that charges one key on two clouds and returns nil, because the source changed between two attempts |
| AccessReview.PendingAssignments | apps/workers/access-review/workflow.go:285-293 | the loop returns the assignments without a decision, in order |
| AccessReview.PendingPartitions | apps/workers/access-review/workflow.go:285-293 | pending and decided assignments partition the batch |
| AccessReview.PendingInPlace | apps/workers/access-review/workflow.go:285-293 | the pending assignments stand in the order of the batch |
| AccessReview.Review.Run | apps/workers/access-review/workflow.go:108-183 | the loop reads events until it is over and then performs the specified effects |
| AccessReview.EndsWhenAllDecided | apps/workers/access-review/workflow.go:116-150 | when the responses it reads are on topic the loop is over if and only if ids are distinct and every assignment has a decision |
| AccessReview.EndsCompleteIff | apps/workers/access-review/workflow.go:116-150 | a finished review of distinct ids has decided every assignment if and only if the loop read the deadline or no response for a foreign assignment |
| AccessReview.DeadlineEnds | apps/workers/access-review/workflow.go:140-148 | with distinct ids the deadline ends the loop, whatever responses there were |
| AccessReview.DecisionsAreVerdicts | apps/workers/access-review/workflow.go:116-150 | a decision is the last response, or revoked if the deadline found silence |
| AccessReview.LastResponseWins | apps/workers/access-review/workflow.go:116-124 | while the loop reads, the last response for an assignment of this review is its decision |
| AccessReview.SilenceIsRevoked | apps/workers/access-review/workflow.go:140-148 | an assignment without a response is undecided until the deadline and then revoked |
| AccessReview.ReminderMeans | apps/workers/access-review/workflow.go:126-139 | a reminder that the loop reads goes out once, to exactly the undecided assignments in order, unless there are none; nothing else sends one |
| AccessReview.EffectsPerAssignment | apps/workers/access-review/workflow.go:152-183 | one audit write per assignment and one revocation exactly for those revoked |
| AccessReview.EffectsInPlace | apps/workers/access-review/workflow.go:152-183 | the effects one by one: each assignment in order is audited with its own decision, directly after its revocation if it is revoked, and nothing else is done |
| AccessReview.ReviewOutcome | apps/workers/access-review/workflow.go:108-183 | whenever a finished review is complete: every assignment decided by its last response before the end, with these effects |
| AccessReview.ForeignResponseEndsEarly | apps/workers/access-review/workflow.go:116-124 | the smallest run that ends with an assignment undecided |
| HeartbeatMonitor.Workflow.Run | apps/workers/onboarding/workflow_installation.go:124-222 | the loop performs the specified passes |
| HeartbeatMonitor.Workflow.Pass | apps/workers/onboarding/workflow_installation.go:138-221 | one pass: revoked before heartbeat before timer, escalation, and the wait in critical |
| HeartbeatMonitor.HeadIsHealthyOrWarning | apps/workers/onboarding/workflow_installation.go:138-145 | the loop head only ever sees healthy or warning |
| HeartbeatMonitor.CriticalFollowsWarning | apps/workers/onboarding/workflow_installation.go:138-220 | a critical alert directly follows a warning of the same outage, at least 20 minutes later and 30 minutes after the last observed reset |
| HeartbeatMonitor.OneEscalationPerOutage | apps/workers/onboarding/workflow_installation.go:190-220 | two alerts of one outage are a warning and the critical next to it |
| HeartbeatMonitor.HeartbeatsKeepQuiet | apps/workers/onboarding/workflow_installation.go:172-188 | while every pass observes a heartbeat nobody is alerted |
| HeartbeatMonitor.MissedHeartbeatAlerts | apps/workers/onboarding/workflow_installation.go:190-220 | a pass without heartbeat and revocation sends exactly one alert, a warning or from warning a critical, and the loop starts over after a critical unless revoked |
| HeartbeatMonitor.HeartbeatResets | apps/workers/onboarding/workflow_installation.go:172-188 | an observed heartbeat makes the loop healthy, begins a new stretch and alerts nobody |
| HeartbeatMonitor.TimerAloneMeans | apps/workers/onboarding/workflow_installation.go:139-148 | a pass that only the timer ends has lasted ten minutes in healthy and twenty in warning |
| HeartbeatMonitor.StopsIffRevoked | apps/workers/onboarding/workflow_installation.go:168-170 | on every run the loop has ended if and only if a pass read a revocation |
| HeartbeatMonitor.StoppedForGood | apps/workers/onboarding/workflow_installation.go:168-170 | after its end the loop alerts nobody and changes nothing |
| HeartbeatMonitor.WarningAfterTenMinutes | apps/workers/onboarding/workflow_installation.go:139-148 | a warning comes at least ten minutes after the last reset that the loop observed |
| Relations.ApplyPointwise | packages/auth/go/spicedb.go:226-248 | after a batch a tuple is present as the last update on it says |
| Relations.ReplayIsIdempotent | packages/auth/go/spicedb.go:226-248 | applying a batch again changes nothing |
| Relations.CompleteRunsAgree | packages/auth/go/spicedb.go:226-248 | compatible batches end in one store, whatever the interleaving and however often each is replayed |
| Relations.DisjointAreCompatible | packages/auth/go/spicedb.go:226-248 | batches on disjoint tuples are compatible |
| Relations.ContradictionDiverges | packages/auth/go/spicedb.go:226-248 | batches that contradict each other have complete runs with different ends |
| Relations.RoleChangeNeverBare | packages/auth/go/spicedb.go:143-150 | no state of any run leaves a principal whose role is being changed without both roles |
| Relations.TwoRequestsGoBare | packages/auth/go/spicedb.go:119-150 | two separate requests would pass through such a state |
| Relations.Client.WriteTenantRoleChanged | packages/auth/go/spicedb.go:143-150 | one request removes the old relation and adds the new one |
| Relations.Client.WriteMemberSuspended | packages/auth/go/spicedb.go:81-86 | adds the suspended relation and nothing else |
| Relations.Client.WriteMemberReinstated | packages/auth/go/spicedb.go:88-93 | removes the suspended relation and nothing else |
| Relations.Client.WriteMemberRemoved | packages/auth/go/spicedb.go:96-101 | removes the role and the suspension together |
| Relations.Client.WriteTenantCreated | packages/auth/go/spicedb.go:45-50 | adds the platform and the owner relation and nothing else |
| OwnerGuard.GuardMeansAnotherOwner | apps/api/src/handlers/principals.ts:371-405 | the guard allows a suspension if and only if another unsuspended user-owner exists |
| OwnerGuard.RefusalMeans | apps/api/src/handlers/principals.ts:380-404 | which of its two messages a refused suspension has: no other owner at all, or only suspended ones |
| OwnerGuard.SuspendMeans | apps/api/src/handlers/principals.ts:411-439 | a suspension adds the one suspending tuple if the caller governs the user and another unsuspended owner exists, and otherwise writes nothing |
| OwnerGuard.ReinstateMeans | apps/api/src/handlers/principals.ts:441-465 | a reinstatement takes back that tuple if the caller governs the user |
| OwnerGuard.RolesMean | apps/api/src/handlers/principals.ts:177-222 | assigning, unassigning and changing a role write the tuples of these roles and no other |
| OwnerGuard.AlwaysAnActiveOwner | apps/api/src/handlers/principals.ts:348-465 | over every run of suspend, reinstate, role assignment and any other operation that takes no ownership, a tenant keeps an unsuspended user-owner |
| OwnerGuard.LosesOwnerIff | apps/api/src/handlers/principals.ts:177-222 | one operation loses the last active owner if and only if it takes ownership from exactly that owner |
| OwnerGuard.KeepsOwnerIff | apps/api/src/handlers/principals.ts:481-504 | a run of all operations keeps an active owner throughout if and only if no step takes ownership from the only one of its moment |
| OwnerGuard.ReinstateUndoesSuspend | apps/api/src/handlers/principals.ts:411-465 | reinstating restores the relations exactly if and only if the user was not suspended before |
| OwnerRace.OverlappingSuspensions | apps/api/src/handlers/principals.ts:411-430 | after any interleaving of guards and writes an active owner is left if and only if one is the target of no write whose guard passed |
| OwnerRace.HarmlessIffSerial | apps/api/src/handlers/principals.ts:371-430 | an interleaving keeps an active owner in every store if and only if no user's first write lands between the guard and a write of a request about another user whom nothing has written about until then; several requests may name one user |
| OwnerRace.GuardReadsActive | apps/api/src/handlers/principals.ts:371-405 | the guard depends on the set of active owners alone |
| OwnerGuard.TwoOwnersSuspendEachOther | apps/api/src/handlers/principals.ts:371-430 | a concrete pair of suspensions that leaves none |
| SessionStores.Stores.LookupSession | apps/api/src/handlers/sessions.ts:89-101 | the live record or nothing; an expired record is dropped |
| SessionStores.Stores.ConsumePendingAuth | apps/api/src/handlers/sessions.ts:123-133 | a pending login is removed whether or not it is still valid |
| LoginProtocol.OneSessionPerLogin | apps/api/src/handlers/auth.ts:106-176 | a login yields at most one session, begun before its five minutes ran out, redeemed with its own verifier and sent to its own target |
| LoginProtocol.CallbackMeans | apps/api/src/handlers/auth.ts:148-157 | a callback whose cookie is not its query's state changes nothing; any other consumes that pending login and begins an exchange if and only if it has not expired |
| LoginProtocol.SessionsPassedTheCheck | apps/api/src/handlers/auth.ts:148-153 | on every run each exchange and each session goes back to a callback whose cookie and query were both its state |
| LoginProtocol.LoginAndAnswerMean | apps/api/src/handlers/auth.ts:105-175 | a login waits five minutes with its verifier and target; an answered exchange makes one session of eight hours and redirects to its login's target or to the root |
| LoginProtocol.SessionsWereCreated | apps/api/src/handlers/auth.ts:171-175 | on every run a stored session was made by an answered exchange |
| LoginProtocol.LookupAgreesWithHistory | apps/api/src/handlers/sessions.ts:72-107 | a lookup finds exactly the sessions created, not deleted and not expired |
| LoginProtocol.LookupsLeaveNoTrace | apps/api/src/handlers/sessions.ts:89-101 | lazy expiry is invisible: a run answers as if no earlier lookup had happened |
| AuditRows.UnifyRows | frontend/src/components/AuditLogView.tsx:102-131 | the two loops and the sort give the first row of each key, newest first |
| AuditRows.KeyNamesEvent | frontend/src/components/AuditLogView.tsx:110-125 | without bars in principal and timestamp, keys are equal if and only if action, principal and timestamp are |
| AuditRows.KeyIsOwnIffBarFree | frontend/src/components/AuditLogView.tsx:110-125 | a row shares its key with no row of another event if and only if its action, principal and timestamp contain no bar |
| AuditRows.PairCollapses | frontend/src/components/AuditLogView.tsx:110-125 | of two rows the second is dropped if and only if the keys are equal |
| AuditRows.OneRowPerEvent | frontend/src/components/AuditLogView.tsx:99-131 | each row of either input is represented once in the table, by the first row with its key; no other row there is about its event, and that row is if the rows up to it have no bar in principal and timestamp |
| AuditRows.EveryRowIsGiven | frontend/src/components/AuditLogView.tsx:102-131 | the table invents no row |
| AuditRows.RowsAreCopies | frontend/src/components/AuditLogView.tsx:61-93 | each row of the table says, field by field, what one history row or one envelope says |
| AuditRows.EnvelopeShownOnce | frontend/src/components/AuditLogView.tsx:109-125 | an envelope whose event is in the history too is represented by a history row and by no live one |
| AuditRows.OnlyLiveIsShown | frontend/src/components/AuditLogView.tsx:118-125 | an event that only the live tail has is shown by a live row, if no row up to it has a bar in principal or timestamp |
| AuditRows.NewerStandsAbove | frontend/src/components/AuditLogView.tsx:127-130 | of two rows the one with the smaller character where their timestamps first differ stands below |
| AuditRows.LessIsLexicographic | frontend/src/components/AuditLogView.tsx:130-130 | the string comparison of the sort is the order of dictionaries |
| AuditRows.HistoryWins | frontend/src/components/AuditLogView.tsx:109-125 | an event that is in the history is shown by no live row, and by the first history row about it if no history row up to it has a bar in principal or timestamp, whatever the live rows contain |
| AuditRows.EchoesAreInvisible | frontend/src/components/AuditLogView.tsx:118-125 | live envelopes whose persisted version is in the history change nothing |
| AuditPaging.PageIsNewestBelow | packages/db/src/index.ts:304-334 | a page holds the newest matching rows below the cursor; a row it leaves out is no newer than any row of a full page |
| AuditPaging.Route.HandlePageLanded | frontend/src/routes/Audit.tsx:45-51 | the first page replaces the history, a later one is appended |
| AuditPaging.Route.HandleLoadMore | frontend/src/routes/Audit.tsx:80-89 | sets the cursor to the oldest row; an unchanged cursor asks for nothing |
| AuditPaging.Route.HandleFiltersChange | frontend/src/routes/Audit.tsx:73-78 | takes over the new filters, clears cursor and history and asks for a page |
| AuditPaging.Route.PageArrives | frontend/src/routes/Audit.tsx:30-63 | a page that arrives is the one asked for and is mirrored into the history |
| AuditPaging.LastChoiceCounts | frontend/src/routes/Audit.tsx:73-78 | on every run the page asks for the filters that were chosen last |
| AuditPaging.NoChoiceAsksForAll | frontend/src/routes/Audit.tsx:73-78 | until a choice it asks for everything |
| AuditPaging.HistoryIsAsChosen | frontend/src/routes/Audit.tsx:45-78 | on every run the history holds only rows of the log with the action and the principal chosen last |
| AuditPaging.CursorDecreases | frontend/src/routes/Audit.tsx:80-89 | in every reachable state, load more changes nothing or asks for strictly older rows |
| AuditPaging.PagingTerminates | frontend/src/routes/Audit.tsx:80-97 | one set of filters is loaded with at most as many requests as it has rows, however events interleave |
| AuditPaging.SameProfile | packages/db/src/index.ts:304-334 | two orders in which queries may find the rows have the same timestamps place by place |
| AuditPaging.CompleteIffClean | frontend/src/routes/Audit.tsx:45-97 | with nothing more to load the history is complete if and only if the millisecond changes at every page boundary, whatever the order of equal timestamps in each query |
| AuditView.ShownExactlyOnce | frontend/src/routes/Audit.tsx:45-97 | with nothing more to load every matching row is on the page exactly once if and only if boundaries are clean and no two rows agree in action, principal and millisecond |
| AuditView.OlderBelow | frontend/src/components/AuditLogView.tsx:127-130 | older rows of the log stand below newer ones |
| AuditView.DistinctMillisSuffice | packages/db/src/index.ts:304-334 | distinct milliseconds meet both conditions for every page size |
| AuditView.LostRow | packages/db/src/index.ts:304-334 | 51 mutations of one millisecond never load completely in pages of 50 |
| AuditCsv.ToCsv | frontend/src/components/AuditLogView.tsx:154-195 | reading the export gives back the header and the nine fields of every row |
| AuditCsv.FieldsUnderTheirNames | frontend/src/components/AuditLogView.tsx:154-195 | reading the export gives a header line and a line per row in order, each field under its own name |
| AuditCsv.QuotedIfNeeded | frontend/src/components/AuditLogView.tsx:166-173 | a cell is quoted if and only if it contains a quote, a comma, a CR or an LF |
| AuditCsv.ParseUndoesDocument | frontend/src/components/AuditLogView.tsx:166-195 | the reader of RFC 4180 inverts the writer on arbitrary strings |
| AuditCsv.ExportIsInjective | frontend/src/components/AuditLogView.tsx:175-195 | equal exports come from rows with equal fields |
| CloudNames.AwsRoundTrip | apps/workers/iam-writeback/translate.go:50-68 | exactly when an AWS permission set name is read back as it was written |
| CloudNames.AwsReformat | apps/workers/iam-writeback/translate.go:50-68 | an accepted AWS name is written back unchanged |
| CloudNames.AwsReads | apps/workers/iam-writeback/translate.go:50-68 | what every AWS name is read as, and which error each refused name gets |
| CloudNames.AzureRoundTrip | apps/workers/iam-writeback/translate.go:70-86 | exactly when an Azure app role is read back as it was written |
| CloudNames.AzureReformat | apps/workers/iam-writeback/translate.go:70-86 | an accepted Azure app role is written back unchanged |
| CloudNames.AzureReads | apps/workers/iam-writeback/translate.go:70-86 | what every Azure value is read as, and which error each refused value gets |
| CloudNames.GcpRoundTrip | apps/workers/iam-writeback/translate.go:88-112 | a GCP role is read back if and only if type, role and id are free of underscores, the role is valid and the id has five groups |
| CloudNames.GcpReformat | apps/workers/iam-writeback/translate.go:88-112 | an accepted GCP name is written back unchanged if and only if it has seven segments and no hyphen in the last five |
| CloudNames.GcpReads | apps/workers/iam-writeback/translate.go:88-112 | what every GCP name is read as, segment by segment: middle segments are dropped |
| CloudNames.GroupRoundTrip | apps/workers/iam-writeback/translate.go:139-158 | type and id of an Azure group are read back if and only if the type has no hyphen and the id has five groups |
| CloudNames.GroupReads | apps/workers/iam-writeback/translate.go:139-158 | what every group name is read as, segment by segment |
| BenchGate.CheckAgainstBaseline | packages/db/bench/check_regression.ts:111-162 | the loop reports the specified findings in order |
| BenchGate.CleanMeansWithin | packages/db/bench/check_regression.ts:111-162 | there is no finding if and only if throughput and every checked statement keep their thresholds |
| BenchGate.StatementReported | packages/db/bench/check_regression.ts:132-159 | a statement finding is reported if and only if some baseline statement is missing or too slow in that way |
| BenchGate.FindingsAre | packages/db/bench/check_regression.ts:111-162 | exactly which findings a bench gets, throughput and statements together, with their numbers |
| BenchGate.FindingsInOrder | packages/db/bench/check_regression.ts:111-162 | the throughput comes first and the statements follow in the order of the baseline |
| BenchGate.FirstMatchIsFirst | packages/db/bench/check_regression.ts:134-136 | a baseline statement is compared with the first measured statement that begins with its fragment |
| BenchGate.LooserFindsFewer | packages/db/bench/check_regression.ts:111-162 | the findings at a looser threshold are a subsequence of those at a stricter one |
| BenchGate.Run | packages/db/bench/check_regression.ts:207-289 | the gate exits 1 if and only if some run with a baseline fails to parse or misses a threshold, and throws exactly on an unreadable baseline |
| BenchGate.AllFindingsAre | packages/db/bench/check_regression.ts:243-281 | the gate reports its runs one after the other: nothing without a baseline, the failure to parse, or the findings at the threshold 2 |

## Left out

- Network, database, Kubernetes, NATS, Vault, Zitadel and Temporal calls: each is a nondeterministic outcome or a step on an abstract store.
- The permission schema behind `assertCanGovernOwner`: its answer is an arbitrary boolean, since schema.zed is not part of this model.
- Cookie formatting and parsing, PKCE hashing and discovery: they carry values that the login protocol treats as given.
- PoolProtocol.AnswersAreOwnLivePools: speaks of the moment a load resolves, since the resumption of its callers is not a step of the model; `PoolProtocol.LiveUntilEvicted` covers every later moment.
- The joiners of an in-flight load in `PoolProtocol`: they share the loader's promise, so they have no step of their own and get the pool of its answer.
- Pool sizes that are not numbers: a `cacheSize` of NaN makes the capacity test false for ever.
- The order of rows with equal timestamps: the comparator returns -1 on ties, so any order is allowed.
- UTF-16 order of characters outside the basic plane in `AuditRows.Less`: timestamps are ASCII.
- The `since` and `until` filters of the audit view and the filtering of live rows: the query knows neither.
- Failed page loads in `AuditPaging`: the route shows no new page and the state stays as it is.
- Two runs of the resource at once in `AuditPaging`: a response for outdated filters or an outdated cursor is dropped by the resource, as Solid does.
- Timestamps of status events in `Saga`: a function of scope and phase, since nothing depends on their values.
- The five straight-line steps of the onboarding workflow are modelled as a loop over a list of steps of any length.
- The version gate of the status events (apps/workers/onboarding/workflow.go:47, 64): a history recorded before it emits none, and every run modelled here emits them.
- Clean-up of a step that failed part-way: the code compensates completed steps only.
- Which receiver of which pass gets a heartbeat or revoke signal: left open in `HeartbeatMonitor`, so nothing is said about when it recovers or stops.
- The status that the heartbeat workflow writes to the installation's record before each alert and at each heartbeat.
- Cancellation of the heartbeat workflow, which ends its waits without a signal or an elapsed threshold.
- Equality of the stored metering quantity with the billed one across retries: a retry may count other users.
- The rejection of duplicate updates within one SpiceDB request: no modelled write repeats a tuple unless its caller passes equal roles.
- Rounding of floating point numbers in `progressPercent` and in the benchmark gate, and numbers that are not real: both are exact here.
- The text of findings and log lines, the regular expressions that read pgbench output, and file discovery.
- The tags and labels of cloud resources, the consumers of cloud events, the CLI, the cloud adapters and all user interface rendering: thin wrappers.
