# GridVault dispatch backend: a verified model

GridVault schedules battery clusters at grid-connected sites. Several services and
workers read rows, compute with small domain functions, and write back through one SQLite
database, each write guarded by the version that was read. What matters are promises
across entities that must hold however those calls interleave: site power is conserved,
reservations of a cluster do not clash, a plan is dispatched once, a job lease has one
outcome, logs and projections agree with what was stored. This project models that
behaviour in Dafny and proves these promises for every interleaving.

## How the model is built

The database is a value (`Tables.Db`). A call (`Machine.Call`) carries its arguments, its
clock, the identifiers it draws, and for every row it uses the earlier state from which
the row was read; the call then commits one all-or-nothing transaction on the current
state. A list of calls is one interleaving and `Machine.Run` its history of committed
states. The theorems quantify over all histories (`Machine.IsHistory`), which are exactly
those of all lists of calls (`Reachable.RunIsHistory`, `Reachable.HistoryIsRun`), hence
over all interleavings, all stale reads and all retries.

Two layers of imperative code are tied to this machine:

* `Stores.Store` executes each transaction statement by statement on a working copy, with
  the loops of the source, and equals the declarative transaction of `Tables`; `Batches`
  shows that row-by-row inserts are one bulk insert with one bulk guard.
* `Backend.Backend` contains the services and the worker. Between any two statements
  `Interfere` lets any number of arbitrary other calls through, also between a write and
  the audit event that follows it; what a method promises about the row it wrote is about
  the state right after its own call. Each method is proved to be exactly one call of the
  machine, with the rows it really read. Submit, Dispatch, Record, Acknowledge, Resolve and
  the worker report success exactly when that call commits; Approve, Transition and the
  three creations, whose audit event is a statement of its own after the write, exactly
  when it commits and that event is stored as well.

| files | contents |
|---|---|
| `Prelude`, `TimeEncoding`, `Clock` | sums over maps; RFC 3339 text of instants, its order and its parser; windows |
| `Sites`, `Plans`, `Jobs`, `Telemetry`, `Allocation` | domain values and the power allocation |
| `Tables`, `Batches`, `Stores` | tables, constraints, transactions |
| `Machine`, `Invariants` | calls, runs, invariants, what a step may do to a row |
| `Preservation`, `Submissions`, `Dispatches`, `Reachable` | every call keeps every invariant |
| `Effects` | what each committed call wrote, column by column |
| `Refinement`, `Capacity`, `Dispatching`, `Leasing`, `Monitoring` | the guarantees, stated for every history |
| `Recoveries` | clusters that are never recovered |
| `Progress` | when undisturbed calls commit, exactly |
| `Scenarios` | histories built call by call, for what the guarantees do not rule out |
| `Backend` | the services and the worker as imperative methods |
| `AuditLog`, `AuditWalks` | keyset pages and walks over a growing log |
| `Amounts`, `Settlements` | 64-bit settlement arithmetic; closing of periods |
| `Idempotency` | idempotency keys |

## Findings

Where the code does less than its comments or names suggest, the model follows the code,
and a lemma gives the exact condition.

* **Overlaps can be missed.** `reservationConflict` compares times as text. RFC3339Nano
  drops trailing zeros of the fraction, so `...:01Z` sorts after `...:01.5Z`. An overlap is
  seen if and only if the crossing bounds are comparable (`Clock.OverlapDetectedIff`), and
  two conflicting reservations can end up stored on one cluster if and only if their
  windows overlap and are not comparable (`Scenarios.ConflictCanBeStoredIff`;
  `Scenarios.OverlapCanBeStored` is an instance). The history behind it submits, degrades
  and recovers the cluster, and submits again: as long as a cluster is not recovered, which
  no service does today, it has at most one reservation and no conflict at all
  (`Recoveries.OneReservationWithoutRecovery`, `Recoveries.NoConflictWithoutRecovery`).
* **A share can be zero.** `AllocatePower` promises no positive share:
  `Allocation.SomeShareCanBeZero` has ratings 99, 1, 1 and total 3. A caller who makes sure
  that the total times each rating is at least the total rating gets positive shares in
  every order (`Allocation.SharesReachTheirFloor`); with less than one kilowatt per cluster
  every order has a zero share (`Allocation.PositiveSharesNeedPower`). In between it depends
  on the order, and no condition on ratings and total alone is claimed to be exact. For a
  given order some share is zero if and only if exactly one kilowatt is left before a turn
  that is not the last (`Allocation.SomeShareIsZeroIff`).
* **A failed approval, transition or creation can have been written.** Its audit event is
  inserted after the write, on its own. The caller gets an error although the row changed if
  and only if the write commits and the audit insert fails (`Backend.Backend.Approve`,
  `Backend.Backend.Transition`, `Backend.Backend.CreateSite`, `Backend.Backend.CreateCluster`,
  `Backend.Backend.CreatePlan`; instance: `Scenarios.FailedCallsCanHaveWritten`).
* **Begin can recurse for ever.** The lookup uses the scope as given, the insert stores the
  trimmed, upper-case one. `Idempotency.StuckIff` says exactly when the recursion never
  ends in a quiet store; `Idempotency.LowerCaseMethodCanBeStuck` is an instance.
* **Attempts may pass the limit** when expired leases are reclaimed
  (`Scenarios.AttemptsPassTheLimit` is a history with 6 attempts under the service's limit
  of 5); the exact law is `Leasing.AttemptsAreAccountedFor`.
* **Settlement amounts can wrap around**: `Amounts.AmountIsExactIff`,
  `Amounts.AmountCanBeNegative`.
* **Backoff wraps for huge bases**: in int64 every delay is right if and only if the base
  is below 2^55 ns (`Jobs.BackoffIsExactIff`). The executor passes one second.
* **Dispatch never compares `expected`** with the plan it read. It is safe all the same,
  because of the UNIQUE keys (`Dispatching.DispatchNeedsTheCurrentVersion`).

## Model

| member | source | states |
|---|---|---|
| Reachable.HistoryIsSound | internal/storage/sqlite/dispatch.go:151-271 | in every interleaving every committed state satisfies all invariants, and each state is followed by the later ones row by row |
| Reachable.HistoryIsRun | internal/storage/sqlite/db.go:139-161 | every history is that of some list of calls; with Reachable.RunIsHistory, histories and interleavings are the same |
| Reachable.RunIsHistory | internal/storage/sqlite/db.go:139-161 | the committed states of every list of calls are a history |
| Reachable.StepAt | internal/storage/sqlite/db.go:139-161 | each step of a history takes sound states to a sound state by writes that are legal row by row |
| Refinement.SiteWritesAreLegal | internal/storage/sqlite/site.go:35-40 | every committed site write is Reserve or Transition of the row's current value, with the next version |
| Refinement.ClusterWritesAreLegal | internal/storage/sqlite/site.go:102-104 | every committed cluster write is a domain transition of the current row, whatever stale row was computed from |
| Refinement.PlanWritesAreLegal | internal/storage/sqlite/dispatch.go:38-43 | every committed plan write is Submit, Approve or Dispatch of the current row |
| Refinement.JobWritesAreLegal | internal/storage/sqlite/dispatch.go:238-271 | every committed job write leases a ripe row of the current state, or is an outcome written by its lease's holder in time, column by column |
| Refinement.AlarmWritesAreLegal | internal/storage/sqlite/operations.go:116-123 | every committed alarm write is Acknowledge or Resolve of the current row |
| Refinement.VersionsNameRows | internal/storage/sqlite/db.go:208-222 | at any two times of a run equal versions mean equal rows; otherwise the later version is greater; rows never vanish |
| Refinement.StaleSubmitChangesNothing | internal/service/dispatch.go:66-129 | a submission whose plan or site row changed after its read rolls back completely |
| Refinement.StaleApprovalChangesNothing | internal/service/dispatch.go:136-156 | an approval computed from a plan row that changed since does nothing |
| Capacity.SitePowerIsConserved | internal/site/site.go:93-153 | reserved_kw equals the requested power of the site's non-draft plans and also its unreleased reservations, stays within 0 and the limit, and is 0 on a retired site |
| Capacity.RetiredSitesHoldNoPlans | internal/service/sites.go:49-72 | a retire that races submissions never leaves a submitted plan on a retired site |
| Capacity.HeldWindowsAreDisjoint | internal/storage/sqlite/dispatch.go:140-181 | two unreleased reservations of one cluster never overlap as stored, even after the cluster was degraded and recovered |
| Capacity.ConflictsNeedIncomparableBounds | internal/dispatch/reservation.go:54-62 | two stored reservations can conflict in the domain's sense only where the text of a bound is not comparable |
| Capacity.WholeSecondReservationsNeverConflict | internal/dispatch/reservation.go:54-62 | on whole-second windows no two stored reservations conflict |
| Capacity.ApprovedPlansAreSafe | internal/dispatch/plan.go:158-176 | an approved or dispatched plan has an approver other than its creator, and its reservations carry the target energy within its window on clusters of its site |
| Submissions.SubmissionMeetsReads | internal/service/dispatch.go:66-129 | a submission that commits was computed from the very plan and site rows it meets |
| Submissions.SubmitPlanKeeps | internal/service/dispatch.go:104-129 | the reservations of a committed submission sum to the requested power, and all invariants survive |
| Submissions.RequestedIffReady | internal/service/dispatch.go:70-124 | Submit reaches its transaction exactly when the caller owns the draft at the expected version, the site is active, the selection is distinct, at the site, available, rated and short of the charge bound of its direction, the power can be divided, and every share is positive |
| Submissions.SharesAreExact | internal/service/dispatch.go:108-119 | the shares of a submission are exactly the requested power, each within its cluster's rating |
| Submissions.FairSharesAreReservable | internal/service/dispatch.go:108-119 | if every rating earns at least one kilowatt, every reservation's power check passes |
| Submissions.SiteGuardIsReserve | internal/storage/sqlite/dispatch.go:162-164 | the WHERE clause that takes site power lets through exactly what Site.Reserve allows on the current row, and writes the same |
| Allocation.AllocatePower | internal/dispatch/reservation.go:87-140 | for every visiting order: the error cases, and otherwise shares of 0 to the rating summing exactly to the total, with no division by zero |
| Allocation.AllocationIsExact | internal/dispatch/reservation.go:104-139 | the first loop alone leaves nothing over, so cap, repair loop and internal fault are never needed |
| Allocation.ShareIsProportional | internal/dispatch/reservation.go:107-118 | the k-th visited cluster gets less than its proportion plus k + 1, in any order |
| Allocation.SharesReachTheirFloor | internal/dispatch/reservation.go:107-118 | when every proportion is at least 1, every share is at least its proportion rounded down |
| Allocation.ZeroShareIff | internal/dispatch/reservation.go:108-111 | inside the loop, a visited cluster gets nothing exactly when nothing is left |
| Allocation.SomeShareIsZeroIff | internal/dispatch/reservation.go:104-118 | for any given order, some share is zero if and only if exactly one kilowatt is left before a turn that is not the last |
| Allocation.PositiveSharesNeedPower | internal/dispatch/reservation.go:104-118 | positive shares in any order need at least one kilowatt per cluster |
| Allocation.SomeShareCanBeZero | internal/dispatch/reservation.go:107-118 | an accepted allocation with a share of zero |
| Allocation.ProductsFitInt64 | internal/dispatch/reservation.go:108 | within the limits of plans and clusters the product fits in 64 bits |
| Allocation.TopUp | internal/dispatch/reservation.go:119-135 | the repair loop only moves power from the rest to clusters with room, within their ratings |
| Dispatching.NoJobsBeforeDispatch | internal/service/dispatch.go:157-186 | a plan that is not dispatched has no job |
| Dispatching.JobsAndReservationsCorrespond | internal/storage/sqlite/dispatch.go:184-203 | from dispatch on, jobs and reservations of a plan correspond one to one by cluster |
| Dispatching.RedispatchChangesNothing | internal/service/dispatch.go:157-186 | dispatching a dispatched plan changes nothing, with any expected version and any stale reads |
| Dispatching.DispatchNeedsTheCurrentVersion | internal/service/dispatch.go:157-186 | a dispatch commits only on an approved plan with the version it currently has, although nothing compares them earlier |
| Dispatching.DispatchCommitsOnce | internal/storage/sqlite/dispatch.go:188-203 | over a run at most one call dispatches a plan |
| Dispatching.SubmittedPlansHoldSomething | internal/dispatch/plan.go:138-156 | a plan past its draft has at least one reservation |
| Dispatches.ListingIsCurrent | internal/storage/sqlite/dispatch.go:118-139 | a nonempty listing of a plan's reservations, read at any earlier time, is still complete |
| Dispatches.DispatchWrites | internal/storage/sqlite/dispatch.go:188-203 | a committed dispatch adds exactly one pending job per current reservation |
| Effects.SubmissionWrites | internal/storage/sqlite/dispatch.go:151-181 | a committed submission took its owner's draft at the expected version, an active site with room, and clusters that each could serve the plan when read and are still available; it adds exactly one held reservation per cluster with its share and the plan's window, reserves exactly those clusters, adds the power to the site, and changes nothing else |
| Effects.ApprovalWrites | internal/dispatch/plan.go:158-176 | a committed approval takes a submitted plan at the expected version, by someone else, and records who and when |
| Effects.DispatchWritesJobs | internal/service/dispatch.go:157-186 | a committed dispatch adds for each current reservation one pending job with no attempt, a limit of five and a first attempt due at once |
| Effects.TransitionWrites | internal/site/site.go:130-153 | a committed transition follows the site life cycle on the current row, retires only a site without reservations, and changes status and version only |
| Effects.TransitionCommitsIff | internal/service/sites.go:49-72 | an undisturbed transition commits exactly under these conditions |
| Effects.RetiredSitesStay | internal/site/site.go:130-153 | the row of a retired site never changes again |
| Effects.CreateSiteIff | internal/site/site.go:45-73 | a site is created exactly for a limit of 10 to 10 000 000 kW, in commissioning and with nothing reserved |
| Effects.CreateClusterIff | internal/site/cluster.go:66-101 | a cluster is created exactly within its rating, capacity and charge limits on a site that was not retired when read, and starts available at its initial charge |
| Effects.CreatePlanIff | internal/dispatch/plan.go:62-111 | a draft is created exactly for positive, bounded power and energy, a window of a minute to a week that starts no earlier than a minute ago, and energy that fits into whole minutes of the power |
| Effects.MaintenanceWrites | internal/site/cluster.go:184-204 | recovery needs a cluster out of service with its charge back in the window; degradation needs nothing |
| Effects.AcknowledgementWrites | internal/alarm/alarm.go:63-80 | a committed acknowledgement takes an open alarm at the expected version and records the actor |
| Effects.ResolutionWrites | internal/alarm/alarm.go:83-104 | a committed resolution takes an acknowledged alarm whose cluster was read with telemetry and a charge strictly between the bounds |
| Effects.AlarmCallsCommitIff | internal/service/alarms.go:29-72 | undisturbed, these conditions and a stored audit event are also enough |
| Progress.SubmitCommitsIff | internal/service/dispatch.go:66-129 | a submission that nobody disturbs commits exactly when it is ready in these terms, reserved plus requested power stays within the grid limit, no selected cluster is seen to be taken in the window, and the audit event is stored |
| Progress.ApproveCommitsIff | internal/service/dispatch.go:136-156 | an undisturbed approval commits exactly for a submitted plan at the expected version, by someone else than its creator |
| Progress.DispatchCommitsIff | internal/service/dispatch.go:157-186 | an undisturbed dispatch commits exactly for an approved plan at the expected version, if no plan or cluster identifier is blank |
| Progress.FinishCommitsIff | internal/worker/executor.go:77-100 | an undisturbed worker's write commits exactly while the row is leased to it and the lease has not run out |
| Progress.RecordCommitsIff | internal/service/telemetry.go:34-75 | an undisturbed reading commits exactly if its values are in range, it is timely and newer than the cluster row, and the thresholds are ordered |
| Leasing.StaleWorkerChangesNothing | internal/worker/executor.go:77-100 | a worker whose job row changed since it claimed it can write nothing |
| Leasing.OneOutcomePerLease | internal/storage/sqlite/dispatch.go:269-271 | each version of a job row, so each lease generation, is written over at most once |
| Leasing.FinishBeforeClaim | internal/dispatch/job.go:63-73 | at the deadline instant, if the holder finishes first no claim takes the job |
| Leasing.ClaimBeforeFinish | internal/dispatch/job.go:161-169 | at any instant, if a claim takes the job first the former holder's write does nothing |
| Leasing.BothPassAtTheDeadline | internal/dispatch/job.go:161-169 | at now = LeaseUntil both the holder's check and Claimable pass |
| Leasing.RunningLeaseIsExclusive | internal/dispatch/job.go:75-95 | a leased row is written only by its holder up to the deadline, or reclaimed from the deadline on |
| Leasing.ClaimsAreTrulyClaimable | internal/storage/sqlite/dispatch.go:238-268 | a claim writes a job only if it is due or its lease has run out, although the query compares text, and then leases it to the trimmed owner until exactly now + duration, one attempt and one version later |
| Leasing.LeaseLasts | internal/dispatch/job.go:75-95 | until now + duration of the claiming call only the claimant can write the row, and from then on it can be reclaimed |
| Leasing.OutcomesAreStored | internal/worker/executor.go:77-100 | a committed outcome is stored as reported: success exactly for a completed execution, permanent failure exactly if the failure is not retryable or no attempt is left, otherwise a retry after the delay for the attempts so far, with the cause |
| Leasing.FinalOutcomesStay | internal/dispatch/job.go:126-146 | after a success, a failure that is not retryable or the last allowed attempt no later state changes the row |
| Leasing.DueIsClaimable | internal/storage/sqlite/dispatch.go:241 | on comparable times the claim query's filter is Claimable |
| Leasing.LifeIsLifeline | internal/dispatch/job.go:75-146 | in every run a job row is inserted pending and then only legally written |
| Leasing.AttemptsAreAccountedFor | internal/dispatch/job.go:75-146 | attempts = retryable failures + reclaims + the one in hand; the limit is passed only by reclaims; without reclaims at most 2 writes per allowed attempt |
| Leasing.TerminalJobsStay | internal/dispatch/job.go:112-146 | a succeeded or permanently failed job is never written again |
| Scenarios.AttemptsPassTheLimit | internal/dispatch/job.go:63-95 | a history in which a job that the service made with limit 5 has 6 attempts |
| Jobs.AttemptAccounting | internal/dispatch/job.go:75-146 | the accounting law over every sequence of legal writes, by induction |
| Jobs.BackoffIsMonotone | internal/dispatch/job.go:171-187 | delays, as exact integers, never shrink from one attempt to the next |
| Jobs.BackoffDoubles | internal/dispatch/job.go:171-187 | the delay is the base at first, doubles with each of the next eight attempts up to 15 minutes, and stays |
| Jobs.Backoff | internal/dispatch/job.go:171-187 | a delay, as an exact integer, is positive, at most 15 minutes, and not below a base within that limit |
| Jobs.BackoffIsExactIff | internal/dispatch/job.go:171-187 | the int64 delay, wrap-around included, is the exact one at every attempt if and only if the base is below 2^55 ns |
| Monitoring.RowsShowTheNewestSnapshot | internal/storage/sqlite/operations.go:81-97 | a cluster row always shows its highest-sequence snapshot, and has no telemetry while it has none |
| Monitoring.RowsStartWithInitialValues | internal/site/cluster.go:66-101 | without a snapshot a cluster has the telemetry columns of the very row it was created with, and the initial state of charge of the input it was created from |
| Monitoring.SequencesIncrease | internal/site/cluster.go:164-182 | a snapshot stored later has a higher sequence than every earlier one of its cluster |
| Monitoring.ActiveAlarmsAreUnique | migrations/001_initial.sql:123-142 | at most one unresolved alarm per cluster and kind in every reachable state |
| Monitoring.ResolvedAlarmsStay | internal/alarm/alarm.go:63-104 | resolved alarms never reopen |
| Monitoring.AcceptedReadingsRaiseAlarms | internal/service/telemetry.go:34-75 | after an accepted reading there is exactly one unresolved alarm `cluster:soc_low` if the charge is at or below the low bound, `cluster:soc_high` at or above the high one, `cluster:temperature_high` at or above the high temperature |
| Monitoring.AcceptedReadingsAreStored | internal/storage/sqlite/operations.go:81-97 | an accepted reading is in range, timely and newer than the current cluster row; it stores its snapshot, moves the telemetry columns of that row, and raises only alarms for bounds it crosses, critical for low charge and from the critical temperature on |
| Telemetry.Evaluate | internal/telemetry/telemetry.go:97-130 | exactly the conditions that hold, each with its kind, severity and fingerprint, none twice; or the fault of the disordered thresholds |
| Telemetry.ConditionsAreDistinct | internal/telemetry/telemetry.go:97-130 | no two conditions of a reading share a fingerprint, and a reading is never low and high at once |
| Telemetry.FingerprintsAreInjective | internal/telemetry/telemetry.go:97-130 | a fingerprint determines cluster and kind, even when identifiers contain colons |
| Plans.EnergyCheckIsSound | internal/dispatch/plan.go:89-95 | the integer energy check is never looser than the real one, and equals it on whole minutes |
| Plans.MinuteWindowsAreOrderedAsText | migrations/001_initial.sql:74 | every window of at least a minute passes the text CHECK on its bounds |
| Plans.LegalPlanWriteKeeps | internal/dispatch/plan.go:138-190 | transitions keep the energy and four-eyes conditions and the fixed columns |
| TimeEncoding.TextOrderIsTimeOrder | internal/storage/sqlite/db.go:163-176 | for distinct instants text order is time order if and only if the seconds differ or neither stripped fraction is a prefix of the other |
| TimeEncoding.ParseInvertsEncode | internal/storage/sqlite/db.go:163-176 | parseTime inverts encodeTime for four-digit years, calendar included |
| TimeEncoding.YearsCounted | internal/storage/sqlite/db.go:163-176 | the calendar of the texts has the Gregorian leap years |
| TimeEncoding.WholeSecondsCompare | internal/storage/sqlite/db.go:163-163 | whole seconds are always comparable |
| Clock.OverlapIsSharedInstant | internal/clock/clock.go:53-71 | windows overlap exactly when they share an instant |
| Clock.SqlOverlapOnComparable | internal/storage/sqlite/dispatch.go:140-144 | on comparable windows the text query is the real overlap test, in both directions |
| Clock.OverlapDetectedIff | internal/storage/sqlite/dispatch.go:140-144 | the text query sees a real overlap if and only if the crossing bounds are comparable |
| Clock.OverlapCanBeMissed | internal/storage/sqlite/dispatch.go:140-144 | two overlapping windows that the query predicate does not see as overlapping |
| Scenarios.ConflictCanBeStoredIff | internal/storage/sqlite/dispatch.go:140-181 | for any two windows a plan can have: some history stores two conflicting reservations with them on one cluster if and only if they overlap and are not comparable |
| Scenarios.OverlapCanBeStored | internal/storage/sqlite/dispatch.go:140-181 | a history that ends with two unreleased reservations of one cluster that conflict |
| Recoveries.RunsWithout | internal/site/cluster.go:192-204 | the states of every list of calls none of which recovers a cluster are a history without its recovery |
| Recoveries.IsAHistory | internal/site/cluster.go:192-204 | a history without a recovery is a history |
| Recoveries.OneReservationWithoutRecovery | internal/storage/sqlite/dispatch.go:165-172 | in a history in which a cluster is never recovered it has at most one reservation |
| Recoveries.NoConflictWithoutRecovery | internal/dispatch/reservation.go:54-62 | without recoveries of their cluster no two reservations conflict, whatever their windows |
| Batches.InsertRowsInBulk | internal/storage/sqlite/dispatch.go:165-172 | inserting reservations and taking clusters one by one is one bulk change with one bulk guard |
| Batches.InsertJobsInBulk | internal/storage/sqlite/dispatch.go:190-194 | inserting jobs one by one is one bulk insert with one bulk guard |
| Stores.Store.SubmitPlanAtomic | internal/storage/sqlite/dispatch.go:151-181 | statement by statement with rollback, the store does the whole submission or nothing |
| Stores.Store.DispatchPlanAtomic | internal/storage/sqlite/dispatch.go:188-203 | all jobs and the plan, or nothing |
| Stores.Store.ClaimJobs | internal/storage/sqlite/dispatch.go:238-268 | of the first due jobs, exactly those that are truly ripe are leased, each until now + duration, and returned; at most the limit, none twice; all other rows stay |
| Stores.DueJobs | internal/storage/sqlite/dispatch.go:241 | in every table there is a list of the first due jobs in the order of the query, at most the limit, and the query finds it |
| Tables.ClaimOrderIsByTime | internal/storage/sqlite/dispatch.go:241 | on comparable times the order of the query is by next attempt, then by identifier |
| Stores.Store.StoreTelemetryAtomic | internal/storage/sqlite/operations.go:81-97 | snapshot, cluster row and alarms together, or nothing |
| Stores.Store.InsertSite | internal/storage/sqlite/site.go:12-15 | one more site, or an unchanged database and exactly which constraint refused it |
| Stores.Store.InsertCluster | internal/storage/sqlite/site.go:84-87 | one more cluster, or an unchanged database and exactly which constraint refused it |
| Stores.Store.InsertPlan | internal/storage/sqlite/dispatch.go:14-17 | one more plan, or an unchanged database and exactly which constraint refused it |
| Stores.Store.UpdateSite | internal/storage/sqlite/site.go:35-37 | the site row is replaced and nothing else, or nothing changes; version conflict and CHECK failure told apart |
| Stores.Store.UpdateCluster | internal/storage/sqlite/site.go:102-104 | the five mutable columns get the new values, site and ratings and all other rows stay; or nothing changes |
| Stores.Store.UpdatePlan | internal/storage/sqlite/dispatch.go:41-43 | status, approval and version get the new values, the fixed columns and all other rows stay; nothing changes unless the version is the expected one |
| Stores.Store.CompleteJob | internal/storage/sqlite/dispatch.go:269-271 | the outcome is written, plan, cluster, limit and all other rows stay; nothing changes unless the version is the expected one |
| Stores.Store.UpdateAlarm | internal/storage/sqlite/operations.go:116-123 | the alarm is written together with its audit event, identity and all other rows stay; or nothing changes |
| Stores.AnyConflict | internal/storage/sqlite/dispatch.go:153-161 | true exactly if some wanted window is seen to overlap an unreleased reservation |
| Backend.Backend.Submit | internal/service/dispatch.go:66-129 | with others running between its reads, Submit is one call of the machine, succeeds exactly when that call commits, and returns the stored row; every selected cluster could serve the plan when it was read and is still available |
| Backend.Backend.ReadClusters | internal/service/dispatch.go:87-107 | the selection loop stops at the first position that is a repetition, no cluster, or a cluster with an obstacle, and the fault says which obstacle; or it has read every row |
| Backend.Compute | internal/service/dispatch.go:108-123 | allocation, reservations that sum to the requested power, and the submitted plan, or a refusal exactly when one of them is refused |
| Backend.MakeReservations | internal/service/dispatch.go:112-119 | the reservation rows, or a refusal exactly when some row is invalid |
| Backend.Backend.Approve | internal/service/dispatch.go:136-156 | one guarded call on somebody else's submitted plan that records approver and time; an error after a committed approval is returned exactly when the separate audit insert fails |
| Backend.Backend.Dispatch | internal/service/dispatch.go:157-186 | one call with a complete listing of the plan's reservations, successful exactly when it commits |
| Backend.MakeJobs | internal/service/dispatch.go:169-176 | one new job per listed reservation, or a refusal |
| Backend.Backend.Transition | internal/service/sites.go:49-72 | one guarded call along an allowed transition; an error after a committed transition is returned exactly when the separate audit insert fails |
| Backend.Backend.CreateSite | internal/service/sites.go:32-48 | one insert; an error after a committed insert is returned exactly when the separate audit insert fails; success means the returned site is stored |
| Backend.Backend.CreateCluster | internal/service/sites.go:73-96 | the same for a cluster, on a site that is not retired when it is read |
| Backend.Backend.CreatePlan | internal/service/dispatch.go:38-58 | the same for a draft plan |
| Scenarios.FailedCallsCanHaveWritten | internal/service/sites.go:64-70 | a history and a transition that is written although its caller is told of a failure |
| Backend.Backend.Record | internal/service/telemetry.go:34-75 | one call that succeeds exactly when it commits, and reports exactly the bounds that the reading crosses |
| Backend.MakeAlarms | internal/service/telemetry.go:42-63 | one alarm per condition of the reading, or the first fault |
| Backend.Backend.Acknowledge | internal/service/alarms.go:29-46 | one guarded call that succeeds exactly when it commits |
| Backend.Backend.Resolve | internal/service/alarms.go:47-72 | two reads and one guarded call that succeeds exactly when it commits |
| Backend.Backend.AcknowledgeBatch | internal/service/alarms.go:73-90 | each first occurrence is attempted once by its own call and succeeds exactly if that commits; repeats fail; the counts add up |
| Backend.BuildBatchResult | internal/alarm/alarm.go:159-169 | the numbers of items without and with an error code |
| Backend.Backend.ProcessOnce | internal/worker/executor.go:64-76 | claims once, each claimed job until now + duration, then tries to finish each exactly once with the row as claimed |
| Backend.Backend.Execute | internal/worker/executor.go:77-100 | whatever the device does and however long it takes, one fenced write that is reported persisted exactly when it commits, and then has stored what the execution reported |
| AuditLog.Log.ListAudit | internal/storage/sqlite/operations.go:22-79 | the first matching events below the cursor in descending order, and a next cursor exactly if there are more |
| AuditLog.ListingIsAsAsked | internal/storage/sqlite/operations.go:22-79 | in the caller's terms, on comparable times: only events of the given object and request within the half-open window, at most the limit, and whatever was asked for and is missing comes later |
| AuditLog.AboveIsLater | internal/storage/sqlite/operations.go:55-56 | on comparable times later events are listed first, and by falling identifier at one instant |
| AuditLog.NormalizeIff | internal/audit/audit.go:47-73 | a filter is accepted exactly for a limit of 0 to 500, an ordered window and a complete cursor; texts are trimmed and 0 means 100 |
| AuditLog.BoundIsExactIff | internal/storage/sqlite/operations.go:40-47 | a time bound of a listing is compared as intended if and only if the texts are comparable |
| AuditLog.Log.Append | internal/storage/sqlite/operations.go:14-17 | one more event, unless the identifier exists |
| AuditLog.StoredEventsReadBack | internal/storage/sqlite/operations.go:61-72 | an event read back is the event written |
| AuditLog.TrimmedIsPage | internal/storage/sqlite/operations.go:72-77 | fetching one row more than the limit decides the cursor correctly |
| AuditWalks.WalksVisitEachEventOnce | internal/storage/sqlite/operations.go:49-78 | a complete walk over a growing log visits every matching event that was below the cursor of its moment exactly once |
| AuditWalks.WalksDescend | internal/storage/sqlite/operations.go:49-58 | the events of a walk are strictly descending in (occurred_at, id) |
| AuditWalks.VisitedRows | internal/storage/sqlite/operations.go:59-71 | a walk shows only stored matching events, as they were stored |
| AuditWalks.QuietWalks | internal/storage/sqlite/operations.go:55-78 | on an unchanged log a complete walk visits exactly the matching events in max(1, ceil(n / limit)) pages |
| AuditWalks.QuietWalksEnd | internal/storage/sqlite/operations.go:55-78 | on an unchanged log no walk has more than max(1, ceil(n / limit)) pages, and the page at that count, and none before it, has no next cursor |
| AuditWalks.CursorsAreAccepted | internal/audit/audit.go:47-73 | the cursor of a page is accepted by the next request and changes nothing else of the filter |
| Amounts.Summarize | internal/settlement/settlement.go:119-129 | each column's exact total, wrapped once, although the loop wraps at every step |
| Amounts.SummariesAdd | internal/settlement/settlement.go:119-129 | summaries are additive over concatenation |
| Amounts.DeviationIsDifference | internal/settlement/settlement.go:99-129 | the summed deviation is the difference of the summed energies |
| Amounts.SummedAmountIsClose | internal/settlement/settlement.go:99-129 | the summed amount is at most the rounded amount of the total and short of it by at most n - 1 |
| Amounts.ShortfallIsReached | internal/settlement/settlement.go:109-111 | two entries that are short by n - 1 = 1 |
| Amounts.AmountIsExactIff | internal/settlement/settlement.go:109-111 | an amount is the product rounded down if and only if the product fits in 63 bits |
| Amounts.AmountCanBeNegative | internal/settlement/settlement.go:99-111 | an accepted entry with a negative amount |
| Settlements.ClosedPeriodsAreFrozen | internal/service/settlements.go:47-87 | once closed, neither the period nor its entries ever change |
| Settlements.PeriodsCloseOnce | internal/storage/sqlite/operations.go:129-141 | over a run a period is closed at most once |
| Settlements.LosersChangeNothing | internal/storage/sqlite/operations.go:129-141 | the loser of a race leaves nothing behind, entries included |
| Settlements.WinnersListIsStored | internal/service/settlements.go:66-87 | a closing that commits meets an open, ended period without entries and stores for each listed plan exactly one entry: target as planned, measured energy as actual, their difference and the measured energy at the price, each exact while int64 holds it; and the period with its closer and time |
| Settlements.ClosedPeriodsHaveAWinner | internal/service/settlements.go:47-87 | the entries of a closed period are always those that measure the list of the one call that closed it |
| Settlements.CloseCommitsIff | internal/service/settlements.go:47-87 | an undisturbed closing commits exactly for an open period at the expected version that has ended, a named actor and a nonempty listing that can be settled |
| Settlements.CreatePeriodIff | internal/settlement/settlement.go:30-43 | a period is created exactly for a named site, over an hour to 366 days, if its bounds order as text and are new |
| Settlements.PeriodsAreOpenOrClosed | internal/settlement/settlement.go:45-89 | `calculating` is never stored, and an open period has no entries |
| Settlements.PostAll | internal/storage/sqlite/operations.go:130-134 | without entries for these plans the conflict clause never fires and every row is inserted |
| Settlements.Ledger.InsertEntriesAtomic | internal/storage/sqlite/operations.go:129-141 | entries and period row together, or nothing |
| Settlements.Ledger.CalculateAndClose | internal/service/settlements.go:47-87 | one call that succeeds exactly when it commits, returning the stored period and the totals of targets, measured energy, their difference and worth; each listed plan then has its one measured entry |
| Idempotency.OneOwnerPerLifetime | internal/service/idempotency.go:47-57 | between two owners of one scope the record was deleted |
| Idempotency.ScopesAreUnique | migrations/001_initial.sql:172-186 | no two records have one scope |
| Idempotency.ReplaysAgree | internal/idempotency/idempotency.go:67-78 | all accepted replays of a record return one status and body, for one request |
| Idempotency.ReplayIsACompletion | internal/storage/sqlite/idempotency.go:36-38 | what a replay returns was written by one completion |
| Idempotency.CompletedIsFinal | internal/storage/sqlite/idempotency.go:36-38 | a completed record does not change while it exists |
| Idempotency.BeginEndsIffNotStuck | internal/service/idempotency.go:36-59 | in a quiet store Begin ends if and only if it is not stuck |
| Idempotency.StuckIff | internal/service/idempotency.go:36-59 | in every reachable store Begin is stuck exactly for an acceptable request under a used key whose scope is not canonical, or of an unknown user without a record |
| Idempotency.ReplaysAreTimely | internal/idempotency/idempotency.go:67-78 | a response is replayed only to the request that was inserted, within the lifetime it was inserted with |
| Idempotency.RecordsComeFromInserts | internal/idempotency/idempotency.go:28-45 | scope, request and expiry of a record are those of the call that inserted it |
| Idempotency.DeletionIsExpiry | internal/storage/sqlite/idempotency.go:40-50 | on comparable times maintenance deletes exactly the expired records |
| Idempotency.LowerCaseMethodCanBeStuck | internal/idempotency/idempotency.go:28-45 | an instance on which Begin never ends |
| Idempotency.CanonicalScopesAreNotStuck | internal/service/idempotency.go:36-59 | a canonical scope of a known user is never stuck |
| Idempotency.Service.Begin | internal/service/idempotency.go:36-59 | for a canonical scope of a known user: an owner has just inserted an open record of the request, to live for the given time; a replay is the response of an unexpired, completed record of the same request; a refusal names expiry, another request, one in progress or an invalid request; and there is at most one retry unless a record is deleted meanwhile |
| Idempotency.Service.BeginOnce | internal/service/idempotency.go:36-59 | the same for one round; a retry means the scope was taken or the user is missing |
| Idempotency.Service.Complete | internal/service/idempotency.go:60-66 | the response is stored exactly if the owner's copy and the row are still open, the status is 100 to 599 and the body at most a mebibyte |

## Left out

- Fault codes: contracts say when a call is refused; with which code is stated for the selection loop, thresholds, idempotency keys, allocation and the store's constraints only.
- HTTP routing, authentication, roles, configuration, migrations, logging and metrics: no part of the protocol.
- Display columns: names, codes, time zones, messages, request identifiers, created and updated times, and searches over them.
- Users as a table of the dispatch database, so its REFERENCES users(id) clauses; module Idempotency has them.
- The unique codes of sites and clusters and the unique command key of jobs: they can only refuse more inserts of fresh rows.
- Writers without a service caller: plan cancel, start, complete, fail and rename, site release, reservation consume and release, cluster start and release, job renew and cancel, alarm escalation. Cluster degradation and recovery have none either but are kept as calls, because disjointness must survive them.
- Plan states beyond dispatched: nothing writes them, so the settlement listing of completed plans and their energy is an argument of CalculateAndClose.
- Timers, contexts, wait groups and the goroutines of one worker cycle: replaced by interleaving with arbitrary calls, and by an arbitrary order of the claimed jobs.
- Database errors other than constraints and guards (busy, disk, lost connection): a transaction that fails for such a reason is one that never happened.
- Submissions.RequestedIffReady: does not tell apart the fault codes of a refused submission; Backend.Backend.ReadClusters does so for the selection loop.
- Backend.Backend.AcknowledgeBatch: leaves out the status word of an item, which its error code determines.
- Backend.Backend.Record: uses one clock reading where the service takes several in a row.
- Backend.Backend.Dispatch: lists reservations in an arbitrary order where the query sorts by cluster.
- Idempotency.Service.Begin: runs two rounds of the recursion; a third can follow only a deletion.
- Idempotency.BeginEndsIffNotStuck: a request stands for its SHA-256 digest, key lengths count characters instead of bytes, and upper-casing covers the letters a to z.
- AuditLog.Log.ListAudit: assumes events under a clock that shows a real time of a four-digit year, as NewEvent makes them.
- Allocation.SomeShareIsZeroIff: is exact for a given visiting order; without the order there is a sufficient and a necessary condition, and no claim in between.
- Jobs.Backoff: works on unbounded integers; Jobs.BackoffIsExactIff says for which bases int64 agrees.
- Stores.Store.UpdateCluster: is called by no service, here as in the source; its transaction is the one of the degrade and recover calls.
- Allocation.AllocatePower: works on unbounded integers; Allocation.ProductsFitInt64 gives the range in which int64 agrees.
- TimeEncoding.ParseInvertsEncode: instants are nanoseconds from year 0 in UTC; years beyond 9999 are excluded because RFC 3339 has four-digit years (section 5.6).
