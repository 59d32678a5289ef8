# SagaSmith service: verified protocols

A Dafny model of the stateful protocols of the SagaSmith service, with proofs of what they keep over
whole runs. `dafny verify dfyconfig.toml` checks all of it.

Each protocol has a specification module (tables or in-memory state as a datatype, every transaction or
lock section as a step function, runs as sequences of steps), modules of theorems about every run, modules that say
exactly when each operation succeeds and what it changes, without naming how it is computed, and a module whose class
has the source's fields and loops, each method proved to do what the step function says.
Nothing was executed.

| files | what they model |
|---|---|
| `ProviderPricing`, `ProviderBudget*` | paid provider calls: authorisation against site, user, campaign and task caps, settlement, unknown outcomes, operator reconciliation |
| `Quota*` | entitlement grants, reservations, settlement with greedy allocation to grants, the reaper |
| `RoomJobs*` | durable room-turn jobs: claims in five interleaved sub-steps, heartbeats, recovery, bounded retries |
| `Supervisor*` | the pool of agent workers: coalesced spawns, ports, eviction, idle and terminal retirement |
| `TreeWalk`, `Workspace*` | directory walks, the workspace store, its pruning, and preparing a workspace |
| `RenderCache*` | the combat render cache: recency, byte and entry bounds, single flight |
| `Epochs*`, `PanelProjections` | authorization epochs raised by a session flush, and the panels cached under them |
| `RateLimiter` | the fixed-window limiter |
| `Tables` | sums over tables, used by all |

Money is counted in millionths of a dollar, rounded up as the source does; prices are reals. Times are
integers (reals in the limiter) and never go back. Provider and clock answers, process exits, failures and
the choices a database is free to make are inputs of the steps, so every theorem holds for all of them.

## What turned out false, and exactly when it holds

- Used plus reserved quota does not always stay within what is granted. Only waits and new grants can break that,
  and `QuotaRuns.LawHoldsExactly` gives the exact condition over whole runs: each wait leaves the holds covered by
  the grants still active (`QuotaLaw.LawAfterTick`), and each new active grant can afford the use that no grant
  covered, that recorded no allocations, and that its period reaches back to (`QuotaGrants.NewGrantKeepsLawExactly`).
  Both failures are runs from empty tables: `QuotaFailures.ExpiryBreaksLaw` and `QuotaLateGrant.GrantReachingBackBreaksLaw`.
  The service itself writes a grant in one place (`src/sagasmith_service/api/admin.py:30-37`) and starts it at the present
  time, so only a use at that very instant, or clocks that disagree, reach the second; a grant that starts after every
  recorded use keeps the law (`QuotaGrants.GrantFromNowOnKeepsLaw`).
- A room can have more live leases than its limit, because a heartbeat that arrives after its lease ran out revives it
  and a commit does not count again. `RoomJobsBound.RoomsKeepTheirLimitExactly` gives the exact condition over whole
  runs: each heartbeat that extends a lease is in time or finds a slot, and each claim that commits finds a slot or
  comes when its own lease is already over. Both failures are runs from an empty queue: the late heartbeat comes after
  another claim has committed (`RoomJobsRevival.LateHeartbeatBreaksBound`), or between that claim's last count and its commit
  (`RoomJobsRevival.LateHeartbeatBeforeCommit`). Where heartbeats are timely no commit fails
  (`RoomJobsBound.TimelyRunsKeepTheBound`). Bounded retries, exclusive claims and final outcomes need no timely heartbeats.
- A worker that a lookup removes is not always stopped. `SupervisorTheorems.DeadWorkerIsStoppedExactly` says exactly when
  the dead worker of the key is, and `SupervisorTheorems.DisplacedWorkerIsStoppedExactly` when the worker displaced to make
  room is, dead or alive. `SupervisorDropped.DeadWorkerIsDropped` and `SupervisorDropped.LiveWorkerIsStoppedInstead` are
  runs from an empty pool that end with a dead worker dropped, `SupervisorExhausted.LiveWorkerIsDropped` one that ends
  with a running worker dropped, and `SupervisorDropped.DroppedForGood` says that the port then stays taken.
- A flush does not always raise the epoch of a member whose access it changes. `Epochs.EpochFollowsAccess` gives the
  exact condition: it fails if and only if a binding of the member is handed to someone else while neither the
  membership nor another binding of the member changes. A cached panel then goes on loading
  (`PanelProjections.FlushRetiresPanelExactly`).
- A panel that repeats the values of its row is not written, so it keeps its age and may not load back under a limit
  of age (`PanelProjections.LoadAfterPut`).
- The limiter's bound is one less than twice the limit, and that is reached (`RateLimiter.BoundIsReached`).
- The size of a workspace is not always that of what lies in it: the walk follows no symbolic link but does enter
  junctions and mounts, which the safety walk rejects. `TreeWalk.SizeStaysInsideExactly` gives the exact condition, that
  nothing with a size is reached behind one; `TreeWalk.JunctionIsCounted` is a tree, for every size, that fails it.

## Model

| member | source | states |
|---|---|---|
| ProviderPricing.InputWithinCeiling | src/sagasmith_service/provider_budget_api.py:148-151 | however a prompt within the input bound splits into cached and uncached tokens, the dearer of the two rates over the whole bound covers it |
| ProviderPricing.WithinBoundsNeverOverruns | src/sagasmith_service/provider_budget_api.py:206-222 | for every valid price and every cached split, usage within the input and output bounds costs at most the reservation after ceiling rounding |
| ProviderPricing.ReservationIsAttained | src/sagasmith_service/provider_budget_api.py:148-151 | some usage within the bounds costs exactly the reservation, so no smaller hold would be safe |
| ProviderPricing.ReservationIsPositive | src/sagasmith_service/config.py:12-21 | a reservation is at least one millionth of a dollar, so admission never refuses it as non-positive |
| ProviderPricing.CostIsSumOfTokens | src/sagasmith_service/provider_budget_api.py:217-222 | a call costs the sum of its tokens' own rates, rounded up once: uncached prompt tokens at the input rate, cached ones at the cached rate, written ones at the output rate, in any mix |
| ProviderPricing.CostOfOneKind | src/sagasmith_service/provider_budget_api.py:219-222 | tokens of one kind alone are billed at that kind's rate |
| ProviderBudgetUsage.PricedExactly | src/sagasmith_service/provider_budget_api.py:200-215 | a report is priced at certain counts iff it gives each as a whole number under the first name it has for it, none is negative, no more is cached than prompted, and no cache was written |
| ProviderBudgetUsage.SettlementChargesTokens | src/sagasmith_service/provider_budget_api.py:200-240 | an open call is recorded at the token-by-token cost of what its settlement reports and is overrun iff that exceeds its hold; a report that cannot be priced records nothing |
| ProviderBudgetRecords.RecordIsIdempotent | src/sagasmith_service/usage_accounting.py:119-190 | recording the same consumption again changes nothing, and another amount or user under the same key is refused |
| ProviderBudgetRecords.StepKeepsRecords | src/sagasmith_service/provider_budget_api.py:98-240 | authorise, settle, reconcile, set-limit and time each keep a call's row, its four claims and its ledger entry in agreement |
| ProviderBudgetRecords.RecordsAlwaysAgree | src/sagasmith_service/provider_budget_api.py:169-240 | in every reachable database a reserved, unknown, settled or overrun call has four claims of exactly that kind, and exactly one cost row iff it is settled or overrun, equal to the claims' settled quantity |
| ProviderBudgetRecords.ReconcileIsSettlement | src/sagasmith_service/budget_cli.py:54-83 | the operator's reopening of pending claims followed by settlement equals a settlement of the call as if its outcome had never been lost |
| ProviderBudgetBounds.SettleMovesClaims | src/sagasmith_service/budgets.py:278-301 | settling a call moves exactly its hold out of each of its scopes, adding to a scope's excess exactly the cost beyond the hold |
| ProviderBudgetBounds.AdmissionStaysWithinCaps | src/sagasmith_service/budgets.py:165-264 | a committed authorisation leaves spent plus reserved within the cap in each of the four scopes, and a refused one changes nothing |
| ProviderBudgetBounds.ScopeStaysWithinCap | src/sagasmith_service/budgets.py:98-162 | while a scope's rows stay in force and are not lowered, spent plus reserved (pending reconciliation included) stays within the cap plus total overrun excess, over every run |
| ProviderBudgetBounds.CapIsKept | src/sagasmith_service/budget_cli.py:19-51 | calls, settlements, reconciliations, time that crosses no period boundary and operator changes that do not lower the cap all keep a scope's rows in force |
| ProviderBudgetSpending.SettlementIsSpent | src/sagasmith_service/budgets.py:98-162 | settling a call moves its hold into what is spent, at its cost, in each of its four scopes in force, and moves nothing in any other scope |
| ProviderBudgetSpending.SpendingIsRecordedCost | src/sagasmith_service/budgets.py:126-150 | in every run what a scope has spent is the cost recorded, in the scope's running periods, for exactly the calls that name it among their site, user, campaign and task |
| ProviderBudgetAdmission.AuthorizedExactly | src/sagasmith_service/provider_budget_api.py:98-166 | exactly when a call is authorised, down to the last unit of each of its four caps, and which refusal says what |
| ProviderBudgetAdmission.ReservationIsTaken | src/sagasmith_service/budgets.py:165-264 | an authorised call takes its reservation out of what its four scopes have left, and nothing out of any other |
| ProviderBudgetAdmission.TaskCapLasts | src/sagasmith_service/provider_budget_api.py:135-147 | the cap that a task's first call opens is the configured budget, in force for 36500 days and no longer |
| ProviderBudgetAdmission.OnlyOwnActiveRowsCount | src/sagasmith_service/budgets.py:107-124 | rows of other scopes and inactive rows neither configure a scope nor add to its cap |
| ProviderBudgetAdmission.SetLimitExactly | src/sagasmith_service/budget_cli.py:19-34 | a cap is set iff it is for the site, a user or a campaign, its amount and days make sense, and at most one row of the scope is in force |
| ProviderBudgetAdmission.CapBecomesQuantity | src/sagasmith_service/budget_cli.py:30-47 | a cap that is set is the scope's whole cap; a period in force stays, with what was spent in it; a new one runs for as many days as given |
| ProviderBudgetAdmission.OtherCapsStay | src/sagasmith_service/budget_cli.py:30-47 | setting one scope's cap changes no other scope's |
| ProviderBudgetAdmission.OnlyPayersSettle | src/sagasmith_service/provider_budget_api.py:169-199 | a call is settled only under its own user, campaign and task; a replay is answered with the first outcome, a changed one refused |
| ProviderBudgetAdmission.UnknownCallIsNotSettled | src/sagasmith_service/provider_budget_api.py:180-188 | a settlement of a call that does not exist is refused |
| ProviderBudgetAdmission.ReconciledExactly | src/sagasmith_service/budget_cli.py:54-83 | an operator reconciles a call iff it is neither settled nor overrun, with counts that make sense and evidence, and it is charged for the tokens counted |
| ProviderBudgetTask.CapSeesWholeTask | src/sagasmith_service/provider_budget_api.py:135-147 | the one lifetime row of a task, while in force, has as its consumption everything ever recorded against the task |
| ProviderBudgetTask.StepKeepsSound | src/sagasmith_service/provider_budget_api.py:130-164 | every step keeps that a task has at most one call that is not settled, its latest, one lifetime cap, and a total within the cap but for that call |
| ProviderBudgetTask.ExcessIsOneCall | src/sagasmith_service/provider_budget_api.py:130-134 | a task's overrun past its holds is zero, or the cost minus hold of its single overrun call |
| ProviderBudgetTask.TaskSpendingIsBounded | src/sagasmith_service/provider_budget_api.py:130-164 | over every run from the empty database, everything ever recorded against a task is at most its cap plus the excess of at most one call |
| ProviderBudgetFinality.CapIsTaskBudget | src/sagasmith_service/provider_budget_api.py:135-147 | a task's cap is, for good, the task budget in force at the first authorisation of the task |
| ProviderBudgetFinality.SpendingFollowsTaskBudget | src/sagasmith_service/provider_budget_api.py:130-164 | over every run, what is recorded against a task is within that task budget plus the excess of at most one call |
| ProviderBudgetFinality.RunExtends | src/sagasmith_service/provider_budget_api.py:136-147 | over every run the terms of a call are fixed, closed calls are final, and an existing task cap is never raised or renewed |
| ProviderBudgetFinality.ClosedCallIsFinal | src/sagasmith_service/provider_budget_api.py:191-240 | after settlement or overrun a call's row, claims and recorded cost are the same after every run |
| ProviderBudgetFinality.ReplayChangesNothing | src/sagasmith_service/provider_budget_api.py:196-199 | settling a settled or unknown call again, with the same payload or another, changes no table; another payload is refused |
| ProviderBudgetFinality.ClosedCallIsNotReconciled | src/sagasmith_service/budget_cli.py:61-66 | an operator cannot reconcile a call that is settled or overrun |
| ProviderBudgetFinality.OverrunBlocksTask | src/sagasmith_service/provider_budget_api.py:130-134 | after an overrun no run ever authorises another call for the same task |
| ProviderBudgetFinality.BoundedUsageSettles | src/sagasmith_service/provider_budget_api.py:200-240 | usage within the bounds a call was authorised with settles it and never overruns, whatever ran between authorisation and settlement |
| ProviderBudgetFinality.BoundedReconciliationSettles | src/sagasmith_service/budget_cli.py:54-83 | the same for an operator's reconciliation of a call still open |
| ProviderBudgetService.BudgetTables.Admit | src/sagasmith_service/budgets.py:216-264 | claims all four scopes exactly when each is configured and has enough left, otherwise none |
| ProviderBudgetService.BudgetTables.AuthorizeCall | src/sagasmith_service/provider_budget_api.py:98-166 | the authorisation transaction, row by row, is the specification's step, with everything rolled back on refusal |
| ProviderBudgetService.BudgetTables.RecordConsumption | src/sagasmith_service/usage_accounting.py:119-190 | inserts the row once, and accepts a replay only with the same amount and user |
| ProviderBudgetService.BudgetTables.SettleRecordInPlace | src/sagasmith_service/provider_budget_api.py:191-240 | the settlement transaction is the specification's step, including replays and incomplete usage |
| ProviderBudgetService.BudgetTables.SettleCallInPlace | src/sagasmith_service/provider_budget_api.py:169-188 | a call is settled only by its own user, campaign and task |
| ProviderBudgetService.BudgetTables.ReconcileInPlace | src/sagasmith_service/budget_cli.py:54-83 | reopens and settles a reserved or unknown call, and leaves the tables alone when it refuses |
| ProviderBudgetService.BudgetTables.SetLimitInPlace | src/sagasmith_service/budget_cli.py:19-51 | changes the one row in force without moving its period, starts a period when there is none, and refuses overlapping rows |
| QuotaAllocation.FillPlacesAllThatFits | src/sagasmith_service/quota.py:106-116 | the allocation loop places exactly the smaller of the quantity and the total remaining capacity |
| QuotaAllocation.FillClosedForm | src/sagasmith_service/quota.py:106-116 | each grant receives what the grants before it could not hold, up to its own capacity |
| QuotaAllocation.EarlierGrantsFillFirst | src/sagasmith_service/quota.py:108-115 | a grant left unfilled means that no later one receives anything |
| QuotaAllocation.InOrderIsSorted | src/sagasmith_service/quota.py:81-91 | the grants are the account's, each once, by end, start and id |
| QuotaAllocation.BalanceIsUnspent | src/sagasmith_service/quota.py:136-212 | what the balance calculation finds unspent is the sum of what is left on each active grant |
| QuotaLaw.AllocationFits | src/sagasmith_service/quota.py:94-116 | an allocation plus everything recorded before never exceeds a grant's quantity |
| QuotaLaw.RoomCoversBalance | src/sagasmith_service/quota.py:136-212 | the allocator's room on the active grants is at least what the balance reports as unspent |
| QuotaLaw.SettlementIsExact | src/sagasmith_service/quota.py:327-396 | under the conservation law a settlement is allocated in full: used rises by the settled quantity and reserved falls by the whole reservation |
| QuotaLaw.SettlementIsLocal | src/sagasmith_service/quota.py:327-396 | a settlement leaves every other account's balance alone |
| QuotaLaw.LawAfterTick | src/sagasmith_service/quota.py:136-212 | used plus reserved stays within granted after a wait iff the holds fit what is left on the grants still active then |
| QuotaLaw.WaitWithoutExpiryKeepsLaw | src/sagasmith_service/quota.py:136-212 | a wait during which no active grant of the account ends keeps the law |
| QuotaGrants.ActiveGrantRow | src/sagasmith_service/quota.py:170-204 | an active new grant is charged for exactly the uncovered, unallocated use that falls in its period; every other row counts as before |
| QuotaGrants.NewGrantKeepsLawExactly | src/sagasmith_service/quota.py:136-212 | a new grant keeps used plus reserved within granted iff it is not active now, or used plus held plus the late use it is charged for fits in granted plus its quantity |
| QuotaGrants.GrantFromNowOnKeepsLaw | src/sagasmith_service/api/admin.py:30-37 | a grant that starts after every recorded use of its account keeps the law |
| QuotaGrants.NewGrantKeepsLaw | src/sagasmith_service/quota.py:149-204 | where all unallocated use falls in some grant's period, any new grant keeps the law and leaves it so |
| QuotaRuns.GrantsAreNeverOverdrawn | src/sagasmith_service/quota.py:64-116 | over every run, whatever expires, no grant's recorded allocations exceed its quantity |
| QuotaRuns.ReserveRestoresLaw | src/sagasmith_service/quota.py:215-256 | a reservation that is made establishes used plus reserved within granted, even where it did not hold |
| QuotaRuns.StepKeepsLawExactly | src/sagasmith_service/quota.py:136-405 | exactly when each step keeps the law: reserve, renew, settle, release and reaping always do, a wait and a new grant under their conditions |
| QuotaRuns.LawHoldsExactly | src/sagasmith_service/quota.py:136-405 | the law holds all along a run iff every wait and every new grant in it meets its condition |
| QuotaRuns.LawIsKept | src/sagasmith_service/quota.py:215-405 | while no active grant expires, every reserve, renew, settle, release, reaper and new-grant step keeps used plus reserved within granted |
| QuotaFailures.ExpiryBreaksLaw | src/sagasmith_service/quota.py:36-38 | a run from empty tables: a grant, wholly reserved, ends, leaving a deficit that the clamped balance shows as zero |
| QuotaLateGrant.GrantReachingBackBreaksLaw | src/sagasmith_service/quota.py:170-204 | a run from empty tables: the reservation is settled after its grant ended, and the next active grant keeps the law iff it is at least as large as that use |
| QuotaRuns.EndStatesAreFinal | src/sagasmith_service/quota.py:339-405 | a reservation that is no longer reserved never changes, and has at most one usage row |
| QuotaEffects.ReleaseGivesBack | src/sagasmith_service/quota.py:399-405 | releasing a reserved reservation gives exactly its quantity back to its own account and records nothing; releasing an ended one changes nothing |
| QuotaEffects.RenewalMovesExpiry | src/sagasmith_service/quota.py:259-279 | exactly a reserved reservation is renewed, for the time given from now, and nothing else moves |
| QuotaEffects.ReapingGivesBack | src/sagasmith_service/quota.py:282-324 | the reaper ends exactly the overdue reservations that no durable job owns, as expired, and gives back exactly what they held |
| QuotaEffects.RenewedUntil | src/sagasmith_service/quota.py:259-324 | after a renewal a wait and a reaping, a reservation is still reserved iff the wait was shorter than the renewal or a durable job owns it |
| QuotaEffects.ReservedExactly | src/sagasmith_service/quota.py:215-256 | with a new key, a reservation is made iff it asks for something and that much is left after reaping; it takes exactly that out of its account's balance |
| QuotaEffects.ReservationIsReplayed | src/sagasmith_service/quota.py:225-238 | with a key that is taken, a request is accepted iff it repeats the one that took it; nothing changes |
| QuotaEffects.SettledExactly | src/sagasmith_service/quota.py:327-396 | with a new key, exactly a reserved reservation is settled, for at most what it holds: its hold is given back whole and one usage row is recorded |
| QuotaEffects.SettlementIsReplayed | src/sagasmith_service/quota.py:338-365 | a settlement again, under its key or another, is accepted iff it says what the first one said; nothing changes |
| QuotaEffects.GrantCountsInItsPeriod | src/sagasmith_service/quota.py:136-168 | a new grant adds its quantity to its account's balance from its start until just before its end, and to no other account's |
| QuotaEffects.SoonestEndingFirst | src/sagasmith_service/quota.py:81-91 | settlements draw on the account's running grants, each once, by end, then start, then id |
| QuotaEffects.UnallocatedUseIsCharged | src/sagasmith_service/quota.py:187-199 | use without recorded allocations is charged whole to the soonest-ending grant whose period contains it, while that grant runs, and else to none |
| QuotaService.GrantAllocations | src/sagasmith_service/quota.py:41-61 | reads recorded allocations: malformed items count for nothing, repeated grants are merged, each grant's total is what its valid items sum to |
| QuotaService.FillInOrder | src/sagasmith_service/quota.py:106-116 | the loop with a running remainder and an early stop is the recursive fill |
| QuotaService.QuotaTables.ReadConsumed | src/sagasmith_service/quota.py:94-105 | totals, per active grant, exactly what history up to now has recorded on it |
| QuotaService.QuotaTables.AllocateToGrants | src/sagasmith_service/quota.py:64-116 | the allocation of a settlement over the grants active at its time |
| QuotaService.QuotaTables.ExpireAbandoned | src/sagasmith_service/quota.py:282-324 | expires exactly the overdue reservations that no active job owns |
| QuotaService.QuotaTables.Balance | src/sagasmith_service/quota.py:136-212 | granted, used and held as the specification defines them, after reaping |
| QuotaService.QuotaTables.ReserveQuota | src/sagasmith_service/quota.py:215-256 | reserves within the balance, returns the earlier reservation of the same key, and refuses the rest |
| QuotaService.QuotaTables.RenewReservation | src/sagasmith_service/quota.py:259-279 | extends a reservation only while it is reserved |
| QuotaService.QuotaTables.SettleReservation | src/sagasmith_service/quota.py:327-396 | settles once, answers a replay with the same result, and refuses a different payload, an ended reservation or too much |
| QuotaService.QuotaTables.ReleaseReservation | src/sagasmith_service/quota.py:399-405 | releases only what is still reserved |
| RoomJobsLeases.StaleCountIsHigh | src/sagasmith_service/room_jobs.py:219-229 | counting leases at the time the claim began can only count too many |
| RoomJobsLeases.CommitAddsOneLease | src/sagasmith_service/room_jobs.py:230-250 | a committed claim adds at most one live lease, in its own room |
| RoomJobsLeases.StepIsSafe | src/sagasmith_service/room_jobs.py:178-281 | every sub-step of every claim, recovery, failure, executor step and timely heartbeat keeps the per-room bound with the room locks and pending claims consistent |
| RoomJobsLeases.RoomsNeverExceedTheirLimit | src/sagasmith_service/room_jobs.py:178-281 | with timely heartbeats no interleaving ever gives a room more live leases than its limit |
| RoomJobsBound.HeartbeatKeepsBoundExactly | src/sagasmith_service/room_jobs.py:258-280 | a heartbeat that extends a lease leaves every room within its limit iff that lease has not run out or its room still has a slot |
| RoomJobsBound.CommitKeepsBoundExactly | src/sagasmith_service/room_jobs.py:230-250 | a claim that commits leaves every room within its limit iff its room still has a slot or its own lease is already over |
| RoomJobsBound.StepKeepsBoundExactly | src/sagasmith_service/room_jobs.py:115-346 | exactly when each step keeps every room within its limit: all do, but heartbeats and commits under their conditions |
| RoomJobsBound.RoomsKeepTheirLimitExactly | src/sagasmith_service/room_jobs.py:178-281 | all along a run from an empty queue every room stays within its limit iff every heartbeat and every commit in it meets its condition |
| RoomJobsBound.TimelyRunsKeepTheBound | src/sagasmith_service/room_jobs.py:178-281 | with timely heartbeats alone every room stays within its limit all along the run, so that every commit finds its slot |
| RoomJobsRevival.UndisturbedClaimSucceeds | src/sagasmith_service/room_jobs.py:178-256 | the five sub-steps of a claim that nothing disturbs take any claimable job and leave no lock |
| RoomJobsRevival.LateHeartbeatBreaksBound | src/sagasmith_service/room_jobs.py:258-280 | for every lease length, a run from an empty queue in which a late heartbeat gives a room one lease too many |
| RoomJobsRevival.LateHeartbeatBeforeCommit | src/sagasmith_service/room_jobs.py:219-280 | for every lease length, a run from an empty queue in which a late heartbeat takes a room's only slot between another claim's last count and its commit, which then gives the room a second lease |
| RoomJobsOutcomes.ClaimsAreExclusive | src/sagasmith_service/room_jobs.py:230-249 | in every run a claim that commits takes an unleased job below its attempts, and no other claim is about to take the same |
| RoomJobsOutcomes.ClaimsAreBounded | src/sagasmith_service/room_jobs.py:115-256 | in every run a job has been claimed exactly `attempt` times, at most `max_attempts`; an unleased queued or waiting job has attempts left |
| RoomJobsOutcomes.OutcomesAreFinal | src/sagasmith_service/room_jobs.py:302-346 | succeeded, failed and cancelled jobs never change, and a job with a saved result is never queued again |
| RoomJobsOutcomes.EndedJobsHoldNothing | src/sagasmith_service/room_jobs.py:127-175 | over every run a failed or cancelled job's reservation is not reserved, and reservations never return to reserved |
| RoomJobsOutcomes.ActiveJobsKeepTheirHold | src/sagasmith_service/quota.py:282-324 | no step but the executor's own settlement ends the reservation of a job that stays active |
| RoomJobsOutcomes.ActiveJobsAreCovered | src/sagasmith_service/quota.py:282-324 | in every run the reservation of a queued, running or waiting job without a stored result is reserved, however late its expiry |
| RoomJobsEndings.FailureOutcome | src/sagasmith_service/room_jobs.py:302-346 | an error ends its job as cancelled if that was requested, as failed if it is final or no attempt is left, giving its reservation back; else the job is sent back unleased, due after a delay that grows with its attempts, its reservation kept |
| RoomJobsEndings.RetriedJobWaits | src/sagasmith_service/room_jobs.py:193-207 | a job sent back can be claimed again iff its delay is over and its room has a slot |
| RoomJobsEndings.FinalErrorIsFinal | src/sagasmith_service/room_jobs.py:335-346 | after a final error no run ever claims the job again or changes it |
| RoomJobsEndings.RecoveryOutcome | src/sagasmith_service/room_jobs.py:115-173 | recovery takes exactly the jobs whose lease has run out and ends them as cancelled or failed, or sends them back at once |
| RoomJobsEndings.RecoveredHold | src/sagasmith_service/room_jobs.py:127-175 | recovery releases exactly the reservations of jobs it ends, and expires exactly the other overdue ones that no active job has |
| RoomJobsEndings.ReapingOutcome | src/sagasmith_service/quota.py:282-324 | the reaper ends exactly the overdue reservations that no queued, running or waiting job has |
| RoomJobsEndings.LiveUntilRecovered | src/sagasmith_service/room_jobs.py:115-124 | a leased job counts against its room for exactly as long as recovery leaves it alone |
| RoomJobsEndings.CancelOutcome | src/sagasmith_service/api/rooms.py:2535-2560 | a cancel request ends a queued or waiting job at once and gives its reservation back; a running one is told |
| RoomJobsEndings.ToldJobsNeverSucceed | src/sagasmith_service/room_jobs.py:318-326 | a running job that was told to stop never succeeds and is never claimed again, in any run |
| RoomJobsSections.LeaseLasts | src/sagasmith_service/room_jobs.py:219-250 | a committed lease counts against its room until exactly its length after the claim began |
| RoomJobsSections.HeartbeatOutcome | src/sagasmith_service/room_jobs.py:258-280 | lease and reservation are extended together iff the worker has the job and the reservation is still reserved |
| RoomJobsSections.StoreOutcome | src/sagasmith_service/api/rooms.py:1690-1750 | a result is stored once and closes the reservation: known usage settles it, unknown usage gives it back |
| RoomJobsService.RoomTurnJobTables.RecoverExpired | src/sagasmith_service/room_jobs.py:115-176 | the loop over expired leases, one job at a time, then the reaper, is the one recovery step |
| RoomJobsService.RoomTurnJobTables.PickCandidate | src/sagasmith_service/room_jobs.py:193-207 | picks, among the due, unleased jobs of rooms that have a slot and whose rows nobody holds, one that was due first (of those the oldest), or none iff there is none, and remembers what it read |
| RoomJobsService.RoomTurnJobTables.LockTheRoom | src/sagasmith_service/room_jobs.py:211-218 | takes the room's row lock, waiting while another claim has it |
| RoomJobsService.RoomTurnJobTables.CountLeases | src/sagasmith_service/room_jobs.py:219-229 | recounts under the lock and rolls back when the room is full |
| RoomJobsService.RoomTurnJobTables.UpdateCandidate | src/sagasmith_service/room_jobs.py:230-249 | the conditional update applies only to a job that is as it was read, unleased, in a room with a slot |
| RoomJobsService.RoomTurnJobTables.CommitClaim | src/sagasmith_service/room_jobs.py:238-256 | the committed claim runs the job under a new lease with one more attempt |
| RoomJobsService.RoomTurnJobTables.HeartbeatJob | src/sagasmith_service/room_jobs.py:258-280 | extends lease and reservation together or neither, and says when the worker must stop |
| RoomJobsService.RoomTurnJobTables.RecordJobFailure | src/sagasmith_service/room_jobs.py:302-346 | retries with a growing delay, or ends the job and releases its reservation |
| SupervisorInvariant.StepIsSound | src/sagasmith_service/agent_supervisor.py:880-1042 | every lock section and every event outside the lock keeps ports distinct, the pool within capacity, and request counts exact |
| SupervisorTheorems.PoolStaysWithinBounds | src/sagasmith_service/agent_supervisor.py:880-982 | in every interleaving, workers plus spawns that have not installed stay within `max_workers`, and all of them and every worker still being stopped have distinct ports |
| SupervisorTheorems.SpawnsGetFreePorts | src/sagasmith_service/agent_supervisor.py:792-805 | a new spawn's port belongs to no worker that may still be running |
| SupervisorTheorems.InstallNeverOverwrites | src/sagasmith_service/agent_supervisor.py:904-909 | when a spawn installs, its key is free and every other entry stays |
| SupervisorTheorems.OnlyUnheldWorkersLeave | src/sagasmith_service/agent_supervisor.py:933-1035 | an installed worker leaves only because its process died, because it was idle with no request on it, or at the end of its own last request |
| SupervisorTheorems.TerminatingWorkersDrain | src/sagasmith_service/agent_supervisor.py:1022-1035 | a terminating worker still installed has requests, is given to no new one, and only its last finisher retires it |
| SupervisorTheorems.DeadWorkerIsStoppedExactly | src/sagasmith_service/agent_supervisor.py:955-980 | a dead worker is handed to a spawn to be stopped iff none is running for its key, nobody else has to make room, and a port is free |
| SupervisorTheorems.DisplacedWorkerIsStoppedExactly | src/sagasmith_service/agent_supervisor.py:965-980 | the worker displaced to make room is handed to the spawn to be stopped iff a port is free once it has left; otherwise nobody stops it and its port stays taken |
| SupervisorAnswers.AnswersMean | src/sagasmith_service/agent_supervisor.py:933-982 | what each answer of a lookup means: the key's own worker alive and not ending; ending; a spawn of the key to wait for; or turned away iff there is none of these and the pool is full of busy others or no port is free |
| SupervisorAnswers.GivenWorkerIsHeld | src/sagasmith_service/agent_supervisor.py:940-949 | the worker given out counts as used now and is held by the request, and no other worker is touched |
| SupervisorAnswers.LeastRecentMakesRoom | src/sagasmith_service/agent_supervisor.py:962-975 | room is made only in a full pool, by the least recently used of the workers that no request holds |
| SupervisorAnswers.SpawnWaitsForDisplaced | src/sagasmith_service/agent_supervisor.py:962-981 | a new spawn gets the lowest free port and waits for the last worker displaced for it |
| SupervisorPorts.TakenPortsAreInUse | src/sagasmith_service/agent_supervisor.py:792-805 | in every run a port is taken iff a worker that may be running or a spawn has it, so none is lost but by a dropped worker |
| SupervisorPorts.StopOfDisplaced | src/sagasmith_service/agent_supervisor.py:893-899 | once a displaced worker's stop has ended its port is free, unless the task that spawned it is still there, and the spawn goes on iff the stop succeeded |
| SupervisorPorts.StopOfRetired | src/sagasmith_service/agent_supervisor.py:322-335 | the same for a worker that a completion or the idle loop retired |
| SupervisorPorts.SpawnEndOutcome | src/sagasmith_service/agent_supervisor.py:925-930 | the end of a spawn's task leaves its port taken iff the worker it installed may still be running |
| SupervisorPorts.FinishOutcome | src/sagasmith_service/agent_supervisor.py:1022-1035 | a finished request lets go of its own worker, used now; an ending worker leaves the pool with its last request, to be stopped |
| SupervisorPorts.RetiredExactly | src/sagasmith_service/agent_supervisor.py:313-324 | idle retirement removes exactly the workers that no request holds and that were not used for long enough |
| SupervisorDropped.DeadWorkerIsDropped | src/sagasmith_service/agent_supervisor.py:955-982 | a run from an empty pool: a worker dies before its spawn task has left the map, and the next lookup drops it with nobody to stop it and its port taken |
| SupervisorDropped.LiveWorkerIsStoppedInstead | src/sagasmith_service/agent_supervisor.py:962-980 | a run with room for two workers: a finished spawn counts twice, a live worker is displaced and stopped, and the dead one is dropped |
| SupervisorExhausted.LiveWorkerIsDropped | src/sagasmith_service/agent_supervisor.py:955-982 | a run with room for one worker: once dropped workers hold every other port, a lookup of another key drops the one live worker, still running |
| SupervisorDropped.DroppedForGood | src/sagasmith_service/agent_supervisor.py:792-805 | a dropped worker is never stopped and its port is never given out again, over every run |
| SupervisorService.WorkerManager.NextPort | src/sagasmith_service/agent_supervisor.py:792-805 | the lowest port of the range that no worker, spawn or stopping worker uses, if there is one |
| SupervisorService.WorkerManager.LeastRecentlyUsed | src/sagasmith_service/agent_supervisor.py:965-973 | an idle worker used no later than any other idle one, or none iff none is idle |
| SupervisorService.WorkerManager.GetWorker | src/sagasmith_service/agent_supervisor.py:935-982 | one section of a lookup on the manager's fields and worker objects is the specification's step |
| SupervisorService.WorkerManager.EvictedStopped | src/sagasmith_service/agent_supervisor.py:893-899 | a displaced worker's port is free again once its stop has ended, however it ended |
| SupervisorService.WorkerManager.InstallWorker | src/sagasmith_service/agent_supervisor.py:904-909 | installs the spawned worker under its key |
| SupervisorService.WorkerManager.EndSpawn | src/sagasmith_service/agent_supervisor.py:925-930 | the spawn leaves the map and gives its port back |
| SupervisorService.WorkerManager.EndRequest | src/sagasmith_service/agent_supervisor.py:1023-1035 | the last section of a completion, which retires the worker only if it is the installed one |
| SupervisorService.WorkerManager.RetireExpired | src/sagasmith_service/agent_supervisor.py:313-324 | removes exactly the idle workers that are overdue, and returns exactly those to be stopped |
| TreeWalk.DirectorySize | src/sagasmith_service/agent_supervisor.py:483-503 | the walk with a stack ends and equals the recursive size of every finite tree |
| TreeWalk.SizeCountsReached | src/sagasmith_service/agent_supervisor.py:493-502 | that size is the sum of the sizes of the files and links below, each once, with no link entered |
| TreeWalk.EnteredIsReached | src/sagasmith_service/agent_supervisor.py:487-498 | every entry behind a path of readable directories is among those counted |
| TreeWalk.SizeSplits | src/sagasmith_service/agent_supervisor.py:483-503 | the size is that of what lies in the tree plus what is reached behind each junction and mount in it |
| TreeWalk.SizeStaysInsideExactly | src/sagasmith_service/agent_supervisor.py:483-503 | the size is that of what lies in the tree alone iff nothing with a size is reached behind a junction or mount |
| TreeWalk.JunctionIsCounted | src/sagasmith_service/agent_supervisor.py:493-498 | for every size, a tree in which nothing lies but a junction to a file of that size has that size |
| TreeWalk.SafeToDelete | src/sagasmith_service/agent_supervisor.py:623-642 | the walk with a stack and early exits ends and equals the recursive safety of every finite tree |
| TreeWalk.DeletableExactly | src/sagasmith_service/agent_supervisor.py:623-642 | a directory is safe to delete iff no entry on any path in it, itself included, is a link, a junction, a mount or hides its metadata, and every directory in it can be read |
| WorkspaceStore.SortIsSorted | src/sagasmith_service/agent_supervisor.py:719-722 | candidates come in order of last use |
| WorkspaceStore.SortIsStable | src/sagasmith_service/agent_supervisor.py:719-722 | and in directory order when last used at the same time |
| WorkspacePruning.CandidatesAdvance | src/sagasmith_service/agent_supervisor.py:710-728 | after one eviction the candidates found by the next scan are the remaining ones, in the same order |
| WorkspacePruning.EvictionTakesShortestPrefix | src/sagasmith_service/agent_supervisor.py:710-731 | eviction deletes the shortest sufficient prefix of the unprotected survivors in order of last use, and raises when none is left or the next cannot be removed |
| WorkspacePruning.EvictionSucceedsExactly | src/sagasmith_service/agent_supervisor.py:710-731 | it returns normally iff some removable prefix of the candidates brings the store within its caps |
| WorkspaceFates.SweptFate | src/sagasmith_service/agent_supervisor.py:688-708 | the first two phases try to delete exactly the unprotected terminal workspaces and those past their time to live, the latter again if both |
| WorkspaceFates.PruningSparesProtected | src/sagasmith_service/agent_supervisor.py:681-731 | pruning never changes a protected workspace or an unregistered entry, even when it raises |
| WorkspaceFates.PruningMeetsCaps | src/sagasmith_service/agent_supervisor.py:710-731 | it returns normally iff entries plus required slots and total bytes are within their caps and no removal failed; when it reports the store full no unprotected workspace is left |
| WorkspaceFates.PreparedWorkspaceIsReady | src/sagasmith_service/agent_supervisor.py:733-779 | a prepared workspace is registered, active and just used, both caps hold, and every other protected workspace is as before |
| WorkspaceFates.RefusedPreparationRollsBack | src/sagasmith_service/agent_supervisor.py:765-778 | a refused preparation leaves no removable new directory behind and keeps a workspace that was registered |
| WorkspaceOutcomes.DeletionOutcome | src/sagasmith_service/agent_supervisor.py:644-679 | a deletion removes the named workspace iff it is registered, nothing in it is a link, a mount or unreadable, and the removal does not break off |
| WorkspaceOutcomes.SweepOutcome | src/sagasmith_service/agent_supervisor.py:688-708 | the sweep removes what is registered, unprotected and either terminal or unused for the time to live, if it can be removed, and leaves everything else as it was |
| WorkspaceOutcomes.EvictedWereUsedEarlier | src/sagasmith_service/agent_supervisor.py:710-731 | whatever eviction took was registered, unprotected, and used no later than anything it left and could still take |
| WorkspaceOutcomes.SizeOutcome | src/sagasmith_service/agent_supervisor.py:514-540 | a real directory counts for the files and links reached in it, anything else for its own size |
| WorkspaceOutcomes.PreparedRecord | src/sagasmith_service/agent_supervisor.py:733-779 | a workspace prepared for the first time is the new one; one prepared again keeps its creation time and its tree |
| WorkspaceOutcomes.FullStoreRefuses | src/sagasmith_service/agent_supervisor.py:742-750 | a full store in which nothing may be evicted refuses a new workspace before creating it |
| WorkspaceStoreService.Scan | src/sagasmith_service/agent_supervisor.py:514-547 | registered entries apart from unknown ones, all counted once, with their bytes |
| WorkspaceStoreService.WorkspaceDirectory.DeleteRegistered | src/sagasmith_service/agent_supervisor.py:644-679 | deletes only a registered workspace with a safe tree; true iff it is gone |
| WorkspaceStoreService.WorkspaceDirectory.EvictUntilWithin | src/sagasmith_service/agent_supervisor.py:710-731 | the scanning loop ends and is the specification's eviction |
| WorkspaceStoreService.WorkspaceDirectory.PruneStore | src/sagasmith_service/agent_supervisor.py:681-731 | the three phases in place, with the first two lists taken from the first scan |
| WorkspaceStoreService.WorkspaceDirectory.PrepareWorkspace | src/sagasmith_service/agent_supervisor.py:733-779 | prune, create or find, touch, prune again, roll back |
| RenderCacheInvariant.TrimDropsShortestPrefix | src/sagasmith_service/combat_render_cache.py:134-139 | eviction drops a shortest sufficient prefix, and its guard of one entry never leaves a bound exceeded |
| RenderCacheInvariant.StepIsSound | src/sagasmith_service/combat_render_cache.py:76-156 | every lock section keeps the byte count exact, both bounds, distinct keys and single flight |
| RenderCacheTheorems.CacheStaysBounded | src/sagasmith_service/combat_render_cache.py:127-139 | over every run the byte count is the sum of the stored sizes and entries and bytes are within bounds |
| RenderCacheTheorems.OneRenderPerKey | src/sagasmith_service/combat_render_cache.py:94-102 | no two uncancelled renders of one key are ever in flight, closing and failures included |
| RenderCacheTheorems.HitsAreFresh | src/sagasmith_service/combat_render_cache.py:81-101 | a hit is a stored entry of that key no older than the TTL, moved to the end; otherwise no entry of the key is left and a render starts only if none is in flight |
| RenderCacheTheorems.StoredRenderSurvives | src/sagasmith_service/combat_render_cache.py:123-140 | a stored render is the newest entry after its own eviction loop; one too large changes nothing |
| RenderCacheRecency.EntriesStandInOrderOfUse | src/sagasmith_service/combat_render_cache.py:88-139 | over every run the entries stand in the order of their last hit or store |
| RenderCacheAnswers.LookupAnswersExactly | src/sagasmith_service/combat_render_cache.py:81-101 | a lookup hits iff the key's entry is fresh enough; else that entry goes and the caller joins the render in flight or starts the only one; other keys' entries stay in order |
| RenderCacheAnswers.StoredExactly | src/sagasmith_service/combat_render_cache.py:112-140 | a finished render is stored last, and as many others make way as must, least recently used first; one too large or cancelled changes no entry |
| RenderCacheAnswers.ServedFromFinish | src/sagasmith_service/combat_render_cache.py:81-140 | a render is served iff its age since it finished is within the time to live |
| RenderCacheAnswers.WithdrawalOutcome | src/sagasmith_service/combat_render_cache.py:141-145 | an ended render leaves the flight table, and takes no other with it |
| RenderCacheAnswers.ClosingOutcome | src/sagasmith_service/combat_render_cache.py:147-156 | closing leaves nothing stored or in flight, and nothing that was in flight can be stored any more |
| RenderCacheService.CombatRenderCache.Get | src/sagasmith_service/combat_render_cache.py:81-101 | the lookup section on the cache's fields is the specification's step |
| RenderCacheService.CombatRenderCache.Keep | src/sagasmith_service/combat_render_cache.py:123-140 | the storing section, with its eviction loop over a running byte count |
| RenderCacheService.CombatRenderCache.EndRender | src/sagasmith_service/combat_render_cache.py:141-145 | a render withdraws only itself from the flight table |
| RenderCacheService.CombatRenderCache.CloseAll | src/sagasmith_service/combat_render_cache.py:147-156 | empties the cache and cancels exactly the renders in flight |
| Epochs.EpochRisesOnce | src/sagasmith_service/realtime.py:316-322 | a flush raises an existing membership's epoch by one if its tracked fields or a binding in its scope changed, never twice, and leaves the others alone |
| Epochs.EpochFollowsAccess | src/sagasmith_service/realtime.py:316-408 | the epoch rises by one when what the member may see changes and stays otherwise, iff no binding is handed away or something else of the member changes too |
| Epochs.HandedOverBindingGoesUnnoticed | src/sagasmith_service/realtime.py:340-347 | for every binding: handed to another user alone, it changes its former user's access without raising that user's epoch |
| Epochs.EpochsStayPositive | src/sagasmith_service/realtime.py:319-322 | new memberships get a positive epoch and no flush lowers one |
| Epochs.NoticeCarriesFinalEpoch | src/sagasmith_service/realtime.py:323-339 | an access notice carries the epoch its membership has when the flush is over |
| EpochNotices.NoticesAreSent | src/sagasmith_service/realtime.py:316-365 | a flush sends exactly one access notice for each new or changed membership, and one binding notice for each new or changed binding |
| EpochNotices.NewMembershipEpoch | src/sagasmith_service/realtime.py:319-322 | a new membership has the epoch it was given, or 1 |
| EpochsService.FlushSession.BeforeFlush | src/sagasmith_service/realtime.py:269-421 | the pass over new and dirty rows, the loop over binding scopes and the queued notices are the specification's flush |
| PanelProjections.EpochsNeverFall | src/sagasmith_service/realtime.py:316-408 | over every run epochs stay positive and never fall |
| PanelProjections.StalePanelIsNeverLoaded | src/sagasmith_service/projection_cache.py:14-64 | once a flush has changed a member's access, whatever runs later, a panel that loads for the member was stored under a later epoch |
| PanelProjections.FlushRetiresPanelExactly | src/sagasmith_service/projection_cache.py:14-64 | when a flush changes a member's access, a panel stored under the epoch before it stops loading iff the flush notices the change |
| PanelProjections.PanelIsLastPut | src/sagasmith_service/projection_cache.py:40-64 | the table holds, per campaign and audience, what was stored last and not invalidated since |
| PanelProjections.LoadAfterPut | src/sagasmith_service/projection_cache.py:31-37 | under a limit of age a stored panel loads back iff it does not repeat a row that is already too old |
| PanelProjections.LoadIsLastPut | src/sagasmith_service/projection_cache.py:14-79 | over every run what loads is exactly what was stored last for that revision and epoch and not invalidated since |
| PanelProjections.LoadWhileYoung | src/sagasmith_service/projection_cache.py:14-37 | a panel put anew loads under its revision and epoch for exactly as long as the limit of age |
| PanelProjections.InvalidationOutcome | src/sagasmith_service/projection_cache.py:67-79 | invalidation removes exactly the panels of the campaign, or of the one audience in it |
| EpochsService.PanelTable.LoadPanel | src/sagasmith_service/projection_cache.py:14-37 | loads only for the exact revision, epoch and schema, and not past the given age |
| EpochsService.PanelTable.StorePanel | src/sagasmith_service/projection_cache.py:40-64 | overwrites the keyed row, or adds it |
| EpochsService.PanelTable.InvalidatePanels | src/sagasmith_service/projection_cache.py:67-79 | deletes the panels in scope and returns how many there were |
| RateLimiter.FewerThanTwiceTheLimit | src/sagasmith_service/rate_limit.py:29-49 | for every hit sequence, a half-open interval of one window length admits fewer hits than twice the limit |
| RateLimiter.BoundIsReached | src/sagasmith_service/rate_limit.py:39-49 | for every limit and window some hit sequence reaches that bound |
| RateLimiter.WaitOutlastsWindow | src/sagasmith_service/rate_limit.py:46-49 | the seconds returned on refusal outlast the refused window by at most one, and a hit after them, with none in between, is admitted |
| RateLimiter.MemoryRateLimiter.CountHit | src/sagasmith_service/rate_limit.py:39-49 | opens or counts into the key's window and answers as specified |

## Left out

- Authorisation reads one clock value per transaction; credentials, headers and the JSON forms of prices and usage are reduced to what the checks read.
- The settlement digest is the payload itself, so two payloads never collide.
- Ledger rows of other metrics, admission of an already known reservation key, and the budget functions `release` and `reconcile`, which the call protocol does not reach.
- Transactions are atomic steps where the database serialises them; only a job claim is split, because its correctness lies in the splitting.
- Quota settlement timestamps, decimal formatting, row skipping of locked reservations, and module runs as owners (any owning job counts as one).
- RoomJobs.Pick: in the runs any due job may be the candidate, not only the one due first that `PickCandidate` picks, and the candidate's own row lock is ignored, so more interleavings are covered than can happen. Which rows other transactions hold at that moment is a parameter of `PickCandidate`.
- The executor in `api/rooms.py` is abstract: it may reserve, save a result once, settle, finish or raise while its job is running. Its paths that write a job without checking lease or status, and the operator path that requeues a failed job, are not part of this model; nor is the task handoff that raises a job's `max_attempts`, which is fixed here.
- Trigger messages, failure recorders and metrics of room jobs.
- Supervisor shutdown, subprocess start and readiness, and the HTTP requests themselves; a worker's exit, a failed start and a failed stop are events. Which of several equally old idle workers is evicted is left open.
- Files that a running agent writes while the store is being pruned; the bytes of a rewritten workspace marker; which workspaces are protected, which is a parameter here.
- A cancelled render may still be finishing; only its bookkeeping is modelled. The render semaphore is not.
- The other outbox entries of a flush, row deletion (which the listener does not see), and delivery of notices.
- The Redis limiter, HTTP routing, authentication, audit rows, module workers, community moderation, migrations and the web front end.
