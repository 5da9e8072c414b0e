# Magellan, verified

A Dafny model of the logic that decides where Magellan's tasks run and who may run them, with proofs of what
that logic guarantees. `dafny verify dfyconfig.toml` checks everything.

| area | files |
|---|---|
| migration protocol between two journals, registries and leases | `MigrationProtocol`, `MigrationSafety`, `MigrationSteps`, `MigrationTheorems`, `MigrationRuns`, `MigrationUndecided`, `MigrationLateRequest`, `MigrationCompletion`, `MigrationRecovery`, `OutcomeQuery` |
| crash-atomic activation at the destination | `ActivationLog`, `CrashAtomicity`, `Activation` |
| ownership registry and its convergence | `Registry`, `TaskRegistry` |
| destination auction, leases, fairness, capacity | `Resources`, `BidBook`, `BidLifecycle`, `Ranking`, `Admission`, `AuctionCredits`, `Arbiter`, `AuctionRound`, `Fairness`, `Starvation`, `CapacityHandoff`, `LateStart` |
| clairvoyant oracle | `Costs`, `OracleGraph`, `OracleSearch`, `OracleRun`, `OracleCharges`, `OraclePlan` |
| replicated catalog and canonical digests | `Catalog`, `CatalogMerge`, `Canonical`, `CanonicalReading` |
| scoring, adaptation, replay, forecast | `Scoring`, `Adaptive`, `Replay`, `Forecast` |
| shared | `Common`, `Sorting` |

## How to read it

Identifiers are naturals, floats are exact reals, timestamps are reals in seconds, a `None` limit is
`Unlimited`, and exceptions are `Result` or `Option` values. Digests, carbon traces, the estimate models, the
square root and the runtime compatibility check are parameters.

Objects that the code updates in place are classes (`ResourceLedger`, `BidStore`, `BidArbiter`,
`PersistentTaskRegistry`, `TaskCatalogStore`, `AdaptivePolicyService`, and `Destination` for the activation
transaction); each method is proved against a function or predicate on the old and new contents, and the
theorems are about those. Loops stay loops. The two-party migration protocol and the capacity handoff are
state machines whose steps are single durable writes, messages and crashes, because what matters there is what
may happen between two writes.

### Migration

`MigrationProtocol.Enabled` holds the guards of the code and `MigrationProtocol.Assumed` what the code needs
from outside:

- a migration begins only for a live task (the scheduler only evaluates running tasks,
  `magellan/daemon/scheduler_service.py:781`), and only at a node where nothing is undecided: no attempt of its
  own is open, and no activation it has not logged still has a source waiting for it;
- a request first arrives before the source has been told that the destination has no record, or while the source
  neither runs the task nor is about to;
- while the source has not resolved a migration, its request is not repeated once the destination has committed
  and its registry has moved on.

Nothing in the code provides the second half of the first, the second or the third. All three are findings, each
with its exact condition, for every state the invariant allows:

- `migrate` looks only at the owner (`magellan/migration/service.py:283-317`). If a request is lost, the source
  takes the task back, restarts before it has logged ROLLED_BACK and cannot reach the destination when it
  reconciles, its record stays UNCERTAIN behind a running task. A new migration of that task commits elsewhere,
  and the next restart of the source takes the task back a second time: two nodes run it
  (`MigrationUndecided.SplitByBeginReachable`, from the initial state).
  `MigrationUndecided.BeginIsSafeExactlyWhen` proves that beginning is safe in every continuation exactly when
  nothing is undecided; `BeginBesideOpenAttempt` and `BeginBeforeCommit` say what each kind of undecided record
  leads to.
- A request that waits for the destination's per-task lock has no record yet (`magellan/migration/service.py:746-751`),
  so a poll finds none and the source takes the task back; the destination then activates all the same
  (`MigrationLateRequest.SlowRequestReachable`). `MigrationLateRequest.FirstArrivalIsSafeExactlyWhen` proves when a
  first arrival is safe in every continuation.
- The client sends a request up to three times (`magellan/migration/client.py:53-83`). If a repeat arrives after
  the destination committed and its registry moved on, `begin_activation` refuses the used lease, the failure
  handler turns the destination's record from ACTIVATED into ROLLED_BACK, and a source that has not resolved the
  migration takes the task back. `MigrationLateRequest.LateRepeatIsSafeExactlyWhen` proves that such a repeat is
  safe in every continuation exactly when the source has resolved the migration,
  `LateRepeatSplitsOwnership` that otherwise two nodes run the task whatever the source was doing, unless it has
  already learnt of the hop and of nothing newer, and `TwoLiveOwnersReachable` reaches such a state. Having learnt
  of it protects only for a while: once a live node passes the task on, the source takes it back as well
  (`InformedSourceForgets`).

Completion is not final either. `_rollback_source_record` writes the journalled snapshot over whatever the registry
holds and starts the task (`magellan/migration/service.py:187-222`), so a task that completes while an attempt of
its own is undecided runs again, and may then move on: `MigrationCompletion.CompletedTaskMigrates` is such a run
from the initial state. A completed entry is also overwritten when its node concludes an older migration late, or
takes up a late repeat of an earlier arrival and restarts. `MigrationCompletion.CompletedStaysExactlyWhen` proves
that in every continuation the entry stays as it is exactly when nothing of that kind is left at its node, and
`CompletedForGood` that the task then never runs anywhere again.

A migration that does not go through gives the task back, and none is stuck. `MigrationRecovery.NoMigrationIsStuck`
proves that from every state the invariant allows an undecided migration can be brought to an end, with the task at the
destination or running at the source. One kind of failure does not restart the task: when `runtime.stop` raises, or
anything between the prefetch and it, `restore_local_after_failure` leaves the task STOPPED whatever it was
(`magellan/migration/service.py:700-725`). `MigrationRecovery.AbortGivesBack` says exactly when it runs again.

`_query_remote_outcome` keeps `destination_reached` when a later poll fails, so a rollback decision can rest on
a stale answer. `OutcomeQuery.RollBackIsSoundIff` says exactly when it is right: when the deciding poll itself
was answered. The protocol's polls are such polls.

### Other findings

- All or nothing after a crash of the destination fails for one fault only: the task was started, its lease was
  lost, and stopping it failed too. `CrashAtomicity.AtomicExactlyWhen` gives the two or three crash points that
  are then spoiled, and `Activation.FailedStopRun` is a run that ends with ACTIVATED and no checkpoint.
- A rollback by reconciliation does not remove a copied checkpoint when the task had none before
  (`CrashAtomicity.RollbackRestoresCheckpoint` gives the exact condition, `Activation.LeftoverRun` a run).
- Bounded waiting under `credit_fair` holds exactly when `credit_max` exceeds `n - 2` increments; the
  sufficient `n` increments are not needed (`Starvation.WaitingBoundIsExact`).
- If a lease lapses between `begin_activation` and the start of the task, its slot is given away again and the
  node is overcommitted until `consume` fails (`CapacityHandoff.LapsedLeaseOvercommits` is a run).
  `LateStart.LateStartIsSafeExactlyWhen` proves that outside a round such a start keeps every continuation within
  capacity exactly when what counts still fits together with the task.
- `choose_action` can pause inside the pause gap when a migration is refused
  (`Scoring.PausesInsideGapExactlyWhen`).
- The replay's `for ... else` reports an error when just as many decisions are allowed as the work needs
  (`Replay.ReplayCausalPolicy`).
- `apply_ownership` on a node that an update names as owner keeps the local status. Generation and owner converge
  whatever is delivered, but the order of delivery decides whether the task counts as completed exactly when the
  latest update names the node, does not complete the task, and the node's completion status before that is in doubt
  (`TaskRegistry.OrderIsIrrelevantExactlyWhen`). A node that no update names always converges.
- A merge that ends early is not saved. A restart forgets what it added, and another content may then take the same
  revision (`CatalogMerge.RestartForgets`); what was saved never changes (`CatalogMerge.NetworkOnlyAdds`).

## Model

| member | source | states |
|---|---|---|
| MigrationTheorems.StepKeepsInvariant | magellan/migration/service.py:283-1170 | every step of migrate, activate and reconcile, with lost replies, repeats and crashes, keeps the invariant on journals, registries, leases and running operations |
| MigrationTheorems.RunKeepsInvariant | magellan/migration/service.py:283-1170 | ... and so does every run |
| MigrationTheorems.SingleLiveOwner | magellan/migration/service.py:283-1170 | in every run at most one node has the task RUNNING or PAUSED |
| MigrationTheorems.LiveGenerationCountsHops | magellan/state/persistent_registry.py:682-767 | a live owner's generation is the number of hops and it is where they lead; during an uncommitted activation it is one more and the previous holder is not live |
| MigrationTheorems.HopsFormAPath | magellan/migration/service.py:302-317 | the hops form a path from the origin to the holder and the i-th has generation i+1, although rolled-back attempts reuse generation numbers |
| MigrationTheorems.EndsAgree | magellan/migration/service.py:600-672 | what either journal calls ACTIVATED is a hop, the destination says so for as long as the source may ask, what a source rolled back never becomes one, and while a commit is possible the source is quiet |
| MigrationTheorems.InvariantGuarantees | magellan/migration/service.py:283-1170 | every state that satisfies the invariant, reached or not, has one live owner, counts its hops, has a path of hops and journals that agree |
| MigrationUndecided.BeginIsSafeExactlyWhen | magellan/migration/service.py:283-317 | a live task's migration keeps all of that in every continuation exactly when its node has no open attempt of its own and no unlogged activation whose source still waits |
| MigrationUndecided.BeginBesideOpenAttempt | magellan/migration/service.py:1115-1170 | beside any open attempt, beginning leads to two live owners, or to an attempt logged as ACTIVATED that never moved the task |
| MigrationUndecided.BeginBeforeCommit | magellan/migration/service.py:1040-1113 | from an activation not yet logged, beginning leads to a hop that skips a generation and, unless it leads back, to two live owners |
| MigrationUndecided.SplitByBeginReachable | magellan/migration/service.py:600-672 | a run from the initial state: a lost request, a restart, an unreachable peer, one more migration, two live owners |
| MigrationTheorems.SourceStepKeepsInvariant | magellan/migration/service.py:302-512 | preparing, quiescing and sending keep the invariant; what failing leaves is the subject of the rows on giving back |
| MigrationTheorems.ResolutionKeepsInvariant | magellan/migration/service.py:150-223 | deciding an unknown outcome, finalising, restoring and source reconciliation keep the invariant |
| MigrationTheorems.ReceiveKeepsInvariant | magellan/migration/service.py:782-849 | first and repeated requests keep the invariant |
| MigrationTheorems.DestinationStepKeepsInvariant | magellan/migration/service.py:866-1113 | reserving, claiming, starting, consuming, committing, undoing and destination reconciliation keep the invariant |
| MigrationTheorems.ClaimIsPending | magellan/migration/service.py:915-949 | an entry past the last hop is the claim of the one open attempt, and meanwhile the holder is quiet |
| MigrationTheorems.BackgroundKeepsInvariant | magellan/migration/service.py:167-185 | lapsing leases, crashes, committed ownership broadcasts and task events keep the invariant |
| MigrationRuns.Hop | magellan/migration/service.py:283-1036 | from every state of the invariant in which a live task's migration may begin, a run in which the destination restarts first and nothing fails after that carries it to the commit: the task runs at the destination with the next generation |
| MigrationRecovery.RejectionGivesBack | magellan/migration/service.py:697-725 | in every state of the invariant, a rejected request ends with the source idle, the record ROLLED_BACK and the task owned as before the attempt: RUNNING when it starts, FAILED when it does not; nothing else changes |
| MigrationRecovery.AbortGivesBack | magellan/migration/service.py:668-725 | a failure before the request is sent does the same, but the task runs again exactly when it had been stopped and starts; before that it is left STOPPED, whatever it was |
| MigrationRecovery.PollGivesBack | magellan/migration/service.py:187-222 | a poll that finds ROLLED_BACK or no record gives the journalled snapshot back in the same way |
| MigrationRecovery.PollLeavesOpen | magellan/migration/service.py:659-672 | polls without an answer leave the task FAILED, owned as before, and an unresolved record that a reconciliation may take up |
| MigrationRecovery.CommitHandsOver | magellan/migration/service.py:150-185 | a reply or a poll that says ACTIVATED ends with the record ACTIVATED and an entry that names the destination and is not live |
| MigrationRecovery.ReconciliationConcludes | magellan/migration/service.py:1115-1170 | a reconciliation that reaches a destination not at work on the migration closes the record: ACTIVATED exactly when it is a hop, and otherwise ROLLED_BACK with the task given back, or untouched if it never started |
| MigrationRecovery.ReconciliationWaits | magellan/migration/service.py:1115-1170 | one that does not reach it, or finds it at work, only marks the record UNCERTAIN |
| MigrationRecovery.FailureRestores | magellan/migration/service.py:982-1036 | an activation that fails at any stage before it is logged leaves the destination's entry as it was found, the record ROLLED_BACK and the lease released |
| MigrationRecovery.LapseRefuses | magellan/migration/service.py:866-884 | a lease that lapses before the destination takes it into use refuses the migration |
| MigrationRecovery.NoMigrationIsStuck | magellan/migration/service.py:283-1170 | from every state of the invariant, whatever both ends were doing, some run closes an undecided migration: with the task at the destination, or running at the source |
| MigrationLateRequest.FirstArrivalIsSafeExactlyWhen | magellan/migration/service.py:600-672 | a request that arrives for the first time keeps all guarantees in every continuation exactly when the source has not been told that there is no record, or still waits and is not about to run the task |
| MigrationLateRequest.LateArrivalSplitsOwnership | magellan/migration/service.py:746-981 | if the source runs the task again while the lease is granted and the claim is not stale, two nodes run it |
| MigrationLateRequest.SlowRequestReachable | magellan/migration/service.py:131-148 | a run from the initial state in which that happens |
| MigrationLateRequest.LateRepeatIsSafeExactlyWhen | magellan/migration/service.py:834-1036 | a request repeated after the commit, once the destination's registry has moved on, keeps all guarantees in every continuation exactly when the source has resolved the migration |
| MigrationLateRequest.VerdictFlips | magellan/migration/service.py:866-1036 | such a repeat can never use the lease again and turns the verdict into ROLLED_BACK |
| MigrationLateRequest.LateRepeatSplitsOwnership | magellan/migration/service.py:834-1036 | whatever the source of an unresolved migration was doing, it then runs the task beside whoever runs it, unless it has learnt of the hop and of nothing newer |
| MigrationLateRequest.InformedSourceForgets | magellan/migration/service.py:1115-1170 | an informed source does so too after the next hop to a further node: two live owners |
| MigrationLateRequest.TwoLiveOwnersReachable | magellan/migration/client.py:53-83 | such a state is reached by an ordinary run of two hops, and one repeated request later two nodes run the task |
| MigrationCompletion.CompletedStaysExactlyWhen | magellan/migration/service.py:150-222 | in every state of the invariant, the entry of a task completed at its current place stays unchanged in every continuation exactly when its node is about to write nothing else, has no record of its own left to conclude and no earlier arrival to take up again |
| MigrationCompletion.CompletedForGood | magellan/migration/service.py:187-222 | then the task runs nowhere in any continuation, and no hop goes past the generation that completed |
| MigrationCompletion.RunsAgain | magellan/migration/service.py:187-222 | with an open attempt of its own past PREPARING that is not under way, a completed task can run again |
| MigrationCompletion.CompletedTaskMigrates | magellan/migration/service.py:1115-1170 | a run from the initial state: the task completes, a reconciliation runs it again, and it moves to a later generation |
| OutcomeQuery.QueryRemoteOutcome | magellan/migration/service.py:115-148 | the record is that of the deciding poll, the flag says whether any poll up to it was answered |
| OutcomeQuery.Resolve | magellan/migration/service.py:631-657 | the source finalises exactly when the deciding poll says ACTIVATED, rolls back exactly when it says ROLLED_BACK or no record, or failed after an earlier one was answered, and otherwise stays uncertain |
| OutcomeQuery.FinalizeIsSound | magellan/migration/service.py:631-646 | finalising is right for every history of the destination that fits the answers |
| OutcomeQuery.RollBackIsSoundIff | magellan/migration/service.py:647-657 | rolling back is right for every such history exactly when the deciding poll was answered |
| OutcomeQuery.StaleReachedFlag | magellan/migration/service.py:131-148 | two polls that make the source roll back a migration that activates |
| Activation.Destination.Activate | magellan/migration/service.py:753-1038 | the disk left when any number of durable writes gets through, the answer, an answer whenever 18 writes do, and the exact disk a first request ends with |
| Activation.Destination.Undo | magellan/migration/service.py:982-1036 | the failure handler leaves the disks of its write log, whichever write a crash follows |
| Activation.Destination.Reconcile | magellan/migration/service.py:1040-1113 | so does a repair |
| Activation.Destination.RestartUntilResolved | magellan/migration/service.py:1172-1196 | however often restarts are interrupted they head for one disk, and one that gets 9 writes through reaches it |
| Activation.Destination.ActivateAcrossCrashes | magellan/migration/service.py:830-1113 | a request with a crash anywhere, then restarts: one restart with 9 writes resolves it, and then all or nothing holds exactly unless a failed stop spoiled that crash point |
| Activation.FailedStopRun | magellan/migration/service.py:985-998 | a run that dies after nine writes and is repaired to ACTIVATED without a checkpoint |
| Activation.LeftoverRun | magellan/migration/service.py:885-895 | a run that dies during the copy and is repaired to ROLLED_BACK with half a copy left |
| CrashAtomicity.AtomicExactlyWhen | magellan/migration/service.py:830-1113 | for every start, fault and crash point, the repaired disk is all or nothing exactly when no failed stop spoils that point |
| CrashAtomicity.ActivateInterrupted | magellan/migration/service.py:830-1036 | without a failed stop, every disk an activation passes through keeps the original checkpoint safe and shows a live owner only with the incoming checkpoint in place |
| CrashAtomicity.CrashAtomic | magellan/migration/service.py:1040-1113 | the repair of such a disk is ACTIVATED with the claim and the incoming checkpoint, or ROLLED_BACK with the original state and the original checkpoint, or untouched; repairing again changes nothing |
| CrashAtomicity.ReconcileResolves | magellan/migration/service.py:1040-1113 | wherever a repair is interrupted, the next one heads for the same disk, and a complete one is there |
| CrashAtomicity.ActivationEnds | magellan/migration/service.py:866-1036 | a first request that is not interrupted succeeds under exactly the listed conditions, and otherwise leaves everything but the transfer and the lease as it was |
| CrashAtomicity.RepeatIsAnsweredAlike | magellan/migration/service.py:782-849 | a request repeated after its answer is answered the same way and changes nothing |
| CrashAtomicity.DecidedByTheRegistry | magellan/migration/service.py:1044-1054 | the repair says ACTIVATED exactly when a live owner had been established |
| CrashAtomicity.RollbackRestoresCheckpoint | magellan/migration/service.py:1088-1095 | the checkpoint directory is as before exactly when there was one or the copy had not begun |
| CrashAtomicity.CopyLeftBehind | magellan/migration/service.py:892-895 | otherwise, for every task without a checkpoint, a crash during the copy leaves half of it behind |
| CrashAtomicity.FailedStopCommitsWithoutCheckpoint | magellan/migration/service.py:985-998 | for every task and every pair of checkpoints, the disk a failed stop leaves at its worst, and that its repair commits without a checkpoint |
| ActivationLog.RepairStopsFirst | magellan/migration/service.py:1074-1084 | a repair that rolls back first stops the process this migration may have left running |
| ActivationLog.ActivateWrites | magellan/migration/service.py:753-1038 | a request concludes within 18 durable writes, whatever it finds and whatever fails |
| ActivationLog.ReconcileWrites | magellan/migration/service.py:1040-1113 | a repair concludes within 9 |
| TaskRegistry.PersistentTaskRegistry.RegisterDefinition | magellan/state/persistent_registry.py:226-245 | new, known and conflicting definitions |
| TaskRegistry.PersistentTaskRegistry.MarkMigrating | magellan/state/persistent_registry.py:557-577 | the new state or the refusal; no other task changes |
| TaskRegistry.PersistentTaskRegistry.ClaimLocal | magellan/state/persistent_registry.py:682-715 | the claim, or a refusal of a stale generation |
| TaskRegistry.PersistentTaskRegistry.MarkRemote | magellan/state/persistent_registry.py:717-747 | hands the task over unless it is already completed there |
| TaskRegistry.PersistentTaskRegistry.RestoreLocalAfterFailure | magellan/state/persistent_registry.py:749-767 | takes the task back, stopped |
| TaskRegistry.PersistentTaskRegistry.ApplyOwnership | magellan/state/persistent_registry.py:769-832 | accepts an update exactly when it is newer or agrees, and then takes it over |
| TaskRegistry.PersistentTaskRegistry.CountOwned | magellan/state/persistent_registry.py:269-274 | counts exactly the owned tasks in a capacity-holding status |
| TaskRegistry.PersistentTaskRegistry.OwnedResourceRequests | magellan/state/persistent_registry.py:276-293 | lists the demands of exactly those tasks, one entry each |
| TaskRegistry.OwnershipIsMonotone | magellan/state/persistent_registry.py:784-798 | updates never lower the generation, change the owner only by raising it, and never undo a completion within it |
| TaskRegistry.LatestOwnerWins | magellan/state/persistent_registry.py:769-832 | after any updates that agree on the owner of each generation, in any order and with any repeats, a node holds the latest generation and its owner |
| TaskRegistry.LargestClaimWins | magellan/state/persistent_registry.py:769-832 | ... and the largest (generation, completed) claim, unless the latest update returns the task to this node uncompleted and an earlier generation was completed |
| TaskRegistry.LargestClaimWinsExactlyWhen | magellan/state/persistent_registry.py:769-832 | that exception is exact: every order of delivery leaves the largest claim if and only if it does not apply |
| TaskRegistry.UnnamedNodeConverges | magellan/state/persistent_registry.py:769-832 | a node that no update names holds the largest claim in every order, completions in any generation included |
| TaskRegistry.OrderIsIrrelevantExactlyWhen | magellan/state/persistent_registry.py:808-829 | every order of delivery leaves the same claim and owner if and only if it is not so that the latest update returns the task to this node uncompleted while its completion status before that is in doubt |
| TaskRegistry.DeliveryOrderIsIrrelevant | magellan/state/persistent_registry.py:769-832 | outside that case any order and any repeats of the same updates leave the same claim and owner |
| TaskRegistry.RedeliveryIsIdle | magellan/state/persistent_registry.py:769-832 | delivering everything again changes neither claim nor owner, whatever was delivered |
| TaskRegistry.ReturningOwnershipKeepsStatus | magellan/state/persistent_registry.py:808-829 | two orders of delivery that disagree |
| Resources.SumRequests | magellan/bidding/resources.py:121-127 | the sum of the demands |
| Resources.ResourceLedger.FromCapacity | magellan/bidding/resources.py:42-66 | what is left of the capacity |
| Resources.ResourceLedger.Compatible | magellan/bidding/resources.py:68-96 | refuses exactly what does not fit |
| Resources.ResourceLedger.Consume | magellan/bidding/resources.py:98-104 | takes the demand from every enforced limit |
| Resources.RemainingIsExact | magellan/bidding/resources.py:98-104 | after a demand that fitted, the clamp at zero never acts and what fits next is what fitted together with it |
| Resources.RemainingAdds | magellan/bidding/resources.py:98-104 | consuming twice is consuming the sum |
| Resources.FitsShrinks | magellan/bidding/resources.py:68-104 | what fits a partly used capacity fits the whole |
| BidBook.BidStore.ExpireReservations | magellan/bidding/store.py:75-99 | expires exactly the active reservations whose time has come |
| BidBook.BidStore.Submit | magellan/bidding/store.py:101-119 | files a new bid once |
| BidBook.BidStore.Decide | magellan/bidding/store.py:186-252 | decides a pending bid and leases an accepted one; decided bids stay |
| BidBook.BidStore.Renew | magellan/bidding/store.py:254-281 | extends an active reservation, refuses any other |
| BidBook.BidStore.BeginActivation | magellan/bidding/store.py:283-325 | claims a matching accepted reservation, after the sweep |
| BidBook.BidStore.Consume | magellan/bidding/store.py:327-353 | ends an activating reservation |
| BidBook.BidStore.Cancel | magellan/bidding/store.py:355-382 | cancels whatever has not ended |
| BidBook.BidStore.ApplyCreditOutcomes | magellan/bidding/store.py:392-435 | decays a task's credit once per accepted bid and raises it, up to the maximum, once per bid lost to competition, whatever order the sets are walked in |
| BidLifecycle.StepMovesDown | magellan/bidding/store.py:75-382 | one operation moves a bid along at most a sweep edge and its own edge of the lifecycle; its terms never change |
| BidLifecycle.RunMovesDown | magellan/bidding/store.py:75-382 | over any run a bid only moves down PENDING > ACCEPTED > ACTIVATING > terminal, and terminal bids never change |
| BidLifecycle.ActivatesAtMostOnce | magellan/bidding/store.py:283-325 | over any run `begin_activation` succeeds at most once per bid |
| BidLifecycle.SweepReleases | magellan/bidding/store.py:75-99 | in any run, what a sweep at t leaves active has an expiry after t |
| BidLifecycle.SilentLeaseIsReleased | magellan/bidding/store.py:254-281 | a lease not granted or renewed after s is no longer active after a sweep at s + TTL or later |
| BidLifecycle.LeaseServes | magellan/bidding/store.py:101-353 | a bid that is submitted, accepted, renewed in time and claimed in time is consumed, and then holds nothing |
| BidLifecycle.CancelReleases | magellan/bidding/store.py:355-382 | cancelling releases whatever the bid holds and touches nothing else; what has ended stays as it ended |
| Ranking.RankBids | magellan/bidding/ranking.py:58-153 | the keyed bids in key order |
| Ranking.AtMostIsTotalOrder | magellan/bidding/ranking.py:116-142 | the lexicographic key order is total, and only equal keys tie |
| Ranking.SortedIsOrdered | magellan/bidding/ranking.py:153-153 | sorting gives an ordered permutation |
| Ranking.OrderIsUnique | magellan/bidding/ranking.py:153-153 | bids with distinct keys have one ordering |
| Ranking.ListingOrderIsIrrelevant | magellan/bidding/ranking.py:58-153 | for each of the seven strategies, every permutation of bids with distinct ids is ranked alike |
| Ranking.PreferredRanksEarlier | magellan/bidding/ranking.py:118-142 | under each strategy the bid it prefers ranks strictly earlier, and among equals the lower score does; unknown remaining times come last |
| Ranking.DominantShareIsLargest | magellan/bidding/resources.py:130-150 | the dominant share is the largest requested fraction of a configured limit, infinite exactly for GPUs on a node with none |
| Ranking.UrgencyGrows | magellan/bidding/ranking.py:31-55 | urgency lies in [0, 2] and a closer deadline never lowers it |
| Ranking.UrgencyMeasuresSlack | magellan/bidding/ranking.py:31-55 | urgency is 1 minus the slack in windows, 0 with a window or more to spare and 2 when a window late |
| Ranking.SilentBid | magellan/bidding/ranking.py:24-28 | what the strategies read off a bid without a task context |
| Ranking.SpokenBid | magellan/bidding/ranking.py:84-99 | ... and off one with a context: a point of urgency is worth 100 of priority, and efficiency is the larger of the loss at stake and the gain of the score per unit of the dominant share, which counts for no less than the floor |
| Admission.AdmitIsGreedy | magellan/bidding/arbiter.py:201-260 | a bid is accepted exactly when it is compatible, feasible on its own, its task has no accepted higher-ranked bid, and it fits after all higher-ranked acceptances |
| Admission.GreedyChoiceIsUnique | magellan/bidding/arbiter.py:201-260 | those rules determine the accepted bids |
| Admission.AcceptedFitTogether | magellan/bidding/arbiter.py:253-255 | everything accepted fits in slots and resources together |
| Admission.NoRefusalFitsTheRest | magellan/bidding/arbiter.py:232-246 | no bid refused for slots or resources fits what remains at the end |
| Admission.LosersCompeted | magellan/bidding/arbiter.py:201-260 | a bid counts as lost to competition exactly when it is refused although compatible, feasible on its own and not a duplicate, for want of slots and of resources alike |
| AuctionCredits.OneBidSettles | magellan/bidding/arbiter.py:237-260 | the credit of a task with one bid in the window: decayed if accepted, raised by one increment up to the maximum if compatible and feasible on its own but refused, unchanged if not; one never credited starts from nothing |
| AuctionCredits.RoundSettles | magellan/bidding/store.py:392-435 | the same for every task with any number of bids |
| Arbiter.BidArbiter.PendingRecords | magellan/bidding/store.py:148-158 | exactly the pending bids, first come first |
| Arbiter.BidArbiter.AvailableResources | magellan/bidding/arbiter.py:96-131 | slots and resources left by owned tasks and active reservations |
| Arbiter.BidArbiter.Consider | magellan/bidding/arbiter.py:201-260 | one pass of the admission loop judges as specified and takes what it accepts |
| Arbiter.BidArbiter.AdmitAll | magellan/bidding/arbiter.py:197-282 | the admission loop refines the recursive specification and decides each bid accordingly |
| Arbiter.BidArbiter.RunOnce | magellan/bidding/arbiter.py:151-294 | while no window is due only leases lapse, and it reports whether any did; otherwise the window's bids are ranked, admitted and decided, and every task's credit is settled: a part of it is left when a bid is accepted, one increment is added, up to the maximum, for each bid that only competing demand refused, and it stays otherwise |
| AuctionRound.RoundOutcome | magellan/bidding/arbiter.py:262-294 | after a round each auctioned bid is accepted with a fresh lease or rejected as the rules say, and nothing else changes |
| Fairness.FirstTakesTheSlot | magellan/bidding/arbiter.py:201-260 | with one free slot the first in rank is accepted and every other feasible bid loses to competition |
| Fairness.WinnerIsServed | magellan/bidding/ranking.py:129-131 | the one task served has the most credit |
| Fairness.CreditsMove | magellan/bidding/store.py:392-435 | the winner starts from nothing, everyone else gains an increment up to the maximum |
| Fairness.BoundedWaiting | magellan/bidding/arbiter.py:201-294 | with `credit_max` above n-2 increments every one of n tasks is served within any n consecutive windows, from any credits in range |
| Starvation.StarvesFor | magellan/bidding/ranking.py:129-131 | otherwise there are runs of any length in which a task with full credit is never served |
| Starvation.WaitingBoundIsExact | magellan/bidding/store.py:418-426 | so the threshold is exact |
| CapacityHandoff.StepKeepsSound | magellan/bidding/arbiter.py:96-131 | every store operation, snapshot, acceptance, start and departure keeps usage and what the round may still give away within capacity |
| CapacityHandoff.NeverOvercommitted | magellan/bidding/arbiter.py:192-282 | over all interleavings, usage counted once a task never exceeds slots, CPU, memory or GPUs, as long as a task starts while its lease is being activated |
| CapacityHandoff.LeavingFrees | magellan/bidding/arbiter.py:96-131 | a task that leaves and holds no lease gives back exactly its slot and its demand |
| CapacityHandoff.SnapshotIsSafe | magellan/bidding/arbiter.py:99-121 | what the snapshot leaves is really free, although it may count a task twice |
| CapacityHandoff.LapsedLeaseOvercommits | magellan/migration/service.py:867-932 | a run in which a lapsed lease lets a one-slot node start two tasks |
| LateStart.LateStartIsSafeExactlyWhen | magellan/migration/service.py:867-932 | for every site and sound state outside a round, a start keeps what runs, and what runs or is leased, within capacity in every continuation exactly when what counts still fits together with the task; it does when the lease is active or the task counts already |
| LateStart.LateStartInRound | magellan/bidding/arbiter.py:192-282 | while a round runs, it does if what the round may still give away fits as well, and does not if what counts does not fit |
| LateStart.AllStart | magellan/bidding/store.py:283-325 | from every state a continuation runs everything that is leased, so too much counted becomes too much running |
| OracleGraph.CandidateAdvances | magellan/experiments/oracle.py:149-229 | every edge advances time and completes no more work than time |
| OracleGraph.EdgeChargesNonNegative | magellan/experiments/oracle.py:127-229 | no edge has a negative duration, carbon or cost |
| OracleGraph.IncrementNonNegative | magellan/experiments/oracle.py:46-59 | the incremental objective of an edge is never negative |
| OracleCharges.CostIsWeighted | magellan/experiments/oracle.py:46-59 | what is added up along any schedule is time, carbon and money of the whole, each over its reference (at least 1e-12), weighted by its share of the policy's weights |
| OracleCharges.CandidateIsCharged | magellan/experiments/comparison.py:99-220 | every step: work is charged power, PUE and the mean intensity for its seconds and the hourly price; a wait nothing; a move checkpoint energy at the source, restore energy at the destination, network energy at their mean intensity, the transfer time of its bits and the source's egress price |
| OracleCharges.WholeQuanta | magellan/experiments/oracle.py:118-229 | a step that leaves work to do takes the whole quanta it is counted with |
| OracleCharges.HorizonIsLeast | magellan/experiments/oracle.py:91-94 | work and horizon take the fewest quanta that cover the duration and its multiple |
| OracleSearch.PopLeast | magellan/experiments/oracle.py:109-109 | the least score, the earlier push among equals |
| OracleSearch.Relax | magellan/experiments/oracle.py:231-253 | one relaxation keeps labels, predecessors, metrics and lazy deletion consistent, and settled labels unchanged |
| OracleRun.CachedSegment | magellan/experiments/oracle.py:125-135 | the compute cache holds what would be computed |
| OracleRun.CachedMigration | magellan/experiments/oracle.py:184-202 | the migration cache holds what would be computed |
| OracleRun.Expand | magellan/experiments/oracle.py:118-229 | the candidates are exactly the edges of the step graph |
| OracleRun.RelaxAll | magellan/experiments/oracle.py:231-253 | relaxing all edges of a place leaves every expanded place relaxed |
| OracleRun.Search | magellan/experiments/oracle.py:96-253 | the search terminates and stops at a terminal no open place beats; its trace of expansions has every settled place inside the horizon exactly once, with its final label |
| OraclePlan.OpenOnPath | magellan/experiments/oracle.py:231-253 | on every completing schedule some open place is labelled at most its cost plus the accumulated slack |
| OraclePlan.TerminalIsOptimal | magellan/experiments/oracle.py:108-117 | the label of the popped terminal is at most the weighted totals of every feasible schedule plus tolerance times the horizon |
| OraclePlan.WorkThrough | magellan/experiments/oracle.py:87-94 | with a multiplier of at least 1, working without pause fits the horizon |
| OraclePlan.SearchCompletes | magellan/experiments/oracle.py:255-259 | so the "could not complete" error is unreachable |
| OraclePlan.Rebuild | magellan/experiments/oracle.py:261-267 | the rebuilt path is feasible, ends at the terminal and sums to its label and metrics; the walk ends because elapsed steps fall |
| OraclePlan.Summarise | magellan/experiments/oracle.py:269-318 | contiguous steps, exact totals, one owner entry per move |
| OraclePlan.StepsAreCharged | magellan/experiments/oracle.py:127-318 | every reported step leaves from where the ones before it led and is charged for the very interval it reports |
| OraclePlan.AllWorked | magellan/experiments/oracle.py:120-124 | the compute seconds of a completing path sum to the workload's duration |
| OraclePlan.RoundingBounds | magellan/experiments/comparison.py:716-717 | rounding a move to whole quanta wastes at most one quantum and cuts at most the tolerance |
| OraclePlan.ClairvoyantOracle | magellan/experiments/oracle.py:62-360 | bad arguments are reported; otherwise the plan completes, its totals are those of its steps, every step is charged for the interval it shows, its objective is the weighted sum of its totals in units of the reference run, and no completing schedule has a smaller weighted sum, up to the slack |
| OraclePlan.ExactlyOptimal | magellan/experiments/oracle.py:242-242 | with tolerance 0 no feasible schedule has smaller weighted totals |
| Costs.ComputeNonNegative | magellan/experiments/comparison.py:99-112 | no negative charge for computing |
| Costs.PauseNonNegative | magellan/experiments/comparison.py:399-431 | no negative charge for pausing |
| Costs.MigrationNonNegative | magellan/experiments/comparison.py:135-220 | no negative charge for moving |
| Costs.PauseIsExact | magellan/experiments/comparison.py:399-431 | a pause costs no money and the energy of pausing and, after the idle time, of resuming |
| Catalog.TaskCatalogStore.Scan | magellan/submission/catalog.py:113-121 | the revision with the digest, if any, and the latest revision |
| Catalog.TaskCatalogStore.RegisterDefinition | magellan/submission/catalog.py:106-130 | unchanged content keeps its revision, changed content gets the next |
| Catalog.TaskCatalogStore.CreateRun | magellan/submission/catalog.py:132-167 | one run per idempotency key, with every refusal |
| Catalog.TaskCatalogStore.OtherRunHasKey | magellan/submission/catalog.py:208-216 | whether another run has the key |
| Catalog.TaskCatalogStore.Load | magellan/submission/catalog.py:22-44 | a restarted store holds what was saved |
| Catalog.TaskCatalogStore.MergeSnapshot | magellan/submission/catalog.py:187-238 | entry by entry, what a merge leaves in memory when it completes or ends early, and that only a merge that completes and adds something is saved |
| CatalogMerge.MergeExtends | magellan/submission/catalog.py:194-235 | no merge changes an existing entry |
| CatalogMerge.NextRevisionFits | magellan/submission/catalog.py:67-71 | because reports are in key order, adding the next entry leaves no gap in the revisions |
| CatalogMerge.MergeKeepsSound | magellan/submission/catalog.py:187-238 | a merge that ends early still leaves a sound catalog |
| CatalogMerge.RegisterKeepsSound | magellan/submission/catalog.py:106-130 | registering keeps the catalog sound |
| CatalogMerge.CreateKeepsSound | magellan/submission/catalog.py:132-167 | creating a run keeps the catalog sound |
| CatalogMerge.NetworkKeepsSound | magellan/submission/catalog.py:22-238 | in every run of a network that starts empty, with reports of any node at any earlier time, aborted merges and restarts, every node's memory and file have revisions exactly 1..n, a key names one run, and a run's definition is present with its digest; the file holds nothing that memory does not |
| CatalogMerge.NetworkOnlyAdds | magellan/submission/catalog.py:187-238 | in every such run no saved entry changes or disappears, and no entry at all until the node restarts |
| CatalogMerge.RestartForgets | magellan/submission/catalog.py:194-237 | a run in which a restart forgets an entry of an aborted merge and its revision is reused for other content |
| CatalogMerge.MergeIsJoin | magellan/submission/catalog.py:187-238 | merging a compatible report never fails and yields exactly both catalogs' entries |
| CatalogMerge.MergesAreUnion | magellan/submission/catalog.py:187-238 | merging pairwise compatible reports, in any order and with repeats, never fails and yields their union |
| CatalogMerge.MergeOrderIsIrrelevant | magellan/submission/catalog.py:187-238 | two orders give the same runs and the same digests |
| Canonical.CanonicalIsIdempotent | magellan/submission/models.py:22-50 | a canonical value is its own canonical form |
| Sorting.SortIgnoresOrder | magellan/submission/models.py:38-47 | a stable sort forgets the order of its input when elements that sort alike are equal |
| Canonical.SortEncodes | magellan/submission/models.py:38-47 | sorting values by their encoding sorts the encodings |
| Canonical.EncodingIgnoresOrder | magellan/submission/models.py:22-62 | the encoding under a digest ignores the order of sets and dictionaries at every depth |
| CanonicalReading.EncodingDecides | magellan/submission/models.py:22-62 | two payloads encode alike if and only if their canonical values are equal but for the order of dictionary entries, strings and keys escaped as JSON requires |
| CanonicalReading.EncodingKeepsContent | magellan/submission/models.py:22-62 | payloads that encode alike have the same content at every depth, but for the order of dictionary entries and set elements: any other change changes the encoding |
| CanonicalReading.EscapesAreWritten | magellan/submission/models.py:53-62 | strings and keys are escaped as section 7 of RFC 8259 says |
| CanonicalReading.EncodingsApart | magellan/submission/models.py:53-62 | no encoding is the beginning of another, as far as what may follow a value goes |
| Scoring.ScoreActions | magellan/scheduler/scoring.py:129-187 | the scored estimates in score order |
| Scoring.NormalisedIsMonotone | magellan/models/utils.py:34-45 | normalised values lie in [0, 1] and keep the order, strictly |
| Scoring.DominantRanksFirst | magellan/scheduler/scoring.py:168-187 | an action no worse in any metric and better in a weighted one ranks strictly earlier |
| Scoring.ScoreIsUnit | magellan/scheduler/scoring.py:170-175 | scores lie in [0, 1] |
| Scoring.ScoreIsWeightedSum | magellan/scheduler/scoring.py:137-175 | a score is the weighted sum of where time, carbon and cost lie, linearly, between the least and the greatest |
| Scoring.ScoresIgnoreUnits | magellan/scheduler/scoring.py:137-147 | without an adaptive context a positive affine change of any metric changes no score |
| Scoring.BestComesFirst | magellan/scheduler/scoring.py:168-187 | the ranking's first action of any kind is the one of that kind that scores least, the one listed first among equals |
| Scoring.ChoiceIsChosen | magellan/scheduler/scoring.py:190-302 | the choice and its reason from the estimates, in any order: the best action, the best way to stay when a best move is refused by the gap or by a gain below the required fraction of the local score, the continuation when a best pause comes too soon |
| Scoring.MigratesExactlyWhen | magellan/scheduler/scoring.py:257-302 | of any estimates in any order, the task moves exactly when a move scores least of all, the gap has passed and the gain over the best way to stay is large enough |
| Scoring.PausesInsideGapExactlyWhen | magellan/scheduler/scoring.py:213-293 | of any estimates, the task pauses although the pause gap has not passed exactly when a move scores least but is refused and the best way to stay is a pause |
| Scoring.PausesTwiceInARow | magellan/scheduler/scoring.py:265-275 | three estimates whose ranking does that |
| Adaptive.RollingBoundsContain | magellan/policy/adaptive.py:56-95 | the rolling bounds contain the epoch's own values, so the clamp is inert |
| Adaptive.SignalsAreValid | magellan/policy/adaptive.py:97-165 | all signals lie in their ranges |
| Adaptive.MultiplierBounds | magellan/policy/adaptive.py:204-208 | a multiplier lies in [1, 1+b]; its lower clamp never acts |
| Adaptive.PressureMeaning | magellan/policy/adaptive.py:97-208 | how far each weight is raised: time all the way when the deadline leaves no more than what is still needed and not at all otherwise, cost by the spent fraction of the budget, carbon by the carbon a move would save times the square root of the two confidences |
| Adaptive.OpportunityIsSaving | magellan/policy/adaptive.py:128-144 | the carbon opportunity is the fraction of the carbon of the best way to stay that the best move saves, and 0 if it saves nothing |
| Adaptive.AdaptedNearBaseline | magellan/policy/adaptive.py:209-213 | adapted weights sum to 1 and lie within a factor 1+b of the baseline |
| Adaptive.PreparedIsSound | magellan/policy/adaptive.py:216-258 | preparing keeps a task's policy state sound |
| Adaptive.RecordedIsSound | magellan/policy/adaptive.py:260-295 | the history is the latest of all decisions recorded, up to the limit, and the count is their number |
| Adaptive.AdaptivePolicyService.Prepare | magellan/policy/adaptive.py:216-258 | the new state of the task, weights near the unchanged baseline, bounds that cover the estimates |
| Adaptive.AdaptivePolicyService.RecordDecision | magellan/policy/adaptive.py:260-295 | the new state of the task and the decision added to those recorded; every task's state stays sound |
| Replay.BuildRawActions | magellan/scheduler/scoring.py:26-113 | continue first, then every applicable pause, then every affordable move to a compatible peer, in order |
| Replay.RawActionsExactly | magellan/scheduler/scoring.py:26-113 | an estimate is in the list if and only if it continues, is an applicable candidate pause, or is a move to a compatible peer within the cost cap, each with the model's figures |
| Replay.EvaluateTask | magellan/scheduler/scoring.py:305-396 | the estimates, the context prepared from them, the choice they decide, and the policy's state after it; it is a move exactly when a move scores least, the gap has passed and the gain suffices |
| Replay.ReplayCausalPolicy | magellan/experiments/comparison.py:434-667 | the replay is a run of the policy: every decision is evaluated from where the task stands and carried out; its invariants hold at every exit; it gives up exactly when every allowed decision was taken, which for a task that only works means that at most as many are allowed as the duration needs epochs, even though with just as many the work is done |
| Replay.EpochsSuffice | magellan/experiments/comparison.py:476-478 | after k whole epochs what is left counts as done exactly when k is at least the number needed |
| Replay.ReplayConserves | magellan/experiments/comparison.py:641-667 | elapsed time is compute, idle, overhead and migration; work done and left is the duration; the overhead is that of the pauses counted; n moves take at least n-1 gaps |
| Replay.WorkKeepsSound | magellan/experiments/comparison.py:519-551 | a working step keeps the invariants |
| Replay.PauseKeepsSound | magellan/experiments/comparison.py:553-588 | a pause keeps the invariants |
| Replay.MoveKeepsSound | magellan/experiments/comparison.py:590-635 | a move outside the gap keeps the invariants |
| Forecast.FitIsLeastSquares | magellan/carbon/forecast.py:55-80 | no line has a smaller sum of squared residuals than the fitted one, a zero denominator included |
| Forecast.FitIsUnique | magellan/carbon/forecast.py:67-74 | with two different sample times it is the only such line |
| Forecast.LinearSeriesIsRecovered | magellan/carbon/forecast.py:55-80 | samples that lie on a line, at two different times at least, are fitted exactly: the level at the latest one and the change an hour |
| Forecast.BoundAll | magellan/carbon/forecast.py:257-264 | every prediction bounded, and whether a bound was needed |
| Forecast.Trend | magellan/carbon/forecast.py:228-302 | the slope nearest the fitted one within the limit, each value of that line kept within the bounds, their mean, whether anything was clamped, and the confidence from points, fit, freshness and clamping |
| Forecast.OffsetsSpread | magellan/carbon/forecast.py:239-254 | the forecast instants are evenly spaced from the start to the end of the horizon, about a sample apart |
| Forecast.KnownIsPast | magellan/carbon/forecast.py:127-160 | of a series in time order exactly the samples up to the observation are used |
| Forecast.FallbackRepeats | magellan/carbon/forecast.py:88-125 | a fallback repeats its level for the whole horizon |
| Forecast.FreshnessFades | magellan/carbon/forecast.py:163-200 | freshness falls in proportion to the age of the latest sample, to 0 when it is stale |
| Forecast.ConfidenceFades | magellan/carbon/forecast.py:196-225 | confidence in the latest sample falls in proportion to missing points and to its age |
| Forecast.ForecastLevel | magellan/carbon/forecast.py:127-302 | which source is used for every history, and its level and confidence; a trend whenever the history is recent and long enough; an error exactly without samples and fallback; non-negative levels, confidence in [0, 1] |

## Left out

- The migration protocol is modelled on values: its steps are single writes, so in-place update of the journal object is not captured; `Activation` and the registry and store classes cover the imperative side.
- MigrationTheorems.SingleLiveOwner: says nothing about operator starts and stops, the recovery timer, local write failures between the destination's reply and the source's return, and ownership snapshots pulled during an uncommitted activation.
- MigrationTheorems.BackgroundKeepsInvariant: only broadcasts of committed hops are delivered; those that announce a completion are the subject of `TaskRegistry.LargestClaimWins` instead, where they are delivered in any order.
- MigrationTheorems.StepKeepsInvariant: reconciliation reads a current record, while `reconcile_durable_state` lists records before it takes the lock.
- Activation.Destination.Activate: errors raised inside `copytree` and partially transferred incoming checkpoints; stopping the task is a fault that can be switched on, removing directories is not.
- CrashAtomicity.AtomicExactlyWhen: a removed or copied directory tree counts as two writes, so a crash leaves all, half or none of it.
- TaskRegistry.LargestClaimWins: nothing about accounting fields or the last migration id, which a later update of the same generation overwrites.
- Arbiter.BidArbiter.RunOnce: the two clocks of a round (its own `now` and the store's) are one; the steps of other coroutines between decisions are the subject of `CapacityHandoff` instead.
- BidBook.BidStore.ApplyCreditOutcomes: the informational `auction_credit_after` of a record.
- CapacityHandoff.NeverOvercommitted: the snapshot is one step, as no other coroutine can run between its reads; a bid declares its task's registered demand.
- Catalog.TaskCatalogStore.MergeSnapshot: creation times and the lists of added entries.
- CanonicalReading.EncodingDecides: keys that are not strings, the digits of numbers, and SHA-256 itself.
- Replay.ReplayCausalPolicy: the estimate models of one epoch are arbitrary functions; telemetry and step details.
- Forecast.ForecastLevel: pandas indexing beyond "the last samples up to now", and the details dictionary.
- OraclePlan.ClairvoyantOracle: the outcome's metadata and the details of each edge.
- Journal, registry and store persistence beyond one atomic write each; HTTP, SSH and rsync clients, routes, processes and signals.
- The merge of adaptive policy state between nodes, artifact staging, accounting, telemetry stores, discovery and the experiment scripts.
- The static and at-dispatch policies of `magellan/experiments/comparison.py`, which only pick among single segments.
