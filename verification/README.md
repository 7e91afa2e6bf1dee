# Verification model of the operations API

This project models the concurrent protocols of the API over its shared store, and a few
exact kernels beside them, and proves their properties with Dafny 4.11:

    dafny verify dfyconfig.toml

Each protocol is a state machine: tables are maps or sequences, a database transaction or a
conditional update is one atomic step, what an actor remembers between two steps is its phase,
and every theorem ranges over all finite schedules of all actors (`Run` over a sequence of
actions; an action that is not enabled changes nothing). Beside the machine stands the code in
its own form: classes whose methods change their fields, and loops with invariants, proved
against the functions of the machine. Where a method waits, it lets an arbitrary schedule of the
other actors act (`Await`), so its contract holds in every interleaving.

| module | what it models |
|---|---|
| Outbox, OutboxStatements, OutboxTheorems, OutboxWorkers | the transactional outbox: leases, takeovers, guarded marks, backoff, the worker's tick |
| StreamConnections, StreamDrains, StreamHubs, StreamHandoff, NotificationsControllers | the notification stream: bounded write chain, replay buffer, registry, handoff from replay to live, and the request handler |
| OperationalState | the compare-and-swap of a person's state and its timeline |
| Charges | creating, paying, canceling and sweeping charges, with payment, timeline event and outbox row |
| ExecutionReservation, ExecutionWorlds, ExecutionRunners | the locked reservation of an execution start, and the bounded cycle that reserves and calls |
| OperationalActions | requested, reserved, executed, canceled and recovered actions |
| JsonText, CanonicalJson, ExecutionKeys | the canonical print of JSON values and the 32-bit key computed from it |
| Calendar, IsoDate | the time values of ECMA-262 (section 21.4.1) and the date parameter checked by them |
| Billing | the consumer of payment provider events |
| SlotSearch | the search for a free appointment window |
| TrackProgress | ordered completion of a track and its progress |

## Assumptions

- One logical clock; worker ids are distinct and each worker has one tick in flight; the
  configuration of the outbox does not change during a run. Crashes forget a worker's batch at any point.
- New row ids are unused ones. A charge's `updatedAt` is new on every mutation, so it is modelled
  as a counter. Theorems about cancellation name their one assumption on callers, `Honest`: a
  stamp they send is one that has been read. Without it they fail:
  `Charges.GuessedStampCancelsAPaidCharge` gives a run.
- `FreshMarks` says that a claim writes a state, score and `evaluatedAt` the row has not carried
  together; new `evaluatedAt` values are enough for it. Without it a stale snapshot can win:
  `OperationalState.RepeatedMarkLetsAStaleSnapshotWin` gives a run and
  `OperationalState.StaleSnapshotsWinExactly` says when.
- The handoff theorems speak of events the transport has delivered; one that it loses stays in `owed`.
- The collation that sorts object keys is any total preorder; two different keys may tie in it.
- The newest state-change event is the last appended: no two have the same creation time.
- The ids of track items are not blank; a blank one could never be completed.

## What turned out not to hold

- Two objects equal up to key order can print differently when two of their keys tie in the
  collation, as canonically equivalent strings do. `CanonicalJson.CanonicalExactlyWhenUntied` says
  exactly which values print like all values equal to them.
- EXECUTED and FAILED are not final: the executor's two writes have no status guard, so each can
  replace the other, also after a recovery (`OperationalActions.UnguardedWrites`).
  `OperationalActions.SettledIsFinalExactly` says when a settled row is final;
  `OperationalActions.NoReturn` is what always holds.
- A cancellation is guarded by its stamp and not by the status, so a stamp that is not given out
  yet can cancel a charge that is paid meanwhile; `Charges.StampIsSafeExactly` says which stamps are safe.
- A progress of 100 does not mean finished: archiving the track shows it on every assignment, and
  from 200 items on completions show it early (`TrackProgress.HundredShownExactly`,
  `TrackProgress.ShortTracksExactly`). Progress can fall, exactly after an archive
  (`TrackProgress.ProgressFallsExactly`).
- A billing event that was ignored is not recorded, so a redelivery can still take effect
  (`Billing.IgnoredCanLandLater`); `Billing.NeverLandsExactly` says for which events it cannot. A
  canceled subscription leaves CANCELED on the next event
  about it that does not itself cancel (`Billing.CanceledStaysExactly`).
- Different texts share a 32-bit key; `ExecutionKeys.KeysCollideExactly` says which.

## Model

| member | source | states |
|---|---|---|
| OutboxTheorems.EveryRowChange | apps/api/src/outbox/outbox.repository.ts:33-87 | in every reachable state each step leaves a row alone, claims it (due, or its lease older than the timeout, with the count raised by one and place, due time, settling time and error kept) or marks it from PROCESSING and unlocks it, keeping every other field: RETRY only below `maxAttempts` with the backoff of the row's own count, FAILED only from `maxAttempts` on, PROCESSED only after a successful dispatch |
| OutboxStatements.EveryStatement | apps/api/src/outbox/outbox.repository.ts:33-87 | what each statement leaves of each row, field by field: which rows it touches, what it writes to them, and that everything else stays |
| OutboxStatements.PlaceInQueueStays | apps/api/src/outbox/outbox.repository.ts:34-52 | on every run the creation time the queue is ordered by is the clock of the row's Enqueue |
| OutboxStatements.PlaceInQueueIsKept | apps/api/src/outbox/outbox.repository.ts:34-52 | and it is the same in every continuation |
| OutboxTheorems.MarkBelongsToLatestClaim | apps/api/src/outbox/outbox.repository.ts:56-87 | whatever stale workers do, a mark that takes effect comes from the worker of the row's most recent claim, with the attempt count that claim returned, and touches no other row |
| OutboxTheorems.TerminalForever | apps/api/src/outbox/outbox.repository.ts:36-87 | PROCESSED and FAILED rows never change again |
| OutboxTheorems.AttemptAccounting | apps/api/src/outbox/outbox.repository.ts:36-75 | `attempts` = retries + takeovers + 1 if in flight or settled; at most `maxAttempts` - 1 retries, so `attempts` <= `maxAttempts` + takeovers; PROCESSED rows were delivered at least once |
| OutboxTheorems.UnsettledIsClaimable | apps/api/src/outbox/outbox.repository.ts:36-51 | no unsettled row is lost: it is claimable exactly from a computable instant on |
| OutboxTheorems.OldestAreTaken | apps/api/src/outbox/outbox.repository.ts:34-52 | a claimable, unlocked row with fewer than a batch of claimable rows at least as old is in the batch |
| OutboxTheorems.BackoffDoublesToCap | apps/api/src/outbox/outbox.repository.ts:63-75 | the delay starts at the base, doubles with each attempt and stays at one minute once there, at the latest from attempt 17 on |
| Outbox.RunKeepsInv | apps/api/src/outbox/outbox.worker.ts:53-92 | the invariant over rows, histories and worker memories behind these, on all runs |
| OutboxWorkers.OutboxRepository.ClaimBatch | apps/api/src/outbox/outbox.repository.ts:33-54 | the statement picks a legal selection of the oldest claimable unlocked rows, answers them in that order with the counts it raised, and changes exactly these and in them only status, lease and count |
| OutboxWorkers.OutboxRepository.MarkProcessed | apps/api/src/outbox/outbox.repository.ts:56-61 | settles the row and counts one, exactly when it is PROCESSING under this worker; otherwise nothing changes |
| OutboxWorkers.OutboxRepository.MarkRetry | apps/api/src/outbox/outbox.repository.ts:63-75 | the same for RETRY, with the new time to try |
| OutboxWorkers.OutboxRepository.MarkFailed | apps/api/src/outbox/outbox.repository.ts:77-87 | the same for FAILED |
| OutboxWorkers.OutboxWorker.Tick | apps/api/src/outbox/outbox.worker.ts:53-92 | a stopping worker does nothing; otherwise its own steps are one claim followed, event by event in order, by dispatch and mark, whatever others do between; a rejected claim, applied or not, leaves it without events, and a rejected failure mark ends the tick and forgets the rest |
| OutboxWorkers.OutboxWorker.ProcessEvent | apps/api/src/outbox/outbox.worker.ts:66-90 | one event: dispatch then mark PROCESSED; an error in either ends in one failure mark, which may itself be rejected |
| StreamConnections.SocketSeesPrefix | apps/api/src/notifications/notification-stream-hub.service.ts:80-97 | on every run the frames handed to the socket are a prefix of the frames accepted; while open, `queuedWrites` is the unsettled count and at most 100 |
| StreamConnections.ClosedIsSilent | apps/api/src/notifications/notification-stream-hub.service.ts:80-108 | once closed, nothing more is accepted or reaches the socket |
| StreamConnections.FirstFailureStopsTheStream | apps/api/src/notifications/notification-stream-hub.service.ts:84-96 | the first write that fails is the last frame the socket sees, however many were queued behind it |
| StreamConnections.EveryStep | apps/api/src/notifications/notification-stream-hub.service.ts:47-117 | every step on an open connection, field by field: what joins the chain, what is held back once and up to a hundred, what a failed write or a closing forgets, and what stays |
| StreamDrains.DrainIsExact | apps/api/src/notifications/notification-stream-hub.service.ts:47-58 | the drain holds exactly the buffered events not replayed, each once, ascending by creation time and id |
| StreamHubs.NotificationStreamHub.Add | apps/api/src/notifications/notification-stream-hub.service.ts:29-44 | refused, with nothing changed, exactly when the user has five connections; otherwise registered and fresh |
| StreamHubs.NotificationStreamHub.Remove | apps/api/src/notifications/notification-stream-hub.service.ts:99-108 | keeps the registry equal to the open connections, at most five a user; twice is as good as once |
| StreamHubs.NotificationStreamHub.WriteTo | apps/api/src/notifications/notification-stream-hub.service.ts:80-97 | joins the chain of an open connection, or drops a connection with 100 writes queued |
| StreamHubs.NotificationStreamHub.Settle | apps/api/src/notifications/notification-stream-hub.service.ts:84-97 | the settled head leaves the queue; a failed one takes the connection out of the registry |
| StreamHubs.NotificationStreamHub.DeliverTo | apps/api/src/notifications/notification-stream-hub.service.ts:63-78 | buffers once while replaying, marks the overflow beyond 100, and writes when live |
| StreamHubs.NotificationStreamHub.Deliver | apps/api/src/notifications/notification-stream-hub.service.ts:63-78 | every registered connection of the user gets the event and no other connection changes |
| StreamHubs.NotificationStreamHub.FinishReplay | apps/api/src/notifications/notification-stream-hub.service.ts:47-59 | refuses a closed or overflowed connection, closing it; otherwise goes live with the exact drain to write |
| StreamHubs.NotificationStreamHub.OnApplicationShutdown | apps/api/src/notifications/notification-stream-hub.service.ts:111-117 | leaves nothing registered or open and hands no more frames out |
| StreamHandoff.NoSilentGap | apps/api/src/notifications/notifications.controller.ts:35-66 | on every run, each delivered event after the one the browser names, and each persisted since it registered, was replayed, drained, sent live or is about to be drained, or the browser was told to resync, or the stream is closed, being refused or still replaying |
| StreamHandoff.ToldExactly | apps/api/src/notifications/notifications.controller.ts:88-114 | on an open stream past its handoff the browser was told to resync exactly when it named something and got no page, greeted as new exactly when it named nothing, and otherwise sent the page after the event it named |
| StreamHandoff.PageExactly | apps/api/src/notifications/notifications.controller.ts:95-104 | the page is sent exactly when at most 100 events follow the cursor, and then it is all of them |
| StreamHandoff.RefusalIsNotSilent | apps/api/src/notifications/notifications.controller.ts:54-58 | a refused stream ends closed, after a resync if anything can still be written |
| StreamHandoff.CaughtUpStreamIsComplete | apps/api/src/notifications/notifications.controller.ts:35-66 | once the write chain of a live stream has caught up, everything the browser asked for has reached the socket, or the only answer it got was to resync |
| StreamHandoff.HandoffDrain | apps/api/src/notifications/notification-stream-hub.service.ts:47-59 | finishing the replay refuses the stream or starts a drain that is sorted, duplicate-free and disjoint from the replayed rows |
| StreamHandoff.ReplayComesFirst | apps/api/src/notifications/notifications.controller.ts:88-114 | until the handoff the write chain is unused and what was written is the page, in order |
| StreamHandoff.ReplayStarts | apps/api/src/notifications/notifications.controller.ts:34-54 | a registered connection is fresh and replaying; no name is greeted as new, an unsafe one with a resync, and an id leads to a page only if it is an event of the stream's user |
| StreamHandoff.DrainStep | apps/api/src/notifications/notification-stream-hub.service.ts:47-59 | the drain writes its events one by one in order, each waiting for the one before; a refused or failed write refuses the stream |
| NotificationsControllers.NotificationsController.Replay | apps/api/src/notifications/notifications.controller.ts:88-114 | whatever happens meanwhile, its own steps are the cursor query, the page query and the writes, in order and up to the first refused one; it returns the ids of the page exactly when all of it was taken, and greets when there is no page to send |
| NotificationsControllers.NotificationsController.FindMany | apps/api/src/notifications/notifications.controller.ts:98-104 | the rows after the cursor in order, cut off after 101 |
| NotificationsControllers.NotificationsController.Stream | apps/api/src/notifications/notifications.controller.ts:34-58 | register, replay and hand over: in the end the stream is draining, or it is closed |
| OperationalState.TimelineIsAChain | apps/api/src/people/operational-state.transition.ts:157-229 | for all runs of actors with stale snapshots the appended events form a chain: each `from` is where the timeline stood and differs from `to` |
| OperationalState.ChainLinks | apps/api/src/people/operational-state.transition.ts:157-229 | read pairwise: each `from` is the previous `to`, and no event repeats the previous state |
| OperationalState.TransactionOutcome | apps/api/src/people/operational-state.transition.ts:94-231 | a transaction claims exactly when the active person still carries state, score and stamp of the snapshot, and its legacy score where both have one; a claim writes state, score, stamp and, if the decision has one, the legacy score, keeps the rest, and leaves person and timeline on the next state even if they disagreed before, appending exactly when needed; a lost race changes nothing |
| OperationalState.FastPathExactly | apps/api/src/people/operational-state.transition.ts:47-81 | the call gives up early exactly when the timeline was seen to end in the next state and the snapshot carries the decision with a stamp; a claim could then only have renewed the stamp |
| OperationalState.StatesAreNamed | apps/api/src/people/operational-state.repository.ts:5-63 | the four states and their words; no other value names one |
| OperationalState.AgreeAfterFirstClaim | apps/api/src/people/operational-state.transition.ts:83-231 | from the first claim on, person and timeline agree for good |
| OperationalState.WinnerIsCurrent | apps/api/src/people/operational-state.transition.ts:94-148 | with fresh marks a claim wins exactly when nobody has claimed since its snapshot, the person is active and the legacy score it looked at still stands |
| OperationalState.SnapshotWinsOnce | apps/api/src/people/operational-state.transition.ts:94-148 | one snapshot, in however many hands, wins at most one claim |
| OperationalState.StaleSnapshotsWinExactly | apps/api/src/people/operational-state.transition.ts:94-148 | on any schedule at all, some reader along the way could win with a stale snapshot exactly when the active person's row carries a state, score and stamp it has carried before |
| OperationalState.RepeatedMarkLetsAStaleSnapshotWin | apps/api/src/people/operational-state.transition.ts:94-148 | a run with a repeated mark in which a stale snapshot wins |
| OperationalState.OperationalStateStore.GetLastState | apps/api/src/people/operational-state.repository.ts:17-63 | a state exactly when the newest event names it in `to`, or in `state` when `to` is missing or null; every other metadata is nothing |
| OperationalState.ChangeReadsBack | apps/api/src/people/operational-state.transition.ts:172-195 | the event a transition appends reads back as where the timeline stood and the next state, whatever metadata the caller adds and with UNKNOWN read as nothing |
| OperationalState.OperationalStateStore.Transact | apps/api/src/people/operational-state.transition.ts:83-231 | the transaction does to row and timeline what the protocol step does; after a claim the row has the decision's state, score and stamp, its legacy score if it has one and the old one otherwise, and is as active as before |
| OperationalState.OperationalStateStore.Persist | apps/api/src/people/operational-state.transition.ts:22-250 | the whole call: fast path, or the transaction after whatever others did in between |
| Charges.OnePaymentPerPaidCharge | apps/api/src/finance/finance.service.ts:943-1061 | over every interleaving of payments, stale cancellations and sweeps: a charge has at most one payment, one exactly when PAID, and of its own amount |
| Charges.AllPayersSeeOnePayment | apps/api/src/finance/finance.service.ts:973-1007 | every payer of a charge that succeeds is given the same payment id |
| Charges.PaymentIsRecordedOnce | apps/api/src/finance/finance.service.ts:1009-1059 | each payment has exactly one PAYMENT_RECEIVED timeline event and one outbox row, of its charge and amount |
| Charges.NoRecordWithoutPayment | apps/api/src/finance/finance.service.ts:1009-1059 | and there is no such event or row without its payment |
| Charges.SettledForGood | apps/api/src/finance/finance.service.ts:757-811 | PAID and CANCELED are final as long as cancellations carry a stamp that was read |
| Charges.SweepOutcome | apps/api/src/finance/finance.service.ts:1289-1296 | a sweep makes exactly the PENDING charges due before today OVERDUE, keeping amount, due date, key and payment time, and leaves every other charge alone; it never creates a PAID or a CANCELED one |
| Charges.PayReads | apps/api/src/finance/finance.service.ts:945-972 | a payment goes on to its update exactly when the charge is there and not canceled and the amount is positive, safe and the charge's own; each refusal names the first check that fails |
| Charges.PayOutcome | apps/api/src/finance/finance.service.ts:973-1059 | the update turns a PENDING or OVERDUE charge PAID at the given time and writes payment, event and outbox row of that amount, or writes nothing |
| Charges.PaidAlready | apps/api/src/finance/finance.service.ts:981-1007 | a charge that is paid already answers its latest payment, or that it is paid exactly when it has none |
| Charges.CancelReads | apps/api/src/finance/finance.service.ts:757-781 | a cancellation goes on to its update exactly for an open charge; a paid one is refused and a canceled one answered as such |
| Charges.CancelOutcome | apps/api/src/finance/finance.service.ts:784-811 | the update cancels exactly on the stamp it was sent, whatever the status by then, and keeps what the charge is about |
| Charges.CreateOutcome | apps/api/src/finance/finance.service.ts:536-569 | a new charge is PENDING and unpaid with the given amount, due date and key, and comes with its event and outbox row; a bad amount or a used key writes nothing |
| Charges.TermsAreKept | apps/api/src/finance/finance.service.ts:943-1061 | on every run and continuation amount, due date and key of a charge stay as they were created |
| Charges.GuessedStampCancelsAPaidCharge | apps/api/src/finance/finance.service.ts:784-797 | with a stamp nobody has read yet, a cancellation can hit a charge after it was paid |
| Charges.StampIsSafeExactly | apps/api/src/finance/finance.service.ts:757-811 | a cancellation of an open charge can never leave it canceled and paid, whatever happens before it commits, exactly when its stamp was given out before it reads the charge |
| Charges.FinanceService.CreateCharge | apps/api/src/finance/finance.service.ts:536-569 | charge, timeline event and outbox row together, or nothing when the amount or a used key refuses it |
| Charges.FinanceService.Enqueue | apps/api/src/outbox/outbox.service.ts:26-46 | appends the row unless its idempotency key is taken |
| Charges.FinanceService.SettleCharge | apps/api/src/finance/finance.service.ts:973-1061 | an open charge is paid with all its records or nothing changes; a paid one answers its latest payment; a canceled one is refused |
| Charges.FinanceService.LatestPayment | apps/api/src/finance/finance.service.ts:992-1004 | a payment of the charge that no other of its payments follows, or none |
| Charges.FinanceService.CancelIfUnchanged | apps/api/src/finance/finance.service.ts:784-811 | cancels exactly when the stamp still matches |
| Charges.FinanceService.AutomateOverdueLifecycle | apps/api/src/finance/finance.service.ts:1289-1296 | every PENDING charge due before today becomes OVERDUE with everything but its stamp kept, no other changes, and the count is theirs |
| ExecutionReservation.StartsAreSpaced | apps/api/src/execution/execution.runner.ts:189-331 | any start is more than its own throttle window after every earlier start and executed event of its key, on every run of overlapping cycles |
| ExecutionReservation.NoMoreCallsThanStarts | apps/api/src/execution/execution.runner.ts:1104-1180 | each start leads to at most one call, so a key has no more calls than starts |
| ExecutionReservation.AtMostOneStartPerWindow | apps/api/src/execution/execution.runner.ts:231-317 | two starts of a key within one window are the same start |
| ExecutionReservation.EveryStatement | apps/api/src/execution/execution.runner.ts:189-331 | a reservation appends a start of key and window exactly when no start or executed event of the key lies inside the window and the tenant allows it; a call is recorded as executed exactly when it succeeded and could be recorded |
| ExecutionReservation.ExecutionEvents.ReserveExecutionStart | apps/api/src/execution/execution.runner.ts:189-331 | a recent event of the key comes first, then the tenant's limit; only otherwise one start is appended |
| ExecutionWorlds.World.ReserveStart | apps/api/src/execution/execution.runner.ts:231-317 | the transaction is the Decide and Reserve steps of the protocol, and a reserved start is one of the key on the timeline |
| ExecutionRunners.SortIsStable | apps/api/src/execution/execution.runner.ts:48-50 | the sort is the candidates of each priority in their old order, highest first |
| ExecutionRunners.TallyTotal | apps/api/src/execution/execution.runner.ts:136-139 | the counters of the reasons add up to the number of refusals they count |
| ExecutionRunners.MayExecuteExactly | apps/api/src/execution/execution.runner.ts:916-1180 | in the candidate's and the policy's own fields: the action is called exactly in automatic mode with nothing cooling down, the flag of this very action set, at most 500,000 cents, no governance block, alert and attention over their thresholds, nothing recent, retries left, plan and meter open and a start reserved |
| ExecutionRunners.EarlyReasons | apps/api/src/execution/execution.runner.ts:916-1029 | the reasons of cooldown, mode and each policy flag, and that they come in this order |
| ExecutionRunners.GovernanceReasons | apps/api/src/execution/execution.governance.ts:14-55 | the reasons of amount, block and thresholds, in this order |
| ExecutionRunners.LateReasons | apps/api/src/execution/execution.runner.ts:1050-1160 | the reasons of the timeline, retries, plan, meter and reservation, in this order |
| ExecutionRunners.CallVerdicts | apps/api/src/execution/execution.runner.ts:115-125 | a call that succeeds is Executed, one of six known errors Blocked under its reason, any other error Failed |
| ExecutionRunners.StepsOfACall | apps/api/src/execution/execution.runner.ts:1104-1284 | a reserved call is one start for the candidate's own key and window, one call and one record, as executed exactly when it succeeded and was recorded |
| ExecutionRunners.CooldownIsPerCandidate | apps/api/src/execution/execution.runner.ts:64-66 | two candidates cool down together exactly when organisation, decision, action and entity agree |
| ExecutionRunners.ExecutionRunner.IsCandidateInRecentCooldown | apps/api/src/execution/execution.runner.ts:68-77 | true exactly while the candidate's key is blocked; an expired entry is dropped |
| ExecutionRunners.ExecutionRunner.ProcessCandidate | apps/api/src/execution/execution.runner.ts:838-1284 | the verdict is that of the first check that refuses, with the timeline read when it is asked; the action is called exactly when none does, so only with the flag of the action set, at most 500,000 cents, no block and thresholds met, and then for a start of the candidate's key reserved by its own protocol steps; one reason is counted exactly for a refusal; Executed is one recorded success more; a candidate found executed recently cools down |
| ExecutionRunners.ExecutionRunner.ReserveAndRun | apps/api/src/execution/execution.runner.ts:1104-1284 | Decide and Reserve, and after a reserved start one call and its record, a call that cannot be recorded counting as failed |
| ExecutionRunners.ExecutionRunner.RunOrganization | apps/api/src/execution/execution.runner.ts:478-512 | a prefix of the sorted candidates is processed, short only when the cap is reached; each gets one verdict its readings allow, each verdict raises its own counter, and `executed` counts this instance's successful, recorded calls |
| ExecutionRunners.ExecutionRunner.RunOnce | apps/api/src/execution/execution.runner.ts:443-532 | `executed` is the number of successful, recorded calls and stays within the cap; the four counters are the numbers of the verdicts given; outcomes never exceed candidates and equal them below the cap; reasons add up to the blocked; organisation by organisation a stable priority-sorted prefix; an early cycle is delayed and does nothing |
| OperationalActions.OneRequestedPerKey | apps/api/src/bootstrap/operational-actions-startup-check.ts:29-42 | at most one REQUESTED row per organisation and logical key, on every run |
| OperationalActions.RowsOnlyMove | apps/api/src/operational-actions/operational-actions.service.ts:79-185 | every way a row's status can change in one step |
| OperationalActions.ExecutorStatements | apps/api/src/operational-actions/operational-actions.service.ts:87-123 | what each statement of an executor writes and to which row, with key and age kept and every other row untouched; only the reservation has a guard |
| OperationalActions.GuardedStatements | apps/api/src/operational-actions/operational-actions.service.ts:55-185 | insert, cancel and recover take effect exactly under their guards, and what they write |
| OperationalActions.Lookups | apps/api/src/operational-actions/operational-actions.service.ts:54-155 | what each lookup takes up: no REQUESTED row, the newest row if REQUESTED, or a row EXECUTING for more than five minutes |
| OperationalActions.StatementsOfATry | apps/api/src/operational-actions/operational-actions.service.ts:90-123 | the side effect starts unless a check threw first, EXECUTED is written exactly after it succeeded, and FAILED last exactly when something threw |
| OperationalActions.NoReturn | apps/api/src/operational-actions/operational-actions.service.ts:79-185 | over all interleavings, a slow executor after a recovery included: no return to REQUESTED or EXECUTING, and CANCELED stays |
| OperationalActions.SideEffectAtMostOnce | apps/api/src/operational-actions/operational-actions.service.ts:90-123 | each row starts its side effect at most once, and a canceled row never does |
| OperationalActions.SettledIsFinalExactly | apps/api/src/operational-actions/operational-actions.service.ts:79-185 | an EXECUTED or FAILED row keeps its status in every continuation exactly when nobody is past the reservation of an EXECUTED row or before the write of a FAILED one |
| OperationalActions.UnguardedWrites | apps/api/src/operational-actions/operational-actions.service.ts:112-123 | past its reservation an executor turns any status into EXECUTED, and a failing log turns that into FAILED |
| OperationalActions.OperationalActionsService.Request | apps/api/src/operational-actions/operational-actions.service.ts:49-69 | Found exactly when a REQUESTED row of the key is there at first, refused exactly when there is none in the end; Created means this call's row |
| OperationalActions.OperationalActionsService.FindExecution | apps/api/src/operational-actions/operational-actions.service.ts:75-77 | a newest row of the key, or none when there is none |
| OperationalActions.OperationalActionsService.Execute | apps/api/src/operational-actions/operational-actions.service.ts:79-123 | answered as executed exactly when the newest row of the key is EXECUTED when looked up, refused exactly when there is none or it is EXECUTING, FAILED or CANCELED; otherwise its own steps, in order, for each way the call can go, whatever others do between |
| OperationalActions.OperationalActionsService.Cancel | apps/api/src/operational-actions/operational-actions.service.ts:125-139 | answered as canceled exactly when the newest row of the key is, refused exactly when there is none or it has started; otherwise one guarded update, and a success leaves the row CANCELED |
| OperationalActions.OperationalActionsService.Recover | apps/api/src/operational-actions/operational-actions.service.ts:142-185 | goes ahead exactly when the row has been EXECUTING for over five minutes, and checks again in the update |
| JsonText.ReadUndoesQuote | apps/api/src/execution/execution.idempotency.ts:13-22 | reading a quoted, escaped text of any UTF-16 units, lone surrogates included, gives the text back |
| JsonText.OtherEscapes | apps/api/src/execution/execution.idempotency.ts:13-22 | control units and surrogates on their own are written in lower-case hexadecimal, units without an escape as they are |
| CanonicalJson.ParseUndoesPrint | apps/api/src/execution/execution.idempotency.ts:13-22 | a parser reads every printed value back, whatever follows that cannot continue a number |
| CanonicalJson.PrintIsJson | apps/api/src/execution/execution.idempotency.ts:13-22 | a print is the literal, the number, the quoted string, or the joined prints of the items or of key, colon and value between their brackets |
| CanonicalJson.PrintIsInjective | apps/api/src/execution/execution.idempotency.ts:13-22 | different values print differently, entry order included |
| CanonicalJson.EqualPrintsMeanEqualValues | apps/api/src/execution/execution.idempotency.ts:13-22 | equal stable prints come from values equal up to key order, with or without ties |
| CanonicalJson.PrintsTheSortedValue | apps/api/src/execution/execution.idempotency.ts:13-22 | what is printed equals the input up to key order and has its keys in ascending order at every depth |
| CanonicalJson.StableStringifyIsCanonical | apps/api/src/execution/execution.idempotency.ts:13-22 | for two values without tied keys the stable prints are equal exactly when the values are equal up to key order |
| CanonicalJson.CanonicalExactlyWhenUntied | apps/api/src/execution/execution.idempotency.ts:13-22 | a value prints like all values equal to it up to key order exactly when none of its objects, at any depth, has two keys that tie in the comparison |
| CanonicalJson.CanonicalExactlyWithoutTies | apps/api/src/execution/execution.idempotency.ts:13-22 | equal prints decide equality up to key order for all pairs of values exactly under a comparison that ties no two keys |
| CanonicalJson.SortIsStable | apps/api/src/execution/execution.idempotency.ts:17-21 | sorting keeps the order of the entries the comparison cannot tell apart |
| CanonicalJson.TiedKeysPrintInInsertionOrder | apps/api/src/execution/execution.idempotency.ts:17-21 | two tied keys give two equal objects with different prints |
| ExecutionKeys.HashString | apps/api/src/execution/execution.idempotency.ts:24-31 | the loop with its shift and truncations computes the key of the reduced polynomial |
| ExecutionKeys.HashIsReducedPolynomial | apps/api/src/execution/execution.idempotency.ts:24-31 | the hash is congruent modulo 2^32 to the base-31 polynomial of the code units, and its magnitude is at most 2^31 |
| ExecutionKeys.KeysCollideExactly | apps/api/src/execution/execution.idempotency.ts:24-31 | two texts share a key exactly when their polynomials agree modulo 2^32 up to sign |
| ExecutionKeys.ValueUndoesToString | apps/api/src/execution/execution.idempotency.ts:30 | the base 36 digits of the key stand for the number they were made from |
| ExecutionKeys.DifferentTextsCanShareAKey | apps/api/src/execution/execution.idempotency.ts:24-31 | two texts with one key |
| ExecutionKeys.KeyIgnoresKeyOrder | apps/api/src/execution/execution.idempotency.ts:33-47 | a value without tied keys gets the same key as every value equal to it up to key order |
| ExecutionKeys.SameTextExactly | apps/api/src/execution/execution.idempotency.ts:33-47 | two inputs have the same text hashed exactly when action, decision, entity, organisation, mode and scope agree, a missing scope being "default", and the payloads are equal up to key order, a missing one being null |
| ExecutionKeys.KeyTextIs | apps/api/src/execution/execution.idempotency.ts:30 | the key is "exec_" and the magnitude of the hash in base 36 |
| ExecutionKeys.HashOfThree | apps/api/src/execution/execution.idempotency.ts:24-31 | the hash of any three code units is their number to base 31 |
| Calendar.DaysAreDates | apps/api/src/analytics/analytics.controller.ts:33-44 | day numbers and real proleptic Gregorian dates correspond one to one |
| Calendar.DaysCountFromTheEpoch | apps/api/src/analytics/analytics.controller.ts:33-44 | day 0 is 1 January 1970 and each day is followed by the next date of the Gregorian calendar |
| Calendar.TimeOfFieldsOf | apps/api/src/analytics/analytics.controller.ts:33-44 | the UTC fields of every time value are real and give it back |
| Calendar.FieldsOfTimeOf | apps/api/src/analytics/analytics.controller.ts:33-44 | real fields come back from their time value |
| IsoDate.ScanUndoesText | apps/api/src/analytics/analytics.controller.ts:17-32 | the pattern reads every text of a stamp back |
| IsoDate.TextUndoesScan | apps/api/src/analytics/analytics.controller.ts:17-32 | and matches nothing else |
| IsoDate.ProbeAcceptsExactly | apps/api/src/analytics/analytics.controller.ts:33-44 | the probe accepts exactly the real dates and times from the year 100 on, since `Date.UTC` remaps the years before |
| IsoDate.AcceptedExactly | apps/api/src/analytics/analytics.controller.ts:19-55 | a text is accepted exactly when it is the text of a real date from the year 100 on with an offset up to 23:59 |
| IsoDate.AcceptedReadsBack | apps/api/src/analytics/analytics.controller.ts:19-55 | the instant is the one at which a clock ahead by the signed hours and minutes of the offset shows what is written |
| IsoDate.RealStampsAre | apps/api/src/analytics/analytics.controller.ts:33-52 | the accepted stamps in their own fields: year from 100, a day its month has, 29 February only in leap years, a clock time, an offset up to 23:59 |
| IsoDate.RejectedExactly | apps/api/src/analytics/analytics.controller.ts:19-55 | absent exactly without a value, malformed exactly when no stamp has this text, invalid exactly when its stamp is not real |
| IsoDate.FractionsAre | apps/api/src/analytics/analytics.controller.ts:32 | one, two or three digits of fraction count tenths, hundredths and thousandths of a second |
| IsoDate.KnownInstant | apps/api/src/analytics/analytics.controller.ts:19-55 | one text with fraction and offset, and its instant |
| Billing.SubscriptionsAreTheFold | apps/api/src/billing/billing.service.ts:179-322 | for any stream with redelivery and reordering, the rows are the fold of the events that took effect, and the record lists these in that order |
| Billing.RecordedAtMostOnce | apps/api/src/billing/billing.service.ts:179-186 | no provider event id is recorded twice |
| Billing.RedeliveryChangesNothing | apps/api/src/billing/billing.service.ts:179-186 | anything redelivered under a recorded id, at any later time, changes nothing |
| Billing.OnlyEffectiveDeliveriesMatter | apps/api/src/billing/billing.service.ts:179-322 | dropping what took no effect leads to the same store |
| Billing.RecordedExactlyWhenApplied | apps/api/src/billing/billing.service.ts:179-327 | a delivery is recorded exactly when it changes the store |
| Billing.IgnoredCanLandLater | apps/api/src/billing/billing.service.ts:258-262 | an ignored event can take effect when it is redelivered |
| Billing.NeverLandsExactly | apps/api/src/billing/billing.service.ts:179-307 | a delivery that was ignored or refused never takes effect when redelivered, whatever comes first, exactly when its id is recorded already, or it is a checkout lacking metadata, or it names no subscription |
| Billing.OneSubscriptionPerOrg | apps/api/src/billing/billing.service.ts:225-246 | over any run an organisation has at most one subscription and keeps the one it has |
| Billing.StampsFollowStatus | apps/api/src/billing/billing.service.ts:264-306 | a canceled subscription has a cancellation time, and besides it only one past due can |
| Billing.OnlyTheTouchedRowChanges | apps/api/src/billing/billing.service.ts:191-307 | a delivery changes one row at most, and the record names that row |
| Billing.RowsBecomeOnly | apps/api/src/billing/billing.service.ts:225-306 | every way a field of a row may change: only a checkout links a provider subscription, invoices leave plan and customer alone, a period moves only to what the event names, a cancellation time appears only with a cancellation |
| Billing.HandledExactly | apps/api/src/billing/billing.service.ts:191-286 | an invoice or subscription event is handled exactly when a row carries its reference, a checkout exactly with its metadata and a known plan; only a checkout is refused, and how |
| Billing.PaidInvoiceOutcome | apps/api/src/billing/billing.service.ts:252-277 | after a paid invoice its subscription is ACTIVE with no cancellation time, its period moved to what the invoice names and all else kept; the event is COMPLETED with the amount paid |
| Billing.FailedInvoiceOutcome | apps/api/src/billing/billing.service.ts:252-277 | after a failed one it is PAST_DUE with its cancellation time kept; the event is FAILED with the amount due |
| Billing.CheckoutOutcome | apps/api/src/billing/billing.service.ts:209-250 | after a checkout the organisation is ACTIVE on the plan of the metadata with no cancellation time, a row that was there keeping its period; the event is COMPLETED with the plan's price |
| Billing.SubscriptionOutcome | apps/api/src/billing/billing.service.ts:279-307 | after a deletion the row is CANCELED, after an update what the provider's word names, with a cancellation time exactly when CANCELED; plan, customer and period follow what the event names |
| Billing.StatusWords | apps/api/src/billing/billing.service.ts:350-356 | which words of the provider name which status; any other suspends |
| Billing.PlanByPrice | apps/api/src/billing/billing.service.ts:344-348 | a configured price decides the plan, in the order of the configuration, and the metadata only when none matches |
| Billing.NewRowsAreFirst | apps/api/src/billing/billing.service.ts:225-237 | a row that appears is an organisation's first, active for thirty days from its checkout on |
| Billing.CanceledStaysExactly | apps/api/src/billing/billing.service.ts:264-306 | a canceled row stays so exactly until an event that does not cancel touches it |
| Billing.DifferentSubscriptionsCommute | apps/api/src/billing/billing.service.ts:252-307 | events about different subscriptions may arrive in either order |
| Billing.BillingService.HandleWebhook | apps/api/src/billing/billing.service.ts:165-207 | the transaction is one protocol step; a refusal leaves the store as it was |
| Billing.BillingService.ProcessCheckoutCompleted | apps/api/src/billing/billing.service.ts:209-250 | creates the organisation's row for thirty days, or rewrites it keeping its period |
| Billing.BillingService.ProcessInvoice | apps/api/src/billing/billing.service.ts:252-277 | renews or marks past due the subscription of the invoice, if there is one: any row that changes is ACTIVE without cancellation time after a paid one and PAST_DUE after a failed one, and the event says which and over which amount |
| Billing.BillingService.ProcessStripeSubscription | apps/api/src/billing/billing.service.ts:279-308 | brings a known subscription in line with the provider's |
| SlotSearch.ResolveNonOverlappingWindow | prisma/seed-pilot.ts:58-88 | ends on every table; in the window it returns, of the same length, no other appointment of the organisation lies, and one blocks every earlier start from the desired one on |
| SlotSearch.FirstConflict | prisma/seed-pilot.ts:69-79 | the first conflicting row by start and id, or none exactly when the window is free |
| SlotSearch.LaterLeavesFewer | prisma/seed-pilot.ts:68-86 | what falls in every round: how many appointments end after the candidate start |
| SlotSearch.EarliestIsUnique | prisma/seed-pilot.ts:58-88 | the answer depends neither on the order of the rows nor on which conflict is taken first |
| SlotSearch.ConflictMeansSharedInstant | prisma/seed-pilot.ts:75-76 | for windows and rows that last, the filter means sharing an instant |
| SlotSearch.AppointmentTable.Place | prisma/seed-pilot.ts:235-266 | placing appointments one after the other keeps those of an organisation apart |
| TrackProgress.CompletionsAreAPrefix | apps/api/src/assignments/assignments.service.ts:169-187 | whatever is asked for, archives and rebuilds included, completions are a prefix of the track, and no more than its items are granted |
| TrackProgress.CompleteKeepsInv | apps/api/src/assignments/assignments.service.ts:144-202 | a request is granted exactly when it names the next item |
| TrackProgress.RepliesExactly | apps/api/src/assignments/assignments.service.ts:144-202 | every reply exactly, in the order of the checks: blank id, empty track, done already, not the next item; otherwise the item is done and the progress is the nearest percentage; a refusal changes nothing |
| TrackProgress.ProgressIsTheShare | apps/api/src/assignments/assignments.service.ts:189-195 | on every run the progress is the percentage of what is done, unless the last to write it was an archive of the track, and then 100 |
| TrackProgress.RebuildChangesExactly | apps/api/src/assignments/assignments.service.ts:251-293 | a rebuild reports the percentage of what is done, and changes the progress exactly when an archive overstated it |
| TrackProgress.ProgressGrows | apps/api/src/assignments/assignments.service.ts:189-195 | progress stays within 0..100, and what completions have shown is never lost |
| TrackProgress.ProgressFallsExactly | apps/api/src/tracks/tracks.service.ts:220-223 | a request lowers the progress exactly when it is the first to write over an archive of a track still below 100 |
| TrackProgress.PercentRounds | apps/api/src/assignments/assignments.service.ts:190 | the progress is the nearest whole percentage, halves rounded up |
| TrackProgress.ShortTracksExactly | apps/api/src/assignments/assignments.service.ts:189-208 | while no archive was the last to write it, a progress of 100 means finished on exactly the tracks of fewer than 200 items |
| TrackProgress.HundredShownExactly | apps/api/src/tracks/tracks.service.ts:220-223 | 100 is shown exactly after an archive, and from 99.5% on |
| TrackProgress.ArchiveShowsHundred | apps/api/src/tracks/tracks.service.ts:220-223 | an archive shows 100 and completes nothing |
| TrackProgress.FinishedExactly | apps/api/src/assignments/assignments.service.ts:189-208 | finished is reported exactly with the last item, and below 200 items exactly at 100 |
| TrackProgress.InOrderFinishes | apps/api/src/assignments/assignments.service.ts:119-142 | asking for the items in order completes the track |
| TrackProgress.AssignmentsService.GetNextItem | apps/api/src/assignments/assignments.service.ts:119-142 | the first item not done, or none at the end |
| TrackProgress.AssignmentsService.CompleteItem | apps/api/src/assignments/assignments.service.ts:144-211 | one protocol step, with the errors in the order the code checks them |
| TrackProgress.AssignmentsService.RebuildProgress | apps/api/src/assignments/assignments.service.ts:251-300 | recomputes the progress from the completions; an empty track is left alone |
| TrackProgress.AssignmentsService.ArchiveTrack | apps/api/src/tracks/tracks.service.ts:220-223 | writes 100 to an assignment below it and touches nothing else of it |

## Left out

- Controllers' routing, guards, validation of request bodies, tracing, email, text and metrics: no state to reason about.
- The engines behind the store, the payment provider, Redis and messaging: a statement or transaction is one atomic step, a call succeeds or fails arbitrarily.
- `updateCharge` and `ensureChargeForServiceOrderDone`: the first may edit the amount of a paid charge, the second checks and creates without a guard, so the conservation laws are not theirs.
- Insides of the idempotency, tenant, commercial policy, risk and timeline services: their answers are parameters.
- The policy flags `allowWhatsAppAuto` and `allowOverdueReminderAuto`: `processCandidate` does not read them.
- Charges are those of one organisation, and `cancelCharge` and `payCharge` are modelled from their first read of the charge on.
- The drain loop of `finishReplay` is steps of the protocol only, not a method; heartbeats, revalidation and expiry end a stream like any closing of the browser.
- A query or an event write of the runner that rejects, other than the record of a call that was made: it ends the cycle.
- Heartbeat frames and the time limit of a socket write: a write succeeds or fails at any time.
- Dispatch of an outbox event by type, and the clean-up of error texts: an event is delivered or an error is thrown.
- The order of two steps inside the canonical print: the model makes an object's values canonical before it sorts the entries, the code after; the print is the same.
- Integer-like keys, which objects list first in ascending order whatever the insertion order: for a tie between two of them the two orders of `CanonicalJson.TiedKeysPrintInInsertionOrder` and of `CanonicalJson.CanonicalExactlyWhenUntied` are not both inputs.
- JSON numbers are their texts; `undefined`, `NaN` and values with `toJSON` are not modelled.
- The text of an action's logical key: the key is a value, so two inputs the text would confuse are one key here.
- TrackProgress.PercentRounds: quotients in `Math.round` are exact rationals; the binary rounding of the quotient can move a percentage that lies on a half, as 29 of 200 items.
- The date text is read by the engine as its fields less its offset, also with fewer than three digits of fraction.
- Cancellation and simulated checkout from inside the application, and plan changes outside the plans each delivery sees.
- A track's items do not change while it is being completed, and who may act on an assignment is not modelled.
- Dashboards, summaries, exports and the rest of the seed data: folds and copies that would only add easy members.
