# Verified models of the gateway's hard cores

The repository is an AI gateway written in Rust. This project models the parts of it whose
correctness does not show from reading one function, and proves what those parts are for:

- **Waiting for capacity** (`WaitQueue`, `CapacityGate`, `WakeProtocol`): a multi-key FIFO with a
  global cap, once as the object behind the lock and once as a system of interleaved steps in which
  polls, enqueues, locked removals and late wake-ups mix freely.
- **Draining and cancellation** (`Drain`, `Cancellation`): a draining bit and a guard count packed
  into one atomic word, and a one-shot broadcast token with a double check under a lock. Every atomic
  access is one step; the invariants hold over all interleavings.
- **Backups** (`BackupPolicy`, `BackupStore`, `BackupFrames`, `BackupTask`, `BackupWitness`): the cron
  search and the retention rule; the durable state (settings, rows, staged archives, bucket) with
  everything the worker and the administrator can do to it; and the worker's cycle itself. What the
  outside answers during a cycle is an input of the cycle (`Environment`): whether the repository works,
  whether anybody edits or time passes, and per row what a dump, an upload, a HEAD request and a deletion
  come to. Others may act before each call. The states a stage read are outputs of its contract; each is
  tied to what came before and after it, and the run goes through them in order. A ghost trace records every effect, so any state in which a crash could stop
  the worker ends a legal run, and what holds of all legal runs holds after the crash.
- **Quota forecasting** (`ForecastSampling`, `QuotaWindows`, `ForecastProjection`): the one-pass
  segmentation of observations, the representative window, and the projection arithmetic.
- **Canonical values** (`DecimalAmount`, `EventValidator`): the `numeric(20,10)` text form and the order
  of canonical events in a response stream, including the stream wrapper that enforces it.

Objects that the program updates in place are classes, and each of their methods is proved against a
value function or predicate; the lemmas are about those. Atomic protocols are step systems on values,
because their point is what other threads do between two accesses.

Where the code differs from what its documentation says:

- `last_firing_at_or_before` treats "nothing fires later" as "not beyond the queried minute". It finds
  the latest firing in its window if and only if something fires later, or the queried minute itself
  fires, or the window is empty. `SearchMissesTheLastEverFiring` is a plan it gets wrong.
- The retention rule is documented to keep the newest successful scheduled backup whatever the
  thresholds. The rule does; but the expiry scan in the same pass may delete that record, because
  scheduled records carry an expiry of their own. The worker retires the newest backup only past its own
  expiry, whatever interferes (`NewestOnlyExpires`); undisturbed, and with no more expired rows than a
  batch holds, it does so if and only if that expiry has passed, where an expiry that falls into the pass
  itself may go either way (`NewestRetiredExactlyWhenExpired`). `NewestCanExpire` is a run of the worker
  from a new installation to the deletion of its only backup.
- Scheduled instants strictly increase in every run if no plan has a last firing (`CrashSafety`). Any plan
  with one can repeat it: with no later firing the cursor stays where it is, and when the failed record of
  that minute is deleted before the minute is over, a restarted worker inserts it again
  (`LastFiringRepeats`, a run of the worker's own stages from a new installation).
- Batched retention ends with the survivors of the rule if and only if no record to delete is out of the
  scan's reach. `ScanLimitHidesARecord` is a list of 1001 records on which no number of passes gets there.
- `can_try` protects the queue only while the holder's last `wait` returned Ok; `TimedOutMayTry` is a
  run in which a request behind the front is let through after a timeout.
- `observe` stores the kind of a repeated content index although it refuses the event.

## Model

| member | source | states |
|---|---|---|
| WaitQueue.AccountingHolds | backend/crates/gateway-core/src/concurrency.rs:46-194 | After any sequence of enqueues and drops, `total` is the sum of the queue lengths and the number of outstanding tickets, lies between 0 and 1024, no empty deque is stored, and the queued wakers are exactly the outstanding tickets, in enqueue order under their own keys |
| WaitQueue.FullExactlyWhenNoRoom | backend/crates/gateway-core/src/concurrency.rs:84-102 | An enqueue fails for lateness if and only if it comes at or past the deadline, as Full if and only if before it and 1024 tickets are outstanding or every listed queue has reached the limit; a failure changes nothing |
| WaitQueue.EnqueueJoinsShortest | backend/crates/gateway-core/src/concurrency.rs:94-115 | A granted ticket is at the tail of the first shortest listed queue below the limit; no other queue changes length |
| WaitQueue.HeadStaysHead | backend/crates/gateway-core/src/concurrency.rs:170-194 | Over any run that does not drop it, a ticket stays outstanding, and at the front if it was there |
| WaitQueue.FifoOrder | backend/crates/gateway-core/src/concurrency.rs:78-194 | Two tickets of one key keep their order over any run that drops neither |
| WaitQueue.WaitersAreOutstanding | backend/crates/gateway-core/src/concurrency.rs:69-76 | A key has waiters if and only if a ticket for it is outstanding |
| WaitQueue.HeadIsOldest | backend/crates/gateway-core/src/concurrency.rs:140-145 | In front of its queue is exactly the ticket granted before all others outstanding for its key |
| WaitQueue.RemoveTakesOne | backend/crates/gateway-core/src/concurrency.rs:170-194 | Dropping takes back exactly that ticket, and wakes exactly the new front, if the front was dropped and somebody is left |
| WaitQueue.ConcurrencyWaitQueue.constructor | backend/crates/gateway-core/src/concurrency.rs:56-65 | A new queue is empty and satisfies the accounting invariant |
| WaitQueue.ConcurrencyWaitQueue.WaitersFor | backend/crates/gateway-core/src/concurrency.rs:69-76 | True exactly if the key's queue holds somebody |
| WaitQueue.ConcurrencyWaitQueue.EnqueueTicket | backend/crates/gateway-core/src/concurrency.rs:78-116 | New state and result are those of the specification `Enqueue` |
| WaitQueue.ConcurrencyWaitQueue.DropTicket | backend/crates/gateway-core/src/concurrency.rs:170-194 | New state and the waker to wake after unlocking are those of the specification `Remove` |
| CapacityGate.CapacityWait.CanTry | backend/crates/gateway-core/src/concurrency.rs:226-231 | Allowed exactly with a ticket for that key or with nobody waiting for it |
| CapacityGate.CapacityWait.BeginWait | backend/crates/gateway-core/src/concurrency.rs:239-256 | Queue, ticket and result after the synchronous part of `wait`, run undisturbed, are those of `Begin` |
| CapacityGate.WaitGetsAPosition | backend/crates/gateway-core/src/concurrency.rs:244-256 | Success is exactly a held ticket for a listed key: the old one if its key is listed, else a new one at the end of the first shortest listed queue below the limit; without such an old one it fails with Timeout exactly at or past the deadline, with Full exactly before it without room; all other tickets stay, and fronts stay fronts |
| CapacityGate.WaitStepsAreBegin | backend/crates/gateway-core/src/concurrency.rs:244-256 | Undisturbed, the two lock sections of `wait` as steps of the system give what `BeginWait` gives |
| CapacityGate.MayTryExactly | backend/crates/gateway-core/src/concurrency.rs:226-231 | `can_try` holds if and only if the ticket is for the key or no outstanding ticket is |
| CapacityGate.NoPositionLeaks | backend/crates/gateway-core/src/concurrency.rs:170-261 | In every reachable state a key has waiters if and only if a request that is still there holds a ticket for it |
| CapacityGate.FrontIsLetThrough | backend/crates/gateway-core/src/concurrency.rs:154-167 | A request waiting in front and polled in time is let through and may try for its key |
| CapacityGate.ListedPositionIsKept | backend/crates/gateway-core/src/concurrency.rs:244-256 | `wait` keeps ticket and queue if and only if the ticket's key is still listed; otherwise the old position is gone |
| CapacityGate.NoBarging | backend/crates/gateway-core/src/concurrency.rs:225-261 | In every reachable state, also between the two lock sections of a `wait`: while a key has waiters, at most one request whose last `wait` was Ok may try for it, it holds the front, and a request without a position for the key may not try |
| CapacityGate.TimedOutMayTry | backend/crates/gateway-core/src/concurrency.rs:225-261 | A reachable state in which a request behind the front passes `can_try` after its `wait` timed out |
| WakeProtocol.NoLostWakeup | backend/crates/gateway-core/src/concurrency.rs:133-194 | In every interleaving, a parked ticket at the front of its queue has been notified or has its waker armed with a wake for it in flight |
| WakeProtocol.WokenFrontBecomesReady | backend/crates/gateway-core/src/concurrency.rs:133-158 | From every such state that wake and one poll complete the ticket's turn |
| WakeProtocol.TurnsOnlyInFront | backend/crates/gateway-core/src/concurrency.rs:133-150 | In every reachable state a ticket whose turn has come was granted before all others outstanding for its key, and at most one per key has its turn |
| WakeProtocol.ReadyEndsTheWait | backend/crates/gateway-core/src/concurrency.rs:133-158 | A ticket whose turn has come has what a successful end of `wait` requires |
| Drain.WordArithmetic | backend/crates/gateway-host/src/serve.rs:12-13 | On a 64-bit encoding of (draining, count) the bitwise masks read back the pair, and bitwise fetch-or, add and sub never cross the draining bit |
| Drain.MaskKeepsLow | backend/crates/gateway-host/src/serve.rs:12-13 | Bitwise and with the complement of the top bit keeps exactly the lower bits |
| Drain.TestIsQuotient | backend/crates/gateway-host/src/serve.rs:12-13 | Bitwise and with a single bit is not zero exactly if that bit of the word is set |
| Drain.SetIsSum | backend/crates/gateway-host/src/serve.rs:42-43 | Bitwise or with a single bit adds it unless it is set already |
| Drain.WordRefinesPair | backend/crates/gateway-host/src/serve.rs:42-114 | Every atomic step on the word, stale compare-exchange included, is a step of the abstract pair or changes neither |
| Drain.WordIsThePair | backend/crates/gateway-host/src/serve.rs:70-114 | In every reachable state the word is exactly the encoding of the draining flag and the number of live guards |
| Drain.DrainingIsPermanent | backend/crates/gateway-host/src/serve.rs:42-90 | Once draining, always draining: no later registration succeeds and no guard appears |
| Drain.IdleIsNeverMissed | backend/crates/gateway-host/src/serve.rs:50-66 | A waiter parked while no guard is alive has been notified or a notification is pending |
| Drain.IdleReturnIsFinal | backend/crates/gateway-host/src/serve.rs:50-66 | A return without timeout read a zero count; if that word was draining, the count is zero for ever |
| Drain.RegistersExactlyWhenOpen | backend/crates/gateway-host/src/serve.rs:70-90 | An attempt on the current word registers a new guard if and only if nothing drains and the count has room, and is refused otherwise |
| Drain.StaleTriesAgain | backend/crates/gateway-host/src/serve.rs:72-88 | No attempt is refused unless the word it observed was draining or full |
| Drain.NotifiedGoesHome | backend/crates/gateway-host/src/serve.rs:50-66 | A waiter parked with nothing alive gets home by the notification delivered or pending |
| Drain.NotifiesWhenIdle | backend/crates/gateway-host/src/serve.rs:42-114 | Exactly the drop of the last guard and a drain without guards owe a notification |
| Cancellation.SignalledAtMostOnce | backend/crates/gateway-core/src/lifecycle.rs:42-54 | In every run each waiter is signalled at most once and at most one canceller works on the list |
| Cancellation.ListedAfterCancelMeansPendingTake | backend/crates/gateway-core/src/lifecycle.rs:42-73 | With the flag set and waiters listed, the winning canceller is between its swap and its take |
| Cancellation.CancellationReachesEveryone | backend/crates/gateway-core/src/lifecycle.rs:42-73 | After the winner is done, at any later time the list is empty, every parked waiter has its signal and nobody new parks |
| Cancellation.ReturnsOnlyAfterCancel | backend/crates/gateway-core/src/lifecycle.rs:60-73 | In every reachable state a waiter that has returned or been signalled implies that the flag is set |
| Cancellation.OnlySwapsSetTheFlag | backend/crates/gateway-core/src/lifecycle.rs:42-46 | The flag is set exactly by a canceller's swap, and for good |
| Cancellation.CallParks | backend/crates/gateway-core/src/lifecycle.rs:60-73 | Before a cancellation, a call that takes its steps parks with its sender listed |
| Cancellation.CallReturns | backend/crates/gateway-core/src/lifecycle.rs:60-73 | After it, a call returns at its next check and a parked waiter as soon as it is signalled |
| Cancellation.CancelFinishes | backend/crates/gateway-core/src/lifecycle.rs:42-54 | A cancel that finds the flag unset can run to its end, and has then signalled everybody listed |
| BackupPolicy.LastFiringAtOrBefore | backend/crates/gateway-admin/src/backup/policy.rs:45-77 | Returns only firings of the look-back window, and exactly the latest one if and only if something fires later, the queried minute fires, or the window is empty; terminates |
| BackupPolicy.SearchMissesTheLastEverFiring | backend/crates/gateway-admin/src/backup/policy.rs:45-77 | A plan whose only firing lies in the window but is not found |
| BackupPolicy.DecideRetention | backend/crates/gateway-admin/src/backup/policy.rs:128-161 | The loop's decisions are those of the specification, record by record and with the reason |
| BackupPolicy.DecidedExactlyByAgeOrCount | backend/crates/gateway-admin/src/backup/policy.rs:128-161 | For any list: a decision names exactly a completed record that is not the first and completed at least days times 86400 seconds ago, for a set age, or stands at a position of at least a set number; age is the reason if and only if it is that old |
| BackupPolicy.DecisionsAreASuffix | backend/crates/gateway-admin/src/backup/policy.rs:128-161 | On a newest-first list the decisions are exactly a suffix and never the newest record |
| BackupPolicy.PassCutsABatch | backend/crates/gateway-admin/src/backup/task.rs:587-609 | One pass removes exactly the next batch, at most ten, right behind the survivors |
| BackupPolicy.BatchedRetentionConverges | backend/crates/gateway-admin/src/backup/task.rs:587-609 | Repeated passes at a fixed time reach a stable list; it is what deleting all decisions at once leaves, and the rule decides nothing more about it, if and only if the list is no longer than the scan limit, or the record at the limit is doomed, or the last one is not |
| BackupPolicy.ScanLimitHidesARecord | backend/crates/gateway-admin/src/backup/task.rs:587-609 | 1001 newest-first records of which no number of passes deletes the last, although the rule decides to |
| BackupPolicy.FiresOn | backend/crates/gateway-admin/src/backup/policy.rs:81-98 | A plan without a last firing that has fired fires again after any later minute |
| BackupPolicy.SurvivorsAreSafe | backend/crates/gateway-admin/src/backup/policy.rs:128-161 | The rule decides nothing about the list of its survivors |
| BackupStore.CrashSafety | backend/crates/gateway-admin/src/ports/backup.rs:67-121 | In every state of every run, whatever the plans: completed rows have a bucket object equal to the persisted size and hash, every object has a row, at most one row is active; where no plan has a last firing, inserted firings strictly increase |
| BackupStore.CrashAnywhere | backend/crates/gateway-admin/src/backup/task.rs:96-106 | Every prefix of a legal run is a legal run that ends in a safe state |
| BackupStore.RowsOnlyAdvance | backend/crates/gateway-admin/src/ports/backup.rs:88-110 | A rank per row strictly decreases with every transition; the key never changes, nor the persisted facts once the row is past dumping |
| BackupStore.OnlyClaimsAddIntermediate | backend/crates/gateway-admin/src/ports/backup.rs:92-94 | Only claiming a queued task adds a row that is dumping or uploading |
| BackupFrames.OthersRespectRely | backend/crates/gateway-admin/src/use_case/backup.rs:190-306 | What administrator and clock do between two worker calls: new queued rows, finished rows marked for deletion, a plan saved with a cursor in the future; staging and bucket untouched |
| BackupFrames.TargetIsNew | backend/crates/gateway-admin/src/backup/task.rs:141-187 | The latest firing at a due tick lies after all inserted ones, or the last inserted one is still queued (a crash before the cursor moved) |
| BackupFrames.TargetIsLatest | backend/crates/gateway-admin/src/backup/policy.rs:45-77 | What the search finds is the latest firing of the window, and it finds it if the plan fires later or in the queried minute |
| BackupFrames.NewestOnlyExpires | backend/crates/gateway-admin/src/backup/task.rs:566-611 | In any pass, complete or broken off, whatever interferes, the worker retires the newest scheduled backup only as one of the expired rows it listed, past its own expiry at the end of the pass; otherwise the row is at most marked by the administrator |
| BackupFrames.NewestRetiredExactlyWhenExpired | backend/crates/gateway-admin/src/backup/task.rs:566-611 | Undisturbed, and with at most a batch of rows expired by its end, a successful pass retires the newest scheduled backup if its own expiry has passed at the start, only if it has passed at the end, and so exactly if it has passed when the pass takes no time |
| BackupFrames.ExpiredIsRetired | backend/crates/gateway-admin/src/backup/task.rs:569-585 | With at most a batch of rows expired by its end, a successful pass retires every row expired at its start |
| BackupFrames.RuleSparesTheNewest | backend/crates/gateway-admin/src/backup/task.rs:587-609 | The decisions about a newest-first scan of the stored rows never name the newest scheduled backup |
| BackupFrames.RetiredForAReason | backend/crates/gateway-admin/src/backup/task.rs:566-611 | Whatever a pass retires had completed or failed, and is past its own expiry or is a completed scheduled backup, not the first of the scan, that is too old or too far down |
| BackupFrames.ScheduledBackupsInPlainWords | backend/crates/gateway-admin/src/ports/backup.rs:123-127 | The scan is about exactly the completed scheduled rows |
| BackupFrames.ExpiryGivesTheDays | backend/crates/gateway-admin/src/backup/task.rs:156-160 | A scheduled record is past its expiry if and only if retention days are set and have gone by since it was scheduled |
| BackupWitness.NewestCanExpire | backend/crates/gateway-admin/src/backup/task.rs:566-611 | From a new installation: the plan fires, its backup completes; a day later it is the newest, the rule decides nothing about it, and the retention pass retires and deletes it |
| BackupWitness.LastFiringRepeats | backend/crates/gateway-admin/src/backup/task.rs:109-187 | For any plan with a last firing, from a new installation and within its minute: the worker inserts it, its dump fails, the administrator deletes the failed row, the worker finds the instant taken and deletes the row, and its next tick inserts the same instant again |
| BackupWitness.TickInserts | backend/crates/gateway-admin/src/backup/task.rs:141-187 | Undisturbed, a due tick without a conflicting record inserts exactly the firing, and leaves the cursor alone if there is no next one |
| BackupWitness.SweepDeletes | backend/crates/gateway-admin/src/backup/task.rs:310-334 | Undisturbed, the only marked row is deleted if its object can be removed |
| BackupStore.NextAfterIsFiring | backend/crates/gateway-admin/src/backup/policy.rs:81-98 | The next cursor, if there is one, is a firing strictly after now |
| BackupPolicy.NextAfterIsVeryNext | backend/crates/gateway-admin/src/backup/policy.rs:81-98 | The next instant is a whole minute after now at which the plan fires, and none fires in between; None if and only if the plan never fires again |
| BackupStore.SavedPlanFiresNext | backend/crates/gateway-admin/src/use_case/backup.rs:126-149 | A saved plan's cursor is the very next instant at which it fires |
| BackupStore.AdministratorMay | backend/crates/gateway-admin/src/use_case/backup.rs:190-304 | A backup can be created if and only if no row is queued, dumping or uploading and its names are unused; a row can be marked if and only if it has completed or failed |
| BackupStore.AdministratorDoes | backend/crates/gateway-admin/src/use_case/backup.rs:190-304 | Creating adds exactly the queued manual row with its own expiry, marking changes exactly that row's status |
| BackupTask.BackupTask.RunCycle | backend/crates/gateway-admin/src/backup/task.rs:96-106 | Whatever fails or interferes, the cycle stays on a legal run. If the repository works and HEAD requests are answered it ends without error; then its run went, in this order, through states that are stage by stage what planning, recovery, deletion, the next task and retention promise, each connected to the one before. With complete storage settings every interrupted row has ended after recovery, completed exactly if it could be recovered, and nothing is left dumping or uploading |
| BackupTask.BackupTask.RecoverIntermediate | backend/crates/gateway-admin/src/backup/task.rs:190-207 | With complete storage settings, a recovery without error leaves no row dumping or uploading; each interrupted row has ended, completed exactly if its object is in the bucket or its staged archive is delivered; there is no error if the repository works and HEAD requests are answered |
| BackupTask.BackupTask.RecoverDumping | backend/crates/gateway-admin/src/backup/task.rs:210-254 | The row ends, completed exactly if a complete archive is staged and delivered; no error if the repository works; no other row becomes intermediate |
| BackupTask.BackupTask.RecoverUploading | backend/crates/gateway-admin/src/backup/task.rs:257-307 | The row ends, completed exactly if the bucket holds its persisted size and hash or the staged archive is delivered; no error if the repository works and the HEAD request is answered |
| BackupTask.BackupTask.ExecuteTask | backend/crates/gateway-admin/src/backup/task.rs:362-428 | A claimed row ends; it is not completed unless settings are complete and verified and dump and delivery succeed, and not failed if they do; without an error its staged archive is gone if cleaning works |
| BackupTask.BackupTask.UploadAndVerify | backend/crates/gateway-admin/src/backup/task.rs:430-533 | With complete settings the row ends, completed exactly if the upload succeeds, the HEAD request is answered and the bucket holds the archive; without, it stays uploading |
| BackupTask.BackupTask.VerifyRemote | backend/crates/gateway-admin/src/backup/task.rs:468-531 | The row ends, completed exactly if the HEAD request is answered and the object in the bucket equals the archive's size and hash |
| BackupTask.BackupTask.FailTask | backend/crates/gateway-admin/src/backup/task.rs:536-563 | The row ends, not completed, and its staged archive is gone if cleaning works, or the error is returned |
| BackupTask.BackupTask.FinishPendingDeletions | backend/crates/gateway-admin/src/backup/task.rs:310-334 | With complete settings a batch of the rows marked for deletion, or all of them, is listed, and each is gone if its object can be removed and still marked otherwise; no other row disappears |
| BackupTask.BackupTask.FinalizeDeletion | backend/crates/gateway-admin/src/backup/task.rs:614-631 | The row is gone exactly if storage is set up and its object can be removed, and still marked otherwise; no other row disappears |
| BackupTask.BackupTask.ApplyRetentionRule | backend/crates/gateway-admin/src/backup/task.rs:587-611 | The scheduled completed rows, read in a state of the run between start and end, are scanned newest first up to the limit, and exactly the rule's first decisions about them are retired; no other row is |
| BackupTask.BackupTask.RetireExpired | backend/crates/gateway-admin/src/backup/task.rs:569-585 | A batch of the rows past their own expiry at a time during the call, or all of them, is retired, and no other row |
| BackupTask.BackupTask.RunRetentionBatch | backend/crates/gateway-admin/src/backup/task.rs:566-611 | Both rules run one after the other as specified, each retired row is gone exactly if its object can be removed, and the worker retires the newest scheduled backup only past its own expiry |
| BackupTask.BackupTask.FireDue | backend/crates/gateway-admin/src/backup/task.rs:141-187 | A due tick of a plan inserts at most that plan's latest firing in the window, as a queued scheduled row with the expiry its retention days give, if no record conflicts and only then; it moves the cursor to the plan's very next firing, also when nothing was inserted |
| BackupTask.BackupTask.AdvanceSchedule | backend/crates/gateway-admin/src/backup/task.rs:109-187 | By the plan and cursor it read: a due plan fires as above, a plan without a cursor gets one, otherwise nothing changes; afterwards nothing inserted is due again where no plan has a last firing |
| BackupTask.BackupTask.ProcessNextTask | backend/crates/gateway-admin/src/backup/task.rs:337-359 | Either no row is queued, or one, queued in a state others left, is claimed and ends as that state's settings, the dump and the delivery decide; no other row is touched |
| ForecastSampling.DifferenceAddsUp | backend/crates/gateway-admin/src/model/quota_forecast_sampling.rs:28-53 | A difference exists if and only if base plus difference is the current usage in every counter, and in money up to a forgiven step back of 1e-9 |
| ForecastSampling.AcceptedGoUp | backend/crates/gateway-admin/src/model/quota_forecast_sampling.rs:146-168 | Since the last fall, accepted observations go strictly forward in time and never down |
| ForecastSampling.AnchorsAreAChain | backend/crates/gateway-admin/src/model/quota_forecast_sampling.rs:162-167 | The anchors are accepted observations since the last fall, at least five points apart |
| ForecastSampling.AnchorsAreLongest | backend/crates/gateway-admin/src/model/quota_forecast_sampling.rs:162-167 | No such chain is longer than the greedy one |
| ForecastSampling.ScanReadings | backend/crates/gateway-admin/src/model/quota_forecast_sampling.rs:143-168 | One pass computes the anchors, the cycle baseline and whether the readings were interrupted |
| ForecastSampling.Conclude | backend/crates/gateway-admin/src/model/quota_forecast_sampling.rs:172-203 | The sample is incremental if and only if cycle usage is defined, the last blocks span five points and their usage is a difference with requests |
| ForecastSampling.SelectForecastSample | backend/crates/gateway-admin/src/model/quota_forecast_sampling.rs:112-204 | The readings are exactly the observations from the start on, before the snapshot and within 0 and 100 percent, each as often as it occurs, by time and at one instant in the order of the history, and then the snapshot; the observation count is their number. An incremental sample starts at an accepted one since the last fall and strictly before the end, spans at least five points and one to three blocks, and its usage plus the baseline's is the current usage; a cumulative one that is not discontinuous has usage equal to cycle usage |
| ForecastSampling.ReadingsReadAll | backend/crates/gateway-admin/src/model/quota_forecast_sampling.rs:120-141 | Filtering and stable sorting give exactly the observations that count, with multiplicity and in order |
| ForecastSampling.ReadsAllIsUnique | backend/crates/gateway-admin/src/model/quota_forecast_sampling.rs:120-141 | There is only one such list |
| ForecastSampling.UsableHistory | backend/crates/gateway-admin/src/use_case/accounts.rs:737-761 | What is kept are the observations after the last one of another plan or reset time; interrupted exactly if there is one |
| ForecastSampling.MismatchMeans | backend/crates/gateway-admin/src/use_case/accounts.rs:745-755 | An observation is cut off if and only if a plan is unknown, the plans differ by more than the case of letters, or the reset times are more than two seconds apart, either way |
| ForecastSampling.SampleWindow | backend/crates/gateway-admin/src/use_case/accounts.rs:737-774 | The sample is the one of all observations after the last mismatch; an incremental one starts at a record of the same plan and reset time, in time, percentage and usage, with no mismatch after it; with a mismatch, a cumulative sample is marked discontinuous |
| QuotaWindows.RepresentativeIsBest | backend/crates/gateway-admin/src/model/provider_credentials.rs:1002-1042 | The fold returns the lexicographic best window (priority pair, clamped percentage, position), nothing exactly if no window has a percentage |
| QuotaWindows.FirstByPriority | backend/crates/gateway-admin/src/model/provider_credentials.rs:957-963 | Without percentages: the first window of the lowest priority |
| QuotaWindows.RepresentativeInPlainWords | backend/crates/gateway-admin/src/model/provider_credentials.rs:1002-1042 | No window with a percentage comes before the representative one by attribution and kind; among its equals none has used more, counted within 0 and 100, and an earlier one has used less |
| QuotaWindows.PriorityOrder | backend/crates/gateway-admin/src/model/provider_credentials.rs:1030-1042 | Account-wide windows come first, then short before weekly before monthly before other windows |
| QuotaWindows.PeriodsInPlainWords | backend/crates/gateway-admin/src/model/provider_credentials.rs:917-936 | Weekly is within five percent of seven days, monthly is grouped so and at least seven days but not weekly; both cover the account and have a reset time |
| QuotaWindows.DisplayIsIdempotent | backend/crates/gateway-admin/src/model/provider_credentials.rs:970-1000 | The display rule applied twice is the rule applied once; without a marked window it changes exactly the representative one, which stays representative |
| QuotaWindows.ProviderQuota.ApplyLimitReachedDisplay | backend/crates/gateway-admin/src/model/provider_credentials.rs:970-1000 | The windows afterwards are those of the specification `Shown`, unchanged when the limit is not reached |
| QuotaWindows.SourceWindow | backend/crates/gateway-admin/src/model/quota_forecast.rs:56-59 | The first window of the wanted period, else one of the shortest period, none exactly if no window counts |
| ForecastProjection.AccountQuotaForecast.Project | backend/crates/gateway-admin/src/model/quota_forecast.rs:92-199 | Figures exactly if nothing is missing: then tokens and money are those left at the sampled rate and the scaled whole; otherwise the reason is the first thing missing |
| ForecastProjection.FindObstacle | backend/crates/gateway-admin/src/model/quota_forecast.rs:116-173 | Each reason is returned if and only if it is the first thing missing in the order of the checks, and none if and only if nothing is |
| ForecastProjection.AccountQuotaForecast.FillTokens | backend/crates/gateway-admin/src/model/quota_forecast.rs:179-186 | Remaining and estimated tokens, present exactly with sampled tokens and a result that fits into 64 bits |
| ForecastProjection.AccountQuotaForecast.Conservation | backend/crates/gateway-admin/src/model/quota_forecast.rs:179-192 | Not extrapolated, the estimate is recorded plus remaining, in tokens and in money; every token figure fits into 64 bits |
| ForecastProjection.AccountQuotaForecast.ExtrapolationScales | backend/crates/gateway-admin/src/model/quota_forecast.rs:179-192 | Extrapolation scales the unrounded whole by target over source seconds and leaves the remaining figures alone |
| ForecastProjection.AccountQuotaForecast.FiguresInProportion | backend/crates/gateway-admin/src/model/quota_forecast.rs:179-192 | What remains is to the sampled percentage as the sampled use is to the percentage left; the estimate is to the target as recorded plus remaining to the source window; tokens are nearest whole numbers |
| ForecastProjection.FindSample | backend/crates/gateway-admin/src/model/quota_forecast.rs:84 | The first sample with the window's key, none exactly if there is none |
| ForecastProjection.AcceptedCumulativeTotal | backend/crates/gateway-admin/src/model/quota_forecast.rs:180-186 | For a continuous cumulative sample usage is cycle usage and the unrounded total is tokens times 100 over percent |
| ForecastProjection.UnobstructedMeans | backend/crates/gateway-admin/src/model/quota_forecast.rs:135-173 | When nothing is missing the window has positive length and 5 <= sampled <= used <= 100 percent |
| ForecastProjection.ForecastFor | backend/crates/gateway-admin/src/model/quota_forecast.rs:49-89 | An available forecast comes from a window that counts and a sample with that window's key, within percentage bounds; of the wanted period, its estimate is recorded plus remaining; extrapolated only without a window of the period, and to the period's length; token figures fit into 64 bits |
| DecimalAmount.ReadsExactlyNumerals | backend/crates/gateway-store/src/value.rs:159-178 | Accepted are exactly one to ten digits, optionally a point and one to ten digits, with white space around; the text is read as the numeral it shows |
| DecimalAmount.SpacesAreListed | backend/crates/gateway-store/src/value.rs:160 | What is trimmed are exactly the 25 characters of the Unicode property White_Space |
| DecimalAmount.CanonicalIsAFixedPoint | backend/crates/gateway-store/src/value.rs:180-188 | The canonical text parses to itself and is worth the same |
| DecimalAmount.EqualExactlyWhenWorthTheSame | backend/crates/gateway-store/src/value.rs:159-189 | Two accepted texts have equal canonical texts if and only if they are worth the same |
| DecimalAmount.CanonicalIsShortest | backend/crates/gateway-admin/src/model/observability.rs:202-228 | No text of the same worth is shorter than the canonical one |
| DecimalAmount.RangeIsNumeric | backend/crates/gateway-admin/src/model/observability.rs:202-228 | The values of accepted texts are exactly the multiples of 10^-10 from 0 to below 10^10 |
| EventValidator.ObservedExactlyWhenInOrder | backend/crates/gateway-core/src/event.rs:904-943 | A sequence passes without error if and only if its only Started is first, nothing follows Completed, each index is added once and each delta follows a matching addition |
| EventValidator.FinishedExactlyWhenWhole | backend/crates/gateway-core/src/event.rs:904-958 | It also finishes if and only if its only Completed is last |
| EventValidator.DeltasNeedTheirKind | backend/crates/gateway-core/src/event.rs:926-934 | In an orderly stream each text, reasoning and tool call delta follows content of exactly its kind under its index |
| EventValidator.CheckIsExact | backend/crates/gateway-core/src/event.rs:904-966 | After an orderly prefix, an event is refused exactly if it breaks the order |
| EventValidator.RefusalsThatChangeState | backend/crates/gateway-core/src/event.rs:919-925 | A refused event changes the state exactly if it repeats an index with another kind |
| EventValidator.EventSequenceValidator.Observe | backend/crates/gateway-core/src/event.rs:904-943 | Result and new state are those of the specifications `Check` and `After` |
| EventValidator.EventSequenceValidator.Finish | backend/crates/gateway-core/src/event.rs:950-958 | Succeeds exactly if started and completed |
| EventValidator.ProviderStream.PollNext | backend/crates/gateway-core/src/engine/provider.rs:344-412 | What is delivered without a wire event is in order at every moment, a batch is refused exactly if it breaks the order, the stream closes without an error exactly if it was whole or had no such facts, and nothing follows the end |

## Left out

- `ConcurrencyWaitBudget::deadline`, timers and the 100 ms recheck delay: the deadline and the clock are parameters, a timeout is a step that may happen at any time inside `wait`.
- The async runtime and weak memory orderings: `AtomicWaker`, `Notify` and one-shot channels are their documented atomic operations, and all steps are sequentially consistent.
- `ConnectionTracker`, `ActiveConnection`, `CancellationToken` and `WaitTicket::turn` are modelled as step systems on values, not as classes: their fields are changed by many threads at once, and a sequential method could not express that.
- Cron parsing, time zones and calendar gaps: a schedule is a strict-next oracle on minutes; a schedule that fails to parse is not modelled.
- The answers of the outside about one row are the same throughout one cycle: each question is asked at most once per row and cycle, except whether an unverified upload can be withdrawn, which is free each time.
- Instants outside the range of the time library and overflowing durations: instants and seconds are unbounded integers.
- PostgreSQL transactions and HTTP to the bucket: the port contracts only. The order and selection of expired, pending and intermediate rows is the store's free choice; scheduled completed rows come newest first with ties in any order.
- Size and sha256 of an archive are persisted and compared as one pair; their texts are not modelled.
- BackupStore.CrashSafety: assumes that a staged archive does not change, that identities and object keys are never reused while in use (a collision counts as a store error), and that nobody else writes to the bucket.
- BackupTask.BackupTask.RecoverUploading: does not promise a clean staging area, since the code leaves the archive of an upload that turns out to be complete.
- BackupTask.BackupTask.RecoverIntermediate: handles the first listed record only, because at most one can exist.
- BackupTask.BackupTask.ExecuteTask: says "not completed" and "not failed" rather than which of the two, because the administrator may mark the finished row for deletion before the call returns.
- BackupTask.BackupTask.FireDue: a plan saved by the administrator takes effect at commit, so its cursor is computed from the clock at that moment.
- Attempt counts, error codes and texts, audit entries, download links, connection tests and validation of the settings forms.
- Floating point: percentages, money and factors are exact reals; the finiteness filters, NaN and the rounding of large token counts to doubles have no counterpart.
- ForecastProjection.AccountQuotaForecast.Project: the window start is not limited to the calendar range, so an invalid boundary is only an expired window.
- The decimal parser exists twice in the program with the same code and different error types; it is modelled once, with one error.
- Decimal arithmetic on amounts, JSON objects and the other value types beside the parser: single-branch facts.
- The account feedback and the lease a provider stream holds, and the events' payloads.
- HTTP routing, cookies, configuration, authentication, the provider adapters and the frontend: input and output, or easier members only.
