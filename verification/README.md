# Codex auto reset: a verified model

The plugin watches the Codex accounts of a proxy, and just before an account's soonest
"rate limit reset" credit expires it redeems that credit. This project models that
behaviour in Dafny and proves what the plugin promises about it.

* **The account machine** (`Machine`, `AccountFsm`). Six states: IDLE patrols and arms the
  soonest-expiring credit, ARMED sleeps to the trigger time (expiry minus lead), CONFIRMING
  lists again and mints an idempotency key, RESETTING posts with backoff, VERIFYING checks
  the deduction, DONE settles back to IDLE. `Machine` states one tick as functions on
  values; `AccountFsm` is the class with the same fields, mutated step by step, each method
  proved against those functions.
* **Runs of one account** (`Account` and the modules built on it). A transition system over
  ticks, panics inside ticks, state syncs, credential failures, manual resets and checks, in
  any order, with history fields that record keys, POSTs, verifications and deliveries.
  `Transitions` says what each action does, answer by answer; `Attempts`, `Verdicts`,
  `Spacing`, `Pinning`, `Progress`, `Delivery` prove safety over all its runs;
  `Schedule`, `Schedulability` and `Drift` prove timing over all its infinite runs.
* **The server** (`Redemption`, `LateRequest`). The account composed with a server that
  deduplicates keys, over a network that loses requests and responses and may serve a
  request late or repeatedly, beside other actors.
* **The worker** (`Worker`, `WorkerSafety`, `WorkerSchedule`, `WorkerLoops`, `WorkerRounds`).
  The loop, the one-slot wake channel and the management handlers as atomic steps that
  follow the two mutexes. It is proved that the worker only ever does to an account what
  `Account` allows, so every theorem about legal runs of one account (`Attempts`, `Verdicts`,
  `Spacing`, `Pinning`, `Progress`, `Delivery`) holds of every account under every schedule of the
  worker. `WorkerChecks` says what a manual check does, `WorkerRetries` when credentials and
  the host are asked again. `WorkerDelivery` adds what happens to the records of dropped machines,
  `WorkerProgress` when the loop can still come to an account, and `WorkerOnTime` that the
  undisturbed schedules of a worker with one account are exactly the on-time runs of
  `Schedulability`.
* **The simulator** (`Simulator`, `SimEngine`, `SimMatrix`, `Refinement`). The machine the
  production one claims to mirror, its scripted client and its run loop; the production
  machine simulates it step for step, the run loop is bounded against every client, and its
  finite test matrix becomes one theorem.
* **What is kept** (`Persistence`, `CrashSafety`, `History`, `Backfilling`, `Restarts`,
  `LogRing`, `Configuration`, `Durations`). The state file under crashes at any write, the reset
  history and its repair, the log buffer, and the normalised configuration and its text.

Instants and durations are nanosecond integers. Zero is Go's zero time: as an expiry it
means "never", as a wake "not scheduled"; clocks start above it. A tick takes effect at its
end and carries two clock readings, one at its start and one after its calls. UUIDs are a
source of keys that are never repeated. Claims are about one worker instance: a restart
builds fresh machines and does not wait for the old loop.

## Findings

Nine promises do not hold of the code as it stands in every case; each comes with the
exact condition under which it does hold.

* Retry spacing. A panic after a POST returned (in the log callback or the state sync) lets
  the recovery overwrite the wake that carried the retry delay. The fixed delays survive
  every run if and only if the refresh interval is at least 30 minutes
  (`Spacing.SpacingNeedsLongInterval`).
* History delivery. A record is lost in three ways: a state sync that panics before taking
  it leaves it to be overwritten by the next verification; after the same panic an
  enumeration that no longer lists the account, then IDLE, drops the machine with it; and a
  log call that panics on a verification keeps it from being stored at all. Under every
  schedule each record of every machine, dropped ones included, is delivered exactly once
  and in order, or is the last one and still waits in a machine of the table, if and only if
  none of the three has happened (`WorkerDelivery.WorldDeliversExactlyOnce`, and for one
  machine `Delivery.DeliveredExactlyOnce`; with the runs `Delivery.EarlySyncPanicsLoseRecord`,
  `WorkerDelivery.DropLosesRecord` and `Delivery.LogPanicLosesRecord`). What is lost stays
  lost (`WorkerDelivery.WorldLossIsFinal`).
* The one-generation backup. A boot stopped while rewriting the backup destroys the older
  one, and the backup is read once, without the retries the state file gets, a failure being
  taken for its absence. With the state file damaged or missing, a boot recovers the backup
  if and only if the last backup write that began also completed, the state file was found
  to be so within three reads, and the one read of the backup succeeded
  (`CrashSafety.RecoversLastBackup`, with `CrashSafety.CutBackupLosesState` and
  `CrashSafety.UnreadBackupLosesState`).
* Backfill deduplication. The log entry and the record of one reset carry two clock
  readings; a restart leaves the history alone if and only if they fall in the same second
  (`Backfilling.RestartCountsTwice`).
* The log buffer. It always meets its operation-by-operation specification. That it is the
  last entries of the whole log holds after every operation if and only if each prune drops
  every entry already evicted or keeps every entry still held (`LogRing.RingIsLastOfLog`);
  for every cutoff at once, if and only if no evicted entry is later than one still held
  (`LogRing.HarmlessForAll`). Every capacity has a run that differs
  (`LogRing.OutOfOrderDiffers`). Only a caller of `pruneOlderThan` can observe it
  (`LogRing.OnlyPrunesDiffer`), and at this commit the plugin itself never calls it; the one
  caller is log_test.go:29.
* Picking the next account. The search uses the empty id for "none yet", and the host's
  listing is not filtered for an empty auth index (main.go:476-528). The pick is right in
  every map order if and only if no account with the empty id is strictly the soonest
  (`WorkerLoops.SoonestIsRight`). For the same reason the loop can sleep past a wake: it
  never does, in any schedule, if and only if at every search that no nudge follows either
  no such account is strictly the soonest, or every other waiting account is due and the
  missing-credential delay ends before the nameless wake
  (`WorkerSchedule.LostExactlyAtUnsafePicks`); with no empty id in the configuration or in
  any listing it never does (`WorkerSchedule.NamedNeverLost`).
* Surviving panics. A panic in the enumerator, or in the loader while accounts are ensured
  at start or in the retry pass, is outside the per-account recovery and ends the loop. Every
  account always has a wake, and the loop can still come to tick it if and only if it has a
  name and no such panic has happened (`WorkerProgress.WorkerNeverStrands`).
* Verification. With no other actor inside an attempt a verification reports a MISMATCH if
  and only if a request of another attempt, sent earlier and served late, redeemed between
  its confirmation and its verification (`Redemption.MismatchIsAStray`, with the run
  `LateRequest.LateRequestMismatches`, whose attempt redeemed exactly its own credit).
* Redeeming everything before expiry. A redeemed credit costs one refresh interval plus one
  minute, so credits that expire close together cannot all be redeemed;
  `Schedulability.ExactSchedulability` says exactly which sets can, and
  `WorkerOnTime.WorkerSchedulability` says it of the worker.

Where the code and the design document differ, the model follows the code: there is no
listing before a retry (section 5.4 of the design), an ARMED account never returns straight
to IDLE (section 4.2), and the verification delay counts from the clock reading before the
accepted POST was sent. A duration under a minute gives way to the default of 12 or 6 hours,
where the comment at config.go:155-158 says that it is raised to one minute.

## Model

| member | source | states |
|---|---|---|
| CreditSelection.AvailableCreditsSorted | models.go:82-103 | the filtering loop and the in-place sort return `Select` of the credits and the instant |
| CreditSelection.SliceStable | models.go:92-101 | the in-place insertion sort leaves the array stably sorted |
| CreditSelection.StableSortIsStable | models.go:92-101 | the sort used is a stable sort in the algorithm-free sense: ordered, and credits that tie keep their order and number |
| CreditSelection.StableSortIsUnique | models.go:92-101 | two ordered lists that agree on every group of tied credits are equal, so any correct stable library sort returns the modelled one |
| CreditSelection.SelectIsSoonestFirst | models.go:82-103 | the selection is the sorted rearrangement of exactly the selectable credits |
| CreditSelection.SelectIsByExpiry | models.go:82-103 | these are the available credits that have not expired, by expiry, never-expiring ones last |
| CreditSelection.HeadOfSelect | models.go:82-103 | its head is the soonest of them, the first listed of those that tie |
| CreditSelection.SelectTwice | quota.go:46-68 | selecting at t1 in the parser and again at t2 in the machine is selecting once at the later instant |
| Retry.BackoffGrows | retry.go:23-35 | the backoff never shortens with the attempt number and the five delays span 48 minutes |
| AccountFsm.AccountFSM.SetNextWake | resetbank.go:94-98 | writes the wake and nothing else |
| AccountFsm.AccountFSM.ForceConfirm | resetbank.go:102-112 | leaves RESETTING and VERIFYING untouched; otherwise unpins, marks manual, and is confirming at once |
| AccountFsm.AccountFSM.StepIdle | resetbank.go:194-249 | the patrol as the specified transition: wait one interval, or pin the soonest credit and wake at its trigger time |
| AccountFsm.AccountFSM.StepArmed | resetbank.go:251-257 | an armed wake goes to confirming, whatever the clock says |
| AccountFsm.AccountFSM.Find | resetbank.go:273-280 | the search loop finds the first selected credit with the pinned id |
| AccountFsm.AccountFSM.StepConfirming | resetbank.go:259-333 | the confirmation as the specified transition: abandon, re-arm, or mint an attempt |
| AccountFsm.AccountFSM.StepResetting | resetbank.go:335-382 | the POST as the specified transition: accepted, stopped, retried with backoff, or exhausted |
| AccountFsm.AccountFSM.StepVerifying | resetbank.go:384-464 | the triple check over the listing and the record it leaves |
| AccountFsm.AccountFSM.Step | resetbank.go:131-147 | the dispatch on the state |
| AccountFsm.AccountFSM.StepAndSettle | resetbank.go:160-173 | a tick and the settling of DONE in one critical section |
| AccountFsm.AccountFSM.Reset | resetbank.go:476-483 | everything but the undelivered record returns to its initial value |
| AccountFsm.AccountFSM.TakePendingHistory | resetbank.go:487-493 | returns the record and clears it, changing nothing else |
| Account.ApplyKeepsAttempted | resetbank.go:281-382 | every enabled action keeps the attempt in flight complete, remembered, and tied to the last POST |
| Transitions.IdleTick | resetbank.go:194-249 | an IDLE account arms if and only if the listing came and its soonest credit expires within the lead time and one interval; otherwise, after a failed listing too, it waits exactly one interval |
| Transitions.ArmedTick | resetbank.go:251-257 | an armed wake only goes to confirming |
| Transitions.ConfirmingTick | resetbank.go:259-333 | a confirmation mints an attempt if and only if both calls answered and the listing has a due target |
| Transitions.MintedAttempt | resetbank.go:259-333 | the attempt minted: the fresh key, the first wanted credit, and the listing with the weekly usage that was answered |
| Transitions.UnmintedAttempt | resetbank.go:259-311 | otherwise it arms again for the trigger time when it is too early, and in every other case is over |
| Transitions.FailedFetchAbandons | resetbank.go:259-311 | without a listing, or without the usage of a due account, nothing is minted or posted and the account is IDLE one interval later |
| Transitions.ResettingTick | retry.go:23-55 | a POST, exactly: the codes reset and already_redeemed verify a minute later, any other code and the statuses 400 to 499 end the cycle, everything else is retried with the same key and target after 1, 2, 5, 10, 30 minutes, and the sixth failure ends it |
| Transitions.VerifyingTick | resetbank.go:384-464 | without both fetches the cycle is over with no record; with them it leaves one, successful if and only if all three legs hold |
| Transitions.ForceAction | resetbank.go:102-112 | a manual reset leaves an attempt in flight alone and takes any other account, armed ones included, to a manual confirmation at once |
| Transitions.ForceTakesSoonest | resetbank.go:102-333 | and the tick after it redeems the soonest credit, whatever was pinned |
| Transitions.WakeActions | worker.go:271-306 | a failed credential load waits exactly 30 minutes, a recovered panic one interval, a check not at all; nothing else changes |
| Transitions.SyncActions | main.go:410-433 | a state sync delivers the waiting record once |
| Transitions.LogPanicAction | resetbank.go:160-173 | a panicking log call leaves the history of a completed tick and the cycle unsettled |
| Attempts.AttemptsAreImmutable | resetbank.go:281-382 | in every run POSTs with one key are consecutive, share one non-empty target minted for it, number at most six, and all but the last were transient failures |
| Attempts.HistoryOnlyGrows | resetbank.go:281-382 | nothing that happens later changes what was minted, posted, verified or delivered |
| Attempts.RunVerifiesOnce | resetbank.go:384-464 | in every run no key is verified twice, and none that is still in flight has been |
| Verdicts.KeysComeFromAnswers | resetbank.go:259-333 | in every run each key was minted by a tick whose listing and usage call both answered, for an available credit of that listing |
| Verdicts.RecordsCompareAnswers | resetbank.go:384-464 | in every run each record carries the usage and count answered when its key was minted and those answered when it was verified, and reports success exactly when they show the deduction |
| Spacing.RetriesAreSpaced | resetbank.go:362-381 | without late panics every retry waits out its delay, for every configuration and every other disturbance |
| Spacing.SpacingNeedsLongInterval | worker.go:271-325 | the retry delays survive every run, panics included, if and only if the refresh interval is at least 30 minutes |
| Spacing.LatePanicLosesDelay | worker.go:271-285 | the run that breaks the spacing for any shorter interval |
| Spacing.VerificationWaits | resetbank.go:339-353 | in every run a verification starts at least one minute after its accepted POST of the same key and target |
| Pinning.NoSubstitution | resetbank.go:234-319 | in every run an automatic attempt's target is the credit pinned at the last arming, started inside [expiry - lead, expiry); a manual one's was the soonest |
| Pinning.ArmingPinsSoonest | resetbank.go:210-249 | arming pins a selectable credit that nothing selectable precedes, no earlier than one interval before its trigger time |
| Pinning.EarlyWakeRearms | resetbank.go:251-299 | an armed account woken early is armed again for exactly its trigger time, without a POST; of several rows with the pinned id the soonest decides |
| Progress.NeverStranded | resetbank.go:149-173 | in every run the account has a wake |
| Progress.DoneOnlyByPanic | resetbank.go:160-173 | DONE is only ever visible after a log callback panicked |
| Progress.DoneHeals | resetbank.go:102-173 | such a DONE heals: the next tick returns it to IDLE with a wake one interval later, a manual reset confirms at once, and nothing takes its wake away |
| Progress.TickLowersRank | resetbank.go:194-382 | at a frozen clock a tick puts the wake in the future or lowers the state's rank |
| Progress.AtMostFourTicks | resetbank.go:194-382 | at a frozen clock an account takes at most four ticks |
| Redemption.AtMostOncePerCycle | resetbank.go:313-464 | end to end, whatever is lost, delayed or repeated and whoever interferes, a key redeems at most one credit, its own target; a verification belongs to exactly one redemption of the credit it names, and no redemption is verified twice |
| Redemption.MismatchIsAStray | resetbank.go:384-449 | with no other actor inside an attempt a verification reports MISMATCH if and only if a late request of another attempt redeemed in its window; until one does, a POST that is answered is accepted |
| Redemption.QuietNeverMismatches | resetbank.go:384-449 | with no request served late, whatever else is lost, verification never reports MISMATCH, and a POST that is answered is always accepted |
| LateRequest.LateRequestMismatches | resetbank.go:355-449 | the run in which an abandoned attempt's request is served while the next attempt, itself accepted, waits to verify, and the verification reports MISMATCH |
| Schedulability.PostsOnTimetable | resetbank.go:194-257 | POST k happens exactly at max(E_k - lead, POST k-1 + one minute + one interval), while no credit has been lost |
| Schedulability.LostCredit | resetbank.go:194-257 | an available credit that expires before the account is free for it is never redeemed |
| Schedulability.OnlyQueuedIsPosted | resetbank.go:194-299 | beside them, a credit that never expires or is not available is never posted |
| Schedulability.FreeAtClosedForm | resetbank.go:183-257 | when the account is free for credit k, as a condition on the start and the earlier trigger times only |
| Schedulability.ExactSchedulability | resetbank.go:160-257 | for any store of credits, whatever else it lists, all available ones that expire are redeemed if and only if none of them expires before the account can come round to it, and then each before its expiry |
| Schedulability.IdealRunExists | resetbank.go:160-257 | every store of credits has a run with all ticks on time, each of them one the worker can run, with a key never used before |
| Schedulability.DueRunIsLegal | resetbank.go:160-173 | such a run is a legal account run at every tick |
| Drift.DriftBound | resetbank.go:183-257 | with ticks at most d late a stable soonest credit gets its first POST in [T, max(T, s) + 4d], before its expiry |
| WorkerSafety.EffectsAreEnabled | worker.go:207-325 | the worker and the handlers perform only account actions the account theorems assume: a tick only when due, a check only on IDLE or ARMED |
| WorkerSafety.WorkerIsSafe | worker.go:207-325 | under every schedule each account lives a legal account run, and the loop's own account exists and is due |
| WorkerSchedule.NoLostWakeUp | worker.go:155-260 | in a run whose searches are safe, whenever the loop sleeps with an empty channel and no handler before its nudge, the deadline is at most every account's wake, and every account has one |
| WorkerSchedule.UnsafePickLoses | worker.go:236-260 | from any search that is not safe the loop can come to sleep past a wake |
| WorkerSchedule.LostExactlyAtUnsafePicks | worker.go:236-260 | so no schedule loses a wake-up if and only if every search of every schedule is safe |
| WorkerSchedule.NamedNeverLost | worker.go:155-260 | and none does as long as neither the configuration nor a listing names the empty id |
| WorkerSchedule.CheckRaceContained | worker.go:155-179 | between a check's read of IDLE and its write at most one tick completes, and the write then hits an IDLE or ARMED account |
| WorkerChecks.CheckPullsIdle | worker.go:155-179 | under every schedule, from a check's start to its end, all targets are read, exactly those that were IDLE are written and are then due at the instant the check began, and a nudge is on its way |
| WorkerChecks.CheckTouchesOnlySeen | worker.go:155-179 | a check's steps change nothing but the wake of the account read as IDLE |
| WorkerChecks.IdleCheck | worker.go:155-179 | an undisturbed check makes an IDLE account due now, however far off its patrol, and changes nothing else |
| WorkerChecks.BusyCheck | worker.go:155-179 | any other account keeps its wake |
| WorkerChecks.ForceReaches | worker.go:181-196 | a manual reset reaches its account at once, unless a POST or verification is in flight, and a nudge is on its way |
| WorkerChecks.NudgeEndsSleep | worker.go:155-196 | a nudge ends a sleep at once, whatever its deadline |
| WorkerSchedule.Bookkeeping | worker.go:327-463 | machines and retry times stay disjoint; after a pass every enabled id has one of them, the retry within 30 minutes; enumerations are a minute apart |
| WorkerSchedule.OnlyIdleIsReaped | worker.go:391-407 | a step drops a machine exactly when it is an enumeration that no longer lists an IDLE account |
| WorkerSchedule.DueWorkDrains | worker.go:225-285 | at a frozen clock any undisturbed schedule, panicking ticks and recoveries included, runs at most four ticks per account |
| WorkerProgress.EndedExactlyByPanic | worker.go:207-222 | the loop has ended if and only if an enumeration, or a load outside a step, has panicked |
| WorkerProgress.WorkerNeverStrands | worker.go:199-285 | in every reachable state every account has a wake, and some continuation ticks it if and only if it has a name and no such panic has happened |
| WorkerOnTime.PromptIsIdeal | worker.go:207-325 | a worker with one account that is never held up takes it through an on-time run: no tick is late, no wake is passed |
| WorkerOnTime.IdealIsPrompt | worker.go:207-325 | and every on-time run is, as far as one likes, such a schedule of the worker |
| WorkerOnTime.WorkerPostsOnTimetable | worker.go:207-325 | in every such schedule POST k names credit k, comes at its timetable instant, and has come once the clock is past it, while no earlier credit is lost |
| WorkerOnTime.WorkerSchedulability | worker.go:207-325 | some such schedule redeems every available credit that expires if and only if the set is schedulable |
| WorkerLoops.AccountTables.Soonest | worker.go:474-490 | the loop is the running minimum over the map in some order, and an earliest non-zero wake unless an account with the empty id is strictly the soonest |
| WorkerLoops.PicksAreSearches | worker.go:474-490 | the loop's step can pick an id, or none, exactly when the search returns it in some map order |
| WorkerLoops.SoonestIsRight | worker.go:474-490 | in every map order the pick is an earliest waiting account, or none waits, if and only if no account with the empty id is strictly the soonest |
| WorkerLoops.AccountTables.RetryMissing | worker.go:421-433 | the retry loop collects exactly the specified ids in order |
| WorkerRetries.RetryListIsExact | worker.go:421-433 | an id is retried exactly when it is enabled, has no machine, and its retry time, if any, has come |
| WorkerRetries.RetryListKeepsOrder | worker.go:421-433 | in the order of the enabled ids |
| WorkerRetries.EnsuringAccount | worker.go:327-357 | a loaded id gets an IDLE machine due now, a failed one waits exactly 30 minutes, no other id is touched |
| WorkerRetries.LoadBacksOff | worker.go:296-306 | under every schedule that neither triggers nor enumerates, an account whose credentials do not load is not loaded or ticked again for 30 minutes |
| WorkerRetries.SleepForMissing | worker.go:236-247 | with nothing scheduled the loop sleeps to the earliest retry, comes straight back when one is due, and idles a tenth of a second when there is none |
| WorkerRetries.AsksHost | worker.go:367-381 | the host is asked only in wildcard mode and not within a minute of the last time |
| WorkerRetries.ListingReplaces | worker.go:391-413 | after a listing exactly its ids are enabled, and only their retry times and the listed or busy machines remain, unchanged |
| WorkerRetries.FailedListingKeeps | worker.go:383-390 | a failed listing keeps the accounts served so far |
| WorkerRetries.StartsServing | worker.go:74-95 | a worker whose credentials load starts with a machine, due at once, for exactly the accounts named; with the wildcard it asks the host first |
| WorkerLoops.AccountTables.NextMissingRetryDelay | worker.go:442-463 | the delay loop, with its early return, computes the specified delay |
| WorkerLoops.SoonestMissingIsMinimum | worker.go:447-463 | that delay is to the earliest retry time of an enabled id without a machine, and zero as soon as one has none |
| WorkerLoops.AccountTables.EnsureFSM | worker.go:327-357 | the two tables after an id is ensured, loaded or not |
| WorkerLoops.AccountTables.ApplyEnumeration | worker.go:391-413 | deleting while iterating leaves exactly the listed or busy machines and the listed retries |
| SimEngine.FakeOpenAIClient.List | sim/engine.go:74-100 | the scripted listing: unexpired rows in order, the available ones counted |
| SimEngine.FakeOpenAIClient.Usage | sim/engine.go:102-111 | the scripted usage: the current quota and every available row counted |
| SimEngine.FakeOpenAIClient.Consume | sim/engine.go:113-130 | the key and the credit are recorded; a scripted failure redeems nothing; an accepting code runs the consume hook, whatever function it is, and the answer is the code as the hook leaves it |
| SimEngine.SimFSM.Step | sim/engine.go:191-393 | the simulator's step on its mutable fields, its key and its trail of events, against the value-level step and what the client answered |
| SimMatrix.Run | sim/engine.go:413-437 | for every client and every consume hook at most six POSTs, spaced by the backoff, with one key for one target, the first inside its window; and for the one credit of the test matrix with any number of failing calls: none after expiry, the first never early or late, and one more than the failures, verified, or six and given up |
| SimTransitions.VerdictOfStep | sim/engine.go:360-393 | the simulator's verdict: OK, PARTIAL without the quota, MISMATCH otherwise, and only that counts as giving up |
| SimTransitions.TrailOfStep | sim/engine.go:191-393 | the trail shows each step's calls in order and then the state it led to |
| SimTransitions.FirstPostHasItsNumber | sim/engine.go:285-358 | an attempt's key carries the number of its first POST |
| SimTransitions.KeysDiffer | sim/engine.go:285-325 | attempts for one credit after different numbers of POSTs have different keys |
| SimTransitions.GivingUpKeepsAttempt | sim/engine.go:285-358 | giving up changes nothing else of the attempt |
| SimTransitions.ServedCall | sim/engine.go:113-130 | a call that the script fails redeems nothing; reset and already_redeemed run the hook, any other code does not |
| SimTransitions.MarksRows | sim/engine_test.go:20-25 | the hook of the test matrix marks exactly the rows of its credit |
| Refinement.StepMirrors | resetbank.go:114-147 | from mirroring states one tick of each machine agrees on state, target, attempt count, waits, wake and verdict |
| Refinement.RunsMirror | resetbank.go:114-173 | the two machines stay in step through any number of cycles |
| Refinement.StableListingAgrees | sim/engine.go:74-100 | a stable simulator listing shows the same available credits in the same order as production, ties included |
| Refinement.AnyListingAgreesWithoutTies | sim/engine.go:82-90 | without ties any sorted listing does |
| Persistence.Disk.SaveState | state.go:36-49 | a save stopped anywhere has performed exactly a prefix of its writes |
| Persistence.Disk.ReadStateFile | state.go:99-114 | three attempts: the file, its absence, or an error when each of them fails |
| Persistence.Disk.LoadState | state.go:71-95 | what a boot loads, which backup or quarantine writes it got through, and that a file that cannot be read is an error that touches nothing |
| Persistence.Disk.BackupOrFresh | state.go:116-124 | the fallback to a readable backup, or to an empty state |
| Persistence.Disk.MigrateStateFile | state.go:142-162 | a migration stopped anywhere has performed exactly a prefix of its writes |
| CrashSafety.SaveIsAtomic | state.go:36-49 | until its rename a save changes only the temporary file; after it the state file is the new state |
| CrashSafety.LoadsLastSave | main.go:297-302 | a boot loads the last renamed save, whatever saves and boots were cut short after it, if and only if one of its three reads succeeds; otherwise it starts empty |
| CrashSafety.RecoversLastBackup | state.go:71-124 | with the state file unusable the backup is recovered if and only if the last backup write that began completed, a read of the state file says so and the one read of the backup succeeds; it is then the state of that boot, and otherwise the boot starts empty |
| CrashSafety.CutBackupLosesState | state.go:71-95 | the history in which a cut backup write loses an older good backup |
| CrashSafety.UnreadBackupLosesState | state.go:116-124 | the history in which a complete backup is passed over because its single read fails |
| CrashSafety.CorruptBytesAreKept | state.go:84-91 | a boot that finds the state file corrupt sets exactly its bytes aside, and no later save, boot or damage touches them until another corrupt file is set aside |
| CrashSafety.MigrationsRerunSafely | main.go:294-295 | after a crash anywhere in the two migrations, rerunning both gives the crash-free destination and no source loses its contents |
| History.ResetHistory.Deliver | main.go:424-430 | one delivery appends and caps |
| History.DeliveriesKeepLatest | main.go:424-430 | capping at every delivery is keeping the last 500 of everything |
| History.CollapseInPlace | main.go:787-799 | the in-place filter over the shared backing array computes the collapse |
| History.CollapseKeepsFirsts | main.go:787-799 | a collapse keeps exactly the records no earlier record shares a key with, in order |
| History.ResetHistory.BackfillFromLogs | main.go:714-782 | the repair loop with its key table computes the specified repair |
| History.RepairIsIdempotent | main.go:714-799 | a repaired history has unique keys, loses none, extends the collapse, knows every logged verification, and is left alone by the next repair |
| Backfilling.LogRebuildsRecord | main.go:745-779 | from a verification's log entry the backfill rebuilds its record field by field, unless the key is already known |
| Backfilling.RestartLeavesAlone | main.go:714-782 | a restart leaves a duplicate-free history alone if and only if it knows every logged verification |
| Backfilling.RestartCountsTwice | main.go:726-736 | in any log whose other entries are known, a delivered reset is not counted again if and only if log and record share a second; otherwise exactly one duplicate is appended |
| Restarts.OtherEntriesChangeNothing | main.go:736-758 | an entry that is not DONE, has no details, or has empty ones makes no difference to a restart |
| Restarts.TellingEntryIsKnown | main.go:736-763 | every other entry's account, credit and second are known after it |
| Restarts.AddedRecordWasLogged | main.go:765-779 | what a restart adds is such an entry, field by field |
| Restarts.RestartAddsOnlyVerifications | main.go:714-782 | whatever cycles a run went through, a restart that finds its log adds only records of verifications the run made |
| Restarts.RestartKnowsVerifications | main.go:714-782 | and, unless a log call panicked, it knows every one of them |
| Delivery.DeliveredExactlyOnce | main.go:421-430 | every verification of one machine is delivered exactly once and in order, the last one possibly still waiting, if and only if none completed while another record waited and no log call panicked on one |
| Delivery.LossIsFinal | main.go:421-430 | once a record is lost nothing that happens later makes up for it |
| Delivery.OnlyEarlySyncPanicsOverwrite | resetbank.go:451-493 | no record is overwritten unless a state sync panics before it takes one |
| Delivery.OnlyLatePanicsLose | resetbank.go:425-493 | without such a panic and without a panicking log call every record is delivered with its state sync |
| Delivery.EarlySyncPanicsLoseRecord | worker.go:271-285 | the run in which a panicking sync loses a record for good |
| Delivery.LogPanicLosesRecord | resetbank.go:425-460 | the run in which a panicking log call loses the record of a fully fetched verification for good |
| WorkerDelivery.WorldDeliversExactlyOnce | worker.go:391-407 | under every schedule each record of every machine is delivered once and in order, or still waits in a machine of the table, if and only if none was overwritten, none cut off, and no enumeration dropped a machine with a waiting record |
| WorkerDelivery.WorldLossIsFinal | worker.go:391-407 | and what a schedule has lost no continuation of it makes up for |
| WorkerDelivery.OnlyLatePanicsLoseInWorld | worker.go:207-407 | without a panicking log call and a sync that panics before its take no schedule loses a record, and all are delivered but the one being synced |
| WorkerDelivery.DropLosesRecord | worker.go:391-407 | the run in which an enumeration drops an IDLE machine with its undelivered record, for good |
| LogRing.Ring.constructor | log.go:18-23 | an empty buffer with a capacity of at least one |
| LogRing.Ring.Load | log.go:27-35 | loading keeps the last entries that fit, in a backing array of its own |
| LogRing.Ring.Append | log.go:37-45 | appending keeps the last entries that fit |
| LogRing.Ring.All | log.go:47-53 | returns a copy of the contents |
| LogRing.Ring.PruneOlderThan | log.go:55-65 | the in-place compaction keeps exactly the entries not older than the cutoff, in order |
| LogRing.PruneAfterCap | log.go:37-65 | for one cutoff, pruning the ring is capping the pruned log if and only if the prune drops every evicted entry or keeps every held one |
| LogRing.PruneIsExact | log.go:55-65 | a prune keeps exactly the entries stamped at the cutoff or later |
| LogRing.HarmlessForAll | log.go:37-65 | for every cutoff, if and only if no evicted entry is later than one still held |
| LogRing.RingIsLastOfLog | log.go:27-65 | after every operation of a run the ring is the last entries of the log that never evicts, if and only if every prune of the run is harmless where it happens |
| LogRing.OldestFirstAgrees | log.go:27-65 | runs that never evict an entry later than a held one before a prune are such runs, whatever the cutoffs |
| LogRing.ChronologicalIsOldestFirst | log.go:27-65 | and logs written in time order are of that kind |
| LogRing.OnlyPrunesDiffer | log.go:27-45 | without a prune the ring is the last of the log, whatever the time stamps |
| LogRing.OutOfOrderDiffers | log.go:37-65 | for every capacity, a run in which the ring ends empty and the log does not |
| LogRing.LoadOfAllIsIdentity | log.go:27-53 | after any operations loading what All returned restores the buffer |
| Durations.FormatIsTrimmed | config.go:45-54 | formatting leaves the groups of the duration, fraction included, with no zero group at the end unless it is the only one |
| Durations.FormatRoundTrips | config.go:85-108 | parsing the text of any 64-bit duration, fractional and negative ones included, returns it, and so does its number form |
| Durations.ReadsAnyUnit | config.go:85-108 | a number of any unit, with or without a minus, is read as what it says, and refused if and only if the unit is unknown or it does not fit 64 bits |
| Durations.ReadsOtherJson | config.go:85-108 | an absent, null or empty field is zero; what is neither text nor a 64-bit number is refused |
| Durations.NeedsUnit | config.go:85-108 | a number without a unit is refused unless it is zero |
| Durations.ReadsBareFraction | config.go:85-108 | a fraction needs no number in front of it |
| Configuration.NormalizeConfig | config.go:159-181 | the normalising loop with its table of seen ids computes the specified configuration |
| Configuration.NormalizeIsSettled | config.go:159-181 | durations of at least a minute; the wildcard alone or a clean list enabling exactly what was named; and normalising again changes nothing |
| Configuration.NormalizeKeepsSettings | config.go:159-181 | a duration of at least a minute is kept and a shorter one becomes 12 or 6 hours; a clean list without the wildcard comes back as it is |
| Configuration.TrimIsMiddle | config.go:168-169 | trimming takes away exactly the white space at both ends |
| Configuration.SpacesAreUnicode | config.go:168-169 | white space is the 25 characters of Unicode's White_Space property |
| Configuration.CleaningKeepsOrder | config.go:166-176 | the ids come out in the order of their first mention |
| Configuration.ConfigEnablesAll | config.go:130-137 | the scan finds the wildcard |

## Left out

- The C ABI, host callbacks, credential and token extraction, the HTTP client: foreign calls; their answers are parameters of a tick.
- management.go beyond TriggerCheck and ForceConfirm, which are steps of the worker; UI snapshots, `lastSnapshot`, log wording, `shortID`.
- JSON and YAML syntax: a serialised state parses back to itself; `StateDir` is never written. Response key lookup is not modelled.
- Durations: a fraction is scaled exactly and cut off, where the library multiplies in floating point; the two agree on every text the plugin writes. Strings are sequences of characters, not of UTF-8 bytes.
- Worker: modelled on values, because accounts inside a map that several goroutines share would need one footprint per account; aliasing between the map and a machine a goroutine already holds is therefore not captured. An account deleted by an enumeration is IDLE, and enumerations run in the loop's own goroutine, so no tick holds such a machine.
- Worker: the clock readings after a tick's calls share one value, and a tick's effects appear at its end; management reads of a machine block on its mutex until then.
- Worker: the timer of a sleep starts slightly after the clock reading it was computed from; the deadline is the nominal one.
- Worker: the stop channel, `EachFSM` and its order, `testAccelerate` and `advanceClock`. A missing enumerator behaves as no wildcard.
- Drift.DriftBound: assumes the bound d on the lateness of a tick; with several accounts it depends on how long their ticks take, which is not bounded here. With one undisturbed account it is zero (`WorkerOnTime.PromptIsIdeal`).
- WorkerProgress.WorkerNeverStrands: says that the loop can come to the account, not that it does under every schedule: a call that never returns, or triggers of other accounts that never stop, put it off without end.
- The order in which a listing is sorted by id after an enumeration: only the order of retries depends on it.
- Attempts.AttemptsAreImmutable: counts POSTs whose call returned; a panic inside the call is not an attempt for the code either, so it is not bounded here.
- Spacing.VerificationWaits: measures from the clock reading before the accepted POST is sent, as the code does, not from the response.
- The 30-minute credential retry and the one-minute enumeration interval as upper bounds: the loop may sleep until the next machine's wake, so they are only rate limits.
- Persistence: effects reach the disk in program order. `saveState` does not sync, so after a power loss, unlike after a crash of the process, the rename may be durable before the data.
- SimEngine: a consume hook may rewrite the script (rows, quota, code, failures left) but not the recorded calls.
- Uniqueness of keys across restarts, and two saves sharing one temporary file: the code does not establish them.
- CrashSafety: the timing of debounced saves and the time stamp in a quarantined file's name; a boot that could not read the file is one that performed no effects.
- History: the dedup key is a triple rather than one joined string.
- The wording of the simulator's events; its verdict is kept as a field instead.
