# Codex of Power NG: a verified model

A Dafny model of the stateful core of the Codex of Power NG plugin, with proofs of what that core
promises. Six subsystems share one runtime state (`State.dfy`):

- **Build effects** (`Catalog`, `BuildTotals`, `BuildLedger`): what the occupied build slots add up
  to, and the ledger that keeps the player's stats in step with it.
- **Reward sync** (`RewardsResync`, `SyncEngine`, `SyncScheduler`, `SyncRuns`): which observed stat to
  believe, the pass loop with its streaks and guards, two self-requeueing workers with a generation
  fence, and the workers with the passes and attempts they run.
- **Registration, undo and progression** (`Progression`, `Registration`, `RegistrationRuns`,
  `Migration`, `MigrationRuns`): incrementally kept scores and slots, a bounded undo history with
  compensation, and the migration of older saves.
- **Settings persistence** (`SettingsFiles`, `SettingsWorker`): a final/temp/backup file protocol under
  failures and crashes, and a one-place mailbox with a restartable worker thread.
- **Quick list** (`QuickListBuilder`, `QuickListCache`, `QuickListAgreement`): the list of registrable
  items, its generation-stamped cache, and its agreement with registration.
- **Co-save codec** (`Bytes`, `CodecFormat`, `CodecLoad`, `CodecSave`, `CodecRoundTrip`, `CodecReload`,
  `CodecHistory`, `CodecRecords`): nine versioned record types, written and read byte by byte, what a session
  keeps over a reload, and what a load makes of any bytes under any resolution of form ids.

Operations that change state in place are methods on classes, proved equal to functions on values; the
properties are lemmas about those functions and about whole runs of them. Concurrency is modelled as
interleavings of atomic steps. The engine is assumed to be a faithful bookkeeper: a permanent restore
adds the same amount to the permanent modifier, the permanent value and the current value. Stats are
real numbers in the rules and raw IEEE-754 bits in the codec. Clocks, queue results, file-system
failures, form tables and everything the game answers are parameters that may take any value.

## Findings

Some of what one would expect of the code does not hold. For each case the model has the exact condition
and an input:

- The loader keeps the ledger's entries for nine actor values only and cuts those to their caps
  (src/SerializationLoad.cpp:82-98, 471-485). The sync after the load gives the player the rest again
  (`BuildLedger.ReloadGivesNothingAgainExactlyWhen`, `BuildLedger.BrawlerIsGivenTwice`).
- A failed existence probe after a failed commit makes a settings save replace a valid final file by an
  older backup (src/Config.cpp:338-341; `SettingsFiles.SaveIsSafeExactlyWhen`,
  `SettingsFiles.FailedProbeLosesASave`); the same probe in the repair can do so too
  (src/Config.cpp:86-95; `SettingsFiles.RepairIsSafeExactlyWhen`).
- A watchdog restart of one reward worker drops the other worker's pending rerun, because both share one
  generation (src/Rewards.cpp:372-375 and 406-411, include/CodexOfPowerNG/RewardsSyncRuntime.h:101-108;
  `SyncScheduler.RerunIsLostExactlyWhen`, `SyncScheduler.RewardRerunIsLost`).
- A capped reward's correction that is moved out of the temporary channel leaves the current view where it
  was (src/RewardsSyncEngine.cpp:413-423). Where that view was ahead of the permanent modifier by more than
  the tolerance, or ties with the correction, the reward is still short afterwards and may be given up
  (`SyncEngine.CorrectionIsFinalExactlyWhen`, `SyncEngine.StaysShortExactlyWhen`,
  `SyncEngine.TemporaryRewardIsLeftShort`).
- Undoing a registration whose legacy reward has no total any more takes nothing from the player and leaves
  a negative total (src/Rewards.cpp:519-522; `Registration.KeepsPaceExactlyWhen`,
  `Registration.TakenFromNothingIsOwed`).

## Model

| member | source | states |
|---|---|---|
| `BuildTotals.ComputeDerivedTotals` | src/BuildEffectRuntime.cpp:338-392 | the returned list is ascending by actor value, holds exactly the non-zero derived totals, and a derived total is the sum over the set of options eligible in at least one slot |
| `BuildTotals.SumSlots` | src/BuildEffectRuntime.cpp:341-374 | the slot loop with its once-only set adds up, for every actor value, the contributions of the set of eligible options |
| `BuildTotals.OnlyTheActiveSetMatters` | src/BuildEffectRuntime.cpp:344-391 | two slot assignments with the same set of eligible options give the same list, so slot order and duplicate or ineligible placements never show |
| `BuildTotals.DuplicatesAddNothing` | src/BuildEffectRuntime.cpp:360-362 | copying an eligible option into another slot in place of an ineligible one leaves the set of active options as it was |
| `BuildTotals.AscendingIsCanonical` | src/BuildEffectRuntime.cpp:385-391 | a list sorted by actor value is determined by its set of entries |
| `BuildTotals.ActiveExactlyWhen` | src/BuildEffectRuntime.cpp:344-362 | said on the catalog rows: an option is in force exactly when some slot holds it and takes it and the points of its own discipline cover 0.8 points for each score of its unlock value |
| `BuildTotals.LockedAddsNothing` | src/BuildEffectRuntime.cpp:350-358 | a slot whose option the points do not cover contributes nothing: the list is the one without it |
| `Catalog.FindsItsRow` | src/BuildStateStore.cpp:12-22 | the search by id finds for every option's id that option's own row |
| `Catalog.EligibleExactlyWhen` | src/BuildStateStore.cpp:193-214 | an option may sit in a slot exactly when the slot, by its place, takes the row's discipline and compatibility and the points cover the row's cost |
| `Catalog.MainEffectExactly` | src/BuildOptionCatalog.cpp:687-819 | an option's main effect is as strong as its row says, and stronger by its step for each full 800 points |
| `BuildLedger.BuildEffects.SyncCurrentBuildEffectsToPlayer` | src/BuildEffectRuntime.cpp:417-479 | for every actor value the new ledger entry and the player's views are those of one correction towards the derived total, whatever order the union of keys is visited in |
| `BuildLedger.CorrectKeepsBalance` | src/BuildEffectRuntime.cpp:450-468 | from an entry above the tolerance (and negative for shout recovery) the ledger moves by exactly what the player was given, and the new entry is again of that kind |
| `BuildLedger.LeaksExactlyWhen` | src/BuildEffectRuntime.cpp:453-468 | for any ledger at all: player and ledger part ways exactly when a sub-tolerance entry is dropped, or the floor cuts a correction so that a sub-tolerance total remains |
| `BuildLedger.DerivedTotalIsSound` | src/BuildOptionCatalog.cpp:752-819 | derived totals are zero or above the tolerance, and no set of catalog options ever raises shout recovery |
| `BuildLedger.NoStatLeaks` | src/BuildEffectRuntime.cpp:394-479 | over any run of slot and point changes, outside actor changes, syncs, and saves with reloads from an empty ledger, the permanent modifier is the initial one plus the outside changes plus the ledger entry plus exactly what the loads dropped, for every actor value |
| `BuildLedger.ClearingGivesEverythingBack` | src/BuildEffectRuntime.cpp:417-479 | after any such run, emptying the slots and syncing empties the ledger and leaves exactly the initial modifier, the outside changes and what loads dropped |
| `BuildLedger.NothingIsDroppedWhen` | src/SerializationLoad.cpp:82-98 | a run whose loads find no unsupported or over-cap entry for an actor value, a run without loads among them, drops nothing of it |
| `BuildLedger.SyncReachesItsTarget` | src/BuildEffectRuntime.cpp:394-473 | after a sync every entry but shout recovery is within 0.001 of its derived total; shout recovery has reached its own too unless the player stands at its floor, and is not driven below the smaller of its previous value and 0.30 |
| `BuildLedger.SecondSyncDoesNothing` | src/BuildEffectRuntime.cpp:447-473 | an immediate second sync changes neither the ledger nor the player |
| `BuildLedger.ReloadKeepsLedgerExactlyWhen` | src/SerializationLoad.cpp:82-98 | the ledger survives a save and a load exactly when all its actor values are among the nine the loader supports and within their caps |
| `BuildLedger.ReloadGivesNothingAgainExactlyWhen` | src/SerializationLoad.cpp:471-485 | for an entry at its target, the sync after a load leaves the modifier alone exactly when there is no entry, or it is supported and within its cap, or it is shout recovery already at its floor; for all but shout recovery it gives again exactly what was dropped |
| `BuildLedger.BrawlerIsGivenTwice` | src/SerializationLoad.cpp:82-98 | a concrete run from an empty ledger: the brawler option in the first attack slot at 2500 points is given by a sync, dropped by a load and given again |
| `RewardsResync.SelectObservedRewardTotal` | include/CodexOfPowerNG/RewardsResync.h:9-39 | the candidate loop computes the fold over the three views that the lemmas below are about |
| `RewardsResync.ConsiderAllStaysFair` | include/CodexOfPowerNG/RewardsResync.h:17-38 | for any number of candidates the recorded difference stays within one tie width of both the choice and every candidate seen |
| `RewardsResync.SelectionIsNearlyClosest` | include/CodexOfPowerNG/RewardsResync.h:9-39 | the selected view is one of the three and no candidate is closer by more than two tie widths of 0.000001 |
| `RewardsResync.TieBreakIsStale` | include/CodexOfPowerNG/RewardsResync.h:29-35 | two tie widths are reached: a concrete input where the choice is that much farther than another candidate |
| `RewardsResync.SnapshotDeltaIsOneShot` | include/CodexOfPowerNG/RewardsResync.h:41-79 | adding the computed delta to all views makes the recomputed delta zero |
| `RewardsResync.BaseStickyDeltaIsOneShot` | include/CodexOfPowerNG/RewardsResync.h:126-177 | the same for the base-sticky form |
| `RewardsResync.CappedDeltaIsOneShot` | include/CodexOfPowerNG/RewardsResync.h:228-264 | the same for the capped form |
| `RewardsResync.CarryWeightDeltaIsOneShot` | include/CodexOfPowerNG/RewardsResync.h:206-226 | the same for carry weight |
| `RewardsResync.CapNormalizationIsOneShot` | include/CodexOfPowerNG/RewardsResync.h:266-283 | the same for cap normalisation |
| `RewardsResync.CappedDeltaNeverOvershoots` | include/CodexOfPowerNG/RewardsResync.h:228-264 | for a positive target a capped delta lifts neither the current nor the selected view above the smaller of expected and cap, and brings one of them exactly there |
| `RewardsResync.SnapshotDeltaFillsTheGap` | include/CodexOfPowerNG/RewardsResync.h:41-79 | a non-zero delta brings the selected view exactly to the expected total in its direction, and the delta is zero exactly when that view is close enough or past it |
| `RewardsResync.SyncDeltaExactly` | include/CodexOfPowerNG/RewardsResync.h:41-79 | the delta is what is missing, or zero for a negligible total and for a view that has reached it in its direction within 0.001 |
| `RewardsResync.CappedDeltaExactly` | include/CodexOfPowerNG/RewardsResync.h:228-264 | for a positive target one view that reaches it is enough and the smaller lack is filled; for a negative one both must reach it and the larger lack is filled |
| `RewardsResync.BaseStickyDeltaExactly` | include/CodexOfPowerNG/RewardsResync.h:126-177 | nothing for a positive total of which neither the permanent value nor the modifier shows a trace; else what the selected view lacks |
| `RewardsResync.CarryWeightDeltaExactly` | include/CodexOfPowerNG/RewardsResync.h:206-226 | what the permanent modifier lacks of the total, unless it has reached it |
| `RewardsResync.CapNormalizationDeltaExactly` | include/CodexOfPowerNG/RewardsResync.h:266-283 | the surplus of the selected view over the capped total, taken off when it is more than 0.001 |
| `SyncEngine.SyncRun.ApplyPass` | src/RewardsSyncEngine.cpp:289-495 | one pass does to every tracked actor value what the per-value pass does, in any order, and reports no correction and nothing pending exactly when that holds of each |
| `SyncEngine.WantedIsTheLack` | src/RewardsSyncEngine.cpp:338-367 | the pass's branches come to this: nothing for a reward that has reached the player, said on the permanent modifier or the views, and else what it lacks, by value the modifier's, the sticky view's or the smaller of two lacks under the cap |
| `SyncEngine.PassExactly` | src/RewardsSyncEngine.cpp:289-495 | one pass over one value: it is corrected exactly when it is lacking, can be given and is due (carry weight at once, others found lacking for the third time in a row), and then gets all it lacks, shout recovery down to 0.30; it is pending exactly when lacking and not yet due |
| `SyncEngine.UntracedIsGivenUp` | src/RewardsSyncEngine.cpp:346-361 | health, magicka and stamina without a trace of their positive reward are given up untouched for the rest of the run |
| `SyncEngine.GivenUpOnlyWhen` | src/RewardsSyncEngine.cpp:346-478 | nothing else is given up but a value that a correction has left lacking |
| `SyncEngine.CorrectionIsFinalExactlyWhen` | src/RewardsSyncEngine.cpp:338-478 | one full correction leaves nothing wanted, exactly unless it is one that leaves a capped reward short |
| `SyncEngine.StaysShortExactlyWhen` | src/RewardsSyncEngine.cpp:413-423 | a capped reward stays short exactly when its correction is moved out of the temporary channel and the current view was ahead of the permanent modifier by more than 0.001, or ties with the correction there |
| `SyncEngine.EndIsShortExactlyWhen` | src/RewardsSyncEngine.cpp:413-478 | the one correction a value takes makes its reward reach the player exactly unless it is one that stays short |
| `SyncEngine.ShortIsNotSettled` | src/RewardsSyncEngine.cpp:413-478 | a reward that stays short has not reached the player after one correction or none, however the run goes |
| `SyncEngine.PassKeepsShape` | src/RewardsSyncEngine.cpp:289-495 | an actor value that does not stay short is waiting out its streak, satisfied, or held at the shout floor; it is corrected at most once and is at rest from the fourth pass on (the sixth for shout recovery) |
| `SyncEngine.PreparationKeepsFresh` | src/RewardsSyncEngine.cpp:82-135 | the first pass's migration and cap normalisation raise no modifier, leave no total above its cap, do not touch the temporary channel of what they keep, and are final |
| `SyncEngine.PreparationExactly` | src/RewardsSyncEngine.cpp:82-135 | the retired attack-damage reward is dropped and what shows of it, up to its total, taken out of the temporary channel; a total above its cap becomes the cap and the surplus shown over it is taken off; every other is left alone |
| `SyncEngine.EffectiveTotalsExactly` | include/CodexOfPowerNG/RewardCaps.h:59-90 | a value is tracked exactly when its capped total is above 0.001 in size, and then with that total; a skill with whole points, less than one off and no more than the total, of which at least one |
| `SyncEngine.SkillPointsExactly` | include/CodexOfPowerNG/RewardCaps.h:76-90 | a skill gets the whole points of its total, towards zero, but a total within 0.0001 of a whole number is that number |
| `SyncEngine.SyncRun.RunRewardSyncPasses` | src/Rewards.cpp:251-328 | from any views: if no tracked value stays short, the pass loop converges within 4 passes (6 with shout recovery) and has brought every value in: at most one correction, the value where it was or given exactly what it lacked, and the total reached by the permanent modifier or the views the value goes by, shout recovery at 0.30 excepted; a loop that converges has done so exactly for the values that do not stay short |
| `SyncEngine.SyncRun.RunFromStore` | src/RewardsSyncEngine.cpp:278-287 | the same for a whole run from the stored totals, whose prepared totals are within their caps |
| `SyncEngine.TemporaryRewardIsLeftShort` | src/RewardsSyncEngine.cpp:413-478 | a concrete capped reward that stays short: it is corrected, found as short as before, and given up |
| `SyncScheduler.AlwaysSingleFlight` | src/Rewards.cpp:195-329 | in every reachable state, under requests, watchdog restarts, load resets and queue failures, a worker's slot is taken exactly when one queued task of that worker carries the current generation, and all others are older |
| `SyncScheduler.OlderTasksAreInert` | src/Rewards.cpp:200-202 | running a task of an older generation only takes it off the queue; after a reset or a watchdog restart that is every task queued before |
| `SyncScheduler.WatchdogRestartsExactlyWhen` | include/CodexOfPowerNG/RewardsSyncPolicy.h:16-31 | a request advances the generation exactly when the slot has been held longer than its limit, and queues a task exactly when it starts a run and the queue accepts it |
| `SyncScheduler.EveryRequestIsOnRecord` | src/Rewards.cpp:361-392 | after any request either the rerun flag is up or a run from scratch is queued |
| `SyncScheduler.RequestExactly` | src/Rewards.cpp:361-426 | what a request does to generation, slots and queue, with all constants in numbers: a run under way gets its flag raised; else a run from the start is queued and stamped with the time, after a restart of both workers if the one under way is stuck; if the queue refuses, the wish is kept |
| `SyncScheduler.RunEndsExactly` | src/Rewards.cpp:281-328 | how a run ends: the slot is free, or the rerun asked for meanwhile is started from the start, or kept as a wish |
| `SyncScheduler.RerunIsLostExactlyWhen` | src/Rewards.cpp:281-328 | a raised rerun flag survives a step as the flag or as a queued fresh run, queue failures included, except exactly on a load reset, a watchdog restart of the other worker, or the reward worker giving up on readiness |
| `SyncScheduler.RewardRerunIsLost` | src/Rewards.cpp:400-415 | a concrete sequence of four requests from the start by which the carry-weight watchdog loses a pending reward rerun |
| `SyncScheduler.RunsAreBounded` | src/Rewards.cpp:281-328 | without requests the ready passes made and the budget left never exceed the budget at the start |
| `SyncScheduler.ReachableRunsAreBounded` | src/Rewards.cpp:32-38 | from any reachable state a stretch without requests makes at most 180 ready passes (3 counted attempts for carry weight), or twice that when a rerun was already asked for |
| `SyncScheduler.UnfinishedPassGoesOn` | src/Rewards.cpp:312-323 | progress: an unfinished ready pass with turns left and an accepting queue keeps its slot and leaves exactly one current task, with what was learned and one turn less |
| `SyncScheduler.ReadyPassKeepsSlotExactlyWhen` | src/Rewards.cpp:281-328 | after a ready pass the slot is still taken exactly when the queue accepted and there is a next pass or a rerun |
| `SyncScheduler.UnfinishedRunMakesExactly` | src/Rewards.cpp:32-38 | a run whose passes are ready and never finish makes exactly 180 of them (3 attempts for carry weight) before its slot is free |
| `SyncScheduler.WaitsForReadinessExactly` | src/Rewards.cpp:204-280 | a task that is not ready goes back unchanged until 20 seconds (10 for carry weight) after it was first found so, the player untouched, and then gives its slot up |
| `SyncScheduler.SyncRuntime.RequestRun` | src/Rewards.cpp:361-426 | the request entry points, in place: the new state is the request step of the old one |
| `SyncScheduler.SyncRuntime.RunRewardSyncPasses` | src/Rewards.cpp:251-329 | one reward task around any pass outcome, in place: the new state is the reward step of the old one |
| `SyncScheduler.SyncRuntime.RunCarryWeightQuickResync` | src/Rewards.cpp:195-249 | one carry-weight task around any attempt outcome, in place: the new state is the carry-weight step of the old one |
| `SyncScheduler.SyncRuntime.BumpGenerationAndClearSchedulers` | include/CodexOfPowerNG/RewardsSyncRuntime.h:101-108 | the generation advances and both slots are idle |
| `SyncScheduler.SyncRuntime.CompleteRun` | include/CodexOfPowerNG/RewardsSyncRuntime.h:144-180 | a completed run frees its slot only while its generation is current |
| `SyncScheduler.SyncSlot.TryStart` | include/CodexOfPowerNG/RewardsSyncRuntime.h:47-55 | an idle slot is taken and stamped; a taken one only gets its rerun flag raised |
| `SyncRuns.TryCarryWeightQuickResyncAttempt` | src/Rewards.cpp:111-193 | in place: the stored total, the delta, the restore and the move out of the temporary channel; other actor values are not touched |
| `SyncRuns.OneAttemptIsEnough` | src/Rewards.cpp:111-193 | from any views a ready attempt finishes with the permanent modifier at the stored total, having given exactly what it lacked, and a second attempt does nothing |
| `SyncRuns.RunPass` | src/RewardsSyncEngine.cpp:278-495 | the pass engine carries out every pass, the preparation of the first included, from whatever a task remembers between its passes |
| `SyncRuns.RunQueuedTask` | src/Rewards.cpp:195-329 | in place: a queued task taken and run, its effect computed by the engine or the resync rather than left open |
| `SyncRuns.PassAdvances` | src/RewardsSyncEngine.cpp:278-495 | a pass of a scheduled run takes every tracked value one step of its course, and the last pass within the limit finds nothing to do |
| `SyncRuns.AttemptKeepsStanding` | src/Rewards.cpp:111-193 | a carry-weight attempt between two passes leaves the run where it stands |
| `SyncRuns.RequestSettles` | src/Rewards.cpp:251-328 | a request that finds the slot free, followed by any events but another reward request: at most 4 ready passes (6 with shout recovery) are made, having made that many the run has converged and freed its slot, and once converged every tracked reward has been brought in |
| `SyncRuns.RequestConverges` | src/Rewards.cpp:251-328 | such a request, worked on by ready tasks that the queue accepts, has converged after 4 events (6 with shout recovery), freed its slot and brought every tracked reward in |
| `SyncRuns.TrackedIsTheStore` | src/RewardsSyncEngine.cpp:82-135 | what a run tracks is every effective total of the store but the retired attack-damage one |
| `SyncRuns.RewardsReachThePlayer` | src/RewardsSyncEngine.cpp:363-367 | what that means for an ordinary reward, on the store and the player as they were: a permanent modifier that had reached the total is as it was, any other is now exactly the total, the permanent value having moved by the same amount |
| `SyncRuns.ResyncTriesOnce` | src/Rewards.cpp:195-249 | a carry-weight resync makes at most one attempt and then frees its slot, unless another is asked for meanwhile |
| `State.RuntimeState.Replace` | include/CodexOfPowerNG/SerializationStateStoreOps.h:33-54 | every field becomes the snapshot's |
| `State.RuntimeState.Clear` | include/CodexOfPowerNG/SerializationStateStoreOps.h:56-76 | every field goes back to its start value |
| `Progression.TablesAgree` | src/BuildProgression.cpp:246-306 | group, discipline and point tables name the same form types and the same disciplines, and no form is worth more than 70 |
| `Progression.RollbackUndoesApply` | src/BuildProgression.cpp:441-497 | rolling back what was just applied restores scores, points and slots, provided nothing saturated and the slots were valid |
| `Progression.SweepFits` | src/BuildProgression.cpp:482-495 | the sweep leaves a valid assignment, whatever was there, and removes nothing from a valid one |
| `Progression.RollbackContribution` | src/BuildProgression.cpp:463-497 | in place: scores and points floored at zero, slots swept at the new points |
| `Progression.ApplyContribution` | src/BuildProgression.cpp:441-461 | in place: scores and points saturating at 2^32 - 1 |
| `Progression.SetActiveSlot` | src/BuildStateStore.cpp:192-214 | in place: refused or carried out as the activation is, which changes exactly that slot |
| `Progression.SwapBuildOption` | src/PrismaUIRequestOps.cpp:554-565 | the swap task: clear, set, and restore on refusal |
| `Progression.ActivateKeepsSlotsValid` | src/BuildStateStore.cpp:192-214 | activating keeps every occupied slot valid and keeps all slots empty while a cleanup is pending |
| `Progression.SwapKeepsSlotsValid` | src/PrismaUIRequestOps.cpp:554-565 | swapping keeps the slot invariant |
| `Progression.RollbackKeepsSlotsValid` | src/BuildProgression.cpp:482-495 | undoing keeps the slot invariant |
| `Progression.ApplyKeepsSlotsValid` | src/BuildProgression.cpp:441-461 | registering keeps the slot invariant |
| `Progression.FailedSwapRestoresExactlyWhen` | src/PrismaUIRequestOps.cpp:557-562 | a refused swap leaves the state as it was exactly when it never started or its restore step could not be refused |
| `Progression.FailedSwapChangesNothing` | src/PrismaUIRequestOps.cpp:557-562 | under the slot invariant a refused swap changes nothing |
| `Progression.SuccessfulSwapMoves` | src/PrismaUIRequestOps.cpp:558-564 | an accepted swap empties the source and fills the target with the option |
| `Progression.ActivatesExactlyWhen` | src/BuildStateStore.cpp:193-214 | an activation is accepted exactly when no cleanup is pending, the slot takes the option's row and the points of its discipline cover the row's cost; then only that slot changes, otherwise nothing |
| `Progression.UnknownOptionsAreRefused` | src/BuildStateStore.cpp:199-203 | an id that no row has is refused |
| `Progression.SwapsExactlyWhen` | src/PrismaUIRequestOps.cpp:554-565 | so is a swap, for an option that is in the slot it is moved from |
| `Progression.SlotsFitExactlyWhen` | src/BuildProgression.cpp:482-495 | the slot invariant on the rows: every occupied slot holds an option that the slot takes and the points cover |
| `Progression.SweepsExactly` | src/BuildProgression.cpp:482-495 | the sweep keeps what the slot takes and the points cover, and empties every other slot |
| `Progression.EmptiedAreChanged` | src/BuildProgression.cpp:482-501 | the number of deactivated slots that a rollback reports is the number of slots its sweep changes |
| `Progression.ContributionCountsExactly` | src/BuildProgression.cpp:441-480 | a contribution moves scores and points of its own discipline by its deltas and no other, stopping at 2^32 - 1 and at zero |
| `Registration.TryRegisterItem` | src/RegistrationQuickRegister.cpp:156-309 | in place: state, item counts and outcome are those of the registration function, branch by branch |
| `Registration.TryUndoRegistration` | src/RegistrationUndo.cpp:71-142 | in place: state, item counts and success are those of the undo function, compensations included, and the player's views move by exactly the legacy rewards taken back |
| `Registration.PushUndoRecord` | src/RegistrationStateStore.cpp:73-85 | the record gets the next id and the history keeps its latest ten |
| `Registration.PopLatestUndoRecord` | src/RegistrationStateStore.cpp:87-103 | only the latest record, and only under its own id, is taken |
| `Registration.RestoreUndoRecord` | src/RegistrationStateStore.cpp:105-114 | the record goes back on top and the next id is at least one above it |
| `Registration.RollbackRewardDeltas` | src/Rewards.cpp:494-545 | in place: totals and player after taking back a record's legacy rewards one by one, the count of adjustments, and nothing at all without a player |
| `Registration.KeepsPaceExactlyWhen` | src/Rewards.cpp:512-530 | taking one reward back moves the player along with the totals, within twice the tolerance, exactly unless the total was gone and what is left owing stands for something |
| `Registration.RollbackKeepsPace` | src/Rewards.cpp:494-545 | over a whole rollback that finds its totals, the player loses what the totals lose, within twice the tolerance per reward |
| `Registration.TakesBackExactly` | src/Rewards.cpp:519-529 | a present total becomes the old one less the delta, cut to its cap and dropped within 0.001; an uncapped non-skill value of the player falls by exactly the delta |
| `Registration.TotalsFallByTheRecord` | src/Rewards.cpp:494-545 | over a whole rollback that finds its totals and meets no cap, a total falls by the sum of the record's deltas, within 0.001 for each |
| `Registration.PlayerFallsByTheRecord` | src/Rewards.cpp:494-545 | so does an uncapped non-skill value of the player |
| `Registration.TakenFromNothingIsOwed` | src/Rewards.cpp:519-522 | a reward whose total is gone stays with the player and leaves a negative total |
| `Registration.RegistersExactlyWhen` | src/RegistrationQuickRegister.cpp:160-279 | an item is registered exactly when it is offered, new, named, safe to remove and leaves the inventory, and banned exactly when it is new and has no name or will not leave |
| `Registration.RegistrationExactly` | src/RegistrationQuickRegister.cpp:262-300 | a registration takes one item, registers the key under its form's group and leaves an undo record with the form's discipline and points; a ban bans the item and its key and nothing else |
| `Registration.UndoesExactlyWhen` | src/RegistrationUndo.cpp:71-142 | an undo goes through exactly for the latest action, while its key is registered, its form or its key's exists, and the player takes it |
| `Registration.UndoExactly` | src/RegistrationUndo.cpp:91-140 | it gives one item of the record's form back, or of its key's where that is gone, and forgets the key and the record; rewards or scores change, never both |
| `Registration.FailedUndoRestoresExactlyWhen` | src/RegistrationUndo.cpp:42-46 | a failed undo restores the whole state exactly when the record's group is the registered one, its id is below the next and the history is not overlong |
| `Registration.UndoInvertsOne` | src/RegistrationUndo.cpp:71-142 | undoing a registration's record restores registered map, scores, points, slots and item counts |
| `Registration.UndoInvertsRegistrations` | src/RegistrationStateStore.cpp:73-103 | k <= 10 registrations and k undos of the latest action restore everything but the history, which is the longest suffix of the original that fits in 10 - k, and the next id, which has grown by k |
| `RegistrationRuns.IncrementalEqualsCounted` | src/RegistrationQuickRegister.cpp:281-300 | from nothing registered, after any run of registrations, undos, failed undos and slot changes, scores and points are the counts over the registered map, the history is in order and backed by it, and the slots are valid |
| `RegistrationRuns.RunsStaySound` | src/RegistrationUndo.cpp:71-142 | the same from any sound state |
| `RegistrationRuns.FailedUndoChangesNothing` | src/RegistrationUndo.cpp:87-114 | in a sound state a failed undo changes nothing |
| `RegistrationRuns.RefusedKeepsAllButBlocked` | src/RegistrationQuickRegister.cpp:160-279 | a registration that does not go through changes at most the blocked set, and only when it bans the item |
| `RegistrationRuns.CountsAreSmall` | src/BuildProgression.cpp:262-286 | counted points are at most 70 for each registered key |
| `Migration.DeriveScores` | src/BuildProgression.cpp:348-368 | the loop over the registered map, in any order, yields the sums over its keys wrapped to 32 bits, and the number of unresolved keys |
| `Migration.CountsUnresolved` | src/BuildProgression.cpp:361-365 | the number of unresolved keys is how many there are |
| `Migration.NormalizeLoadedSnapshot` | src/BuildProgression.cpp:321-390 | in place: the snapshot becomes its normal form |
| `Migration.NormalizeIsIdempotent` | src/BuildProgression.cpp:321-390 | normalising reaches a normal form and a second time changes nothing |
| `Migration.OldSavesExactly` | src/BuildProgression.cpp:336-390 | what a save from before version 2 becomes: empty slots, a pending cleanup exactly for left-over rewards, a notice exactly for progress, rewards stripped from the undo history when none are left |
| `Migration.NewSavesExactly` | src/BuildProgression.cpp:321-335 | a later one keeps its slots under their present ids, or none while a cleanup is pending, and its undo rewards unless it is complete |
| `Migration.RemapIsFinal` | src/BuildProgression.cpp:50-62 | three retired wards become the elemental ward and two the purification, every other id stays; remapping is final and never empties a slot |
| `Migration.FormExactly` | src/BuildProgression.cpp:348-362 | a registered key whose form has points counts with its form's discipline and points, whatever its recorded group |
| `Migration.FallbackExactly` | src/BuildProgression.cpp:308-367 | any other counts by its recorded group with 50, 30 or 10 points, or is unresolved |
| `Migration.TableExactly` | src/BuildProgression.cpp:308-367 | a caller's table of disciplines stands in for the forms, for unknown groups only |
| `Migration.IncrementalEqualsMigrated` | src/BuildProgression.cpp:348-368 | the scores kept by any run are what the migration loop derives from the registered map in any order |
| `MigrationRuns.CleanupLegacyRewardTotals` | src/Rewards.cpp:428-462 | fails only when effective totals are left and there is no player; otherwise the store is emptied and each actor value is capped and relieved of what its total stood for |
| `MigrationRuns.CleanupTakesExactly` | src/Rewards.cpp:428-462 | what the cleanup takes off each value: the surplus shown over the cap and then the capped total itself, for a skill whole points less than one off it, from the current value, the permanent value and the modifier alike; it never adds |
| `MigrationRuns.CleansExactlyWhen` | src/Rewards.cpp:428-462 | a cleanup cannot be done exactly when some total stands for something and there is no player |
| `MigrationRuns.TryFinalizePendingMigration` | src/BuildProgression.cpp:392-420 | in place: the finished snapshot, with the player touched only when a cleanup is asked for and can be done |
| `MigrationRuns.ConsumeMigrationNotice` | src/BuildProgression.cpp:504-514 | a waiting notice is handed out and no longer waits |
| `MigrationRuns.ProcessBuildMigrationState` | src/main.cpp:135-146 | in place: the live state, the player and the notice after one attempt |
| `MigrationRuns.EverythingAtMostOnce` | src/main.cpp:135-146 | over any run of attempts, reloads and play the state only advances, and scores are derived, legacy totals subtracted and the notice given at most once each |
| `MigrationRuns.TakenBackExactlyOnce` | src/main.cpp:135-146 | however often attempts and reloads repeat, the legacy totals have left the player exactly once if some attempt had a player, and not at all otherwise |
| `MigrationRuns.ProcessCompletesExactlyWhen` | src/BuildProgression.cpp:399-419 | an attempt ends complete exactly when it was complete, or was unmigrated or pending and the cleanup could be done |
| `MigrationRuns.FinishedExactly` | src/BuildProgression.cpp:392-420 | what an attempt leaves, field by field: finished, no slots, no totals and no rewards in the undo history; otherwise all of them as they were but the slots of a waiting cleanup |
| `MigrationRuns.ProcessKeepsSlotsValid` | src/BuildProgression.cpp:327-346 | a migration attempt keeps the slot invariant |
| `SettingsFiles.UserSettingsFiles.SaveToDisk` | src/Config.cpp:239-353 | in place: result, files and the full history of intermediate states of one save under any failures |
| `SettingsFiles.UserSettingsFiles.RepairUserSettingsFiles` | src/Config.cpp:52-96 | in place: the same for one repair |
| `SettingsFiles.SuccessMeansFinal` | src/Config.cpp:321-326 | a save that returns true has made the new content final |
| `SettingsFiles.SucceedsExactlyWhenFinal` | src/Config.cpp:239-353 | a save reports success exactly when its content is the final file afterwards, and does when nothing fails up to the commit |
| `SettingsFiles.SaveLeavesExactly` | src/Config.cpp:239-353 | what a save that is not cut off leaves in each of the three files, by what failed |
| `SettingsFiles.RepairRecovers` | src/Config.cpp:67-95 | a repair without failures makes the recoverable copy the final file and leaves no temp file |
| `SettingsFiles.RepairLeavesExactly` | src/Config.cpp:52-96 | the same for a repair: the temp file is used only for want of a final one and the backup only after it |
| `SettingsFiles.SaveIsSafeExactlyWhen` | src/Config.cpp:304-350 | at every point of a save a valid copy no older than the last successful save is recoverable, exactly unless a failed existence probe after a failed commit moves an older backup over a final file that is still there |
| `SettingsFiles.RepairIsSafeExactlyWhen` | src/Config.cpp:86-95 | the same for a repair and its second existence probe |
| `SettingsFiles.FailedProbeLosesASave` | src/Config.cpp:338-341 | a concrete input on which the guarantee fails |
| `SettingsFiles.NothingSavedIsLost` | src/Config.cpp:52-96 | after any sequence of saves and repairs cut off at any point, none of which misfires, a copy no older than the last reported save is recoverable and a repair without failures makes it final |
| `SettingsWorker.RunsStaySound` | src/PrismaUISettings.cpp:114-181 | in every interleaving: a waiting job has a running worker or a producer before its compare-exchange, the flag counts the one active or spawning worker, and jobs stay in order |
| `SettingsWorker.AttemptsFollowTheQueue` | src/PrismaUISettings.cpp:137-151 | attempted jobs are an ordered sub-list of the stored ones and at most one thread runs the loop |
| `SettingsWorker.QuiescenceLosesNothing` | src/PrismaUISettings.cpp:114-181 | once all threads have returned the mailbox is empty and the last job attempted is the last one stored |
| `SettingsWorker.RunsAreFinite` | src/PrismaUISettings.cpp:128-156 | without new requests every schedule is bounded by the work left |
| `SettingsWorker.NothingBlocks` | src/PrismaUISettings.cpp:170-180 | short of quiescence some thread can move; in particular the join before a new thread never waits |
| `SettingsWorker.Mailbox.TryTakePendingSettingsSave` | src/PrismaUISettings.cpp:114-126 | in place: the pending job is taken, or the flag falls and the worker ends, in one step |
| `SettingsWorker.Mailbox.PutJob` | src/PrismaUISettings.cpp:165-168 | in place: the mailbox holds the new job |
| `SettingsWorker.Mailbox.TryBecomeStarter` | src/PrismaUISettings.cpp:170-173 | in place: the first producer to find the flag down raises it |
| `QuickListBuilder.BuildQuickListEligibleItems` | src/RegistrationQuickListBuilder.cpp:138-174 | the result is sorted by group and name and is a rearrangement of the eligible items |
| `QuickListBuilder.ListedExactlyWhen` | src/RegistrationQuickListBuilder.cpp:73-106 | a key is listed exactly when the first qualifying entry for it has anything in its stack |
| `QuickListBuilder.ListedKeys` | src/RegistrationQuickListBuilder.cpp:92-101 | in any order the sort may choose, no key is listed twice and nothing registered is listed |
| `QuickListBuilder.ListedItemsShowEntries` | src/RegistrationQuickListBuilder.cpp:16-132 | every listed item shows one entry: its ids, name, group, points and counts, and the reason it is greyed out, in the order quest, gate, favourite, nothing safe |
| `QuickListBuilder.NamesDifferExactly` | src/RegistrationQuickListBuilder.cpp:138-174 | the order of names: behind what two have in common the smaller byte comes first, the end of a name before any |
| `QuickListBuilder.SortedByGroupAndName` | src/RegistrationQuickListBuilder.cpp:138-174 | in a sorted list groups ascend and within a group names do |
| `QuickListBuilder.PagesConcatenate` | src/RegistrationQuickRegister.cpp:50-66 | asking for page after page while there is more yields the full list, for any positive page size |
| `QuickListBuilder.PageExactly` | src/RegistrationQuickRegister.cpp:50-66 | a page holds the items of its range that there are, the list's length, and whether the range ends before the list does |
| `QuickListCache.QuickList.BuildQuickRegisterList` | src/RegistrationQuickRegister.cpp:117-154 | in place: without a player an empty page; otherwise the new state is that of the request's events, a hit's or a miss's, and the page is cut from the list served |
| `QuickListCache.QuickList.TryBuildQuickListFromCache` | src/RegistrationQuickRegister.cpp:68-89 | in place: the new state is that of the look-up event, and a page comes from the cache exactly when generation, settings and age allow |
| `QuickListCache.QuickList.InvalidateQuickRegisterCache` | src/RegistrationQuickRegister.cpp:111-115 | in place: the new state is that of a generation bump followed by the emptying of the cache |
| `QuickListCache.QuickList.UpdateQuickListCache` | src/RegistrationQuickRegister.cpp:91-102 | in place: the new state is that of the store event, the list stamped with the generation read before its snapshot |
| `QuickListCache.RunsStaySound` | src/RegistrationQuickRegister.cpp:68-154 | in every interleaving each list, cached or in hand, leaves out every key that was registered when its generation began and has not been removed since |
| `QuickListCache.ReadYourWrites` | src/RegistrationQuickRegister.cpp:281-301 | no request begun after a registered key's generation bump is served a page with that key until an undo of the key succeeds; undos that fail in between make no difference |
| `QuickListCache.AnswersExactlyWhen` | src/RegistrationQuickRegister.cpp:68-89 | a look into the cache is answered exactly with a list of the same generation and mask that is not over 750 ms old |
| `QuickListCache.StoredListIsServedAgain` | src/RegistrationQuickRegister.cpp:91-154 | a list just stored answers the next request of its mask within 750 ms |
| `QuickListCache.InvalidationExactly` | src/RegistrationQuickRegister.cpp:111-115 | an invalidation begins a new generation and empties the cache, and nothing else |
| `QuickListAgreement.ReadyExactlyWhenItPasses` | src/RegistrationQuickListBuilder.cpp:16-34 | an entry is listed without a disabled reason exactly when registering the same stack passes every check |
| `QuickListAgreement.RegistersExactlyWhenReady` | src/RegistrationQuickRegister.cpp:184-279 | a registration succeeds exactly when its entry is ready, named, held and removable |
| `QuickListAgreement.RegisteredLeavesTheList` | src/RegistrationQuickListBuilder.cpp:95-97 | after a registration no list holds its key, as key or as item |
| `QuickListAgreement.RegisteringIsItsEvents` | src/RegistrationQuickRegister.cpp:156-303 | what a registration does to the registered and blocked keys is what its events in the cache's runs do |
| `QuickListAgreement.UndoingIsItsEvents` | src/RegistrationUndo.cpp:71-142 | so does an undo: a failed one leaves the registered keys as they were, a successful one removes its key |
| `QuickListAgreement.RegisteredStaysOffTheList` | src/RegistrationQuickRegister.cpp:281-301 | from a registration's invalidation to the next successful undo of its key, no request begun is served the key |
| `QuickListAgreement.StaysOffOnceRegistered` | src/RegistrationQuickRegister.cpp:281-301 | the same once the whole registration, its invalidation included, has been carried out |
| `CodecFormat.ClampBitsComparesValues` | include/CodexOfPowerNG/RewardCaps.h:59-74 | clamping by bit patterns compares the values the floats stand for |
| `CodecFormat.CapBitsMeanTheCap` | include/CodexOfPowerNG/RewardCaps.h:30-57 | the cap patterns are the caps exactly, and each limit pattern is the float nearest to the sum of cap and tolerance: every other positive finite float is farther off |
| `CodecFormat.ToleranceBits` | include/CodexOfPowerNG/RewardCaps.h:9 | the tolerance in that sum is the value of the single-precision constant's bits |
| `CodecFormat.ClampBitsIsFinal` | include/CodexOfPowerNG/RewardCaps.h:59-74 | clamping twice is clamping once, and the result is finite |
| `Bytes.BitsAreOrdered` | include/CodexOfPowerNG/RewardCaps.h:73 | positive finite floats are ordered like their bit patterns |
| `CodecFormat.EntriesAddFirstGroups` | src/SerializationLoad.cpp:181-224 | for any bytes and any resolution of form ids: a key present stays as it is, a new key appears exactly when some entry resolves to it, and it gets the group of the first such entry, which version 1 leaves unknown |
| `CodecFormat.UnknownRecordsAreTransparent` | src/SerializationLoad.cpp:648-651 | a record of unknown type, wherever it stands, makes no difference to what the others load |
| `CodecFormat.WholeRecordAbortsExactlyWhen` | src/SerializationLoad.cpp:168-647 | a record whose bytes are all there aborts the load exactly when it is shorter than its type and version require, or one of the slot texts it announces has fewer bytes left than its prefix needs or promises |
| `CodecFormat.SlotTextsFailExactlyWhen` | src/SerializationLoad.cpp:332-342 | the slot reader gives up exactly when one of the texts still to be read runs over the record's end, as the length prefixes place them |
| `CodecLoad.RecordReader.Skip` | src/SerializationLoad.cpp:118-129 | skipping in chunks ends at the length asked for or at the end of the record |
| `CodecLoad.ReadString` | src/SerializationLoad.cpp:131-158 | one length-prefixed text, read whole and then cut to 128, with the rest of the record never underflowing |
| `CodecLoad.LoadRegistered` | src/SerializationLoad.cpp:170-233 | REGI in versions 1 and 2: the format's result, and a reader that goes on has used up the record |
| `CodecLoad.LoadForms` | src/SerializationLoad.cpp:234-272 | BLCK and NTFY: the same |
| `CodecLoad.LoadScores` | src/SerializationLoad.cpp:273-316 | BSCR in versions 1 and 2: the same |
| `CodecLoad.LoadSlots` | src/SerializationLoad.cpp:317-348 | BSLT: the same |
| `CodecLoad.LoadMigration` | src/SerializationLoad.cpp:349-388 | BMIG: the same |
| `CodecLoad.LoadRewards` | src/SerializationLoad.cpp:389-443 | RWDS with its cut at 256 entries: the same |
| `CodecLoad.LoadEffects` | src/SerializationLoad.cpp:444-492 | BEFX: the same |
| `CodecLoad.LoadUndo` | src/SerializationLoad.cpp:493-647 | UNDO in all versions, with its nested counts: the same |
| `CodecLoad.Load` | src/SerializationLoad.cpp:161-658 | for every stream of records an aborted load leaves the live state as it was, and a completed one replaces it by the normal form of what the records say |
| `CodecSave.WritePairs` | src/SerializationSave.cpp:31-52 | REGI, BEFX and RWDS: count and pairs of every entry once, in some order; a failing writer leaves the records before it alone |
| `CodecSave.WriteForms` | src/SerializationSave.cpp:54-94 | BLCK and NTFY: the same for sets |
| `CodecSave.WriteBuildSlotsRecord` | src/SerializationSave.cpp:112-134 | BSLT: the six texts, length first |
| `CodecSave.WriteUndoRecord` | src/SerializationSave.cpp:203-251 | UNDO version 4: header, entries and their deltas in history order |
| `CodecSave.Save` | src/SerializationSave.cpp:260-277 | all nine writers run whatever the others report: each operation that fails costs the one record it was for, of which at most a beginning is left, and no other; without a failure the save reports success and the file is the nine records of the snapshot under some order of its containers |
| `CodecSave.WholeParts` | src/SerializationSave.cpp:260-277 | parts without a failure among them are the records themselves |
| `CodecSave.SavedRecordsAreWhole` | src/SerializationSave.cpp:31-251 | every record declares the length it has |
| `CodecRoundTrip.RoundTrip` | src/SerializationLoad.cpp:161-658 | loading a saved file, with form ids that resolve to themselves, yields the snapshot after exactly the documented filters, in whatever order its containers were written |
| `CodecRoundTrip.SaveAndReload` | src/SerializationSave.cpp:260-277 | writers and readers together: the live state becomes the normal form of the filtered snapshot, or stays as it was if a writer failed, which needs an operation that fails |
| `CodecRoundTrip.AmountsComeBackExactlyWhen` | src/SerializationLoad.cpp:396-437 | rewards come back unchanged exactly when there are at most 256 and all are supported and within their caps; the ledger exactly when all are supported and within their caps |
| `CodecRoundTrip.HistoryComesBack` | src/SerializationLoad.cpp:630-641 | a history of at most ten, with the next id above its last, keeps its length, its ids and the next id |
| `CodecRoundTrip.HistoryReadsBack` | src/SerializationLoad.cpp:521-634 | reading what the undo writer wrote appends the written records, filtered, to the history and keeps the latest ten |
| `CodecRoundTrip.SlotsReadBack` | src/SerializationLoad.cpp:332-342 | reading the slot texts back yields them cut to 128 bytes |
| `CodecReload.ReloadKeepsSound` | src/SerializationLoad.cpp:161-658 | a session's invariant survives a save and a load with ids that resolve to themselves: scores and points stay the counts over the registered map, also where the load derives them anew, the history keeps its ids, keys and contributions and stays backed, and the slots come back or are cleared |
| `CodecReload.SaveAndReloadSession` | src/SerializationSave.cpp:260-277 | the same for the writers and the readers at work; a save that fails leaves the live state alone |
| `CodecHistory.UndoRecordExactly` | src/SerializationLoad.cpp:493-647 | for any bytes, version and resolution of form ids: the history is the latest ten of the stored records whose two forms resolve, in order, each with the resolutions of its stored ids and its stored action id, group, contribution and supported deltas, and the next action id lies above the last |
| `CodecRecords.RegisteredRecordExactly` | src/SerializationLoad.cpp:170-233 | a key is registered after the load exactly if it was or some entry now goes by it, with the group that the first such entry has at its place in the bytes, or 255 in version 1 |
| `CodecRecords.FormsRecordExactly` | src/SerializationLoad.cpp:234-272 | a form is blocked, or notified, after the load exactly if it was or some entry now goes by it |
| `CodecRecords.RewardsRecordExactly` | src/SerializationLoad.cpp:389-443 | a supported actor value has the amount of its last entry among the first 256, cut to its cap; every other is as it was |
| `CodecRecords.EffectsRecordExactly` | src/SerializationLoad.cpp:444-492 | the same for the ledger, all entries counting |
| `CodecRecords.ScoresRecordExactly` | src/SerializationLoad.cpp:273-316 | which bytes are which score and which points; version 1 leaves the points alone |
| `CodecRecords.SlotsRecordExactly` | src/SerializationLoad.cpp:317-348 | slot by slot, the text that the length prefixes before it place there, cut to 128 characters, or nothing |
| `CodecRecords.MigrationRecordExactly` | src/SerializationLoad.cpp:349-388 | which bytes are the version, the state and the notice |
| `CodecRecords.OtherVersionsAreIgnored` | src/SerializationLoad.cpp:170-492 | a record of a version the plugin does not know makes no difference |
| `CodecRecords.ListRecordAbortsExactlyWhen` | src/SerializationLoad.cpp:170-492 | a list record that ends early aborts the load exactly when its count, or an entry that count and declared length announce, is not all there |
| `CodecRecords.FixedRecordAbortsExactlyWhen` | src/SerializationLoad.cpp:273-388 | so does a record of fixed size exactly when it is declared or found too short |
| `CodecRecords.FilesWithoutMigrationAreMigrated` | src/SerializationLoad.cpp:161-658 | a file without a migration record, whatever else it holds, is loaded as an old save: scores and points derived anew, slots emptied, a cleanup pending exactly for left-over rewards |

## Left out

- Float rounding in the rules: amounts are real numbers there, so the isfinite guards have no counterpart; the codec works on raw bits and models them.
- Integer wrap of build points at 2^32 and of action ids at 2^64 in the run theorems, which assume room below those limits; the operations themselves saturate or wrap as the code does.
- Skyrim, SKSE and PrismaUI calls, localisation, logging, toasts and JSON parsing: foreign code or I/O, reduced to parameters.
- The weapon-ability refresh after a sync: it touches no modelled state.
- All JavaScript, payload builders, view handling and Python scripts: user interface and tooling.
- Random reward tables, loot-notify throttling and the notified set's use: they would only add easy members.
- The settings worker's shutdown and an exception out of its loop, after which a job may stay in the mailbox.
- Memory equals disk after a failed settings save with a newer job queued: the code does not guarantee it.
- SyncScheduler.AlwaysSingleFlight: requests and tasks are atomic steps on the main thread; a load reset between the reads and writes inside one request is not modelled.
- SyncScheduler.SyncRuntime.RunRewardSyncPasses: leaves the effect of a pass open, so that single flight and the bounds hold whatever passes do; SyncRuns puts the engine's passes in.
- SyncScheduler.SyncRuntime.RunCarryWeightQuickResync: leaves the outcome of an attempt open in the same way; SyncRuns puts the resync's arithmetic in.
- SyncRuns.RequestSettles: nothing but the two workers changes the player or the store while the run is under way, and no tracked reward is one that `SyncEngine.StaysShortExactlyWhen` describes.
- CodecRoundTrip.RoundTrip: asks that each record's data is shorter than 2^32 bytes, the most a record's length field can say, and that form ids resolve to themselves.
- The build sync and the carry-weight request that an undo triggers: the first is the ledger's sync, the second a request event of the scheduler, and neither is called from the undo here.
- Registration: the register key, quest protection and the collection gate are inputs, not computed from the game's data.
