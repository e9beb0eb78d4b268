# Verified model of the agent harness

This project models, in Dafny 4.11, the parts of the gcode agent harness whose correctness rests on state kept over
many calls: context compaction, transcript repair, the bridge's job protocol, the prefix-cache tracker, the stamped LRU
caches, bounded top-k selection, detached background tasks, the debounced publisher, two small algorithms of the memory
benchmark, and the budgeted conversation excerpt. It proves what those parts guarantee over every run and, where a
guarantee fails, exactly when.

`dafny verify dfyconfig.toml` checks everything. The project stands alone: it imports no library.

## Shape

Code that changes things in place is a class or a method with loops, proved equal to a function on a value that holds
the same fields (`View()`). What the code promises is then proved about those functions, over sequences of operations or
over interleavings of atomic steps with program counters.

| file | models |
|---|---|
| `Wrappers.dfy`, `Messages.dfy` | optional values, messages, their sizes and tool ids |
| `CompactionCore.dfy` | the cut-off rule that keeps tool results with their calls |
| `CompactionModel.dfy`, `CompactionManager.dfy` | the compaction manager as a value and as a class |
| `CompactionRuns.dfy`, `CompactionTools.dfy`, `CompactionCache.dfy` | the manager over whole runs: coverage and starts, tool results, character cache |
| `CompactionTriggers.dfy`, `CompactionHistory.dfy` | when a compaction starts, said of tokens, budget and histories, and what those histories hold over whole runs |
| `CompactionRepair.dfy` | a whole transcript repair under compaction |
| `ToolRepair.dfy`, `ToolBlocks.dfy` | incremental scan and in-place splice of missing tool results, and what that does block by block |
| `Bridge.dfy`, `BridgeOutcomes.dfy` | single-worker job protocol with handler and job threads, and what the table records of each job |
| `CacheTracker.dfy` | prefix-hash tracker, the session's incremental hashes, the agent's two paths |
| `Lru.dfy`, `SemanticCache.dfy`, `Embeddings.dfy` | stamped map against a recency list, and its two users |
| `TopK.dfy` | bounded heap against sort-and-take, similarity search |
| `BackgroundTasks.dfy`, `OverlappingTasks.dfy`, `TaskSettlement.dfy` | status records and events of detached tasks, call by call and with calls overlapping, and when and how a task is down as over |
| `ModelsUpdatedBus.dfy`, `ModelsUpdatedSpacing.dfy`, `ModelsUpdatedLatency.dfy` | debounced publisher, untimed, on time, and with late timers: spacing and latency |
| `BenchMemory.dfy` | process-tree closure and terminal-query loop |
| `MemoryPrompt.dfy` | newest messages within a character budget |

## Where the code does not do what one would expect

Each of these is kept as the code has it and stated as a lemma, with the exact condition where there is one.

- A hard compaction leaves the pending background task and its cut alone, and the cut is applied relative to the count
  of that later moment. Messages between the two cuts are then neither summarised nor sent (`CoveredIffNoHardBetween`,
  `LossShowsWhenCountIsReached`), a tool result can be sent without its call (`ApplyLeavesNoOrphanIff`), and the count
  can pass the end of the transcript, which hides both until appended messages reach it and then leaves the character
  cache wrong (`OvershootIsExactIff`). One call of `ensure_context_fits` can do it (`OneEnsureCallCanLoseMessages`,
  `OneEnsureCallCanOrphanAResult`, `OneEnsureCallCanOvershoot`).
- A message announced with content clears the cache's dirty flag without a recount, so content announced earlier
  without being shown stays missing until one of a few operations recounts (`UnseenContentStaysMissing`,
  `OnlyTheseHeal`).
- Applying a task reads the character cache after the count was advanced; when the cache is dirty that is a recount of
  the new suffix, and the compacted characters are subtracted once more (`ApplyWhileDirtySubtractsTwice`).
- Seeding history does not reset the compacted count (`SeedIsExactIffNothingCompacted`).
- Rewinding a conversation shortens the transcript without telling the compaction manager. After a rewind below the
  count, messages appended up to the count are lost (`RewindKeepsCoverageIff`, `RewindLosesLaterMessages`), and the
  character cache can be used for the wrong messages (`RewindIsExactIff`). A rewind into the messages of a pending task
  loses nothing if the task fails (`FailedTaskForgivesRewind`) and later messages if it succeeds
  (`AppliedTaskLosesAfterRewind`).
- Repairing a transcript inserts messages without telling the manager either. One that goes in among compacted messages
  is neither summarised nor sent, and a summarised one is sent again (`InsertLosesItself`, `RepairKeepsCoverageIff`);
  one that goes in at the count can be a result without its call (`RepairKeepsClosedIff`); and a rewind can then make
  the character cache be used for the wrong messages (`InsertThenRewindIff`).
- The semantic cache keeps failed attempts, so a passing failure answers until its key is evicted
  (`AnswerIsCurrentIff`, `CachedOutcomeStays`).
- If the bridge's job thread cannot be started, the permit is never given back (`LeakedIffStartFailed`,
  `LeakIsForever`).
- Among items tied at the boundary, top-k keeps later ones where a sort keeps earlier ones, exactly when a higher score
  comes late (`SelectionIsSortAndTakeIff`).
- A model load that failed once is never tried again (`FailedLoadIsFinal`).
- The guard on parsed progress protects the measure, not the label (`LabelCanBeLost`).
- Calls on a detached task that overlap can announce its completion twice, record it as cancelled after announcing it
  complete, or put it back to running: exactly when a call writes, on an ended task, a copy read before the end
  (`EndingsKeptIffHarmless`, `AnnouncedTwice`, `CompletedBecomesCancelled`, `EndedRunsAgain`).
- A sleeper that is overtaken, or a request outside any runtime, publishes closer than the debounce interval; nothing
  else does as long as no time passes between stamping and sending (`SpacedIff`). A sleeper that is merely late keeps
  the spacing and can serve its request too late (`LateSleeperIsTardy`, `ServedInTimeIff`).
- Texts that share a key share an entry of the embedding cache, and the second gets the embedding of the first
  (`AnswersRightIff`, `SecondGetsFirst`).

## Assumptions of the run results

- Coverage, tool closure and cache exactness are equivalences over whole runs: each names the operations, with the
  state they meet, on which it depends (`NoHardBetween` with `EditsBehind`, `SafeFor`, `CountedOp`). Coverage is the
  invariant `CoverageInv`, of what is compacted and of what a pending task will compact; it asks in
  addition that history is seeded only into a manager with nothing compacted and nothing pending (`SeedsFresh`), since
  the summary would speak for another history. The amounts of `CacheLackOverRuns` are for applies, seeds and rewinds
  behind the count within the transcript (`InRange`).
- That the stamped map is the recency list holds while the 64-bit counter has not wrapped; the size bound, the methods
  and what is said of returned embeddings need no such thing. Nothing is assumed of the hash function: which text's
  embedding is returned depends only on collisions among the texts asked for in the run.
- `SpacedAndServedInTime` is for timers on time, due sleepers going before same-instant requests and every caller
  inside a runtime (`Prompt`). `SpacedIff` needs only that reading the clock, deciding and sending take no time
  (`Swift`), and is an equivalence, as is `ServedInTimeIff` for latency; `LateWakeCostsLatencyOnly` says what one late
  wake costs. The safety results hold in every interleaving.
- `BackgroundTasks.dfy` takes each manager call as one step, `OverlappingTasks.dfy` splits it into a read and a
  landing. Task ids are taken as unique.

## Model

| member | source | states |
|---|---|---|
| CompactionCore.SafeCompactionCutoff | crates/gcode-compaction-core/src/lib.rs:205-258 | the backward scan returns the largest cut at or below the requested one whose kept suffix holds a call for every tool result, or 0; never more than asked for and never past the end |
| CompactionCore.LargestClosedCutIsLargest | crates/gcode-compaction-core/src/lib.rs:205-258 | no cut between the answer and the request is closed, so nothing is kept that could have been compacted |
| CompactionCore.ScanMessage | crates/gcode-compaction-core/src/lib.rs:215-245 | one message moves the available ids to the union and the missing ids to those still unanswered, whatever the order of its blocks |
| CompactionCore.ClosedSuffixIsOrdered | src/compaction_tests.rs:433-482 | in a transcript whose results follow their calls and whose call ids are unique, a cut is closed exactly when in the kept part every result still follows its call |
| Messages.ContentCharsConcat | crates/gcode-compaction-core/src/lib.rs:260-293 | a message is as long as its blocks together |
| Messages.OneBlockChars | crates/gcode-compaction-core/src/lib.rs:260-293 | a block is as long as its text in bytes, with 50 more for a call and 20 more for a result |
| Messages.ByteLenBounds | crates/gcode-compaction-core/src/lib.rs:260-293 | a text has at least one byte and at most four for each character, exactly one where all is ASCII |
| CompactionManager.SmoothGrowth | src/compaction.rs:440-485 | the loop over token snapshots computes the exponentially weighted growth defined by recursion from the oldest pair |
| CompactionManager.FindSemanticCutoff | src/compaction.rs:539-600 | the scan finds the first relevant candidate, falling back to the standard cut when there is no goal embedding, no relevant message, or one too close to the start |
| CompactionTriggers.SmoothedIsWeighted | src/compaction.rs:453-467 | the growth estimate is a weighted mean of the rises between snapshots: the rise k pairs before the newest counts alpha times (1 - alpha) to the power k, the oldest (1 - alpha) to the number of the others |
| CompactionTriggers.WeightsSumToOne | src/compaction.rs:453-467 | these weights add up to one |
| CompactionTriggers.ProactiveStartIff | src/compaction.rs:389-485 | in proactive mode a task starts if and only if nothing is pending or suppressed, more than ten messages are active, the floor, the samples, the rise and the rest are there, the newest snapshot plus the weighted growth of the lookahead reaches four fifths of the budget, and a safe cut is left |
| CompactionTriggers.SemanticStartIff | src/compaction.rs:487-534 | in semantic mode the same, with a topic shift as good as the projection and the cut of the relevant messages |
| CompactionTriggers.ReactiveStartIff | src/compaction.rs:677-725 | in reactive mode a task starts if and only if four fifths of the budget are in use, nothing forbids it and a safe cut leaves ten messages |
| CompactionTriggers.ManualStartIff | src/compaction.rs:826-891 | by hand a task starts if and only if none is pending, more than ten messages are active, a tenth of the budget is in use and a safe cut is left |
| CompactionTriggers.CriticalIff | src/compaction.rs:771-796 | a hard compaction is called for exactly when nineteen twentieths of the budget are in use |
| CompactionTriggers.EffectiveIsInUse | src/compaction.rs:642-655 | tokens in use are the larger of the estimate and what the provider last reported |
| CompactionTriggers.EstimateIsQuarter | crates/gcode-compaction-core/src/lib.rs:295-307 | the estimate is a quarter of the bytes of summary and active messages, rounded down, plus the overhead of large budgets |
| CompactionTriggers.SemanticCutIff | src/compaction.rs:539-600 | the semantic cut is the first relevant message before the newest ten, unless there is none or it is one of the first two |
| CompactionTriggers.KeepFitsIff | src/compaction.rs:1217-1240 | a kept count fits if and only if its safe cut is positive and the characters kept are fewer than four for each token of the budget and one more |
| CompactionManager.SuffixChars | src/compaction.rs:1209-1216 | the array filled from the back holds the exact character total of every suffix |
| CompactionManager.FindHardCut | src/compaction.rs:1217-1240 | the halving loop terminates on a decreasing keep count and ends on the cut of the chosen keep count, leaving at least two messages |
| CompactionManager.Manager.constructor | src/compaction.rs:131-156 | a new manager in the given mode has compacted nothing, holds an empty exact character cache and no task |
| CompactionManager.Manager.Reset | src/compaction.rs:158-160 | every field is as in a new manager |
| CompactionManager.Manager.NotifyMessageAdded | src/compaction.rs:182-188 | a message announced without content counts a turn, lifts the suppression and marks the cache dirty |
| CompactionManager.Manager.NotifyMessageAddedBlocks | src/compaction.rs:190-204 | a message announced with content adds its size and clears the dirty flag without recounting |
| CompactionManager.Manager.SeedRestoredMessagesWith | src/compaction.rs:225-243 | seeding sets turns, suppression and the character count of the whole history and leaves everything else as it was |
| CompactionManager.Manager.RestorePersistedStateWith | src/compaction.rs:246-302 | restoring clamps the count to the transcript, takes over the summary, counts the active part and clears task, histories and observed tokens |
| CompactionManager.Manager.PushTokenSnapshot | src/compaction.rs:359-370 | the history keeps the newest twenty snapshots and the turn counter goes up |
| CompactionManager.Manager.ShouldCompactWith | src/compaction.rs:389-534 | the trigger decision of all three modes, including suppression, minimum size, cooldown, sample count and stall detection; `ShouldCompact` and `AntiSignalsBlock` are the functions it follows |
| CompactionManager.Manager.MaybeStartCompactionWith | src/compaction.rs:699-768 | a task over the first safe-cut messages starts exactly when it is due and the safe cut is positive; otherwise nothing changes |
| CompactionManager.Manager.ForceCompactWith | src/compaction.rs:826-891 | the four refusals in their order, and otherwise a manual task; a refusal changes nothing |
| CompactionManager.Manager.HardCompactWith | src/compaction.rs:1198-1282 | the new state, refusals and returned count of a hard compaction; pending task and its cutoff are untouched |
| CompactionManager.Manager.EnsureContextFits | src/compaction.rs:771-816 | at most one start followed by a hard compaction when usage is critical, in one call, with the action reported |
| CompactionManager.Manager.CheckAndApplyCompactionWith | src/compaction.rs:903-997 | polling: unfinished changes nothing, failure drops the pending one, success advances the count before the cache is read and installs the summary |
| CompactionManager.Manager.MessagesForApiWith | src/compaction.rs:1012-1047 | the payload is the summary message, if any, followed by the active messages |
| CompactionTriggers.ActionTells | src/compaction.rs:771-816 | the action reported is what happened: a hard compaction and how many messages it dropped, else a start and its trigger |
| CompactionTriggers.StartNamesItsTrigger | src/compaction.rs:740-744 | a task is down under the mode that started it, or as manual |
| CompactionTriggers.ApplyReports | src/compaction.rs:935-985 | the report of an apply holds the usage before and after, what that saves, the trigger, the messages summarised and the size of the summary |
| CompactionTriggers.HardReports | src/compaction.rs:1241-1280 | the report of a hard compaction holds the usage before and after, what that saves and the messages dropped |
| CompactionTriggers.RestoreForgets | src/compaction.rs:246-302 | loading a compacted view forgets task, trigger and last report and takes over the text of the summary |
| CompactionTriggers.SummaryIsSent | src/compaction.rs:1012-1047 | the message sent for the compacted part is a user's and holds the whole summary |
| CompactionHistory.MemoryOverRuns | src/compaction.rs:182-370 | over every run: the snapshots kept are the newest twenty since the last load or reset, the reported usage is the last one since the last compaction, load or reset, embeddings count up to ten, and starts are suppressed exactly from the loading of some history to the next message or reset |
| CompactionRuns.StartedTaskHoldsFirst | src/compaction.rs:720-762 | whichever way a task starts, it is handed exactly the messages from the count on that its cut will compact, and the active summary |
| CompactionRuns.TaskHoldsWhatItWasHanded | src/compaction.rs:720-762 | over every run a pending task still holds the first active messages and the summary of the moment it was started |
| CompactionRuns.HardSpeaksForAll | src/compaction.rs:1241-1262 | the text after a hard compaction begins with the earlier summary and ends with the notice about what was dropped |
| CompactionRuns.EnsureStepIsEnsureFits | src/compaction.rs:771-816 | the run model takes the same step as the method proved on the class |
| CompactionRuns.CoveredIffNoHardBetween | src/compaction.rs:903-997 | over every run, the coverage invariant `CoverageInv` (the summary covers exactly what is compacted, a pending task's will cover exactly its own messages besides) holds after every operation if and only if no task is applied after a hard compaction that went through since its start and no rewind or insertion reaches into compacted messages or those of a pending task |
| CompactionRuns.CoverageOverRuns | src/compaction.rs:708-763 | over every such run, every transcript index below the count is covered by the summary and all others are sent verbatim in order |
| CompactionRuns.RewindKeepsCoverageIff | src/agent/turn_execution.rs:161-189 | a rewind, of which the manager is not told, keeps coverage if and only if it stays behind the count and the messages of any pending task |
| CompactionRuns.InsertKeepsCoverageIff | src/agent.rs:606-636 | an inserted message, of which the manager is not told, keeps the coverage invariant if and only if it comes after the compacted messages and those of any pending task |
| CompactionRuns.InsertLosesItself | src/agent.rs:606-636 | inserted among compacted messages, and only then, it is neither summarised nor sent, and the last compacted message is sent again |
| CompactionRuns.FailedTaskForgivesRewind | src/compaction.rs:903-997 | a rewind into a pending task's messages loses nothing yet, and if the task fails the coverage invariant is back |
| CompactionRuns.AppliedTaskLosesAfterRewind | src/compaction.rs:903-997 | if that task succeeds, messages are lost exactly when appended ones reach the new count |
| CompactionRuns.RewindLosesLaterMessages | src/agent/turn_execution.rs:161-189 | after a rewind below the count, appended messages up to the count are neither summarised nor sent, exactly from the moment they reach it |
| CompactionRuns.RewindCanLoseMessages | src/agent/turn_execution.rs:161-189 | from a new manager: a hard compaction of five messages, a rewind to two and three more messages, all three lost |
| CompactionRuns.DriftIsHardCompaction | src/compaction.rs:1198-1282 | while a task is pending, the count is still where the task started if and only if no hard compaction went through since |
| CompactionRuns.ApplyKeepsCoverageIff | src/compaction.rs:903-997 | applying a task keeps the coverage invariant if and only if the count is where the task started |
| CompactionRuns.LossShowsWhenCountIsReached | src/compaction.rs:903-997 | the messages lost otherwise are exactly those between the task's own cut and the new count; a count past the end hides the loss exactly until appended messages reach it |
| CompactionRuns.OneEnsureCallCanLoseMessages | src/compaction.rs:776-796 | from a new manager: one call that starts a task and hard compacts, followed by the apply, leaves messages 5 to 9 of fifteen neither summarised nor sent |
| CompactionRuns.OneEnsureCallCanOvershoot | src/compaction.rs:776-796 | from a new manager: the same call and apply can set a count three past the end of fifteen messages |
| CompactionRuns.ChosenKeepIsLargestFit | src/compaction.rs:1217-1240 | the chosen keep count is in the halving sequence and is the largest there whose safe cut is positive and whose suffix fits, else the minimum |
| CompactionRuns.HalvingDescends | src/compaction.rs:1217-1240 | the halving sequence stays between the minimum and its first count |
| CompactionRuns.HardCompactionKeepsRecent | src/compaction.rs:1198-1282 | a hard compaction that goes through drops a positive tool-closed prefix of the active messages, keeps at least two, advances the count by what it returned and counts the characters left; with a count past the end the whole transcript stays active |
| CompactionTools.NoOrphanResultsOverRuns | src/compaction.rs:720-724 | over every run without restriction: the messages sent stay tool-closed throughout if and only if every operation is safe in the state it meets (appended and inserted results answer kept calls, applies land on a safe cut, loaded histories are closed where cut) |
| CompactionTools.StepKeepsClosedIff | src/compaction.rs:852-934 | one operation keeps the messages sent tool-closed if and only if it is safe; background, manual and hard compactions always are |
| CompactionTools.RewindIsSafeIff | src/agent/turn_execution.rs:161-189 | where results follow their calls, a rewind keeps the messages sent tool-closed if and only if it stays behind the count |
| CompactionTools.LoadsAreSafeIff | src/compaction.rs:225-302 | for histories whose results follow their calls: restoring or seeding keeps the messages sent tool-closed if and only if the cut-off rule returns the count unchanged, and a reset always does |
| CompactionTools.RepairBehindCountIsSafe | src/agent.rs:606-636 | a result put behind its call, with that call still sent, keeps the messages sent tool-closed |
| CompactionTools.ApplyLeavesNoOrphanIff | src/compaction.rs:903-934 | whatever happened since its start, applying a task leaves no orphan result if and only if the cut-off rule returns the new count unchanged, or, past the end, the whole transcript is closed |
| CompactionTools.OvershootCutsLaterMessages | src/compaction.rs:605-612 | a count past the end sends the whole transcript until appended messages reach it, and then cuts among those |
| CompactionTools.NoOrphanResultsUndisturbed | src/compaction.rs:720-724 | in runs whose tasks are applied at the count they started from, it is enough that appended results answer calls at or after any pending cut |
| CompactionTools.OneEnsureCallCanOrphanAResult | src/compaction.rs:776-796 | from a new manager: one call that starts a task and hard compacts, followed by the apply, sends the result at index 10 without its call at index 9 |
| CompactionTools.InitialWorldIsClosed | src/compaction.rs:131-156 | a new manager over an empty transcript satisfies the tool invariants |
| CompactionCache.CacheExactOverRuns | src/compaction.rs:614-634 | over every run the incremental cache stays exact and clean if and only if every operation is a counted one (no message announced without content, no apply past the end, no seed behind compacted characters, no rewind below the count, no rewind or insertion that by chance brings turns and messages back in step with a wrong cache), whatever hard compactions come between; the token estimate then equals the from-scratch one |
| CompactionCache.RewindIsExactIff | src/agent/turn_execution.rs:161-189 | after a rewind the estimate is exact if and only if it stayed behind the count, or the active count does not happen to equal what is left, or the characters are the same |
| CompactionCache.InsertThenRewindIff | src/agent.rs:606-636 | after an insertion the estimate is exact; after a rewind by one message on top it is exact if and only if the message that came into the part sent is as long as the one that left it |
| CompactionCache.RewindThenInsertIff | src/agent/turn_execution.rs:161-189 | the same for a rewind by one message followed by an insertion |
| CompactionCache.StepKeepsCacheIff | src/compaction.rs:614-634 | one operation keeps the cache exact and clean if and only if it is a counted one |
| CompactionCache.OvershootIsExactIff | src/compaction.rs:903-938 | after an apply past the end and counted appends the estimate is exact if and only if the count is not reached yet or neither the messages compacted before nor the appended ones below the count have characters |
| CompactionCache.CacheLackOverRuns | src/compaction.rs:194-243 | over every run within range, by how much the cache is off as a function of the operations; the estimate is exact if and only if it is recounted or nothing is lacking |
| CompactionCache.UnseenContentStaysMissing | src/compaction.rs:182-204 | from an exact cache, after appends with and without content ending in one with content, the estimate is exact if and only if the messages announced without content were empty |
| CompactionCache.CountedAppendAfterUnseenOne | src/compaction.rs:194-204 | one message announced without content and then one with: exact if and only if the first is empty |
| CompactionCache.OnlyTheseHeal | src/compaction.rs:194-302 | while content is missing, exactly these operations make the estimate right again: a hard compaction that goes through, restoring, resetting, rewinding, inserting, seeding behind a part without characters, applying a task that leaves no characters |
| CompactionCache.ApplyWhileDirtySubtractsTwice | src/compaction.rs:934-938 | applying with a dirty cache subtracts the compacted characters a second time: exact if and only if one of the two amounts is zero |
| CompactionCache.DirtyApplyIsReachable | src/compaction.rs:934-938 | from a new manager: a manual start, an append without content and the apply leave eleven characters of which six are counted |
| CompactionCache.SeedIsExactIffNothingCompacted | src/compaction.rs:225-243 | seeding counts the whole history: exact if and only if the compacted prefix has no characters |
| CompactionRuns.InitialWorldIsCovered | src/compaction.rs:131-156 | a new manager over an empty transcript satisfies the coverage invariant |
| CompactionCache.InitialWorldIsCounted | src/compaction.rs:131-156 | a new manager over an empty transcript satisfies the cache invariant |
| CompactionRuns.SingleFlight | src/compaction.rs:677-706 | in every mode a pending task is never replaced, and only polling, restoring or resetting ends one |
| CompactionRuns.NoStartAfterRestore | src/compaction.rs:216-302 | after history is loaded no automatic start happens until a message is added, over any run and across mode switches |
| CompactionRuns.CooldownOverRuns | src/compaction.rs:359-431 | a proactive or semantic start comes at least the configured number of snapshots after the last apply, restore or reset, over any run |
| CompactionRuns.PersistRoundTrip | src/compaction.rs:246-318 | saving and restoring a compacted view sends the same messages if and only if the count is within the transcript or the transcript is empty, and saving again gives the same record |
| CompactionRepair.RepairKeepsCoverageIff | src/agent.rs:554-641 | a whole repair, as a run of insertions, leaves the repaired transcript and the manager as it was, and keeps the coverage invariant if and only if every message it repairs is the last of the compacted and pending ones or comes after them |
| CompactionRepair.RepairKeepsClosedIff | src/agent.rs:554-641 | a repair at or behind the count keeps the messages sent tool-closed if and only if they hold all the calls it answers |
| CompactionRepair.InsertionsRepair | src/agent.rs:600-641 | the insertions of a repair one by one amount to one piece per repaired message, for the transcript and for what its summaries cover |
| ToolRepair.SplicingRebuilds | src/agent.rs:600-641 | inserting at shifted positions from left to right gives the one-pass rebuild |
| ToolBlocks.EveryCallBlockIsAnswered | src/agent.rs:554-641 | over every run, right after a repair every tool call block of an assistant's message has a tool result block for its id in some user's message |
| ToolBlocks.RepairAnswersInBlockOrder | src/agent.rs:573-636 | after a repair each newly scanned message is still there, followed at once by one error result for each of its tool call blocks that the transcript nowhere answers, in block order, and by nothing else |
| ToolBlocks.ScannedIsAnswered | src/agent.rs:554-600 | a call block that was scanned before is answered, and the scanned part stays as it is |
| ToolBlocks.CallsAreBlocks | src/agent.rs:573-584 | the ids the scan records as calls are those of the tool call blocks of assistants' messages |
| ToolBlocks.ResultsAreBlocks | src/agent.rs:563-571 | the ids it records as results are those of the tool result blocks of users' messages |
| ToolRepair.RebuiltPlacesResults | src/agent.rs:600-641 | each original message is followed immediately by one error result per missing tool-use id of that message, in order |
| ToolRepair.ErasingGivesBackOriginal | src/agent.rs:600-641 | erasing the inserted messages gives back the original transcript |
| ToolRepair.RebuiltIds | src/agent.rs:590-641 | the rebuild adds no calls and exactly the missing results |
| ToolRepair.MissingForMessage | src/agent.rs:575-598 | one pass over a message records all its calls and picks out, in order, those without a known result |
| ToolRepair.LearnResults | src/agent.rs:559-574 | the first pass learns exactly the result ids of the unscanned messages |
| ToolRepair.PickRepairs | src/agent.rs:575-600 | the second pass records all calls of the unscanned messages and lists the positions and ids to repair |
| ToolRepair.Agent.InsertResults | src/agent.rs:606-636 | one error result per missing id goes in at the position, in order, and its id becomes known |
| ToolRepair.Agent.Splice | src/agent.rs:600-641 | the in-place loop leaves the spliced transcript and counts what it inserted |
| ToolRepair.Agent.RepairMissingToolOutputs | src/agent.rs:554-641 | the new transcript, id sets and scan index of a repair, and the number of inserted messages as the result |
| ToolRepair.Agent.ResetToolOutputTracking | src/agent.rs:643-647 | both id sets are emptied and the scan index returns to zero |
| ToolRepair.TrackingOverRuns | src/agent.rs:554-647 | over any run of appends, repairs, resets and replacements the id sets are those of the scanned prefix, and after a repair every assistant call in the transcript has a result |
| ToolRepair.RepairCompletes | src/agent.rs:554-641 | a repair of a tracked transcript ends with everything scanned and answered |
| ToolRepair.RepairTwice | src/agent.rs:554-641 | an immediate second repair inserts nothing and changes nothing |
| ToolRepair.IncrementalIsFullScan | src/agent.rs:554-590 | scanning only the new messages gives the same transcript and id sets as scanning all of them |
| ToolRepair.ShrunkTranscriptIsRescanned | src/agent.rs:554-558 | a transcript shorter than the scan index is rescanned in full whatever was recorded |
| Bridge.Globals.TryAcquire | scripts/dinesh-os-gcode-bridge.py:407-413 | the non-blocking acquire succeeds exactly when the permit is there and takes it |
| Bridge.Globals.Release | scripts/dinesh-os-gcode-bridge.py:218-224 | the permit is given back; the bound is never exceeded |
| Bridge.Globals.PostJob | scripts/dinesh-os-gcode-bridge.py:414-432 | a queued job is entered and becomes the active one |
| Bridge.Globals.BeginJob | scripts/dinesh-os-gcode-bridge.py:128-133 | the job becomes running with its start time |
| Bridge.Globals.FinishEnded | scripts/dinesh-os-gcode-bridge.py:176-212 | cancelled wins over done, done over failed, and exit code and finish time are recorded |
| Bridge.Globals.FinishExpired | scripts/dinesh-os-gcode-bridge.py:171-195 | a stopped job is cancelled if that was asked for, else timed out |
| Bridge.Globals.CleanUp | scripts/dinesh-os-gcode-bridge.py:218-223 | the process handle is dropped and the active id cleared only if it is this job |
| Bridge.Globals.RequestCancel | scripts/dinesh-os-gcode-bridge.py:345-360 | not found, already over, or marked for cancellation with its process |
| Bridge.InvOverRuns | scripts/dinesh-os-gcode-bridge.py:128-224 | the permit, table and cancel invariants hold in every interleaving of handlers and job threads |
| Bridge.MutualExclusion | scripts/dinesh-os-gcode-bridge.py:407-439 | at most one job is queued or running, an active id names the job the permit is out for, and acquires equal releases plus the permit held |
| Bridge.StepAdvancesJobs | scripts/dinesh-os-gcode-bridge.py:128-224 | one step moves a job by at most one stage and never changes a terminal job |
| Bridge.JobsOnlyAdvance | scripts/dinesh-os-gcode-bridge.py:128-224 | between any two moments of a run jobs only go queued, running, terminal, and a terminal job stays as recorded |
| Bridge.JobOutcomes | scripts/dinesh-os-gcode-bridge.py:171-217 | over every run: finish time exactly for terminal jobs, start time exactly for started ones, and a cancel answered 202 ends cancelled, or failed with the bridge's own error, never done or timed out |
| BridgeOutcomes.TableTellsTheRun | scripts/dinesh-os-gcode-bridge.py:128-224 | in every interleaving the table says of each job what the run says: when posted, begun and finished, whether a cancel was asked for while it was live, its process, and once over the outcome with exit code, result and error of how its process ended |
| BridgeOutcomes.OutcomeIff | scripts/dinesh-os-gcode-bridge.py:171-217 | done if and only if the process exited with code 0 and no cancel was asked for, with its output as the result; failed exactly on another code or a failure of the bridge's own; timed out exactly on expiry; cancelled exactly when asked for and the bridge did not fail |
| BridgeOutcomes.CancelAnswers | scripts/dinesh-os-gcode-bridge.py:345-360 | a cancel is answered 404 for an unknown job and 409 for one that is over, changing nothing, and else marks the job and stops its process before 202 |
| BridgeOutcomes.RunAnswers | scripts/dinesh-os-gcode-bridge.py:407-413 | a run request is refused with 429 exactly when the permit is out |
| Bridge.CancelledUnlessBroken | scripts/dinesh-os-gcode-bridge.py:171-217 | a job whose cancel was asked for ends failed exactly on the exception path, else cancelled |
| Bridge.LeakedIffStartFailed | scripts/dinesh-os-gcode-bridge.py:432-439 | over every run the permit has leaked if and only if some job's thread could not be started |
| Bridge.LeakIsForever | scripts/dinesh-os-gcode-bridge.py:407-439 | once a handler fails to start its job's thread, whatever happens later that job stays queued, the permit stays out and every later run is refused |
| Bridge.LeakIsReachable | scripts/dinesh-os-gcode-bridge.py:407-439 | four steps lead there |
| Bridge.PermitAccounting | scripts/dinesh-os-gcode-bridge.py:407-439 | the permit is out exactly while a handler or job thread holds it, or it was leaked |
| CacheTracker.PrefixHashes | src/cache_tracker.rs:55-71 | the pushed chain holds the hash of every prefix of the message list |
| CacheTracker.Tracker.RecordPrefixHashSnapshot | src/cache_tracker.rs:95-187 | verdict and new state for a count and two hashes, first request, removal and modification included |
| CacheTracker.Tracker.RecordPrefixHashes | src/cache_tracker.rs:78-93 | the verdict from the full list of prefix hashes |
| CacheTracker.Tracker.RecordRequest | src/cache_tracker.rs:73-76 | the verdict from the messages themselves |
| CacheTracker.Tracker.Reset | src/cache_tracker.rs:198-204 | the tracker is blank again |
| CacheTracker.Session.ProviderMessagePrefixHashes | src/session.rs:1237-1262 | the incremental cache returns the prefix hashes of the current messages, whatever mix of appends and replacements came before |
| CacheTracker.Session.AppendStoredMessage | src/session.rs:1065-1090 | an append keeps the cached prefix valid |
| CacheTracker.RecordClientCacheRequest | src/agent.rs:507-551 | the fast snapshot path and the slow path give the same verdict and the same new state |
| CacheTracker.SnapshotOfHashes | src/cache_tracker.rs:78-93 | the two hashes picked from the chain are those of the previous length and of the whole list |
| CacheTracker.RunRemembers | src/cache_tracker.rs:95-204 | over every run the tracker holds the length and hash of the last list, or is blank after a reset |
| CacheTracker.FlagsExactlyBrokenPrefixes | src/cache_tracker.rs:95-187 | for any hash function no false alarm, and flagged if and only if the previous list is not a prefix, exactly unless those two equally long lists collide |
| CacheTracker.VerdictReports | src/cache_tracker.rs:95-187 | a flag names the number of the request since the reset, its length, the hash remembered and the hash found in its place |
| CacheTracker.HistoryIsNewestTen | src/cache_tracker.rs:105-172 | over every run the turns count the requests since the last reset and the history holds the hashes of the newest ten |
| CacheTracker.CollisionIsTheHashers | src/cache_tracker.rs:55-71 | two lists of one length that differ have the same hash only if the hasher itself gives different inputs one hash at some place |
| CacheTracker.RemovalIsAlwaysFlagged | src/cache_tracker.rs:120-150 | the removal reason is given exactly when the list became shorter |
| Lru.Cache.Lookup | src/compaction.rs:1146-1159 | a hit returns the value and stamps the entry from the counter; a miss changes nothing |
| Lru.Cache.FindOldest | src/compaction.rs:1161-1170 | the walk over the entries finds one with the smallest stamp, wrapped counter or not |
| Lru.Cache.Insert | src/compaction.rs:1161-1176 | a full cache gives up an entry with the smallest stamp before the new one is stamped in; with distinct stamps that determines the new state |
| Lru.InsertedSize | src/compaction.rs:1161-1176 | an insertion never takes the map beyond its capacity, wrapped counter or not |
| Lru.TouchRefines | src/compaction.rs:1146-1159 | a hit moves the key to the front of the recency list |
| Lru.InsertRefines | src/compaction.rs:1161-1176 | an insertion drops the last of a full recency list and puts the key in front |
| Lru.LastIsOldest | src/compaction.rs:1161-1170 | the smallest stamp belongs to the last of the recency list |
| Lru.RunRefinesRecency | src/compaction.rs:1146-1176 | over any sequence of lookups, insertions and clears that does not wrap the counter the stamped map is the recency list, with distinct stamps, equal lookups and at most capacity entries |
| Lru.FullInsertEvictsLeastRecent | src/compaction.rs:1161-1176 | a full insert of a new key evicts exactly the least recently used key |
| Lru.StampsFollowUse | src/compaction.rs:1146-1176 | over any run that does not wrap the counter, of two entries the one used earlier, by lookup or insertion, has the smaller stamp |
| Lru.OldestIsLeastRecentlyUsed | src/compaction.rs:1161-1170 | an entry that makes room is one that no other entry was used before |
| SemanticCache.CachedSemanticEmbedding | src/compaction.rs:1146-1176 | a hit returns and restamps what is stored, failures included; a miss returns the outcome of computing now and stores it |
| SemanticCache.HoldsLastComputed | src/compaction.rs:1146-1176 | over every run the cache holds, for each key it has, the outcome last computed for it |
| SemanticCache.AnswerIsCurrentIff | src/compaction.rs:1146-1176 | over every run a call returns what computing would give now if and only if the key is not cached or its last computed outcome is the same |
| SemanticCache.CachedOutcomeStays | src/compaction.rs:1146-1176 | a cached outcome, failures included, answers every call for its key until it is evicted or the cache cleared |
| SemanticCache.StepKeepsKeyIff | src/compaction.rs:1161-1176 | a call keeps a cached key and its outcome if and only if it neither clears the cache nor makes room by it |
| SemanticCache.SteadyAnswersAreCurrent | src/compaction.rs:1146-1159 | when outcomes depend on the key alone, hits and misses return what computing would give |
| SemanticCache.FailureIsRemembered | src/compaction.rs:1156-1158 | a failed first attempt answers the next call although the embedding could be computed by then |
| Embeddings.EmbedderCache.LookUp | src/embedding.rs:166-179 | the first critical section: a hit is stamped, counted and refreshes the last use |
| Embeddings.EmbedderCache.GetEmbedder | src/embedding.rs:108-148 | loaded, failed before, failed now or loaded now, with the counters and times each case changes |
| Embeddings.EmbedderCache.Store | src/embedding.rs:186-208 | the second critical section: counts the call, and inserts a result, making room by an oldest entry, or counts a failure |
| Embeddings.EmbedderCache.UnloadNow | src/embedding.rs:283-294 | a loaded model is dropped with the whole cache, else nothing changes |
| Embeddings.EmbedderCache.MaybeUnloadIfIdle | src/embedding.rs:216-240 | unloads exactly when a loaded model has been idle long enough |
| Embeddings.EmbedderOverRuns | src/embedding.rs:162-211 | in every interleaving of threads with unloads, whatever the hash, the cache is the recency list within its capacity, for as many steps as the 64-bit counter has values |
| Embeddings.ReturnsOwnOrColliding | src/embedding.rs:150-211 | in every interleaving of any length, whatever the hash: all that is cached or returned under a key is the embedding of a text asked for in the run with that key, and a call whose text collides harmlessly with those gets the embedding of its own text |
| Embeddings.AnswersRightIff | src/embedding.rs:150-211 | all runs that ask for a given set of texts return to every call the embedding of its own text if and only if those of these texts that share a key share their embedding |
| Embeddings.SecondGetsFirst | src/embedding.rs:150-211 | from a cold start: of two texts with one key, asked for in turn, the second gets the embedding of the first |
| Embeddings.CacheStaysBounded | src/embedding.rs:162-211 | in every interleaving of any length, wrapped counter or not and whatever the hash, the cache holds at most 128 entries |
| Embeddings.LoadsBalance | src/embedding.rs:108-294 | loads equal unloads plus the model in memory, and failures never exceed calls |
| Embeddings.FailedLoadIsFinal | src/embedding.rs:117-130 | a load that failed once is never tried again |
| Embeddings.TalliesOverRuns | src/embedding.rs:108-211 | over every run last use, hits, calls and failures are those of the events |
| Embeddings.UnloadsIffIdle | src/embedding.rs:216-240 | an idle check unloads and empties the cache if and only if the last use by any thread is at least as long ago as asked, and else changes nothing |
| Embeddings.ModelOrError | src/embedding.rs:108-148 | a caller gets the model exactly when it is loaded afterwards, and else the first load error there was |
| TopK.Peek | src/embedding_stub.rs:43-83 | the entry found is the smallest of the heap in score-then-position order |
| TopK.Offer | src/embedding_stub.rs:50-72 | one item offered to the bounded heap leaves exactly the positions the specification keeps |
| TopK.KeptAreBest | src/embedding_stub.rs:43-83 | after any number of items the heap is full or holds all, and no item left out scores higher than one held |
| TopK.SortByRank | src/embedding_stub.rs:73-83 | the entries are permuted into score-descending, position-ascending order |
| TopK.TopKScored | src/embedding_stub.rs:43-83 | min(limit, n) distinct input items in rank order, every omitted score at most every returned one |
| TopK.TopIsUniqueUpToBoundaryTies | src/embedding_stub.rs:43-83 | any two such results have the same scores place by place and the same items above the lowest score |
| TopK.SortAndTakeIsTop | src/embedding_stub.rs:43-83 | the first entries of a full sort are such a result, so heap and sort agree up to boundary ties |
| TopK.HeapIsSortAndTakeIff | src/embedding_stub.rs:43-83 | for every list, full ranking and limit: the heap keeps what the first entries of the sort are if and only if no item scoring above the limit-th largest score comes after that many items have reached it |
| TopK.OneRanking | src/embedding_stub.rs:73-83 | every list has exactly one ranking, so the two equivalences about it apply to every list |
| TopK.SelectionIsSortAndTakeIff | src/embedding_stub.rs:43-83 | what is returned is exactly the first entries of the sort if and only if the limit is zero or covers all items, or there is no such late riser |
| TopK.BoundaryTieCanFavourLater | src/embedding_stub.rs:43-83 | the smallest instance: of scores 5, 5, 7 the sort takes the third and first, the heap keeps the third and second |
| TopK.FindSimilar | src/embedding_stub.rs:180-195 | the candidates at or above the threshold, best first, up to the limit, with no better one left out |
| TopK.PassingFacts | src/embedding_stub.rs:180-190 | the filter keeps exactly the candidates at or above the threshold with their own scores, in order |
| TopK.SimilarityIs | src/embedding_stub.rs:163-178 | a candidate of the query's dimension scores its product with the query, any other zero |
| TopK.DotSnoc | src/embedding_stub.rs:163-178 | the product adds up over all coordinates |
| BackgroundTasks.NormalizedFacts | crates/gcode-background-types/src/lib.rs:42-63 | normalizing is idempotent, marks measured progress determinate, keeps percentages in range and makes nothing measured that was not |
| BackgroundTasks.HistoryIsNewestFifty | src/background/model.rs:83-89 | after any number of events the stored history is the newest fifty, oldest first |
| BackgroundTasks.BackgroundTaskManager.FinalizeDetachedStatusIfNeeded | src/background.rs:114-185 | the record written, the event published and the record returned, decided by the record that was read |
| BackgroundTasks.BackgroundTaskManager.RegisterDetachedTask | src/background.rs:202-235 | a running detached record with normalised delivery flags |
| BackgroundTasks.BackgroundTaskManager.UpdateProgressFrom | src/background.rs:799-836 | what follows the read, on whatever copy was read: repeated and measure-losing parsed updates change nothing; others are written over the record, recorded and published |
| BackgroundTasks.BackgroundTaskManager.UpdateProgressWithEventKind | src/background.rs:788-836 | the read and what follows it, with nothing between |
| BackgroundTasks.BackgroundTaskManager.UpdateDeliveryFrom | src/background.rs:850-874 | what follows the read, on whatever copy was read: delivery flags and one event, written over the record |
| BackgroundTasks.BackgroundTaskManager.UpdateDelivery | src/background.rs:840-874 | the read and what follows it, with nothing between |
| BackgroundTasks.BackgroundTaskManager.FinishCancel | src/background.rs:950-970 | what follows the grace period: the copy from before it, ended as cancelled, is written over the record |
| BackgroundTasks.BackgroundTaskManager.CancelDetached | src/background.rs:914-971 | first settled if found over, and only a task still running is recorded as cancelled; the answer says which |
| BackgroundTasks.TasksOverRuns | src/background.rs:114-971 | over every run of calls a detached record is consistent (completed exactly with exit code 0, error exactly when failed, completion time exactly when over) and its completion events match it |
| BackgroundTasks.AtMostOneCompletion | src/background.rs:167-182 | with each call one step, at most one completion event per task over every run |
| BackgroundTasks.EndingIsFinal | src/background.rs:114-971 | with each call one step, status, exit code, error, completion time and duration never change again once a detached task is over, and no further completion is published |
| TaskSettlement.RecordTellsTheRun | src/background.rs:114-971 | over every run of calls a detached task is down as running exactly until the first look that finds its process gone or the first cancel, and from then on as ended in that way, with code, error, time, duration and announcements |
| TaskSettlement.LookEndsIff | src/background.rs:114-185 | a look ends a running task if and only if a code was collected or the process is not running, as completed if and only if the collected code, or else the one in the output, is 0; one completion is published, with the recorded outcome |
| TaskSettlement.LookingAtRunningChangesNothing | src/background.rs:127-131 | looking at a task whose process runs and left no code changes nothing |
| TaskSettlement.LandingOnRunningChangesNothing | src/background.rs:127-131 | the same when look and landing are apart |
| TaskSettlement.LandingEndsIff | src/background.rs:114-185 | a landing on a copy read while the task ran ends it under the same condition, whatever came between |
| TaskSettlement.FlagsAreTheLastAskedFor | src/background/model.rs:79-81 | over every run the delivery flags are those asked for last, and whoever is to be woken is told |
| TaskSettlement.HistoryTellsTheRun | src/background/model.rs:83-150 | over every run the history of a detached task is the newest fifty of what the calls said of it, endings told apart by kind |
| TaskSettlement.NormalizedAmount | crates/gcode-background-types/src/lib.rs:42-63 | the stored percentage is the given one, or else the share of the total, to the nearest hundredth between 0 and 100 |
| TaskSettlement.ReportIsStoredIff | src/background.rs:788-836 | a report is stored and published if and only if it says something new and is not parsed output without a measure where one is known |
| TaskSettlement.DecimalReadsBack | src/background.rs:145-149 | the exit code in an error message reads back as the code |
| BackgroundTasks.ParsedOutputKeepsMeasure | src/background.rs:800-818 | over any update sequence in which only parsed output reports on it, measured progress stays measured and labelled determinate |
| BackgroundTasks.LabelCanBeLost | src/background.rs:800-818 | the determinate label itself is lost to parsed output if and only if the stored progress has neither percentage nor total |
| BackgroundTasks.LabelLossIsReachable | src/background.rs:800-818 | a run from the empty disk that loses the label: determinate progress without numbers, then parsed output |
| OverlappingTasks.EndingsKeptIffHarmless | src/background.rs:114-971 | over every interleaving of reads and landings: no ending changes and no ended task is announced again if and only if every landing on an ended task works on a copy read after the end, or writes nothing, or cancels again at the recorded time; records and completions are then as without overlap, at most one completion per task |
| OverlappingTasks.StepKeepsEndingsIff | src/background.rs:114-971 | one landing keeps every ending if and only if it is harmless |
| OverlappingTasks.OneCompletionPerSettlement | src/background.rs:114-182 | in every interleaving a task is announced once for each landing that settles it |
| OverlappingTasks.MeasureKeptIff | src/background.rs:800-874 | a landing keeps determinate progress if and only if it writes nothing, reports a measure, or, reporting nothing, works on a copy that had it |
| OverlappingTasks.LandingAtOnceIsAtomic | src/background.rs:114-971 | a call that lands on what it has just read is the call as one step |
| OverlappingTasks.AnnouncedTwice | src/background.rs:114-182 | a run from the empty disk: two overlapping settlements publish two completions |
| OverlappingTasks.CompletedBecomesCancelled | src/background.rs:934-970 | a run from the empty disk: a completion during the grace period is overwritten as cancelled after it was announced |
| OverlappingTasks.EndedRunsAgain | src/background.rs:788-874 | a run from the empty disk: a progress report or delivery update with an earlier copy puts an ended task back to running, and it is announced a second time |
| ModelsUpdatedBus.PublishState.Decide | src/bus.rs:344-370 | publish now, absorb or sleep for the rest of the interval, and the new shared state |
| ModelsUpdatedBus.PublishState.ClearPending | src/bus.rs:372-391 | the flag is cleared and the time stamped |
| ModelsUpdatedBus.DebounceOverRuns | src/bus.rs:344-395 | in every interleaving at most one request sleeps or is about to, exactly when the flag is set, and every request past the lock has been followed by an event or will be |
| ModelsUpdatedBus.QuietMeansServed | src/bus.rs:344-395 | when nobody is left to publish, an event followed every request |
| ModelsUpdatedBus.SpacedAndServedInTime | src/bus.rs:344-395 | with timers on time and before same-instant requests, events are at least 750 ms apart and each request is served within 750 ms |
| ModelsUpdatedSpacing.SpacedIff | src/bus.rs:344-395 | with sleepers late by any amount and callers inside or outside a runtime: when nobody is sending, events are at least 750 ms apart if and only if no caller was outside a runtime and no sleeper woke less than 750 ms after the last stamp |
| ModelsUpdatedSpacing.PromptIsNeverEarly | src/bus.rs:344-395 | runs with timers on time meet that condition |
| ModelsUpdatedSpacing.OvertakenSleeperIsEarly | src/bus.rs:356-391 | instance: a due sleeper overtaken by a request breaks the spacing |
| ModelsUpdatedSpacing.NoRuntimeIsEarly | src/bus.rs:372-381 | instance: a caller outside any runtime that ought to wait breaks the spacing |
| ModelsUpdatedSpacing.LateButSpaced | src/bus.rs:383-391 | a sleeper that is merely late does not |
| ModelsUpdatedLatency.ServedInTimeIff | src/bus.rs:344-395 | with sleepers late by any amount and callers inside or outside a runtime: when nobody is sending, every request that an event followed was followed by one within 750 ms if and only if nobody was let through to publish more than 750 ms after the first request since the event before |
| ModelsUpdatedLatency.AllServedInTimeIff | src/bus.rs:344-395 | once every request is over or absorbed, the same for every request |
| ModelsUpdatedLatency.PromptIsNeverTardy | src/bus.rs:344-395 | runs with timers on time meet that condition |
| ModelsUpdatedLatency.LateSleeperIsTardy | src/bus.rs:383-391 | a sleeper that wakes 50 ms late keeps the spacing and serves its request too late |
| ModelsUpdatedBus.LateSleeperPublishesTwice | src/bus.rs:356-360 | a late sleeper publishes again at the instant an overtaking request published |
| ModelsUpdatedBus.LateSleeperIsReachable | src/bus.rs:356-391 | that situation is reached by three requests |
| ModelsUpdatedBus.NoRuntimePublishesEarly | src/bus.rs:372-381 | in a run on time so far, a caller outside any runtime that ought to wait publishes less than 750 ms after the last published event and breaks the spacing |
| ModelsUpdatedBus.NoRuntimeCaseIsReachable | src/bus.rs:344-381 | two requests at the same instant lead there |
| ModelsUpdatedBus.LateWakeCostsLatencyOnly | src/bus.rs:383-391 | a late sleeper that is not overtaken keeps the spacing, and its request is served in time if and only if it wakes within 750 ms of it or an earlier event served it |
| BenchMemory.GroupByParent | scripts/bench_memory_cli.py:282-284 | each parent is mapped to its children in table order |
| BenchMemory.CollectDescendants | scripts/bench_memory_cli.py:280-293 | terminates on any parent table, cyclic or not, with exactly the pids from which some root is reached by going to parents, roots included |
| BenchMemory.ReplyQueries | scripts/bench_memory_cli.py:140-167 | terminates with a buffer free of queries; each answer belongs to a query that was there, and the buffer is what is left when those are removed in turn |
| BenchMemory.WithoutFacts | scripts/bench_memory_cli.py:163-166 | removal shortens the buffer exactly when the query occurs |
| BenchMemory.WithoutSkipsFirst | scripts/bench_memory_cli.py:163-166 | removal takes out every occurrence from the left and nothing else |
| BenchMemory.OccursIffStands | scripts/bench_memory_cli.py:163-166 | a query occurs if and only if its bytes stand at some place |
| MemoryPrompt.TrimSplits | src/memory_prompt.rs:18-23 | trimming takes only whitespace off both ends and leaves none there |
| MemoryPrompt.FormatMessageContextWith | src/memory_prompt.rs:80-105 | role line and one line per block that says something, or nothing at all |
| MemoryPrompt.LeftOutOfRelevance | src/memory_prompt.rs:14-43 | a message is left out of the relevance excerpt exactly when it holds only blank text, reasoning and non-error results |
| MemoryPrompt.LeftOutOfExtraction | src/memory_prompt.rs:45-78 | a message is left out of the extraction excerpt exactly when it holds only blank text and reasoning |
| MemoryPrompt.RelevanceSays | src/memory_prompt.rs:14-43 | what each kind of block says in the relevance excerpt and how much of its text is kept |
| MemoryPrompt.ExtractionSays | src/memory_prompt.rs:45-78 | the same for extraction |
| MemoryPrompt.LinesConcat | src/memory_prompt.rs:80-105 | the lines of a message are those of its blocks, in order |
| MemoryPrompt.ChunkIsRoleAndLines | src/memory_prompt.rs:80-105 | a message that says something is its role and then its lines |
| MemoryPrompt.JoinConcat | src/memory_prompt.rs:129-131 | the chosen chunks stand in their order with one separator between |
| MemoryPrompt.ContextIgnoresOlder | src/memory_prompt.rs:108-131 | messages older than the window do not matter |
| MemoryPrompt.NewestIsThere | src/memory_prompt.rs:112-127 | the newest message that says something is in the excerpt, whole or its beginning |
| MemoryPrompt.CollectNewest | src/memory_prompt.rs:112-127 | the loop with its early exit collects, newest first, the chosen chunks of the message window |
| MemoryPrompt.ChosenIsLongestRun | src/memory_prompt.rs:112-130 | the chosen chunks are the longest run of newest ones whose total fits, in chronological order, or the beginning of the newest when even that does not fit |
| MemoryPrompt.FitCountIsLargest | src/memory_prompt.rs:112-127 | a run of newest chunks fits exactly when it is no longer than the chosen one |
| MemoryPrompt.ContextFacts | src/memory_prompt.rs:129-131 | the text is at most the budget plus one separator per extra chunk, and is the joined chunks less trailing whitespace |
| MemoryPrompt.FormatContextForRelevance | src/memory_prompt.rs:108-131 | the excerpt of the newest 12 messages within 8000 characters |
| MemoryPrompt.FormatContextForExtraction | src/memory_prompt.rs:135-158 | the excerpt of the newest 40 messages within 24000 characters |

## Left out

- Provider calls, prompts and the text of summaries: a summary is a given text together with the indices it covers.
- Native encrypted compaction payloads and the fallback text for oversized ones (`src/compaction.rs:321-350`).
- Emergency truncation of tool results (`src/compaction.rs:1296-1305`): it rewrites the caller's messages.
- Embedding text, mean embeddings and cosine similarity in compaction: which messages are relevant and how similar the
  topic is are inputs.
- Floating point: shares, growth, scores and percentages are real numbers; rounding of 32-bit values and not-a-number
  do not arise, except that a zero budget is treated as the division by it comes out.
- Overflow of machine integers: counts are unbounded, save the LRU counter, which wraps at 64 bits.
- A stall window of zero in the compaction settings: the source indexes an empty list there, and the type excludes it.
- The poisoned or contended lock around the compaction manager, and the choice between its message list and the
  session's.
- Stored-message ids, timestamps, token usage and persistence in transcript repair, and the reset of cache tracker and
  locked tools after a repair.
- The message hash function and its byte encoding: any hasher is allowed, and results say where collisions matter.
- The 32-bit turn counter of the cache tracker and the text of its warnings.
- Bridge: origin and body checks, reading a job's status, process creation and stopping, captured output kept beside a
  result, parsing of the result as JSON, and the second version of the bridge. Job ids are taken as unique.
- Globals.Release: a release beyond the bound raises in the source; here it must not be called then, and the run
  results show it never is.
- Embedder timing totals, load times, artifact sizes and statistics; a failed inference is an input.
- TopKScored: the heap is a sequence with its smallest entry looked up, not a binary heap laid out in an array; the
  final sort is an insertion sort.
- FindSimilar: scores are plain dot products over the reals.
- In-process background tasks, waiting, listing and cleanup of old records, and how an exit code is read from output;
  probing a process, its output and the clock are inputs, one reading per call.
- FinalizeDetachedStatusIfNeeded: preview text, output path and names in the published event are not modelled.
- Failing reads and writes of status files, other than a missing record; a write and the event that follows it are one
  step.
- Undoing a rewind, which puts back the transcript from before it.
- Other bus events, and the channel's capacity and subscribers.
- Reading `/proc`: the process table is an input.
- ReplyQueries: the table of queries is a parameter whose entries are not empty, as those of the source are.
- Remaining members of the repository: gateways, mail and chat integrations, terminal rendering, importers, telemetry
  and benchmarks other than the two algorithms above, which are input and output or plain comparisons.
