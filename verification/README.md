# Verified models of the agent runtime's stateful components

This project models, in Dafny 4.11, the parts of the runtime that keep state over long runs, and proves what they
promise: session checkpoints, conversation windows, the cross-session bus, the disk and cost budgets, the
write-drain counter, the session actors with their controllers, and the attachment store.

Each component has one module. Its operations are functions on a value that stands for the component's state; a
class (where the original updates fields in place) carries the operations out step by step and is proved equal to
those functions; the theorems are about the functions, over every run. The concurrent components are
transition systems whose steps are single atomic or locked operations, so that a run is any interleaving.

| module | component |
|---|---|
| `Common` | options, results, filters, subsequences |
| `Checkpoints` | pre-image log over a file system, rollback |
| `Bus` | topics with bounded retention and read offsets, against an unbounded log with cursors |
| `Conversation` | message lists, pairing of tool calls and results, replacing a middle section |
| `Context` | turn limit, token pruning, heuristic summary |
| `Compressor` | the three compression strategies and the boundaries of LLM compaction |
| `DiskBudget` | per-session storage budget with eviction |
| `CostGuard` | daily spend and hourly actions behind one latch |
| `CostGuardThreads` | the same guard with many threads inside it |
| `PendingWrites` | in-flight counter with a waiting loop |
| `Controller` | run state, steers and notes of one session |
| `Sessions` | router and per-session actors |
| `Attachments` | content-addressed store, reference scan, collector |

Verify everything with `dafny verify dfyconfig.toml`.

## Where the code does less than it promises

The model follows the code. Each case has a lemma with a concrete input on which the promise fails, named first, and
one that says exactly when it holds, named second.

- Rolling back is documented to put the files back as they were when the checkpoint opened
  (`src/agent/checkpoints.rs:200`). A file first written after a newer checkpoint opened stays as it is
  (`RollbackPastNewerMissesAFile`, `RollbackPastNewer`).
- The turn limit is documented to remove calls and results together (`src/agent/context.rs:140-143`). It removes the
  assistant message only; the results stay (`LimitTurnsCanStrand`, `LimitTurnsPairedIff`).
- The summarising strategy inserts its summary at position 1 (`src/agent/compressor.rs:246-250`). That is past the
  end, and so a panic, when nothing was kept (`SummaryCanPanic`, `SummaryFitsIff`).
- The same strategy means never to strand a tool result (`src/agent/compressor.rs:225-228`). Without a system message
  in front of the tail, the summary can come to stand between a call and its result (`SummaryCanSplitAPair`,
  `SummarizedPairedIff`).
- At a day's rollover the latch is meant to stay only if the hourly limit is tripped too
  (`src/agent/cost_guard.rs:160`). It stays whenever an hourly limit is configured (`LatchCanBeStale`,
  `StaleLatchIff`).
- With several threads in the cost guard, a window that ends can clear a latch just set by another thread, and the
  guard lets calls through with a limit reached (`ClearingCanComeLate`; `LatchedUnlessLate` told by the run, and
  `OrderlyRunLatches` by its schedule).
- `LargestFirst` protects the new item by position only, so it can become the second victim
  (`LargestFirstCanEvictTheNewItem`, `NewItemSurvivesBySizeIff`).
- The collector is documented to delete only unreferenced objects and temporary files
  (`src/attachments.rs:452-458`). It deletes every regular file of a prefix directory that is not a referenced object
  (`CollectorDeletesForeignFile`, `CollectorAsDocumentedIff`).

One hazard the source documents itself (`src/agent/compressor.rs:112-119`): the oldest-first strategy picks by priority
and can keep a result without its call. `OldestFirstCanStrand` is such a history, and `OldestFirstPairedIff` says from
the history and the target alone when it does not happen.

## Model

| member | source | states |
|---|---|---|
| `Checkpoints.BlobNameInjective` | src/agent/checkpoints.rs:150-157 | two positions of a manifest never share a blob file |
| `Checkpoints.BeginKeepsInv` | src/agent/checkpoints.rs:94-121 | opening a checkpoint, even under a name already used, keeps every pre-image sound and makes the current file system the new origin |
| `Checkpoints.AddPreImageSound` | src/agent/checkpoints.rs:140-169 | a captured path, present or absent, is recorded with its content at opening and overwrites no earlier blob |
| `Checkpoints.WriteKeepsInv` | src/agent/checkpoints.rs:140-169 | a captured write keeps the invariant and adds exactly its path to the open manifest |
| `Checkpoints.RestoreIsExact` | src/agent/checkpoints.rs:211-244 | restoring a sound manifest never lacks a blob and gives exactly the captured paths their opening content |
| `Checkpoints.CountsAreExact` | src/agent/checkpoints.rs:211-244 | for sound pre-images `restored` counts the captured paths that existed at opening, and `removed` those that did not but exist now |
| `Checkpoints.RollbackIsExact` | src/agent/checkpoints.rs:206-251 | a rollback cannot fail; a path shows its opening content if and only if it was captured or unchanged since the checkpoint stopped recording; every other path is untouched; exactly the older checkpoints remain, unchanged, and none is open |
| `Checkpoints.RollbackKeepsInv` | src/agent/checkpoints.rs:206-280 | the surviving checkpoints stay sound after a rollback |
| `Checkpoints.EveryRunKeepsInv` | src/agent/checkpoints.rs:94-280 | over every run of begin, captured write and rollback each stored pre-image equals its path's content when its checkpoint opened |
| `Checkpoints.ReportIsExact` | src/agent/checkpoints.rs:206-251 | so it is after any run |
| `Checkpoints.WritesRecord` | src/agent/checkpoints.rs:140-169 | over any sequence of writes the open checkpoint records exactly the written paths, and every other checkpoint and path stays as it was |
| `Checkpoints.RollbackRestoresOpening` | src/agent/checkpoints.rs:206-251 | after any session: begin, any writes, rollback gives back the whole file system as it was at begin |
| `Checkpoints.RollbackPastNewer` | src/agent/checkpoints.rs:200-251 | rolling back past a newer checkpoint restores exactly what was written before the newer one opened; the whole state comes back if and only if every file first written later happens to have its old content |
| `Checkpoints.RollbackPastNewerMissesAFile` | src/agent/checkpoints.rs:200-201 | a run in which the documented promise fails |
| `Checkpoints.SurvivorsAreOlder` | src/agent/checkpoints.rs:256-280 | over any later run with a forward clock, all checkpoints not known before have a timestamp no earlier |
| `Checkpoints.RollbackDropsEverythingNewer` | src/agent/checkpoints.rs:200-205 | with a forward clock a rollback leaves only checkpoints opened before the one it names |
| `Checkpoints.RestoreStopsAt` | src/agent/checkpoints.rs:213-232 | the first entry that cannot be restored ends the restoration |
| `Checkpoints.CheckpointStore.Begin` | src/agent/checkpoints.rs:94-121 | the store after begin: an empty manifest with id, title and time, the marker on it, everything else unchanged |
| `Checkpoints.CheckpointStore.Capture` | src/agent/checkpoints.rs:140-169 | the store after capture; true exactly when something was recorded; an error exactly when the open checkpoint has no manifest |
| `Checkpoints.CheckpointStore.Rollback` | src/agent/checkpoints.rs:206-251 | the store after rollback, exactly when each of the two errors is returned and what it leaves, and the report told by the files: captured paths that existed at opening, captured paths absent then and present before, directories gone |
| `Checkpoints.CheckpointStore.DropNewer` | src/agent/checkpoints.rs:256-280 | the directories left after dropping everything at or after a time, and how many went |
| `Bus.PruneKeepsValid` | src/acp/bus.rs:76-106 | pruning at any clock reading leaves offsets in range, no topic empty and none above its cap |
| `Bus.SubscribeKeepsValid` | src/acp/bus.rs:50-60 | subscribing keeps the bus valid under any clock |
| `Bus.UnsubscribeKeepsValid` | src/acp/bus.rs:63-72 | unsubscribing keeps the bus valid: exactly the subscribers have an offset |
| `Bus.PollKeepsValid` | src/acp/bus.rs:126-146 | polling keeps the bus valid under any clock |
| `Bus.EveryStepKeepsValid` | src/acp/bus.rs:50-146 | no operation, at any clock reading, ever puts an offset out of range, so the slice in poll cannot panic |
| `Bus.EmptyTopicHasZeroOffsets` | src/acp/bus.rs:95-105 | a topic without messages has all its offsets at zero |
| `Bus.RetainedSplits` | src/acp/bus.rs:76-106 | what pruning keeps of the unread part comes last, and the shifted offset is never past its start |
| `Bus.RetainedMeans` | src/acp/bus.rs:76-106 | pruning keeps messages at most an hour old, at most a thousand, and drops a younger one only when a thousand are left |
| `Bus.EveryVisitPrunes` | src/acp/bus.rs:50-146 | after a subscription, a publication or a poll the topic holds nothing older than an hour |
| `Bus.PollNeverSkips` | src/acp/bus.rs:126-146 | under any clock a poll ends with every retained message from the reader's offset on, in order; only messages from before the offset may precede them |
| `Bus.PollReadsAll` | src/acp/bus.rs:126-146 | a poll leaves nothing ahead of its reader |
| `Bus.PublishedIsPolled` | src/acp/bus.rs:109-146 | a message published to a topic is what the next poll of each subscriber ends with, within the hour |
| `Bus.EveryRunKeepsValid` | src/acp/bus.rs:50-146 | every run, whatever the clock does, leaves the bus valid |
| `Bus.StepBehind` | src/acp/bus.rs:50-146 | an operation puts a message behind a reader's offset only by handing it to that reader |
| `Bus.NothingIsSkipped` | src/acp/bus.rs:76-146 | over every run under any clock, a message the bus holds before a reader's offset was there when the run began or was received by that reader |
| `Bus.HeldIsReceivedOrAhead` | src/acp/bus.rs:76-146 | so whatever the bus holds that was not behind the reader at the start was received or is still to come |
| `Bus.FirstTimesInOrder` | src/acp/bus.rs:76-146 | over every run under any clock, what a reader receives for the first time is in the order of publication, from its offset on, messages being told apart by id |
| `Bus.SubscribedIsValid` | src/acp/bus.rs:50-60 | any subscription in any run from an empty bus is a start for the two above |
| `Bus.FilterSortedIsSuffix` | src/acp/bus.rs:80-84 | in a time-ordered list the age limit removes a prefix and nothing else |
| `Bus.PruneSuffix` | src/acp/bus.rs:76-106 | pruning leaves exactly the visible suffix of everything ever published |
| `Bus.StepRefines` | src/acp/bus.rs:50-146 | every operation moves the bus and the unbounded log in step |
| `Bus.PollAgrees` | src/acp/bus.rs:126-146 | a poll returns exactly the log's visible entries from the reader's cursor on |
| `Bus.PollOutput` | src/acp/bus.rs:126-146 | the same for subscribed and unsubscribed readers alike |
| `Bus.BusRefinesLog` | src/acp/bus.rs:50-146 | with a clock that does not run back, every run of the bus gives the outputs of the unbounded log |
| `Bus.FreshBusRefinesLog` | src/acp/bus.rs:42-146 | the same from an empty bus |
| `Bus.VisibleFromExact` | src/acp/bus.rs:36-38 | a poll's positions are increasing and are exactly the visible ones behind the cursor |
| `Bus.LogHoldsAll` | src/acp/bus.rs:109-123 | the unbounded log holds everything a run published, in order, and nothing else |
| `Bus.VisibleMeans` | src/acp/bus.rs:36-38 | a log entry is visible while it is at most an hour old and among the newest thousand |
| `Bus.DeliveriesAreAccounted` | src/acp/bus.rs:109-146 | over a subscription, deliveries are strictly increasing positions; one the cursor passed is left out if and only if it was expired or pushed out at the first poll to reach it |
| `Bus.ReceivedIsDelivered` | src/acp/bus.rs:126-146 | the concatenated poll results of a reader on the bus are the log at the delivered positions |
| `Bus.SubscriptionIsAccounted` | src/acp/bus.rs:50-146 | the two together on the bus itself, for any subscription made in any run |
| `Bus.AcpBus.constructor` | src/acp/bus.rs:42-48 | a new bus is empty and valid |
| `Bus.AcpBus.PruneTopic` | src/acp/bus.rs:76-106 | the bus after pruning a topic |
| `Bus.AcpBus.RetainFresh` | src/acp/bus.rs:80-83 | keeps exactly the messages at most an hour old, in order |
| `Bus.AcpBus.ShiftOffsets` | src/acp/bus.rs:94-101 | every offset of the topic, and no other, is lowered by the number removed, stopping at zero |
| `Bus.AcpBus.Subscribe` | src/acp/bus.rs:50-60 | the bus after subscribing; validity kept |
| `Bus.AcpBus.Unsubscribe` | src/acp/bus.rs:63-72 | the bus after unsubscribing; validity kept |
| `Bus.AcpBus.Publish` | src/acp/bus.rs:109-123 | the bus after publishing; validity kept |
| `Bus.AcpBus.Poll` | src/acp/bus.rs:126-146 | the bus after polling and the messages returned; validity kept |
| `Conversation.PairedMeans` | src/agent/context.rs:617-622 | in a paired list every tool result stands in the unbroken run behind the message that made its call |
| `Conversation.AnsweredIsPaired` | src/agent/context.rs:617-622 | the converse, so pairing is that adjacency and nothing else |
| `Conversation.PickStaysPairedIff` | src/agent/compressor.rs:181-221 | a choice from a paired history is paired if and only if every result kept without its call carries the id of a call of the message it then stands behind |
| `Conversation.SnapStart` | src/agent/context.rs:623-627 | the first boundary moves past tool results only, and stops at a non-result or at the second |
| `Conversation.SnapEnd` | src/agent/compressor.rs:408-412 | the second boundary moves past tool results only, and stops at a non-result or at the end |
| `Conversation.SnapBoundaries` | src/agent/compressor.rs:399-412 | both boundaries after snapping |
| `Conversation.MiddleSectionInRange` | src/agent/compressor.rs:390-416 | the section keeps at least the head, at most the tail, and is followed by no tool result |
| `Conversation.ReplaceMiddleIsPaired` | src/agent/context.rs:605-666 | for every head and tail size, replacing the middle of a paired history leaves it paired |
| `Conversation.KeepsRunsIff` | src/agent/compressor.rs:390-416 | every kept call keeps its whole run of results if and only if the middle holds a non-result or the tail does not begin on a result |
| `Context.RoundsAreOnePass` | src/agent/context.rs:144-182 | a round of the turn limit followed by one pass for the rest is one pass from the left |
| `Context.OnePassIsFilter` | src/agent/context.rs:144-182 | the pass, started anywhere, keeps the messages that the closed-form filter keeps |
| `Context.LimitTurnsIsFilter` | src/agent/context.rs:144-182 | gone are exactly the user messages with `max` or more user messages behind them and each assistant message directly behind such a one; the rest stays in order |
| `Context.LimitTurnsMeans` | src/agent/context.rs:144-182 | a history with at most `max` user messages is left alone, and of any other exactly the last `max` user messages stay |
| `Context.LimitTurnsPairedIff` | src/agent/context.rs:140-182 | the turn limit keeps a paired history paired if and only if every result whose call it drops carries the id of a call of the message it then stands behind |
| `Context.UnexposedIsAdopted` | src/agent/context.rs:140-182 | that is so if no dropped turn has tool results |
| `Context.ExposedIsNotAdopted` | src/agent/context.rs:140-182 | and, where call ids are not reused, only then |
| `Context.LimitTurnsCanStrand` | src/agent/context.rs:140-143 | a paired history that the turn limit leaves unpaired |
| `Context.Victim` | src/agent/context.rs:424-441 | what a pruning round removes is neither a tool result nor a message with an answered call |
| `Context.VictimMeans` | src/agent/context.rs:424-552 | a round removes the first assistant message waiting for results, or else the first message before the last that is no tool result, has no answered call and is no opening request; nothing if there is none |
| `Context.GroupIsOneMessage` | src/agent/context.rs:449-500 | the group found for pruning is always the assistant message alone |
| `Context.NothingRemovable` | src/agent/context.rs:504-552 | when no victim is found every message but the last is protected, or is the opening request of a history with calls |
| `Context.RemoveUnansweredIsPaired` | src/agent/context.rs:449-552 | removing a message without answered calls separates no result from its call |
| `Context.PruneIsSafe` | src/agent/context.rs:417-552 | pruning yields a subsequence with every tool result and every answered call, stays paired, never empties the list, and stays over the limit only when one message is left or nothing is removable |
| `Context.PruneOnlyWhenNeeded` | src/agent/context.rs:417-443 | a history that fits is left alone, and otherwise what is left together with the message removed last did not fit |
| `Context.PruneEnds` | src/agent/context.rs:417-443 | pruning ends within the room, or with one message, or with a list from which nothing may be removed |
| `Context.OpeningRequestStays` | src/agent/context.rs:514-523 | the opening request of a history with an answered call is never pruned |
| `Context.PruneKeepsLast` | src/agent/context.rs:504-552 | the newest message goes only if it is an assistant message with unanswered calls |
| `Context.BatchesStayPaired` | src/agent/context.rs:357-375 | over any series of batches that hold their calls with their results the history stays paired: always without a turn limit, and with one as long as it strands no result |
| `Context.BatchStaysPaired` | src/agent/context.rs:364-375 | the same for one batch |
| `Context.AddedMeans` | src/agent/context.rs:343-375 | after an addition at most `max` user messages are left and pruning has ended; what fits both limits loses nothing |
| `Context.ConversationContext.constructor` | src/agent/context.rs:82-101 | a new context is empty with count zero |
| `Context.ConversationContext.AddMessage` | src/agent/context.rs:343-355 | the messages after adding one, within the turn limit and the tokens beside the system prompt, nothing lost that fitted; the count stays the sum of `len/4` |
| `Context.ConversationContext.AddBatch` | src/agent/context.rs:364-375 | the messages after adding a batch, unchanged for an empty one; the count stays exact |
| `Context.ConversationContext.Clear` | src/agent/context.rs:392-396 | empty, with an exact count |
| `Context.ConversationContext.ReplaceMessages` | src/agent/context.rs:559-568 | the given messages, with an exact count |
| `Context.ConversationContext.Remove` | src/agent/context.rs:424-441 | one message less, and the saturating subtraction never clips |
| `Context.ConversationContext.LimitTurns` | src/agent/context.rs:144-182 | terminates with the last turns, unchanged when within the limit; the count stays exact |
| `Context.ConversationContext.PruneIfNeeded` | src/agent/context.rs:417-443 | terminates, unchanged when the tokens and the system prompt fit, and otherwise with nothing left to remove; the count stays exact |
| `Context.ConversationContext.FindPrunableToolGroup` | src/agent/context.rs:449-500 | the first assistant message with calls, none answered, and its group's size |
| `Context.ConversationContext.FindPrunableMessage` | src/agent/context.rs:504-552 | the first removable message before the last, or none |
| `Context.ConversationContext.Summarize` | src/agent/context.rs:605-666 | the section between two and four messages, its ends moved past tool results, becomes one named system message; a paired history stays paired; a short one is unchanged; the count stays exact |
| `Compressor.EstimateIsTokensAndEnvelopes` | src/agent/compressor.rs:93-95 | the estimate is the tokens plus four per message |
| `Compressor.SummaryFitsIff` | src/agent/compressor.rs:246-250 | the insertion is in range if and only if the history is empty, holds a system message, or has a non-result among its last four |
| `Compressor.SummaryCanPanic` | src/agent/compressor.rs:246-250 | a paired history on which the insertion is out of range |
| `Compressor.SummarizedShape` | src/agent/compressor.rs:224-255 | where the summary goes in any history: behind the first system message kept from the front, or else behind the tail's first message |
| `Compressor.SummarizedMeans` | src/agent/compressor.rs:224-255 | the last four messages less their leading tool results stay with all system messages before them, and the summary goes behind the first, unless nothing is replaced |
| `Compressor.SummarizedPairedIff` | src/agent/compressor.rs:224-255 | a paired history stays paired if and only if nothing is replaced, a system message stands before the tail, or the tail's first message has no result directly behind it |
| `Compressor.SummarizedIsPaired` | src/agent/compressor.rs:224-255 | a paired history that starts with a system message stays paired, and the insertion is in range |
| `Compressor.SummaryCanSplitAPair` | src/agent/compressor.rs:246-250 | a paired history without a system message in which the summary lands between a call and its result |
| `Compressor.SummarizedKeepsSystems` | src/agent/compressor.rs:224-255 | of any history it loses no system message, keeps their order and adds only the summary, behind the first kept message |
| `Compressor.WindowIsLongest` | src/agent/compressor.rs:276-290 | the window fits, and no longer suffix does |
| `Compressor.WithoutSystemsIsPaired` | src/agent/compressor.rs:258-270 | setting system messages aside separates no result from its call |
| `Compressor.SlidIsLongestSuffix` | src/agent/compressor.rs:258-305 | the result is the system messages followed by the longest fitting suffix of the others less its leading tool results |
| `Compressor.SlidIsPaired` | src/agent/compressor.rs:258-305 | the sliding window keeps a paired history paired |
| `Compressor.SlidKeepsSystems` | src/agent/compressor.rs:258-305 | it keeps every system message, in order |
| `Compressor.SlidCost` | src/agent/compressor.rs:258-305 | its estimate is at most the larger of target and system tokens, plus four per system message |
| `Compressor.OlderSystemsAreCritical` | src/agent/compressor.rs:64-90 | critical messages are exactly the system messages outside the last four positions |
| `Compressor.RankIsWeight` | src/agent/compressor.rs:64-90 | messages are taken by weight, older system messages first, then the last four, tool results and talk of tasks, then assistant messages, then user messages; of equal weight the later first |
| `Compressor.PickIsSubsequence` | src/agent/compressor.rs:207-220 | the chosen messages sorted back by index are a subsequence of the history |
| `Compressor.PickCost` | src/agent/compressor.rs:207-220 | their estimate is the chosen total, and nothing chosen is lost |
| `Compressor.SortByRank` | src/agent/compressor.rs:181-198 | every index once, higher priority first and later first among equals |
| `Compressor.Choose` | src/agent/compressor.rs:199-212 | the loop computes that choice: in exactly when critical or fitting behind what ranks before; its cost is at most the larger of target and critical total |
| `Compressor.InOriginalOrder` | src/agent/compressor.rs:211-220 | the chosen messages back in their original order |
| `Compressor.CompressOldestFirst` | src/agent/compressor.rs:181-221 | the result is that choice as an order-preserving subsequence with every older system message, within that cost |
| `Compressor.GreedyIsUnique` | src/agent/compressor.rs:181-221 | the greedy rule has one solution, so it determines the result |
| `Compressor.ChoiceIsGreedy` | src/agent/compressor.rs:197-209 | the choice read off history and target by the room left at each message's turn is a greedy choice |
| `Compressor.ChoiceMeans` | src/agent/compressor.rs:181-221 | a message is in if and only if it is an older system message or fits beside those taken before it by weight |
| `Compressor.OldestFirstPairedIff` | src/agent/compressor.rs:112-119 | a paired history stays paired if and only if every result that fits the room left at its turn while its call does not is adopted; where call ids are not reused, if and only if there is no such result; all told by history and target |
| `Compressor.OldestFirstPairedIfRoom` | src/agent/compressor.rs:181-221 | so it stays paired when all messages but those of lowest priority fit into the target |
| `Compressor.OldestFirstCanStrand` | src/agent/compressor.rs:64-90 | a paired history over its target from which a result is kept and its call dropped |
| `Compressor.CompressSummarize` | src/agent/compressor.rs:224-255 | computes the summarised list, and says when the insertion would panic |
| `Compressor.Partition` | src/agent/compressor.rs:236-245 | divides the messages into system messages and tail on one side and the replaced ones on the other |
| `Compressor.CompressSlidingWindow` | src/agent/compressor.rs:258-305 | computes the sliding window |
| `Compressor.CountTokens` | src/agent/compressor.rs:266-270 | the sum of `len/4` |
| `Compressor.RecentFitting` | src/agent/compressor.rs:276-290 | the suffix found by walking back until a message does not fit |
| `Compressor.CompactWithLlm` | src/agent/compressor.rs:382-483 | the section between head and tail, its ends moved past tool results, becomes one system message named compaction_summary with the count and the reply; unchanged without a section or a reply; a paired history stays paired |
| `DiskBudget.Best` | src/agent/disk_budget.rs:194-219 | the item, other than the protected position, that ranks before all others |
| `DiskBudget.VictimMeans` | src/agent/disk_budget.rs:194-219 | the victim is the item used longest ago, created first or largest, by strategy and with ties by position, the protected position apart |
| `DiskBudget.EvictConserves` | src/agent/disk_budget.rs:124-147 | kept and evicted together are exactly what was there |
| `DiskBudget.EvictKeepsOrder` | src/agent/disk_budget.rs:124-147 | what is kept keeps its order |
| `DiskBudget.EvictReachesLimit` | src/agent/disk_budget.rs:124-147 | eviction always gets within the limit |
| `DiskBudget.EvictOnlyWhenNeeded` | src/agent/disk_budget.rs:124-147 | nothing is evicted from a list within the limit, and otherwise what stays together with the item evicted last was over it |
| `DiskBudget.NewestIsNotVictim` | src/agent/disk_budget.rs:194-219 | under a time-based strategy the newest last item is never the victim, even with an out-of-date protected position |
| `DiskBudget.EvictIsSmallestPrefix` | src/agent/disk_budget.rs:124-147 | evicted are exactly the smallest-key prefix, ties by position, of minimal length; the newest item stays |
| `DiskBudget.AdditionEvictsSmallestPrefix` | src/agent/disk_budget.rs:124-147 | the same for a whole list as an addition leaves it |
| `DiskBudget.SurvivorIsKept` | src/agent/disk_budget.rs:124-147 | the last item ends up kept and last, or among the evicted |
| `DiskBudget.UnprotectedSurvivesIff` | src/agent/disk_budget.rs:194-219 | by size and unprotected, the last item survives if and only if it fits beside all items no larger than itself |
| `DiskBudget.LargestFirstSurvivesIff` | src/agent/disk_budget.rs:124-147 | by size, the first victim is another item, and the new one survives if and only if it fits beside the smaller items left then |
| `DiskBudget.NewItemSurvivesBySizeIff` | src/agent/disk_budget.rs:96-159 | after any run under LargestFirst: the new item is kept, and last, if it fits beside everything or beside the smaller items once the first victim is gone, and is reported as evicted otherwise |
| `DiskBudget.LargestFirstCanEvictTheNewItem` | src/agent/disk_budget.rs:96-159 | a run whose last addition reports the new item itself as evicted |
| `DiskBudget.IndexOf` | src/agent/disk_budget.rs:162-181 | the first item with the id, or none |
| `DiskBudget.TouchMeans` | src/agent/disk_budget.rs:162-166 | a touch sets the access time of the first item with the id and changes nothing else |
| `DiskBudget.RemoveMeans` | src/agent/disk_budget.rs:169-181 | a removal takes out the first item with the id and its size, and without one changes nothing |
| `DiskBudget.AddIsSound` | src/agent/disk_budget.rs:96-159 | an addition ends within the limit with kept plus evicted equal to old plus new and the evicted ids reported in order; which error is returned exactly when, and then nothing changes; what fits evicts nothing |
| `DiskBudget.StepKeepsInv` | src/agent/disk_budget.rs:96-181 | add, touch and remove keep the recorded total exact and within the limit |
| `DiskBudget.EveryRunKeepsInv` | src/agent/disk_budget.rs:96-181 | so does every run |
| `DiskBudget.AddEvictsSmallestPrefix` | src/agent/disk_budget.rs:96-159 | one addition under a time-based strategy: what goes, what is reported and what stays; under Lru the evicted were used before the kept, under OldestFirst created before them, ties by position |
| `DiskBudget.NewItemSurvives` | src/agent/disk_budget.rs:96-159 | the same after any run, the new item last among what stays |
| `DiskBudget.CategoriesAddUp` | src/agent/disk_budget.rs:184-190 | the categories divide the total |
| `DiskBudget.CategorySumMeans` | src/agent/disk_budget.rs:184-190 | a category's figure is the total size of its items |
| `DiskBudget.SessionBudget.constructor` | src/agent/disk_budget.rs:78-91 | an empty budget |
| `DiskBudget.SessionBudget.AddItem` | src/agent/disk_budget.rs:96-159 | the budget and the answer after an addition |
| `DiskBudget.SessionBudget.EvictOver` | src/agent/disk_budget.rs:124-147 | the eviction loop, with the protected position unadjusted |
| `DiskBudget.SessionBudget.SelectVictim` | src/agent/disk_budget.rs:194-219 | the item used longest ago, created first or largest, apart from the protected position; none when rejecting |
| `DiskBudget.SessionBudget.Touch` | src/agent/disk_budget.rs:162-166 | the access time of the first item with the id |
| `DiskBudget.SessionBudget.RemoveItem` | src/agent/disk_budget.rs:169-181 | the first item with the id gone and the total lowered; true exactly when there was one |
| `DiskBudget.SessionBudget.StatsByCategory` | src/agent/disk_budget.rs:184-190 | each category present, with the sum of its sizes |
| `CostGuard.StepKeepsInv` | src/agent/cost_guard.rs:74-184 | every operation but a manual reset keeps: unlatched means below both limits, and without an hourly limit the latch is the daily limit |
| `CostGuard.EveryRunKeepsInv` | src/agent/cost_guard.rs:74-184 | so does every run, whatever the clocks do |
| `CostGuard.CheckIsSound` | src/agent/cost_guard.rs:74-77 | after any run a check's "no" is right; its "yes" is right without an hourly limit and at the first check after the hour ends |
| `CostGuard.StaleLatchIff` | src/agent/cost_guard.rs:151-184 | a check finds the latch set with neither limit reached if and only if it was set, an hourly limit exists and is not reached, the hour has not ended, and the day has rolled over or was below its limit |
| `CostGuard.WindowsMean` | src/agent/cost_guard.rs:151-184 | a counter is zeroed and its window restarted exactly when 86,400 or 3,600 seconds have passed; nothing changes within both windows |
| `CostGuard.LatchHasCause` | src/agent/cost_guard.rs:83-107 | over every run the latch is set only by a recording that brought a counter to its limit |
| `CostGuard.LatchCanBeStale` | src/agent/cost_guard.rs:160-163 | a run that ends in such a check |
| `CostGuard.CentsUndershoot` | src/agent/cost_guard.rs:83-93 | recorded cents never exceed the exact cost and miss less than one cent per call |
| `CostGuard.PricesByFamily` | src/agent/cost_guard.rs:189-207 | what a call is charged by the family of its model, in whole cents of the exact price |
| `CostGuard.CaseDoesNotMatter` | src/agent/cost_guard.rs:190 | the case of a model's name does not change its price |
| `CostGuard.RecordsAddUp` | src/agent/cost_guard.rs:83-107 | within a day the spend is the sum over the recorded calls, across hourly resets |
| `CostGuard.ActionsAddUp` | src/agent/cost_guard.rs:93-94 | within an hour every recorded call counts as one action |
| `CostGuard.ClearStartsFresh` | src/agent/cost_guard.rs:134-146 | the operator's reset leaves a new guard with the same limits and both windows starting now |
| `CostGuard.ClearedLatchTripsAgain` | src/agent/cost_guard.rs:118-126 | clearing the latch alone lasts one call while the spend is at its limit |
| `CostGuard.SpendIsAccurate` | src/agent/cost_guard.rs:83-107 | the two together for any run within a day |
| `CostGuard.LiveGuard.constructor` | src/agent/cost_guard.rs:55-66 | a new guard is unlatched with both windows starting now |
| `CostGuard.LiveGuard.IsExceeded` | src/agent/cost_guard.rs:74-77 | the guard after a check, and what it answers |
| `CostGuard.LiveGuard.RecordUsage` | src/agent/cost_guard.rs:83-107 | the guard after recording a call |
| `CostGuard.LiveGuard.ClearAndRebase` | src/agent/cost_guard.rs:134-146 | everything cleared and both windows restarted |
| `CostGuard.LiveGuard.ResetExceeded` | src/agent/cost_guard.rs:124-126 | only the latch is cleared |
| `CostGuard.LiveGuard.ResetWindows` | src/agent/cost_guard.rs:151-184 | the guard after both windows had their chance to roll over |
| `CostGuardThreads.AloneIsTheOperation` | src/agent/cost_guard.rs:74-107 | the atomic accesses of one thread, taken alone, make up the check and the recording of the sequential guard |
| `CostGuardThreads.StepKeepsSafe` | src/agent/cost_guard.rs:74-184 | every atomic access keeps: the spend is what was added since the day's zero, and a reached limit with an open latch means a thread about to set it or a clearing that came late |
| `CostGuardThreads.EveryRunIsSafe` | src/agent/cost_guard.rs:74-184 | so does every interleaving of any number of threads, under any clocks |
| `CostGuardThreads.LatchedUnlessLate` | src/agent/cost_guard.rs:83-184 | once all threads are done no recorded call is missing from the spend, and with a limit reached the guard is latched if and only if the last write to the latch was not a late clearing |
| `CostGuardThreads.OrderlyRunLatches` | src/agent/cost_guard.rs:83-184 | in every run in which no thread adds or counts while another rolls a window over, once all are done a limit reached is a latch set |
| `CostGuardThreads.StepKeepsCalm` | src/agent/cost_guard.rs:151-184 | in such a run a counter stays zero while its window is rolled over, what was read of the spend stays true, and no clearing is late |
| `CostGuardThreads.ClearingCanComeLate` | src/agent/cost_guard.rs:171-181 | an interleaving of a check and a recording that ends with the limit reached and calls let through |
| `CostGuardThreads.NextRecordingLatches` | src/agent/cost_guard.rs:91-106 | a recording that adds with the daily limit reached, or counts with the hourly limit reached, sets the latch before it is done, whatever other threads do |
| `PendingWrites.StepKeepsInv` | src/agent/writes.rs:54-98 | each atomic step keeps: the count is the number of live guards, and a parked unsignalled waiter means writes in flight or a notification on its way |
| `PendingWrites.EveryRunKeepsInv` | src/agent/writes.rs:54-98 | so does every interleaving: no wake-up is lost |
| `PendingWrites.LastDropNotifies` | src/agent/writes.rs:92-98 | only the guard dropped last has a notification to send |
| `PendingWrites.QuietWaiterReturns` | src/agent/writes.rs:68-85 | once nothing is in flight and all notifications are sent, every waiter returns true within two steps of its own, without its timeout |
| `PendingWrites.ReturnedWasObserved` | src/agent/writes.rs:68-85 | true is returned if and only if the deciding look found no write in flight and no live guard |
| `PendingWrites.ReturnedStays` | src/agent/writes.rs:68-85 | an answer once given stands |
| `Controller.DrainedThenPending` | src/acp/controller.rs:136-171 | however pushes, drains and resets interleave, drained followed by pending is exactly what was pushed since the last reset |
| `Controller.CommandsMean` | src/acp/controller.rs:98-133 | which run states pause and resume change, that resume undoes pause, and that cancel and step always work |
| `Controller.CancelStands` | src/acp/controller.rs:98-133 | a cancelled run stays cancelled under any pauses and resumes |
| `Controller.ExecutionController.constructor` | src/acp/controller.rs:39-48 | idle with empty mailboxes |
| `Controller.ExecutionController.Command` | src/acp/controller.rs:98-133 | the run state after pause, resume, step or cancel; mailboxes untouched |
| `Controller.ExecutionController.Reset` | src/acp/controller.rs:136-147 | idle again, with both mailboxes wiped |
| `Controller.ExecutionController.Steer` | src/acp/controller.rs:155-165 | the steer joins the end of the queue; the run state is untouched |
| `Controller.ExecutionController.DrainSteers` | src/acp/controller.rs:168-171 | all pending steers in order, and none left |
| `Controller.ExecutionController.Note` | src/acp/controller.rs:197-200 | the note joins the end of its own queue |
| `Controller.ExecutionController.DrainNotices` | src/acp/controller.rs:203-206 | all pending notes in order, and none left |
| `Sessions.OwnStepKeepsOk` | src/acp/session.rs:507-577 | every step of a session keeps finished, current and queued requests equal to the dispatched ones, and its mail within the current turn |
| `Sessions.StepTouchesOneSession` | src/acp/session.rs:224-471 | no step, control commands included, changes any session but the one it names |
| `Sessions.StepOnItsSession` | src/acp/session.rs:189-221 | what each step makes of its own session |
| `Sessions.StepKeepsInv` | src/acp/session.rs:189-577 | every step of router and actors keeps the invariant of the whole |
| `Sessions.EveryRunKeepsInv` | src/acp/session.rs:189-577 | so does every interleaving |
| `Sessions.DispatchOrder` | src/acp/session.rs:189-221 | in every reachable state each session has finished, is running and has queued exactly what was dispatched to it, in order; an ended actor has finished it all |
| `Sessions.SessionsDoWhatIsDispatched` | src/acp/session.rs:189-221 | told by the actions of a run: what was dispatched to a session is what it has finished, works on and has queued, in order |
| `Sessions.RouterTakesWork` | src/acp/session.rs:189-221 | a routing router takes any new request for a session with room among its 256 places and any control command for one not resetting, whose run state follows the command |
| `Sessions.ShutdownMeans` | src/acp/session.rs:443-456 | the shutdown visits every session, cancels it and queues the stop order last |
| `Sessions.TurnIsBracketed` | src/acp/session.rs:529-568 | an execution is begun and answered only from a reset that has wiped both mailboxes, and is answered with its own request |
| `Sessions.EveryTurnStartsIdle` | src/acp/session.rs:529-558 | over every run a session that resets is idle |
| `Sessions.CancelledTurn` | src/acp/session.rs:443-456 | a cancelled turn stays cancelled until its reset, whatever others do, unless it is stepped |
| `Sessions.HeardInItsOwnTurn` | src/acp/session.rs:529-558 | whatever a turn hears was said during that very turn |
| `Sessions.SaidIsHeardOrWaits` | src/acp/session.rs:529-558 | a steer or note said to a session at work is heard, or still waits, until the reset that ends the turn |
| `Sessions.CurrentIsNew` | src/acp/session.rs:558-568 | a request about to be answered has not been answered before |
| `Sessions.AnswersOverRuns` | src/acp/session.rs:507-577 | over every run answers are without repetition and are exactly the refused and the finished requests |
| `Sessions.AnsweredAtMostOnce` | src/acp/session.rs:507-577 | the same from the start |
| `Sessions.ActorHasAStep` | src/acp/session.rs:443-471 | after shutdown an actor that has not ended always has a step, which brings it nearer its end |
| `Sessions.ShutdownCompletes` | src/acp/session.rs:443-577 | so each actor can end by its own steps, having finished everything dispatched before |
| `Sessions.StepUsesUpWork` | src/acp/session.rs:507-577 | after shutdown each own step of an actor uses up its work, and no other step adds to it |
| `Sessions.EveryRunShutsDown` | src/acp/session.rs:443-577 | in every run after shutdown an actor takes at most as many own steps as it has work, its next step is enabled until it ends, and when it ends it has finished everything dispatched |
| `Sessions.RouterGetsDown` | src/acp/session.rs:443-471 | from every reachable state of a shutdown the router gets down by its own and the actors' steps alone, past locks and full queues |
| `Attachments.PathOfParts` | src/attachments.rs:104-128 | a 64-digit hex name passes validation and is split into its path without loss |
| `Attachments.ValidDigestIff` | src/attachments.rs:114-128 | exactly `sha256:` with 64 hex digits of either case is a digest, and any other reference is refused |
| `Attachments.StoringIsSound` | src/attachments.rs:169-207 | storing keeps every object named by its content's digest and changes no other file |
| `Attachments.OpensIffHeld` | src/attachments.rs:233-236 | a reference to a payload opens to it if and only if its object is there and is that payload |
| `Attachments.PresentIsReadable` | src/attachments.rs:233-236 | in a sound store an object found under a payload's digest is that payload, unless a payload in the store collides with it |
| `Attachments.StoreThenOpen` | src/attachments.rs:169-236 | what was stored is what is opened if and only if no other payload's object stood in its place; so in a sound store without a collision |
| `Attachments.CollisionOpensTheOther` | src/attachments.rs:177-179 | of two payloads with one digest the second opens to the first |
| `Attachments.DigestIsFound` | src/attachments.rs:431-439 | a well-formed digest is found wherever it stands in a text |
| `Attachments.RenderedDigestIsFound` | src/attachments.rs:240-245 | the digest of a rendered marker line is found whatever surrounds it |
| `Attachments.DigestsExact` | src/attachments.rs:431-439 | the digests of a text are exactly the well-formed digests standing somewhere in it |
| `Attachments.RefLineDetermines` | src/attachments.rs:240-245 | a marker line determines digest, type and size |
| `Attachments.RefLineIsOneMarker` | src/attachments.rs:240-245 | it begins as the parser expects and is one line |
| `Attachments.PrefixesDoNotOverlap` | src/attachments.rs:431-439 | searching on behind a prefix misses no occurrence |
| `Attachments.ExtractDigests` | src/attachments.rs:431-439 | the scanning loop adds exactly the digests written in the text |
| `Attachments.ScanMembers` | src/attachments.rs:431-439 | a digest is scanned if and only if some text holds it |
| `Attachments.KeepsScanned` | src/attachments.rs:484-523 | a scanned object stays and the store stays sound |
| `Attachments.CollectorKeepsReferenced` | src/attachments.rs:459-523 | an object with a marker line in any persisted text opens to the held bytes after the collection, whatever the digest function |
| `Attachments.CollectorRemovesUnreferenced` | src/attachments.rs:484-523 | a deletable object whose digest is in no text is gone |
| `Attachments.CollectorAsDocumentedIff` | src/attachments.rs:452-458 | the collector deletes what is documented if and only if all it can delete are well-named objects and temporary files |
| `Attachments.CollectorDeletesForeignFile` | src/attachments.rs:505-521 | a foreign file that is deleted against the documentation |
| `Attachments.LiveReferenceSurvives` | src/attachments.rs:169-523 | once held and persisted, no later store, text or collection breaks the reference, whatever the digest function |
| `Attachments.EveryRunIsSound` | src/attachments.rs:169-523 | over every run objects stay named by their digest, and the store holds only what it held and what was stored |
| `Attachments.ReferenceNeverBreaks` | src/attachments.rs:169-523 | after any events: store, persist a text with the marker line before the next collection, and whatever follows the reference opens to the payload, unless a payload stored earlier collides with it |
| `Attachments.UnpersistedObjectIsCollected` | src/attachments.rs:459-523 | an object collected before its reference is persisted is lost |
| `Attachments.AttachmentStore.StoreBytes` | src/attachments.rs:169-207 | the files and the reference after storing, and when it fails |
| `Attachments.AttachmentStore.GcUnreferenced` | src/attachments.rs:459-481 | the files left, and the counts of removed files, reclaimed bytes and kept files |
| `Attachments.AttachmentStore.SweepPrefixDir` | src/attachments.rs:484-523 | one directory swept with its counts, the others untouched |

## Left out

- Real file systems, JSON, I/O failures other than those named in the model, and two paths for one file: files are maps.
- Several checkpoint sessions and `escape_session_id`, which is not injective: the model is one session.
- Checkpoint listing order, and manifests that cannot be read.
- Writes that bypass `capture`: the model's writes are all captured.
- `poll_all`, `topics` and `subscribers` of the bus: loops over `poll` and plain lookups.
- The text of summaries: `Context.ConversationContext.Summarize` and `Compressor.CompressSummarize` take it as a parameter, and the provider call of `compact_with_llm` is an optional reply.
- f32 arithmetic, thresholds, `needs_compression` and statistics of the compressor: `len * 0.25` is taken as `len/4`.
- DiskBudget.SessionBudget.AddItem: does not model overflow of `usize`; sizes are unbounded.
- CostGuard.LiveGuard.RecordUsage: does not model `u64` overflow; each operation reads its clocks once, lower-casing of model names is ASCII only, and threads inside one operation are the subject of `CostGuardThreads`, which leaves out `clear_and_rebase` and `reset_exceeded`.
- CostGuardThreads.EveryRunIsSafe: takes the atomic accesses as interleaved in one order, where the source uses acquire and release on separate atomics; weaker orders are not modelled.
- `DiskBudgetManager` and its global statistics: a map of the budgets modelled here.
- `ExecutionController::check_and_wait`, `wait_until_resumed` and `steer_notified`: they register and re-check under separate locks, so no wake-up claim is made; the iteration counter is only reset.
- Sessions.EveryRunShutsDown: leaves the scheduler out, so it says that an unfinished actor can always go on and how far, not that it is scheduled; panicking agents, a receiver that dropped its reply channel, subagents, status queries and recovery are not modelled.
- Attachments.AttachmentStore.GcUnreferenced: does not model unreadable directories or the removal of empty ones; a store racing with a collection is ordered before or after it.
- `materialize_history`, `degrade_refs` and `parse_ref_line`: the image side of attachments.
- `ArtifactStore`, `GroupSessionManager`, iteration budgets, caches, the planner, the daemon, the desktop shell and the clients: not part of this model.
