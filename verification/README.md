# Verification of the durable core

Models of the parts of roj that must not lose, repeat or mix up state, with proofs in Dafny 4.11. Run
`dafny verify dfyconfig.toml` to check them.

- **Alarm scheduler** (`AlarmRows`, `AlarmModel`, `AlarmScheduler`, `AlarmOverlap`). Many keyed wakes share one
  alarm slot. Rows survive a crash; the slot is written asynchronously; what the isolate believes about it is volatile.
  A synchronous frame is one atomic step, and any step may run between the start and the end of a slot write.
- **SQLite logs** (`EventTable`, `EventStore`, `EventPages`, `TextOrder`, `SkipScan`, `LlmPayloads`,
  `LlmCallLog`). Tables are maps, transactions are all or nothing, loops over rows are loops.
- **Projections and poller** (`Projections`, `AgentForest`, `Poller`). Two reducers over one event stream, the
  forest built from one of them, and the client store that applies batches as replies arrive.
- **Small protocols** (`ServerLifecycle`, `ServerStartup`, `SendBuffer`, `Mounts`, `SignedToken`,
  `ConnectionManager`).

A class stands for an object that the program updates in place; each of its methods is one synchronous frame
and is proved equal to a step of the module's state machine, and the results over whole runs are lemmas about
that machine. The pure parts are functions and lemmas.

Where the code does something other than its comments or a reader may expect, the model follows the code:

- A completed inference does not lower the tree's mailbox count: the entry read before the decrement is
  written over it (`Projections.CompletionKeepsMailboxCount`, with a run in `ConsumedMessageStaysCounted`).
- A conversation splice reaches only the detail projection (`Projections.SpliceSeparates`); exactly which
  events and runs keep the two in step is `Projections.InStepExactly` and `RunInStepExactly`.
- A wake that is drained while an older delivery of its key is open is dropped when the older one succeeds
  (`AlarmModel.OverlapDropsNewerWake`, with a run in `AlarmOverlap.OverlapIsReachable`); the retry row is shared
  by all deliveries of a key.
- A poll or load reply that meets a store that has moved on is applied all the same, and polls may overlap, since
  the interval timer starts one whether or not another is out. `Poller.CoherentExactly` says exactly when a run
  is harmed; `Poller.OverlappingPollsRepeat` and `PollAcrossLoadRepeats` are runs that hold an event twice. The
  guard against polling while a load is out is `packages/debug/src/providers/EventPollingProvider.tsx:44-55`.
- A limit below one makes the events call report the end of the log as its cursor (`EventPages.CursorExactly`).
- An agent whose parent was never spawned, or that a repeated spawn puts on a cycle, is in the tree projection
  but not in the forest (`AgentForest.ForestHoldsEachOnce`, `RespawnHidesAgents`).
- A startup takes a single clean-up failure apart when it is itself a clean-up error
  (`ServerStartup.ErrorsListed`).
- A signature has several texts, as decoding ignores spare bits (`SignedToken.SecondSignatureText`).
- A direct send can overtake the buffer when a socket throws once and recovers, or closes during the flush
  (`SendBuffer.OrderExactly`, `OneThrowReorders`, `CloseMidFlushReorders`).
- Nested mounts that lead to different places do not translate back (`Mounts.RealRoundTripExactly`, `DefaultReturnsExactly`).
- A connection pruned while it was down stays unindexed for the sessions it holds
  (`ConnectionManager.PrunedStaysSilent`).

## Model

| member | source | states |
|---|---|---|
| AlarmModel.NoLostWake | packages/isolate-runtime/src/alarm-scheduler.ts:164-228 | over every run with crashes, boots, failed writes, thrown and overlapping deliveries, a key that is kept (a wake or a retry row) stays kept until a frame takes its last row |
| AlarmModel.LossExactly | packages/isolate-runtime/src/alarm-scheduler.ts:173-207 | one frame loses a kept key if and only if it is an unsuspended cancel of a key with a wake row and no retry row, or a successful delivery of a key with a retry row and no wake row |
| AlarmModel.SlotCoverage | packages/isolate-runtime/src/alarm-scheduler.ts:132-162 | over every run, whenever no write is queued or running, the last one did not fail and no alarm awaits its drain, the durable slot is at or before every durable row |
| AlarmModel.WriteCovers | packages/isolate-runtime/src/alarm-scheduler.ts:140-149 | whatever runs meanwhile, fires and queued writes included, a slot write that succeeds leaves the slot at or before every row as the rows stood when the write began |
| AlarmModel.FlushRestores | packages/isolate-runtime/src/alarm-scheduler.ts:210-219 | when the awaited write of a flush or of a re-arm returns with no alarm awaiting its drain and nothing queued behind it, the slot covers every row, also after earlier failed writes |
| AlarmModel.BootRecovers | packages/isolate-runtime/src/alarm-scheduler.ts:95-99 | a boot over any rows and any slot can settle by at most one write, and then the slot is exactly the earliest row; whatever else runs first, SlotCoverage holds of the settled state |
| AlarmModel.BootDetermined | packages/isolate-runtime/src/alarm-scheduler.ts:95-99 | the rows determine what a boot loads |
| AlarmModel.LoadTimes | packages/isolate-runtime/src/alarm-scheduler.ts:96-99 | for any rows there is a map that mirrors exactly the numeric rows under a prefix, so a boot is always possible |
| AlarmModel.EarliestExists | packages/isolate-runtime/src/alarm-scheduler.ts:132-138 | the earliest time of two maps always exists, undefined exactly for two empty maps |
| AlarmModel.EarliestUnique | packages/isolate-runtime/src/alarm-scheduler.ts:132-138 | the earliest time does not depend on the order in which the maps are read |
| AlarmModel.RunInv | packages/isolate-runtime/src/alarm-scheduler.ts:118-228 | every reachable state has maps equal to rows under both prefixes, and a belief and a write target that cover the rows whenever nothing newer is queued |
| AlarmModel.InvStep | packages/isolate-runtime/src/alarm-scheduler.ts:140-228 | each synchronous frame, slot write start, slot write end, fire, crash and boot keeps that invariant |
| AlarmModel.WakeKeeps | packages/isolate-runtime/src/alarm-scheduler.ts:165-177 | an unsuspended wake leaves its key kept; a suspended wake or cancel changes nothing at all |
| AlarmModel.CancelSpares | packages/isolate-runtime/src/alarm-scheduler.ts:173-177 | a cancel leaves every retry row, its own key included, and every wake row of another key |
| AlarmModel.DrainExactly | packages/isolate-runtime/src/alarm-scheduler.ts:184-190 | a drain moves each key due in either map to a retry row at the retry time and no other key; every remaining wake is beyond the cutoff; a time within the cutoff remains exactly when something was due and the retry time is within the cutoff |
| AlarmModel.DrainProgress | packages/isolate-runtime/src/alarm-scheduler.ts:92 | with a retry delay above the 10 ms slack and a clock that does not go back, whatever the slot is re-armed for lies strictly beyond the cutoff |
| AlarmModel.MoveDueMeaning | packages/isolate-runtime/src/alarm-scheduler.ts:187-190 | the drain loop, over any due list and any tables, as a statement about keys and times before and after |
| AlarmModel.OverlapDropsNewerWake | packages/isolate-runtime/src/alarm-scheduler.ts:187-201 | a wake drained while an older delivery of its key is open loses its last row when that older delivery succeeds, before its own drain dispatched anything |
| AlarmOverlap.OverlapIsReachable | packages/isolate-runtime/src/alarm-scheduler.ts:187-201 | for every key there is a run, from an empty storage, that ends with its second wake drained, not dispatched, and without a row |
| AlarmRows.PrefixesDisjoint | packages/isolate-runtime/src/alarm-scheduler.ts:83-84 | no row name is under both prefixes |
| AlarmRows.SetMirrors | packages/isolate-runtime/src/alarm-scheduler.ts:102-105 | setting a time and putting its row keeps the map equal to the numeric rows under its prefix |
| AlarmRows.DeleteMirrors | packages/isolate-runtime/src/alarm-scheduler.ts:106-111 | so does dropping a time and deleting its row |
| AlarmRows.OtherMirrors | packages/isolate-runtime/src/alarm-scheduler.ts:82-84 | a change under one prefix leaves the map of the other prefix exact |
| AlarmRows.PersistedTimes.constructor | packages/isolate-runtime/src/alarm-scheduler.ts:95-99 | the loading loop yields exactly the numeric rows under the prefix and skips values of other types |
| AlarmRows.PersistedTimes.Delete | packages/isolate-runtime/src/alarm-scheduler.ts:106-111 | true exactly for a held key, whose time and row both go; otherwise nothing changes |
| AlarmRows.PersistedTimes.DueBy | packages/isolate-runtime/src/alarm-scheduler.ts:112-114 | each key at or before the cutoff, once |
| AlarmScheduler.Scheduler.constructor | packages/isolate-runtime/src/alarm-scheduler.ts:118-162 | a new scheduler over any storage is the boot step of the model, its re-arm queued exactly when a row exists |
| AlarmScheduler.Scheduler.Earliest | packages/isolate-runtime/src/alarm-scheduler.ts:132-138 | the earliest time of both maps |
| AlarmScheduler.Scheduler.ApplyAlarm | packages/isolate-runtime/src/alarm-scheduler.ts:140-145 | a queued write takes its target from the maps as they stand when it runs, and writes nothing when the belief already equals it |
| AlarmScheduler.Scheduler.EndWrite | packages/isolate-runtime/src/alarm-scheduler.ts:143-145 | success sets slot and belief together, failure neither |
| AlarmScheduler.Scheduler.WakeKey | packages/isolate-runtime/src/alarm-scheduler.ts:165-171 | the wake step of the model, a negative delay counted as zero |
| AlarmScheduler.Scheduler.CancelKey | packages/isolate-runtime/src/alarm-scheduler.ts:173-177 | the cancel step of the model |
| AlarmScheduler.Scheduler.DeliverDue | packages/isolate-runtime/src/alarm-scheduler.ts:179-194 | the drain frame of the model for exactly the keys due by the cutoff, each once |
| AlarmScheduler.Scheduler.MoveAll | packages/isolate-runtime/src/alarm-scheduler.ts:187-190 | the loop over the due keys refines the recursive move of the model, maps and rows alike |
| AlarmScheduler.Scheduler.DispatchAll | packages/isolate-runtime/src/alarm-scheduler.ts:197-200 | every due key is handed over once, in order |
| AlarmScheduler.Scheduler.EndDelivery | packages/isolate-runtime/src/alarm-scheduler.ts:199-204 | the retry row goes only after a delivery that did not throw |
| AlarmScheduler.Scheduler.EndBatch | packages/isolate-runtime/src/alarm-scheduler.ts:206 | a non-empty batch queues one reconcile at its end, an empty one none |
| AlarmScheduler.Scheduler.Flush | packages/isolate-runtime/src/alarm-scheduler.ts:210-219 | over a settled tail, a write is queued exactly when the belief is not the earliest time |
| AlarmScheduler.EarlierOf | packages/isolate-runtime/src/alarm-scheduler.ts:133-136 | the loop for a minimum over any order of values |
| AlarmScheduler.Merge | packages/isolate-runtime/src/alarm-scheduler.ts:185 | the union of two due lists without duplicates |
| EventStore.GapFreeLog | packages/kompjutr-platform/src/event-store.ts:58-89 | over every interleaving of calls, failing transactions and deletes, each session is numbered exactly 0..n-1 and holds exactly what replaying its committed calls, in call order, says |
| EventStore.OneAtATime | packages/kompjutr-platform/src/event-store.ts:219-230 | of two calls of one session the later has not started until the tail of the earlier has settled |
| EventStore.NeverBlocked | packages/kompjutr-platform/src/event-store.ts:222-227 | whatever failed before, the earliest outstanding call of a session always has an enabled step that brings it nearer its end |
| EventStore.TailsOnlyWhileOutstanding | packages/kompjutr-platform/src/event-store.ts:223-228 | the tail map has an entry for a session if and only if a call of it is outstanding |
| EventStore.TransactionEffect | packages/kompjutr-platform/src/event-store.ts:66-78 | a failed transaction changes no row; a committed one appends its events in order or empties the session; every other session keeps its rows |
| EventStore.RunInv | packages/kompjutr-platform/src/event-store.ts:219-230 | the chain, serial, tail, commit-order and log invariants hold in every reachable state |
| EventStore.InvStep | packages/kompjutr-platform/src/event-store.ts:58-230 | each of enqueue, start, finish and clear keeps them |
| EventStore.Store.Serialized | packages/kompjutr-platform/src/event-store.ts:219-230 | a call chains behind the present tail of its session and becomes the tail |
| EventStore.Store.DoAppendBatch | packages/kompjutr-platform/src/event-store.ts:58-61 | an empty batch is no call at all |
| EventStore.Store.RunTask | packages/kompjutr-platform/src/event-store.ts:61-78 | the synchronous part of a task is one start step of the model, broken exactly when its transaction fails |
| EventStore.Store.ClearTail | packages/kompjutr-platform/src/event-store.ts:223-227 | a tail takes its map entry out only while it still is the tail |
| EventTable.AppendMeaning | packages/kompjutr-platform/src/event-store.ts:67-73 | rows numbered from the last index on extend the log by the batch, in order, and leave other sessions alone |
| EventTable.DeleteMeaning | packages/kompjutr-platform/src/event-store.ts:170-174 | the delete empties one log and leaves the others |
| EventTable.LastSeqOfLog | packages/kompjutr-platform/src/event-store.ts:209-211 | the last index of a gap-free log of n events is n-1, so -1 without events |
| EventTable.ChunkFits | packages/kompjutr-platform/src/event-store.ts:68-73 | each chunk meets no taken number and extends what the earlier chunks wrote |
| EventTable.SplitRows | packages/kompjutr-platform/src/event-store.ts:68-72 | writing a batch in two consecutive pieces is writing it whole |
| EventTable.LogUnique | packages/kompjutr-platform/src/event-store.ts:91-94 | a table determines the log of a session |
| EventTable.Database.LastSeq | packages/kompjutr-platform/src/event-store.ts:209-211 | the maximum of the numbers of a session in any table, -1 for none |
| EventTable.Database.Insert | packages/kompjutr-platform/src/event-store.ts:72 | refused, with no change, when the host fails, when more than 100 parameters would be bound or when a number is taken; otherwise all rows land |
| EventTable.Database.AppendBatch | packages/kompjutr-platform/src/event-store.ts:66-74 | with 33 rows a statement the transaction fails only through the host, and then changes nothing; otherwise the whole batch is appended |
| EventTable.Database.DeleteSession | packages/kompjutr-platform/src/event-store.ts:170-177 | rows and metadata of the session go, and the count is the length of its log |
| EventTable.LoadRangeIsPage | packages/kompjutr-platform/src/event-store.ts:96-120 | over a gap-free table any result of the query yields the page of the log after `since`, clamped limits and the empty page included |
| EventTable.PagesMeet | packages/kompjutr-platform/src/event-store.ts:108-119 | following the reported index, a reader meets every event once, and an empty page exactly at the end |
| EventPages.CursorExactly | packages/sdk/src/plugins/session-lifecycle/plugin.ts:338-373 | for any filter, nothing between `since` and the reported cursor is skipped or repeated if and only if the page size is at least one or nothing is left to match |
| EventPages.CursorMeets | packages/sdk/src/plugins/session-lifecycle/plugin.ts:338-373 | with a page size of at least one the page is exactly the matches up to its cursor, truncated pages included, and the cursor moves until the end of the log |
| EventPages.NoLimitReadsNothing | packages/sdk/src/plugins/session-lifecycle/plugin.ts:345-371 | a limit below one yields an empty page and a cursor at the end of the log |
| EventPages.UnfilteredIsPage | packages/sdk/src/plugins/session-lifecycle/plugin.ts:338-373 | without filter and offset the reply is the page of the log, for a poll and for a first load |
| EventPages.MatchedPrefix | packages/sdk/src/plugins/session-lifecycle/plugin.ts:356-365 | the first n matches are the matches up to the absolute index of the n-th |
| EventTable.QueryIndex | packages/kompjutr-platform/src/event-store.ts:100-106 | the i-th row of the query carries the i-th number after `since` |
| SkipScan.SkipScanIsDistinct | packages/kompjutr-platform/src/event-store.ts:141-148 | the recursive seek yields every id of the table once, in ascending order |
| SkipScan.ListSessionsMeaning | packages/kompjutr-platform/src/event-store.ts:139-155 | the list is ascending and holds a session if and only if an event or a metadata row names it |
| SkipScan.SeekFrom | packages/kompjutr-platform/src/event-store.ts:143-147 | from one id the seek goes on through exactly the greater ids, in order |
| SkipScan.AscendingUnique | packages/kompjutr-platform/src/event-store.ts:148-151 | given ids have one ascending list |
| SkipScan.SortedIdsMeaning | packages/kompjutr-platform/src/event-store.ts:151 | the reference list is ascending and holds exactly the ids |
| LlmCallLog.CallLog.Complete | packages/kompjutr-platform/src/llm-call-log.ts:107-133 | in either format the named call keeps its request half, creation time and retried flag and takes the outcome, becomes chunked, and every other call reads as before; an unknown call changes nothing |
| LlmCallLog.CompleteEffect | packages/kompjutr-platform/src/llm-call-log.ts:115-131 | the abstract effect is the same for a legacy and a chunked record, and soundness is kept |
| LlmCallLog.OneCompleted | packages/kompjutr-platform/src/llm-call-log.ts:116-122 | a completed record has all seven payloads and reads back as the completed row |
| LlmCallLog.CallLog.MoveRequest | packages/kompjutr-platform/src/llm-call-log.ts:116-121 | a legacy record moves its request half to payloads and blanks its columns, a chunked one is left as it is |
| LlmCallLog.CallLog.CompleteAt | packages/kompjutr-platform/src/llm-call-log.ts:115-131 | records and payloads after the statements of one completion |
| LlmCallLog.CallLog.ToRow | packages/kompjutr-platform/src/llm-call-log.ts:164-182 | every reachable record reads back, in either format, as its abstract row |
| LlmCallLog.CallLog.Get | packages/kompjutr-platform/src/llm-call-log.ts:159-162 | the abstract row of the call, or null exactly when the session has no such call |
| LlmCallLog.CallLog.Create | packages/kompjutr-platform/src/llm-call-log.ts:85-105 | refused without a change for an id the session holds; otherwise the row reads back as given and each call of the session survives exactly when its id is among the cap greatest; other sessions keep all |
| LlmCallLog.InsertEffect | packages/kompjutr-platform/src/llm-call-log.ts:87-102 | the inserted row reads back as given and no other row changes |
| LlmCallLog.CallLog.WriteRequest | packages/kompjutr-platform/src/llm-call-log.ts:184-188 | three payloads replaced, the others kept |
| LlmCallLog.CallLog.WriteOutcome | packages/kompjutr-platform/src/llm-call-log.ts:190-195 | four payloads replaced, the others kept |
| LlmCallLog.CallLog.Trim | packages/kompjutr-platform/src/llm-call-log.ts:197-206 | a call of the session survives if and only if fewer than the cap of its ids are greater; a cap of zero or less keeps all; the kept rows read as before |
| LlmCallLog.ThresholdIsRetention | packages/kompjutr-platform/src/llm-call-log.ts:199-205 | being below the id at offset cap-1 is the same as not being among the cap greatest, also when there is no such offset |
| LlmCallLog.RetentionSize | packages/kompjutr-platform/src/llm-call-log.ts:197-206 | the retained ids are as many as the smaller of cap and total, and every dropped id is below every kept one |
| LlmCallLog.AtOffset | packages/kompjutr-platform/src/llm-call-log.ts:201 | the id with exactly `offset` greater ids, or none |
| LlmCallLog.CallLog.Delete | packages/kompjutr-platform/src/llm-call-log.ts:151-157 | exactly the calls of the session go, with their payloads, and are counted |
| LlmCallLog.CallLog.DeleteCalls | packages/kompjutr-platform/src/llm-call-payloads.ts:36-39 | after a deletion of several calls no payload survives its call and every other call reads as before |
| LlmPayloads.ReadBytes | packages/kompjutr-platform/src/llm-call-payloads.ts:72-91 | over arbitrary stored cells the checks pass if and only if the rows record some value: the 256 KiB split of a non-empty byte string, or the recorded absence; the result is that value |
| LlmPayloads.FillBytes | packages/kompjutr-platform/src/llm-call-payloads.ts:83-91 | the copying loop succeeds exactly when every chunk has its index, type and length, and then each chunk is the piece at its place |
| LlmPayloads.SplitUnique | packages/kompjutr-platform/src/llm-call-payloads.ts:83-91 | chunks determine the bytes |
| LlmPayloads.InsertNext | packages/kompjutr-platform/src/llm-call-payloads.ts:55-62 | the next insert in key order extends the split |
| LlmPayloads.Payloads.Write | packages/kompjutr-platform/src/llm-call-payloads.ts:42-64 | the field holds the new value whatever it held before, longer or shorter, and every other key keeps its rows |
| LlmPayloads.Payloads.Read | packages/kompjutr-platform/src/llm-call-payloads.ts:66-94 | reading gives back what was written, absence included, and fails for a key never written |
| LlmPayloads.Payloads.DeleteCall | packages/kompjutr-platform/src/llm-call-payloads.ts:36-39 | exactly the payloads of the call go |
| Projections.ProjectionsHoldSameAgents | packages/shared/src/projections/agent-tree-projection.ts:42-198 | on every event sequence tree and detail hold the same agents with equal parent, cost and definition |
| Projections.InStepExactly | packages/shared/src/projections/agent-detail-projection.ts:274-484 | one event keeps status and pending count equal if and only if the count can follow it: a result that removes one call (or finds none), a splice only of an idle agent |
| Projections.RunInStepExactly | packages/shared/src/projections/agent-detail-projection.ts:120-484 | both projections are in step throughout a run if and only if every event in it is followable |
| Projections.DisciplinedRunsAgree | packages/shared/src/projections/agent-tree-projection.ts:75-135 | with distinct call ids, results that name a pending call and no splice, both agree on status and the tree count is the number of pending calls |
| Projections.ToolCallsConserved | packages/shared/src/projections/agent-detail-projection.ts:176-355 | pending calls and pending results of an agent together are the call ids of its last completed inference, each once, until a splice clears both |
| Projections.ResultPartitions | packages/shared/src/projections/agent-detail-projection.ts:274-337 | a result moves one id from the calls to the results |
| Projections.StreaksCountFailures | packages/shared/src/projections/agent-detail-projection.ts:299-352 | on every event sequence a streak counts the failures of the tool, by the name the reducer resolves, since the later of its last success and the last reset |
| Projections.CountersFollowAgents | packages/shared/src/projections/agent-detail-projection.ts:139-153 | counters exist for exactly the agents |
| Projections.SpliceSeparates | packages/shared/src/projections/agent-detail-projection.ts:468-484 | after a splice of an open tool turn the tree still shows a tool turn, the detail an idle agent |
| Projections.CompletionKeepsMailboxCount | packages/shared/src/projections/agent-tree-projection.ts:81-93 | a completed inference leaves the mailbox count as it was, contrary to its comment, so the count is right only if nothing was consumed or nothing was there |
| Projections.ConsumedMessageStaysCounted | packages/shared/src/projections/agent-tree-projection.ts:81-93 | a run of three events after which a consumed message is still counted |
| Projections.WithoutOne | packages/shared/src/projections/agent-detail-projection.ts:277 | with distinct ids, filtering one out removes exactly one call |
| AgentForest.ForestPlaced | packages/shared/src/projections/agent-tree-projection.ts:217-239 | every node is built from its own entry, under its own parent, siblings in spawn order |
| AgentForest.ForestHoldsEachOnce | packages/shared/src/projections/agent-tree-projection.ts:217-239 | for any listed tree, cycles and unknown parents included, the forest holds exactly the agents whose parent chain ends at a null parent, each once |
| AgentForest.RunsAreListed | packages/shared/src/projections/agent-tree-projection.ts:42-198 | every event sequence yields a tree with each agent listed once, so the builder is defined and the recursion ends |
| AgentForest.FreshRunsAreRooted | packages/shared/src/projections/agent-tree-projection.ts:44-57 | with fresh ids and null or already spawned parents every agent has such a chain, and map order is spawn order |
| AgentForest.RespawnHidesAgents | packages/shared/src/projections/agent-tree-projection.ts:44-57 | a root spawned again under its own child takes both out of the forest |
| AgentForest.CountNode | packages/shared/src/projections/agent-tree-projection.ts:223-227 | a subtree holds an agent once if its top is on the chain of that agent, and not at all otherwise |
| AgentForest.ChildrenPlaced | packages/shared/src/projections/agent-tree-projection.ts:224-226 | the children of a node are its agents, in order, and so below |
| Poller.CoherentExactly | packages/debug/src/stores/event-store.ts:200-381 | with any number of overlapping loads, polls, resets and session switches, the store is coherent throughout a run if and only if every reply in it is harmless: a poll reply meets the index it asked from, brings nothing or is for another session; a load reply is stale, brings events or meets an empty store |
| Poller.IncrementalEqualsBatch | packages/debug/src/stores/event-store.ts:200-362 | when every reply so far is harmless, a loaded store is the log up to its last index, nothing skipped or repeated, and every projection and cached view is the fold over it |
| Poller.OrderlyRunsAgree | packages/debug/src/stores/event-store.ts:200-362 | a client that polls one at a time, not while a load is out, and takes no poll of its session across a load or a reset, meets harmless replies only |
| Poller.PollReplyExactly | packages/debug/src/stores/event-store.ts:287-357 | a reply to a poll of the current session leaves the store coherent if and only if the last index did not move meanwhile or the reply is empty |
| Poller.LoadReplyExactly | packages/debug/src/stores/event-store.ts:230-263 | a reply to the newest load leaves the store coherent if and only if it brings events or the store is still empty |
| Poller.CoherentStep | packages/debug/src/stores/event-store.ts:200-381 | one step of any kind leaves the store coherent if and only if it is harmless |
| Poller.OverlappingPollsRepeat | packages/debug/src/stores/event-store.ts:275-357 | a run with two polls at once whose store holds the new event twice |
| Poller.PollAcrossLoadRepeats | packages/debug/src/stores/event-store.ts:200-357 | a run with a poll answered after a second load of its session, with the same result |
| Poller.PageAfter | packages/kompjutr-platform/src/event-store.ts:96-120 | a page taken at any later length of the log continues exactly at `since` |
| Poller.FoldAppend | packages/debug/src/stores/event-store.ts:345-348 | applying new events to old projections is applying all events |
| Poller.Store.ApplyAll | packages/debug/src/stores/event-store.ts:249-252 | the loop is the fold |
| Poller.Store.EndLoad | packages/debug/src/stores/event-store.ts:225-263 | a superseded reply changes nothing; otherwise the reply replaces the store, or is refused without its creation event |
| Poller.Store.EndPoll | packages/debug/src/stores/event-store.ts:287-357 | the frame after a poll reply, all four outcomes |
| ServerLifecycle.CleanupOrder | packages/sdk/src/bun-platform/server-lifecycle.ts:68-147 | over every run ingress is stopped once, the captured stage is cancelled exactly when it can be, clean-up steps start in list order, each once, one at a time, and only after ingress, cancellation and captured stage have settled |
| ServerLifecycle.CleanupOutcome | packages/sdk/src/bun-platform/server-lifecycle.ts:91-114 | a finished clean-up ran every step and its outcome is the ordered list of ingress, cancellation and step failures: none resolves, one is rethrown, several are thrown together |
| ServerLifecycle.ShutdownIsFinal | packages/sdk/src/bun-platform/server-lifecycle.ts:117-121 | after the first call later calls and stages change nothing: no stage is admitted, the captured stage and the outcome stay |
| ServerLifecycle.FailureNeverSkips | packages/sdk/src/bun-platform/server-lifecycle.ts:106-112 | a failing clean-up step is followed by the same next step as a successful one |
| ServerLifecycle.CleanupProgress | packages/sdk/src/bun-platform/server-lifecycle.ts:91-112 | once everything it waits for has settled, an unfinished clean-up can always go on |
| ServerLifecycle.InvStep | packages/sdk/src/bun-platform/server-lifecycle.ts:68-147 | every frame keeps the protocol invariant |
| ServerLifecycle.FinishCleanup | packages/sdk/src/bun-platform/server-lifecycle.ts:73-114 | the loop over the steps ends with the classified list of all failures in order |
| ServerLifecycle.RunServerStartup | packages/sdk/src/bun-platform/server-lifecycle.ts:183-202 | given the results of stages and shutdown: no stage runs once shutdown began; the startup fails exactly then or when a stage failed; an error during shutdown is reported as the interruption, followed by the clean-up errors |
| ServerStartup.StartupExactly | packages/sdk/src/bun-platform/server-lifecycle.ts:183-202 | over every run of a startup beside its lifecycle, signals included, a startup that is over ended as that loop says, whatever the stages that did not run would have done |
| ServerStartup.FailedStartupCleansUp | packages/sdk/src/bun-platform/server-lifecycle.ts:189-201 | a failed startup has joined a complete clean-up: every step ran, and what it throws carries the classified failures of all of it |
| ServerStartup.ErrorsListed | packages/sdk/src/bun-platform/server-lifecycle.ts:193-200 | the errors behind the reported one are all clean-up failures in order if and only if there are several or the only one is not itself a clean-up error, which is taken apart |
| ServerStartup.MoveInv | packages/sdk/src/bun-platform/server-lifecycle.ts:183-202 | every move of the startup and of its lifecycle keeps the joint invariant |
| ServerLifecycle.Lifecycle.RunStage | packages/sdk/src/bun-platform/server-lifecycle.ts:169-174 | a stage is refused once shutdown began, otherwise it becomes the active one |
| ServerLifecycle.Lifecycle.EndStage | packages/sdk/src/bun-platform/server-lifecycle.ts:175-179 | a settled stage clears the active slot only while it still is the active one |
| ServerLifecycle.Lifecycle.Shutdown | packages/sdk/src/bun-platform/server-lifecycle.ts:117-147 | the first call captures the active stage, stops ingress and cancels; every other call does nothing |
| ServerLifecycle.Lifecycle.Resume | packages/sdk/src/bun-platform/server-lifecycle.ts:91-106 | the continuation behind each of the three awaits |
| ServerLifecycle.Lifecycle.StepSettles | packages/sdk/src/bun-platform/server-lifecycle.ts:106-114 | the continuation behind a clean-up step, with the classification behind the last one |
| SendBuffer.Conservation | packages/transport/src/core/connection.ts:106-151 | whatever the sockets answer, the buffer holds at most 500 messages, the message of each call is in exactly one of sent, buffered, dropped and cleared, and each drop is reported by a drain or still counted |
| SendBuffer.CountsAddUp | packages/transport/src/core/connection.ts:106-147 | without a clear, sent + buffered + dropped = calls |
| SendBuffer.StickyKeepsOrder | packages/transport/src/core/connection.ts:117-147 | when a socket that throws or closes throws from then on until reopened, messages are sent in call order, the buffer is always the latest calls, and every drop is older than all of it |
| SendBuffer.OrderExactly | packages/transport/src/core/connection.ts:117-147 | for any sockets a run is in order throughout if and only if no call finds its socket accepting behind a flush that stopped short |
| SendBuffer.StepOrdered | packages/transport/src/core/connection.ts:122-130 | one call or flush breaks the order exactly then |
| SendBuffer.OneThrowReorders | packages/transport/src/core/connection.ts:138-143 | a socket that throws once and recovers sends the second message before the first |
| SendBuffer.CloseMidFlushReorders | packages/transport/src/core/connection.ts:122-130 | a socket that closes during the flush and does not throw on the direct send reorders as well, because the state is not checked again |
| SendBuffer.SendOutcome | packages/transport/src/core/connection.ts:117-130 | true means the message was handed over, false that it is the newest in the buffer |
| SendBuffer.Connection.Buffer | packages/transport/src/core/connection.ts:106-115 | at 500 messages the oldest is dropped and counted, then the message is added |
| SendBuffer.Connection.FlushSendBuffer | packages/transport/src/core/connection.ts:132-147 | the loop refines the recursive flush; a message that throws goes back to the front; an empty buffer reports and resets the count |
| SendBuffer.Connection.Send | packages/transport/src/core/connection.ts:117-130 | the send step of the model and its answer |
| Mounts.SuffixIsRest | packages/kompjutr-platform/src/mounts.ts:54-58 | the character test yields a suffix if and only if the segments of the root start those of the path, and the suffix is the rest; the root path included |
| Mounts.JoinIsConcat | packages/kompjutr-platform/src/mounts.ts:60-63 | joining a suffix appends its segments |
| Mounts.RenderInjective | packages/kompjutr-platform/src/mounts.ts:27-34 | a canonical path has one list of segments |
| Mounts.ToRealExactly | packages/kompjutr-platform/src/mounts.ts:28-34 | the first mount above the path decides, and there is no result exactly when no mount is above it |
| Mounts.ToVirtualExactly | packages/kompjutr-platform/src/mounts.ts:37-45 | a preferred mount that shows the path decides, else the mount with the longest source, the earliest of several; no result exactly when none shows it |
| Mounts.NarrowestIsDeepest | packages/kompjutr-platform/src/mounts.ts:36 | the source used lies under every other source that shows the path |
| Mounts.ByLengthSorts | packages/kompjutr-platform/src/mounts.ts:38 | the sorted candidates are the mounts, by descending source length |
| Mounts.VirtualRoundTrip | packages/kompjutr-platform/src/mounts.ts:28-45 | for any mounts, coming back through the mount that was used undoes `toReal` |
| Mounts.RealRoundTripExactly | packages/kompjutr-platform/src/mounts.ts:28-45 | `toReal` undoes every way out if and only if any two mounts, one under the other, lead to the same place where both apply |
| Mounts.RealRoundTrip | packages/kompjutr-platform/src/mounts.ts:28-45 | when no mount path lies under another, `toReal` undoes `toVirtual`, with or without a preference |
| Mounts.DefaultReturnsExactly | packages/kompjutr-platform/src/mounts.ts:28-45 | without a preference a path comes back if and only if the first mount above its virtual path, the one through the narrowest source, leads there |
| Mounts.NestedMountLosesItsWay | packages/kompjutr-platform/src/mounts.ts:28-45 | a mount inside an earlier one that leads elsewhere is not undone |
| Mounts.WritableExactly | packages/kompjutr-platform/src/mounts.ts:48-50 | writable if and only if the source of a read-write mount is at or above the path |
| SignedToken.DecodeUndoesEncode | packages/standalone-server/src/signed-token.ts:61-68 | decode undoes encode for every byte string |
| SignedToken.PaddingRestored | packages/standalone-server/src/signed-token.ts:65-67 | for every length the stripped padding is the one computed back, and n bytes take 4n/3 digits rounded up |
| SignedToken.EncodingsAre | packages/standalone-server/src/signed-token.ts:61-68 | a text is the encoding of some bytes if and only if it is url digits, not one digit over, with no bits left over; and then it encodes what it decodes to |
| SignedToken.EncodeInjective | packages/standalone-server/src/signed-token.ts:61-63 | different bytes have different encodings |
| SignedToken.NoDot | packages/standalone-server/src/signed-token.ts:24-26 | an encoded body contains neither a dot nor padding |
| SignedToken.SignedVerifies | packages/standalone-server/src/signed-token.ts:23-55 | a signed token verifies to its payload if and only if its expiry is not before now, and is expired otherwise |
| SignedToken.ForeignSignature | packages/standalone-server/src/signed-token.ts:39-43 | a body with some signature is refused for it if and only if that is not the signature of this body under this secret |
| SignedToken.AcceptedIsSigned | packages/standalone-server/src/signed-token.ts:33-55 | every accepted token is a dotless body, a dot and a text that decodes to the signature of the body, yields what the body says, unexpired; and a signature text that is an encoding is that of the body, letter for letter |
| SignedToken.SecondSignatureText | packages/standalone-server/src/signed-token.ts:39-43 | unless a signature has a multiple of three bytes, a second text of it, no encoding, is accepted as well |
| SignedToken.DotAt | packages/standalone-server/src/signed-token.ts:34-37 | the split is at the first dot |
| ConnectionManager.IndexExactly | packages/transport/src/server/connection-manager.ts:55-206 | in every reachable state no session has an empty set, and a pair is indexed if and only if the connection is live, holds the session, and no lookup of the session found it indexed but down since it last subscribed |
| ConnectionManager.PrunedExactly | packages/transport/src/server/connection-manager.ts:148-172 | a held pair is missing from the index exactly because of such a lookup in its history |
| ConnectionManager.AlwaysUpExactly | packages/transport/src/server/server-connection.ts:78-94 | a connection that never went down is indexed for exactly the sessions it holds |
| ConnectionManager.CleanupExactly | packages/transport/src/server/connection-manager.ts:269-280 | clean-up leaves exactly the connections that are up, with exactly their index entries |
| ConnectionManager.PurgeExactly | packages/transport/src/server/connection-manager.ts:62-72 | nothing of a removed connection is left, and no other connection loses anything |
| ConnectionManager.SubscriptionEffect | packages/transport/src/server/connection-manager.ts:116-143 | subscribe and unsubscribe take effect for their pair and touch no other |
| ConnectionManager.UnindexedExactly | packages/transport/src/server/connection-manager.ts:289-297 | one pair leaves the index, and a session without connections leaves the map |
| ConnectionManager.PrunedStaysSilent | packages/transport/src/server/connection-manager.ts:148-172 | a connection that drops, is pruned and comes back holds a session it is not found for, until it subscribes again |
| ConnectionManager.InvStep | packages/transport/src/server/connection-manager.ts:55-280 | every operation keeps the index invariant |
| ConnectionManager.Manager.Remove | packages/transport/src/server/connection-manager.ts:62-72 | the loop over its sessions and the deletion refine the removal step; an unknown id changes nothing |
| ConnectionManager.Manager.Subscribe | packages/transport/src/server/connection-manager.ts:116-130 | both halves of the index gain the pair; an unknown id is refused |
| ConnectionManager.Manager.Unsubscribe | packages/transport/src/server/connection-manager.ts:135-143 | both halves lose the pair; an unknown id is refused |
| ConnectionManager.Manager.UnsubscribeInternal | packages/transport/src/server/connection-manager.ts:289-297 | the pair leaves the index only |
| ConnectionManager.Manager.GetSubscribers | packages/transport/src/server/connection-manager.ts:148-172 | each connected subscriber once; dead ones leave the index |
| ConnectionManager.Manager.Broadcast | packages/transport/src/server/connection-manager.ts:195-206 | each connected subscriber is offered the message once, and the count is of those that take it |
| ConnectionManager.Manager.Cleanup | packages/transport/src/server/connection-manager.ts:269-280 | removing while walking removes exactly the connections that are down, and counts them |

## Left out

- AlarmModel.FlushRestores: says nothing while an alarm that has fired awaits its drain, when the slot is empty by design, or while a later row change has a write of its own queued; WriteCovers holds in both cases.
- AlarmModel.BootRecovers: shows one continuation of a boot, the one in which its write succeeds; SlotCoverage is the statement about every continuation.
- AlarmScheduler: storage `sync`, `waitUntil`, `stats` and the clock; times are integers, and both readings of the clock in a drain are parameters.
- EventStore: metadata contents and the effect of a metadata write; a task that fails in it behaves as one that succeeds.
- EventStore.GapFreeLog: tables are gap-free to begin with, as every table these operations made is; a hand-edited table is not covered.
- EventTable.Database.AppendBatch: the log of the session is a ghost parameter that names what the table holds.
- SkipScan: SQLite's binary text order is the order of characters.
- LlmPayloads: UTF-8 and JSON are a pair of functions that undo each other; texts longer than 2^53-1 bytes are excluded.
- LlmCallLog: `list` and its paging, stored status strings outside the three known ones, non-numeric cells in the call table, `maxBlobBytes`; the row id of a new call is any unused one.
- LlmCallLog.CallLog.Complete: the legacy request half must be encodable, as every stored text is.
- Projections: conversation history, pending messages, skills, mailbox contents, pause reasons, timestamps and call inputs; costs are exact reals.
- Poller: the derived views are named by the projections they are computed from; polling intervals and idle detection.
- EventPages: the results for a non-zero offset, which only calls without `since` may pass; the type and agent tests are one filter.
- ServerLifecycle: signal listeners, `shutdownFromSignal`, and the identity of error objects.
- ServerLifecycle.RunServerStartup: takes the result of each stage and of the shutdown as given; ServerStartup ties it to the lifecycle.
- SendBuffer: log output, the parse and routing of messages, reconnection; a message is named by the number of its call.
- Mounts: `posix.resolve` and `realpath` in the constructor; mounts and paths are canonical when they get here.
- SignedToken: the decoding of text that is not base64, HMAC and JSON are parameters; spare bits of a last digit are ignored, as section 3.5 of RFC 4648 allows; key generation.
- ConnectionManager: `clear` as an operation of the object, `getStats`, `broadcastToAll`, client types and topic subscriptions of the socket; subscriptions change only through the manager.
- Map iteration order, where it does not show in a result: the loops take rows and keys in any order.
- React user interface, REST and RPC clients, HTTP routes, process and git wrappers: I/O over libraries that are not part of this model.
- Metrics, session info, service, timeline and chat projections, session manager and agent loop: they would add easy members or belong to other components.
