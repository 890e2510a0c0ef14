# ContextAgent: a verified model of its stateful kernels

ContextAgent keeps and serves context for LLM agents. Its network edges are thin; what can go
wrong over a whole run sits in a few small kernels. This project models those kernels in Dafny and
proves what they guarantee over every interleaving, every run or every input.

| file | component |
|---|---|
| `AsyncProcessor.dfy`, `AsyncCalls.dfy`, `AsyncDrain.dfy` | the memory queue: bounded FIFO, workers, sentinel drain; what the workers ask of the services behind them; progress of the drain |
| `JitCache.dfy`, `JitCacheRuns.dfy`, `JitReferences.dfy` | the resolver's TTL and capacity cache, its ideal, and its runs in terms of references and tool results |
| `VersionStore.dfy`, `VersionListing.dfy`, `VersionSteps.dfy` | snapshots in an object store with a local fallback; whose versions a listing shows; creates and deletes that overlap |
| `WorkingMemory.dfy`, `WorkingMemoryRuns.dfy`, `NoteJournals.dfy` | session notes, items and use counts; each note as a journal of its own |
| `TieredRouter.dfy`, `TieredUsage.dfy` | hot, warm and cold recall under one latency budget; the hot tier under interleaved usage calls and warmings |
| `KvPipeline.dfy` | the key-value batch that runs its writes first |
| `ConfigMerge.dfy`, `ConfigOrigins.dfy` | non-destructive configuration upgrades; where each merged value comes from |
| `Messages.dfy`, `Rendering.dfy`, `Ingestion.dfy`, `OpenClaw.dfy` | `[role] ` wrapping, storing, reading and rendering; the OpenClaw endpoints |
| `Aggregator.dfy`, `Truncation.dfy`, `Compression.dfy`, `CompressionLaws.dfy` | filter, deduplicate, rank and budget; the truncation loops; strategies, schedule and router |
| `RankFusion.dfy` | reciprocal rank fusion |
| `AlertEngine.dfy` | alert cooldowns |
| `Collector.dfy`, `CollectorPace.dfy`, `CollectorLists.dfy` | the batching metrics worker; how often it flushes and wakes; the same with its batches as shared lists |
| `ContextModels.dfy`, `PyCollections.dfy` | shared data; Python's `dict`, slices and stable `sorted` |

Objects that update their fields are classes whose methods are proved equal to a specification
function of the old state; loops are loops. Coroutines whose interleaving matters (the memory queue,
the collector, the usage calls on the shared hot tier, creates and deletes of versions) are step machines: a step is one stretch of
code between two suspension points, and a run is any admissible sequence of steps. The resolver's
cache and the in-process stores are touched without suspending, so there a step is one such access.
The theorems about runs are lemmas over the specification functions.

Idealisations: floats are `real`; clocks never go back; text is `seq<char>`; JSON and database
encodings are invertible, so a stored text is the value it encodes; a wait with a timeout ends by
its deadline; an object store call that fails has no effect there. Answers of other services,
generated ids and clock readings are parameters.

Findings, where the code differs from what its documentation suggests:

- `merge_preserving_existing` replaces, and even drops, an existing top-level key without reporting
  it (`ConfigMerge.ReplacedSilently`, `ConfigMerge.DroppedSilently`); it reports every change exactly
  when each replaced key the user has is in the template with the same value
  (`ConfigMerge.UpgradeReportsEverythingIff`).
- `record_usage` on the shared cache reads and writes in two calls: overlapping calls lose uses, and
  one that overlaps a warming puts older items back (`TieredUsage.OverlappingUsesLoseOne`,
  `TieredUsage.StaleUseUndoesWarming`); `TieredUsage.EveryUseCountsIff` says when every use counts.
- A pipelined read sees writes that come after it in the batch (`KvPipeline.ReadSeesLaterWrite`);
  `KvPipeline.PipelineRefinesOrderIffSteady` says exactly when that shows.
- With an object store configured, `restore` never answers "not found": a missing version is
  reported as an unavailable store (`VersionStore.RestoreIsExact`). While a delete waits for the object
  store, its version is still listed and can no longer be restored (`VersionSteps.ListedButGone`,
  `VersionSteps.ListedIsRestorableIff`).
- Items shorter than four characters count no tokens, so an aggregated snapshot can total zero and
  still be truncated (`Compression.TinyItemsAreDropped`); `Compression.NothingIsLostIff` gives the exact
  condition. In the same way `/compact` cuts short messages that count as within the limit, without
  saying so (`OpenClaw.ShortConversationIsCut`); `OpenClaw.CompactionKeepsAllIff` gives its condition.
- `/compact` asks for the compaction strategy, but a conversation over its limit always goes to the
  realtime strategy first (`OpenClaw.OverflowGoesToRealtime`).
- `_deduplicate` is documented as working by content hash; it works by item id, so one text under two
  ids is kept twice (`Aggregator.EqualContentsAreBothKept`).
- Keys join scope and session with a colon: a session id that holds one shares its key with a session
  of another scope (`ContextModels.ScopedKeyCollides`), and `mark_used` then fails or writes elsewhere
  (`WorkingMemory.MarkingIsExactIff`, `WorkingMemory.StrayMarkFails`), or counts on the other session's
  items (`WorkingMemoryRuns.ForeignUseCounts`, `WorkingMemoryRuns.OwnUsesCountIff`). In the same way a
  version is listed for a session it is not of (`VersionListing.ForeignVersionIsListed`), a tool result
  with a colon in its cache key is handed to another scope (`JitReferences.ForeignToolIsFound`), and
  operations named with a colon share an alert's cooldown across scopes (`AlertEngine.AlertsCollide`).
- A forced dotted path also overwrites a key that is itself spelled with dots
  (`ConfigOrigins.DottedKeyIsForced`); between keys without dots a dotted path names one place
  (`ConfigOrigins.ShownInjective`).
- A language model that only repeats the truncation is marked degraded by two of the strategies and not
  by the others (`CompressionLaws.EchoIsFoundOutIff`).

`dafny verify dfyconfig.toml` checks the whole project.

## Model

| member | source | states |
|---|---|---|
| AsyncProcessor.RunKeepsInv | context_agent/core/memory/async_processor.py:84-223 | every interleaving of start, stop, enqueue and the workers keeps the whole invariant: FIFO order, conservation of tasks, one event per finished task, sentinel balance, queue bound |
| AsyncProcessor.AcceptedTasksAreAccountedFor | context_agent/core/memory/async_processor.py:103-208 | in every reachable state the accepted tasks are, as a multiset, those queued, in a worker's hands or done, taken FIFO; the queue stays within its bound; no event goes out without its answer, and the events of a task are exactly one for each time it is done or about to be marked done by the worker that announced it |
| AsyncProcessor.SentinelsMatchWorkers | context_agent/core/memory/async_processor.py:94-100 | throughout stop(), sentinels still to put plus sentinels queued equal the workers alive |
| AsyncProcessor.StopDrainsTheQueue | context_agent/core/memory/async_processor.py:94-138 | when stop() returns all workers have ended and no sentinel is left; exactly the tasks accepted before the last sentinel went in are done, each with one event carrying its outcome; later ones are still queued in order |
| AsyncCalls.RunKeepsCalls | context_agent/core/memory/async_processor.py:84-206 | every interleaving keeps what the calls below rest on: who is asked what, once per task, and how many workers there are |
| AsyncCalls.CallsCarryTheirMessages | context_agent/core/memory/async_processor.py:140-174 | a worker waiting on the long-term memory has sent the task's own messages when there is no checker or the task is no add, and otherwise the replacement its own checker call brought, or the task's own if it brought none |
| AsyncCalls.EveryTaskIsSentOnce | context_agent/core/memory/async_processor.py:140-182 | over the whole history: calls no checker has a say in carry their task's messages, the adds sent are one by one what the checker's answers ask for, and each task done was sent exactly once, conflict checks never |
| AsyncCalls.StopHasSentEverything | context_agent/core/memory/async_processor.py:94-196 | when stop() returns, each task accepted before the last sentinel has been sent as often as accepted, and the hot tier refreshed after exactly the adds that succeeded |
| AsyncCalls.RunningIsStaffed | context_agent/core/memory/async_processor.py:84-118 | while running all workers are there and alive; start and stop are possible while no stop is under way; a task is refused exactly when a bounded queue is as long as its bound |
| AsyncDrain.StopIsNeverStuck | context_agent/core/memory/async_processor.py:94-138 | in every reachable stopping state, for any queue bound, some worker or stop() itself can step |
| AsyncDrain.InternalStepDescends | context_agent/core/memory/async_processor.py:94-208 | each step of a worker or of stop() strictly lowers a measure over pending sentinels, queue and work in flight |
| AsyncDrain.DrainIsBounded | context_agent/core/memory/async_processor.py:94-208 | with no new calls a drain takes at most as many steps as the measure |
| AsyncDrain.EveryMaximalDrainReturns | context_agent/core/memory/async_processor.py:94-208 | liveness: a drain run until nothing can move ends with stop() returned |
| JitCache.PruningCutsOldest | context_agent/core/context/jit_resolver.py:253-270 | pruning keeps as many unexpired entries as fit, untouched, and drops none written later than one it keeps |
| JitCache.TrimmedIsNewest | context_agent/core/context/jit_resolver.py:261-270 | a dropped entry was written no later than any kept one |
| JitCache.TrimmedSize | context_agent/core/context/jit_resolver.py:261-270 | the overflow cut leaves exactly min(limit, size) entries |
| JitCache.JitKeyInjective | context_agent/core/context/jit_resolver.py:205-219 | no two references share an entry |
| JitCache.ToolKeyInjective | context_agent/core/context/jit_resolver.py:193-200 | tool results whose cache keys hold no colon share no entry |
| JitCache.ToolKeyCollides | context_agent/core/context/jit_resolver.py:193-200 | a cache key with a colon does share its entry with a key of another scope |
| JitCache.LocalCache.Prune | context_agent/core/context/jit_resolver.py:253-270 | the two in-place loops compute the pruning whose properties are proved above |
| JitCache.LocalCache.Get | context_agent/core/context/jit_resolver.py:232-241 | a lookup hands out exactly the entry surviving the pruning; its own expiry check never fires |
| JitCache.LocalCache.Set | context_agent/core/context/jit_resolver.py:243-251 | the new cache is the pruned one with the entry stamped now, pruned again |
| JitCache.LocalCache.StoreToolResult | context_agent/core/context/jit_resolver.py:185-201 | an absent or zero TTL becomes the configured one; otherwise a Set under the tool key |
| JitCache.LocalCache.ResolveToolResult | context_agent/core/context/jit_resolver.py:165-184 | a reference to a tool result is answered with the item under its scope and key, if a lookup still finds it |
| JitCache.LocalCache.StartResolve | context_agent/core/context/jit_resolver.py:64-84 | up to the retriever: an expired reference gives nothing and touches nothing; otherwise the cache is pruned, and the retriever is asked exactly when no entry is visible |
| JitCache.LocalCache.FinishResolve | context_agent/core/context/jit_resolver.py:84-97 | the answer is written over whatever the cache holds by then; a retriever that raises leaves the cache alone |
| JitCacheRuns.RunIsFaithful | context_agent/core/context/jit_resolver.py:232-270 | after any run every cached entry is the last write of its key, and there are never more than the limit |
| JitCacheRuns.LookupsAreFresh | context_agent/core/context/jit_resolver.py:29-36 | with mixed TTLs a lookup never serves an overwritten or over-age value |
| JitCacheRuns.EvictionLeavesNewer | context_agent/core/context/jit_resolver.py:243-270 | a write evicts an unexpired entry only when max_entries others at least as recent remain |
| JitCacheRuns.CutIsRank | context_agent/core/context/jit_resolver.py:261-270 | with write times apart, being kept is the same as having fewer than max newer keys |
| JitCacheRuns.WriteAgrees | context_agent/core/context/jit_resolver.py:243-270 | one write keeps the cache equal to the unbounded ideal cut to its newest unexpired keys |
| JitCacheRuns.CacheEqualsIdeal | context_agent/core/context/jit_resolver.py:232-270 | with one TTL and write times apart a lookup sees exactly the max_entries most recently written keys whose last write is younger than the TTL, each with its last value |
| JitCacheRuns.WrittenIsFound | context_agent/core/context/jit_resolver.py:232-270 | with any mix of TTLs and the writes before strictly earlier, a written value is found until it is as old as its TTL, its key is written again, or as many other writes as the limit have come |
| JitCacheRuns.OtherWritesOnlyEvict | context_agent/core/context/jit_resolver.py:232-270 | a write changes what another key finds only by evicting it |
| JitReferences.CallsAreOps | context_agent/core/context/jit_resolver.py:64-251 | a run of resolutions and tool results is a run of reads and writes of their keys |
| JitReferences.ReferencesSeeTheirOwn | context_agent/core/context/jit_resolver.py:64-97 | over any run a resolution is handed only the last items fetched for that very reference, and only while younger than the TTL |
| JitReferences.FetchedIsFound | context_agent/core/context/jit_resolver.py:64-97 | the retriever is not asked again: what was fetched after every store before it is found for the whole TTL, unless newer items were fetched for that reference or as many other stores as the limit have come |
| JitReferences.OtherReferencesOnlyEvict | context_agent/core/context/jit_resolver.py:84-97 | a finished resolution changes what another reference finds only by evicting it |
| JitReferences.ToolResultsOnlyEvict | context_agent/core/context/jit_resolver.py:185-270 | so does a stored tool result |
| JitReferences.ToolsSeeTheirOwn | context_agent/core/context/jit_resolver.py:165-201 | when its key is not shared, a tool reference finds nothing or the very item last stored under its scope and key, younger than its own TTL |
| JitReferences.StoredToolIsFound | context_agent/core/context/jit_resolver.py:165-201 | and it does find it for that long, if stored after every store before it and while fewer than the limit of others have come |
| JitReferences.ForeignToolIsFound | context_agent/core/context/jit_resolver.py:165-201 | a result stored by scope `a:b` under `c` is handed to scope `a` asking for `b:c` |
| VersionStore.ContextVersionManager.CreateSnapshot | context_agent/core/context/version_manager.py:41-73 | the data goes to the object store, or to the local fallback when the call fails, and the record to the end of its context's list |
| VersionStore.ContextVersionManager.Restore | context_agent/core/context/version_manager.py:75-90 | object store first, then the fallback, else the error the code raises |
| VersionStore.ContextVersionManager.ListVersions | context_agent/core/context/version_manager.py:92-101 | the context's records, newest first, cut to the limit |
| VersionStore.ContextVersionManager.DeleteVersion | context_agent/core/context/version_manager.py:103-119 | a failing object store leaves everything as it was; otherwise data and records of that id are gone and nothing else changes |
| VersionStore.StoreMatchesIdeal | context_agent/core/context/version_manager.py:41-158 | under any pattern of object store failures, each live version's data sits in exactly one place and it is listed once, under its own context, with the record made at its creation; nothing else is stored or listed |
| VersionStore.RestoreIsExact | context_agent/core/context/version_manager.py:75-90 | restore succeeds exactly for live versions whose data is local or whose object store call works, and returns exactly the snapshot saved |
| VersionStore.DeletedIsGone | context_agent/core/context/version_manager.py:103-119 | after a successful delete a version is neither listed nor restorable, right away and after any later calls |
| VersionStore.ListingIsExact | context_agent/core/context/version_manager.py:92-101 | a listing with room enough shows each live version of the context exactly once, with the record of its create call, newest first |
| VersionStore.SameMomentKeepsOrder | context_agent/core/context/version_manager.py:92-101 | records made at the same moment are listed in the order they were made |
| VersionListing.ListingShowsTheSession | context_agent/core/context/version_manager.py:41-119 | when its context is not shared, a listing with room enough shows a version, once, if and only if a create call saved a snapshot of that very scope and session under it and no delete has succeeded since, described as that call was given |
| VersionListing.ColonFreeContexts | context_agent/core/context/version_manager.py:47-49 | without colons in session ids no context is shared |
| VersionListing.ListingKeepsNewest | context_agent/core/context/version_manager.py:92-101 | without room a listing shows as many as the limit and leaves out none newer than one it shows |
| VersionListing.ForeignVersionIsListed | context_agent/core/context/version_manager.py:47-101 | a version of session `c` of scope `a:b` is listed for session `b:c` of scope `a` |
| VersionSteps.CallsAreTheirSteps | context_agent/core/context/version_manager.py:41-119 | a create or delete that nothing overlaps does what the one-step operation does |
| VersionSteps.RunKeepsInv | context_agent/core/context/version_manager.py:41-135 | every interleaving of creates and deletes keeps the index exact and every stored snapshot in one place, as it was saved, and listed or about to be |
| VersionSteps.ListedIsRestorableIff | context_agent/core/context/version_manager.py:75-158 | in every interleaving a restore gives the snapshot saved or an error; a listed version can be restored, the object store working, if and only if no delete of it is waiting or its data is local |
| VersionSteps.AtRestListedIsStored | context_agent/core/context/version_manager.py:41-135 | with no call in flight exactly the listed versions are stored, each in one place |
| VersionSteps.DeletedIsGone | context_agent/core/context/version_manager.py:103-119 | once a delete has finished, no step of any other call, begun before or after, lists or restores the version again |
| VersionSteps.ListedButGone | context_agent/core/context/version_manager.py:103-119 | a delete in flight: the version is listed and cannot be restored |
| ContextModels.ScopedKeyInjective | context_agent/core/memory/working_memory.py:37-41 | sessions whose ids hold no colon never share a key |
| ContextModels.ScopedKeyCollides | context_agent/core/memory/working_memory.py:37-41 | a session id with a colon does share its key with a session of another scope |
| WorkingMemory.WorkingMemoryManager.CreateNote | context_agent/core/memory/working_memory.py:43-72 | refused exactly when the live notes reach the limit; otherwise stored under its session |
| WorkingMemory.WorkingMemoryManager.ListNotes | context_agent/core/memory/working_memory.py:96-126 | exactly the live notes of the kind asked for, each once, oldest first |
| WorkingMemory.WorkingMemoryManager.GetNote | context_agent/core/memory/working_memory.py:74-94 | the note stored, expired or not, else not found |
| WorkingMemory.WorkingMemoryManager.UpdateNote | context_agent/core/memory/working_memory.py:128-153 | only that note's content changes, by the updates given; a missing note changes nothing |
| WorkingMemory.WorkingMemoryManager.DeleteNote | context_agent/core/memory/working_memory.py:155-169 | removes that note and no other |
| WorkingMemory.WorkingMemoryManager.ClearSession | context_agent/core/memory/working_memory.py:171-188 | removes the notes and the items of the session and nothing else |
| WorkingMemory.WorkingMemoryManager.Write | context_agent/core/memory/working_memory.py:190-206 | stores the item under its id and session |
| WorkingMemory.WorkingMemoryManager.MarkItems | context_agent/core/memory/working_memory.py:266-272 | writing back item by item equals one simultaneous bump of exactly the named items, and the number returned is how many they are |
| WorkingMemory.WorkingMemoryManager.MarkNotes | context_agent/core/memory/working_memory.py:274-281 | the loop over the listed notes, each written back under the session it names, ending at the first not found there |
| WorkingMemory.WorkingMemoryManager.MarkUsed | context_agent/core/memory/working_memory.py:251-282 | exactly the named items gain one use, duplicates counting once; the notes and the number returned are those of that loop, for any session id |
| WorkingMemory.MarkingIsExactIff | context_agent/core/memory/working_memory.py:274-281 | marking bumps exactly the live notes named and counts them if and only if each of them was made in this very session, not in another that shares its key |
| WorkingMemory.ColonFreeIsAtHome | context_agent/core/memory/working_memory.py:37-41 | without colons in session ids every note is in its own session |
| WorkingMemory.StrayMarkFails | context_agent/core/memory/working_memory.py:274-281 | a note of session `c` in scope `a:b`, marked through session `b:c` of scope `a`: the call fails |
| WorkingMemory.ListingIds | context_agent/core/memory/working_memory.py:96-118 | the ids of a listing are distinct and are exactly the live ones |
| WorkingMemory.SameMomentKeepsOrder | context_agent/core/memory/working_memory.py:108-118 | notes made at the same moment are listed in the order they were filed |
| WorkingMemoryRuns.NotesStayWithinLimit | context_agent/core/memory/working_memory.py:43-72 | over any run with a clock that never goes back, colons or not, no session has more live notes than the limit |
| WorkingMemoryRuns.SessionsNeverInterfere | context_agent/core/memory/working_memory.py:37-282 | when no two sessions of a run share a key, what a session holds afterwards is what its own calls alone would have left |
| WorkingMemoryRuns.ColonFreeShareNoKeys | context_agent/core/memory/working_memory.py:37-41 | sessions whose ids hold no colon are such sessions |
| WorkingMemoryRuns.ItemsFollowCounters | context_agent/core/memory/working_memory.py:190-272 | in every run, colons or not, each store key holds each item as an independent counter of the calls on that key would |
| WorkingMemoryRuns.UseCountIsWrittenPlusMarks | context_agent/core/memory/working_memory.py:190-272 | in every run, colons or not, an item's active_count is its written value plus the later mark_used calls on its key naming it |
| WorkingMemoryRuns.OwnUsesCountIff | context_agent/core/memory/working_memory.py:190-272 | it is the written value plus the later calls of its own session naming it if and only if every later call on its key naming it is of that very session |
| WorkingMemoryRuns.OwnUsesCount | context_agent/core/memory/working_memory.py:190-272 | so it is whenever no two sessions share a key |
| WorkingMemoryRuns.ForeignUseCounts | context_agent/core/memory/working_memory.py:251-272 | an item of session `c` in scope `a:b` gains a use from a call on session `b:c` of scope `a` |
| WorkingMemoryRuns.MarkCountsChanges | context_agent/core/memory/working_memory.py:251-282 | the items and notes that ought to be marked are exactly the records that differ once they are |
| WorkingMemoryRuns.NumberReturnedIsChanges | context_agent/core/memory/working_memory.py:251-282 | when every note named was made in this very session, mark_used returns the number of item and note records that differ afterwards |
| NoteJournals.NotesFollowJournals | context_agent/core/memory/working_memory.py:43-282 | when no two sessions share a key, after any run every note reads as its own journal says: created below the limit, updated, deleted, cleared, and marked while live |
| NoteJournals.ListedUntilExpiry | context_agent/core/memory/working_memory.py:108-118 | a note is listed exactly until its expiry, and only when the kind asked for is its own |
| NoteJournals.RevisedIsUpdate | context_agent/core/memory/working_memory.py:128-153 | an update sets the entries given and leaves the other entries and fields alone |
| TieredRouter.TieredMemoryRouter.HotSearch | context_agent/core/memory/tiered_router.py:207-235 | the first k visible entries, all VARIABLE, if the cache answers within its timeout; else nothing |
| TieredRouter.TieredMemoryRouter.Search | context_agent/core/memory/tiered_router.py:136-312 | results are the first k of hot, warm and cold in that order; a lower tier is asked exactly while short of k with budget left; the three latencies together stay within max(latency budget, hot timeout) |
| TieredRouter.TieredMemoryRouter.WarmCache | context_agent/core/memory/tiered_router.py:237-257 | stores the VARIABLE items only, and leaves the cache alone when there are none or the call fails |
| TieredRouter.TieredMemoryRouter.ReadUsage | context_agent/core/memory/tiered_router.py:326-349 | a usage call up to its cache write: the valid entry read with exactly the named items bumped, or nothing when none is named |
| TieredRouter.TieredMemoryRouter.WriteUsage | context_agent/core/memory/tiered_router.py:349-354 | the rest of it: that entry replaces whatever the cache holds by then, with a new deadline |
| TieredRouter.AsManyAsAsked | context_agent/core/memory/tiered_router.py:150-205 | the results are the first of what was found, as many as asked for, or as configured when none or zero is asked for |
| TieredRouter.AnswersCountInTime | context_agent/core/memory/tiered_router.py:261-312 | a lower tier contributes its whole answer if it comes within its own timeout and the budget left, and otherwise nothing |
| TieredRouter.WarmedIsFound | context_agent/core/memory/tiered_router.py:207-257 | a warming is found until its TTL, given or configured, is over and not from then on; other scopes are untouched |
| TieredRouter.HotItemsAreVariable | context_agent/core/memory/tiered_router.py:207-235 | whatever others put in the shared cache, a hot search hands out VARIABLE items only, of an unexpired entry that holds no others |
| TieredRouter.UsageReadIs | context_agent/core/memory/tiered_router.py:326-349 | a usage call has something to write exactly when an unexpired VARIABLE entry holds a named item, and then it is that entry with one more use for each item named |
| TieredUsage.RunFollows | context_agent/core/memory/tiered_router.py:237-354 | in every interleaving of warmings and of the reads and writes of usage calls, what the cache holds is determined by the writes made and by which of them each call had read |
| TieredUsage.HotSearchCountsUses | context_agent/core/memory/tiered_router.py:207-354 | in every interleaving a hot search finds VARIABLE items only, the first k of the warming the entry comes from, each count between the warmed one and that plus the usage calls written since that name it |
| TieredUsage.CountIsExactIff | context_agent/core/memory/tiered_router.py:316-354 | one item's count is exact if and only if no write naming it was overwritten by a call that had not read it |
| TieredUsage.NothingLostIffUndisturbed | context_agent/core/memory/tiered_router.py:237-354 | the cache holds the last warming with every use written since if and only if no other write on the scope came between the read and the write of any of those calls |
| TieredUsage.EveryUseCountsIff | context_agent/core/memory/tiered_router.py:207-354 | the counts equal warmed value plus uses since the last warming whenever nothing came between; and only then, unless a call that had read before that warming wrote after it |
| TieredUsage.SerialUsesAllCount | context_agent/core/memory/tiered_router.py:207-354 | usage calls that overlap no other write all count |
| TieredUsage.OverlappingUsesLoseOne | context_agent/core/memory/tiered_router.py:333-354 | two calls that both read before either writes add one use |
| TieredUsage.StaleUseUndoesWarming | context_agent/core/memory/tiered_router.py:237-354 | a call that read before a warming and writes after it puts the older items back |
| KvPipeline.KvStore.Execute | context_agent/adapters/openjiuwen_db_kv_store.py:47-94 | the final table is that of running the batch in order; results line up one per known operation and read the final table |
| KvPipeline.OnlyWritesMatter | context_agent/adapters/openjiuwen_db_kv_store.py:53-66 | running the writes alone gives the table of the whole batch |
| KvPipeline.LookupAfter | context_agent/adapters/openjiuwen_db_kv_store.py:64-66 | after a batch a key holds its last write, or what it held before |
| KvPipeline.AnswersAgree | context_agent/adapters/openjiuwen_db_kv_store.py:84-92 | pipeline and sequential results are equal exactly when each single operation answers alike |
| KvPipeline.PipelineRefinesOrderIffSteady | context_agent/adapters/openjiuwen_db_kv_store.py:47-94 | for every table the results equal the sequential ones if and only if no read of the batch is changed by a later write of its key |
| KvPipeline.NoReadBeforeWriteIsSafe | context_agent/adapters/openjiuwen_db_kv_store.py:47-94 | in particular when no get or exists of a key precedes a set of it |
| KvPipeline.ReadSeesLaterWrite | context_agent/adapters/openjiuwen_db_kv_store.py:47-94 | a get and an exists of an absent key followed by a set of it: in order they find nothing, in the pipeline what is written after them |
| ConfigMerge.MergeMissingValues | context_agent/config/migration.py:58-107 | the recursive loop computes the merge and the set of changes specified key by key |
| ConfigMerge.MergePreservingExisting | context_agent/config/migration.py:110-173 | the same for a whole upgrade with replaced and forced keys |
| ConfigMerge.SettingSurvivesMerge | context_agent/config/migration.py:58-107 | a concrete setting at an unforced path keeps its value through one merge |
| ConfigMerge.SettingSurvivesUpgrade | context_agent/config/migration.py:110-173 | and through one upgrade that does not replace its section |
| ConfigMerge.SettingsSurviveUpgrades | context_agent/config/migration.py:58-173 | and through any sequence of upgrades with arbitrary templates |
| ConfigOrigins.TemplateArrives | context_agent/config/migration.py:58-107 | at a path through unforced sections of both files, the template's value is there and reported as such when the path is forced, missing, or holds a text `${...}` while the template's value is no text beginning with `${` |
| ConfigOrigins.UserValueStays | context_agent/config/migration.py:58-107 | in every other case but two sections the user's value stays |
| ConfigOrigins.PlaceholderIsFilledIff | context_agent/config/migration.py:80-95 | a text `${...}` gives way if and only if the template's value is no text beginning with `${` |
| ConfigOrigins.TemplateArrivesInUpgrade | context_agent/config/migration.py:110-173 | the first of these for a whole upgrade, outside the replaced sections |
| ConfigOrigins.UserValueStaysInUpgrade | context_agent/config/migration.py:110-173 | the second for a whole upgrade |
| ConfigOrigins.ReplacedIsTheTemplate | context_agent/config/migration.py:127-135 | a replaced section is the template's throughout, and reported when the user had none |
| ConfigOrigins.ShownInjective | context_agent/config/migration.py:71 | between keys without dots a dotted path names one place |
| ConfigOrigins.DottedKeyIsForced | context_agent/config/migration.py:71-77 | forcing the path `a.b` overwrites a key spelled `a.b` |
| ConfigMerge.MergeSelf | context_agent/config/migration.py:58-107 | merging a configuration into itself changes nothing |
| ConfigMerge.MergeTwice | context_agent/config/migration.py:58-107 | merging the same template twice is merging it once, forced paths included |
| ConfigMerge.UpgradeIsIdempotent | context_agent/config/migration.py:110-173 | running the same upgrade again changes nothing, forced and replaced keys included |
| ConfigMerge.MergesAgree | context_agent/config/migration.py:58-173 | with no replaced keys both merges give the same mapping and the same reports |
| ConfigMerge.ChangeListIsExact | context_agent/config/migration.py:58-107 | with nothing forced the change list is empty if and only if the merge changed nothing |
| ConfigMerge.ChangesAreReported | context_agent/config/migration.py:58-107 | the merge differs from the user's file only at or beneath reported paths |
| ConfigMerge.UpgradeChangesAreReported | context_agent/config/migration.py:110-173 | so does an upgrade, outside the replaced sections |
| ConfigMerge.UpgradeReportsEverythingIff | context_agent/config/migration.py:110-173 | every change of an upgrade lies at or beneath a reported path if and only if each replaced key the user has is in the template with the very same value |
| ConfigMerge.ReplacedSilently | context_agent/config/migration.py:127-135 | a replaced key takes the template's value and the change list stays empty |
| ConfigMerge.DroppedSilently | context_agent/config/migration.py:168-171 | a replaced key the template lacks is dropped and the change list stays empty |
| Messages.SnapshotToMessages | context_agent/strategies/base.py:44-61 | each item becomes its role and its content without that role's prefix, in order |
| Messages.RenderMessages | context_agent/strategies/base.py:68-78 | the non-blank messages, tagged and stripped, joined by blank lines |
| Rendering.RenderedAlone | context_agent/strategies/base.py:68-78 | one message shows as its stripped content, after its stripped role in brackets if it has one; white space alone shows as nothing |
| Rendering.RenderedInOrder | context_agent/strategies/base.py:68-78 | two conversations render to their texts in that order with a blank line between, unless one has nothing to show |
| Rendering.RawJoinInOrder | context_agent/orchestration/compression_router.py:101-116 | the raw join is the contents in order with blank lines between |
| Rendering.ReadMessage | context_agent/strategies/base.py:44-61 | a message read has its metadata's role, else the source type, else `user`, and the content less that role's prefix |
| Messages.WrapThenSplit | context_agent/api/openclaw_handler.py:65-145 | wrapping and splitting on the first `] ` gives the content back if and only if the role holds no `] ` |
| Messages.IngestMessages | context_agent/core/memory/orchestrator.py:30-130 | stores one item per non-blank message, in order, typed as its metadata asks or as it is classified; sends on as one task exactly the messages to persist; a full queue raises with the items stored |
| Ingestion.LongTermGetsThePersistent | context_agent/core/memory/orchestrator.py:79-125 | long-term memory is sent, in order and tidied, the non-blank messages that are to persist and no others |
| Ingestion.IngestedCarries | context_agent/core/memory/orchestrator.py:43-76 | each non-blank message is stored under its own id as a fresh item with its role, content and what was decided about it |
| Ingestion.RequestedTypeWins | context_agent/core/memory/orchestrator.py:46-60 | a memory type asked for wins over the classifier and brings its own category |
| Messages.IngestedAreStored | context_agent/core/memory/orchestrator.py:43-76 | every stored item carries a tidy role and that role's prefix before a tidy, non-blank content |
| Messages.StoredItemRoundTrip | context_agent/strategies/base.py:45-78 | reading a stored item recovers role and content, even when the content begins with the same prefix, and rendering restores the stored text |
| Messages.StoredItemsRender | context_agent/strategies/base.py:45-78 | a list of stored items renders to the list of their texts |
| Messages.IngestThenRender | context_agent/core/memory/orchestrator.py:43-76 | whatever was ingested renders to exactly the stored texts joined by blank lines |
| Messages.IngestThenRead | context_agent/core/memory/orchestrator.py:43-76 | storing and reading back gives the non-blank messages, tidied, in order |
| OpenClaw.MessagesToItems | context_agent/api/openclaw_handler.py:55-72 | one wrapped item per non-blank message |
| OpenClaw.NonBlankAre | context_agent/api/openclaw_handler.py:55-72 | a message is left out exactly when its content is nothing but white space |
| OpenClaw.WrappedAreFresh | context_agent/api/openclaw_handler.py:55-72 | wrapped items are VARIABLE, detailed, of full score, unused, and carry the given ids and roles |
| OpenClaw.RelayIsExactIff | context_agent/api/openclaw_handler.py:100-148 | the wrap-and-split relay hands every non-blank message on unchanged if and only if no role of theirs holds a `] ` |
| OpenClaw.ConversationSurvivesIngest | context_agent/api/openclaw_handler.py:129-149 | a conversation wrapped, split, stored and read back is the tidied conversation |
| OpenClaw.WrappedItemsReadBack | context_agent/api/openclaw_handler.py:55-72 | reading wrapped items directly gives the non-blank messages, white space included |
| OpenClaw.TruncateToBudget | context_agent/api/openclaw_handler.py:327-337 | the loop keeps the suffix specified and characterised below |
| OpenClaw.FallbackKeepsLongestAffordable | context_agent/api/openclaw_handler.py:327-337 | the fallback keeps the longest suffix whose cost fits the limit, so its estimate stays four tokens a message below it |
| OpenClaw.Compact | context_agent/api/openclaw_handler.py:252-324 | without a working router the token fallback, degraded; otherwise one assistant message holding the routed output of the conversation under the schedule selected |
| OpenClaw.OverflowGoesToRealtime | context_agent/api/openclaw_handler.py:275-301 | a conversation over its limit is cut by the realtime strategy and marked degraded, never compacted |
| OpenClaw.WithinLimitIsLossless | context_agent/api/openclaw_handler.py:275-301 | a conversation that counts some tokens, but no more than its limit, comes back whole, whatever helpers there are |
| OpenClaw.CompactionKeepsAllIff | context_agent/api/openclaw_handler.py:275-301 | with no helper every message is kept if and only if some tokens are counted within the limit; or none are, and the characters fit; or too many are, yet the characters of the non-blank messages fit and the last N reach back to the start; or all are system messages |
| OpenClaw.ShortConversationIsCut | context_agent/api/openclaw_handler.py:275-301 | three three-character messages under a limit of one token: one is kept, and the answer is not marked degraded |
| Truncation.Truncate | context_agent/strategies/qa_strategy.py:103-119 | the loop that inserts behind the system messages keeps them and then the stopping suffix |
| Truncation.FastTruncate | context_agent/strategies/realtime_strategy.py:73-91 | the same over the last N others |
| Truncation.SkipTruncate | context_agent/strategies/compaction_strategy.py:125-139 | the skipping loop keeps the system messages and what fits beside later kept ones |
| Truncation.StopKeepsLongestSuffix | context_agent/strategies/qa_strategy.py:103-119 | stopping keeps the longest suffix that fits: it fits, and nothing longer does |
| Truncation.RecentKeepsLastOfStop | context_agent/strategies/realtime_strategy.py:73-91 | looking at the last N keeps exactly the last min(N, length) of what stopping keeps; N = 0 looks at all |
| Truncation.SkipKeepsWhatFitsBesideLater | context_agent/strategies/long_session_strategy.py:132-145 | a message is kept if and only if it fits beside the kept later ones |
| Truncation.SkipKeepsMoreThanStop | context_agent/strategies/task_strategy.py:94-107 | skipping keeps an order-preserving subsequence that ends with what stopping keeps |
| Truncation.TruncationBound | context_agent/strategies/compaction_strategy.py:125-139 | no loop keeps more characters than max(4 * budget, system characters) |
| Truncation.TruncationIsIdempotent | context_agent/strategies/qa_strategy.py:103-119 | a second application of any of the loops changes nothing |
| Truncation.RenderedLength | context_agent/strategies/base.py:68-78 | rendering adds at most five characters and the role per message |
| Truncation.RenderedTokensBound | context_agent/strategies/base.py:113-136 | if the system messages fit, the token count is at most budget + floor(sum of (role length + 5) / 4) |
| Aggregator.Deduplicate | context_agent/orchestration/context_aggregator.py:247-255 | one copy per id, the first among the best scored |
| Aggregator.ApplyTokenBudget | context_agent/orchestration/context_aggregator.py:257-270 | the longest prefix whose tokens stay within the budget |
| Aggregator.Aggregate | context_agent/orchestration/context_aggregator.py:142-197 | the snapshot is that prefix of the ranking of the deduplicated survivors; exactly the failing or invalid sources are reported degraded |
| Aggregator.ValuesAreDeduplicated | context_agent/orchestration/context_aggregator.py:247-255 | distinct ids, every id covered by a best copy |
| Aggregator.EqualScoresKeepOrder | context_agent/orchestration/context_aggregator.py:167-173 | the deduplicated items stand in the order their ids first appear in, and items of equal score keep it in the ranking |
| Aggregator.EqualAdjustedScoresKeepOrder | context_agent/orchestration/context_aggregator.py:168-173 | with task conditioning, items of equal adjusted score keep their rank by score |
| Aggregator.DistinctItemsStay | context_agent/orchestration/context_aggregator.py:247-255 | items of distinct ids pass deduplication unchanged |
| Aggregator.EqualContentsAreBothKept | context_agent/orchestration/context_aggregator.py:247-255 | one text under two ids is kept twice |
| Aggregator.SurvivingIs | context_agent/orchestration/context_aggregator.py:142-166 | an item survives exactly when a source that answered with a list holds it, its level is no finer than asked for, and its category, if any, is asked for |
| Aggregator.SourcesInOrder | context_agent/orchestration/context_aggregator.py:142-157 | items are gathered, and failing sources named, in the order of the sources |
| Aggregator.RankedScores | context_agent/orchestration/context_aggregator.py:167-173 | each ranked item is the first best-scored surviving copy with its own score, adjusted once if the task asks for it |
| Aggregator.TokensAreQuarters | context_agent/orchestration/context_aggregator.py:176 | total_tokens is a quarter of the characters, short of at most three characters an item |
| Aggregator.SnapshotIsSound | context_agent/orchestration/context_aggregator.py:159-197 | ids are distinct, scores descend, and each item is the first best-scored surviving copy |
| Aggregator.SnapshotFitsBudget | context_agent/orchestration/context_aggregator.py:174-176 | total_tokens is within the budget if and only if the budget is not negative |
| Aggregator.NothingLostWithinBudget | context_agent/orchestration/context_aggregator.py:159-176 | when the whole ranking fits, every surviving id is in the snapshot |
| Compression.Compress | context_agent/strategies/qa_strategy.py:39-83 | the gate, the helpers and the fallback of a strategy: which messages it renders and whether it admits to degrading |
| Compression.ApplySchedule | context_agent/orchestration/compression_router.py:55-116 | the first scheduled strategy that is registered and does not raise answers; else the raw join, degraded |
| Compression.Schedule | context_agent/orchestration/strategy_scheduler.py:68-124 | the schedule has no duplicates, ends with the one id selected, and holds realtime exactly above 95% utilisation or on request |
| CompressionLaws.SelectionFollowsSignals | context_agent/orchestration/strategy_scheduler.py:68-100 | a task type that names a strategy selects it; otherwise more than twenty turns, then utilisation above the trigger, then having no task type decide |
| CompressionLaws.WhatEachStrategyKeeps | context_agent/strategies/long_session_strategy.py:132-145 | over budget and without help every strategy keeps all system messages, and of the others: question answering the longest fitting run of latest ones, realtime the same among the last N, task, long session and compaction each one that fits beside the later ones kept |
| CompressionLaws.WhenNothingIsTruncated | context_agent/strategies/qa_strategy.py:44-75 | within budget a strategy keeps everything; over it a helper's messages are taken as they are |
| CompressionLaws.DegradedMeansTruncated | context_agent/strategies/qa_strategy.py:44-83 | without help and without the degraded mark every message is there, unless compaction answered; with the mark the text is the strategy's own truncation |
| CompressionLaws.EchoIsFoundOutIff | context_agent/strategies/qa_strategy.py:66-75 | a model that repeats the truncation is marked degraded if and only if question answering or long session asked it and the metadata came back too, or nothing was left |
| CompressionLaws.LabelsAreRight | context_agent/orchestration/compression_router.py:55-116 | token_count is a quarter of the text; the output is raw exactly when no scheduled strategy works and structured exactly when the first that works is compaction |
| Compression.CompressionAfterAggregationIsLossless | context_agent/orchestration/compression_router.py:55-116 | with total_tokens > 0, under any schedule, registry and helpers, no message of an aggregated snapshot is dropped or reordered |
| Compression.StoredItemsComeBackVerbatim | context_agent/orchestration/compression_router.py:55-116 | for items stored by the orchestrator the text is the raw join, whichever strategy answers |
| Compression.NothingIsLostIff | context_agent/strategies/qa_strategy.py:44-52 | with no helper a strategy keeps every message of an aggregated snapshot if and only if the total is positive, or the characters fit, or all are system messages |
| Compression.OverBudgetDropsUnlessAllSystem | context_agent/strategies/compaction_strategy.py:125-139 | over budget, each truncation drops something if and only if there is a non-system message |
| Compression.TinyItemsAreDropped | context_agent/strategies/qa_strategy.py:121-124 | three three-character items fit a budget of one token in the aggregator, and two of them are then dropped |
| RankFusion.AddList | context_agent/core/retrieval/search_coordinator.py:166-170 | one pass of the inner loop adds exactly that list's contributions |
| RankFusion.Accumulate | context_agent/core/retrieval/search_coordinator.py:163-170 | the scores are the rank sums of the ids met, the item map their last copies |
| RankFusion.RrfFuse | context_agent/core/retrieval/search_coordinator.py:149-186 | the output is the first top_k of the ranking, each item rescored and capped at 1 |
| RankFusion.RankingIsSortedDistinct | context_agent/core/retrieval/search_coordinator.py:172-174 | output ids are distinct, min(top_k, distinct ids) many, exactly those listed, in descending rank sum |
| RankFusion.EqualSumsKeepOrder | context_agent/core/retrieval/search_coordinator.py:172-174 | ids with equal rank sums keep the order of their first appearance |
| RankFusion.RankSumIgnoresOrder | context_agent/core/retrieval/search_coordinator.py:166-170 | rank sums do not depend on the order of the lists |
| RankFusion.RankSumIsReciprocals | context_agent/core/retrieval/search_coordinator.py:155-170 | for duplicate-free lists the score ranked by is the documented sum of 1 / (k + position), positions from one |
| RankFusion.LastCopyIsLast | context_agent/core/retrieval/search_coordinator.py:163-175 | the item handed out for an id is its copy that comes last through all the lists |
| RankFusion.DominatedSum | context_agent/core/retrieval/search_coordinator.py:166-170 | an id above another in every duplicate-free list holding the other has the greater sum |
| RankFusion.DominanceIsRespected | context_agent/core/retrieval/search_coordinator.py:163-186 | and comes before it in the output, whenever the other makes the output |
| RankFusion.SingleListKeepsOrder | context_agent/core/retrieval/search_coordinator.py:163-186 | fusing one duplicate-free list keeps its order |
| AlertEngine.Engine.InCooldown | context_agent/core/monitoring/alert_engine.py:86-90 | true exactly when the key's last fire is younger than the cooldown |
| AlertEngine.Engine.EvaluateBatch | context_agent/core/monitoring/alert_engine.py:36-84 | the log grows by one check per triggered condition, in order, and stays one the lemmas below speak of |
| AlertEngine.AlertsOfRecord | context_agent/core/monitoring/alert_engine.py:41-73 | a record raises, in order, the alerts of the thresholds it breaks and no others |
| AlertEngine.BatchInOrder | context_agent/core/monitoring/alert_engine.py:36-39 | a batch is gone through record by record |
| AlertEngine.AlertsApart | context_agent/core/monitoring/alert_engine.py:74 | alerts share a cooldown only if kind, scope and operation agree, for operations without colons |
| AlertEngine.AlertsCollide | context_agent/core/monitoring/alert_engine.py:74 | an operation with a colon shares its cooldown with another scope |
| AlertEngine.StampsAreFires | context_agent/core/monitoring/alert_engine.py:84-90 | the stamp of a key is the time of its last fire |
| AlertEngine.FiresAreApart | context_agent/core/monitoring/alert_engine.py:74-90 | fires of one key are at least the cooldown apart |
| AlertEngine.FiresPerWindow | context_agent/core/monitoring/alert_engine.py:74-90 | a window of length L holds at most floor(L / cooldown) + 1 fires of one key |
| AlertEngine.NoBreachGoesUnheard | context_agent/core/monitoring/alert_engine.py:74-90 | a triggered check fires or follows a fire of its key less than the cooldown ago |
| AlertEngine.OnlyItsOwnKindSilences | context_agent/core/monitoring/alert_engine.py:74-90 | a triggered check that does not fire follows, less than the cooldown ago, a fire of the same kind for the same scope and operation |
| Collector.RunKeepsInv | context_agent/core/monitoring/collector.py:60-122 | every interleaving keeps conservation, the shutdown cut, batch sizes and timeliness |
| Collector.RecordsAreConserved | context_agent/core/monitoring/collector.py:70-122 | flushed batches, then the current batch, then the queue are the emitted records in order; batches are non-empty and within batch_size |
| Collector.StopFlushesEverything | context_agent/core/monitoring/collector.py:64-107 | when the worker has ended, exactly the records emitted before the first stop() are flushed, once and in order |
| Collector.StopReturns | context_agent/core/monitoring/collector.py:64-107 | once stop() is called the worker can always receive until it ends, and it ends with the last of a bounded number of receives, whatever happens in between |
| Collector.HeldOnlyBriefly | context_agent/core/monitoring/collector.py:83-107 | on the ideal clock a record stays in the batch less than flush_interval_s + 0.1 |
| CollectorPace.BatchesWait | context_agent/core/monitoring/collector.py:83-107 | every batch delivered holds batch_size records, or went out at least flush_interval_s after the flush before it or the start, or is the one flushed as the worker ended |
| CollectorPace.PartialBatchesAreRare | context_agent/core/monitoring/collector.py:83-107 | the rate law: between two flushes each batch that is neither full nor last takes flush_interval_s |
| CollectorPace.TimeoutsFlush | context_agent/core/monitoring/collector.py:87-107 | a wake-up by timeout with records in the batch flushes them, and the next one is at least 0.1 s away |
| CollectorLists.ListsRefineValues | context_agent/core/monitoring/collector.py:83-122 | with batches as lists changed in place and handed to subscribers, every reachable state amounts to one of the machine above, so all of it holds there too |
| CollectorLists.DeliveredIsFinal | context_agent/core/monitoring/collector.py:104-118 | a list handed to subscribers is never changed by the collector again, in any later run |

## Left out

- WorkingMemory.WorkingMemoryManager.UpdateNote: does not model the updated_at stamp, nor a caller overwriting `_active_count` with something that is no number.
- WorkingMemory.WorkingMemoryManager.MarkItems: does not model the updated_at stamp of an item.
- OpenClaw.OverflowGoesToRealtime: is stated for the built-in registry and no configured compressor, whose messages may be anything.
- Truncation.SkipTruncate: one method stands for the three identical loops of the long-session, compaction and task strategies.
- ConfigMerge.MergeMissingValues: gives the change list as a set, because the model's tables have no order; the order of the reported paths is not modelled.
- Messages.IngestMessages: takes the classifier as an arbitrary function of the tidied message; the keyword lists are not modelled.
- Compression.Compress: takes what a compressor or a language model returns as arbitrary messages, and whether a model's keep their metadata as a flag; error texts and metadata of the output are not modelled.
- VersionStore.StoreMatchesIdeal: takes each call as one step; when calls overlap, a version still listed may be gone from the object store, and `VersionSteps.ListedIsRestorableIff` and `VersionSteps.AtRestListedIsStored` say what holds instead.
- VersionSteps.ListedIsRestorableIff: looks at one state; a restore that itself waits between the object store and its fallback is not split in steps.
- CollectorLists.DeliveredIsFinal: speaks of what the collector does; a subscriber may change the list it was handed.
- Cancellation of workers, overlapping start and stop, a second collector start, and delivery to single subscribers.
- The Redis branches of the resolver cache and the working memory with their server-side expiry and failures; the local branch of the hot tier, whose items are shared with the caller instead of copied, and which renews no deadline on use.
- Tier labels; the choice of memory types and filters handed to the lower tiers. A usage call cancelled between its read and its write simply never writes.
- Hotness, the tanh blend and the task-conditioning constants, which are arbitrary functions here; floating-point rounding.
- The hierarchy filter and the fan-out of the search coordinator; the retrievers behind the resolver; task scheduling and timeout of the aggregator's sources.
- Update statements, sessions and table creation of the database behind the key-value store; retries.
- Expansion of environment placeholders and reading or writing of configuration files.
- The assemble and after-turn endpoints; HTTP, authentication, logging, tracing, Prometheus and webhooks.
- Exposure control, tool governor, sub-agent tickets, health checks and multimodal input: they would add only easy members.
