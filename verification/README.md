# Verified core of the project report assistant

A Dafny model of the stateful services of the report assistant, with proofs of
what they guarantee over every run. One module per component; each module first
gives the operations as the services perform them (a class whose methods change
fields, or a loop, where the program does that), tied to specification functions,
and then proves the guarantees as lemmas about those functions.

- `RunModel`, `Runner`: the controlled runner, a fixed tool chain with an audit
  log, step timing and progress reports.
- `RunProtocol`: one run record shared by the event loop, the worker thread and
  any number of cancelling threads, every file read and replacement a step of
  its own, and the invariant of the protocol.
- `RunCancellation`: what a written cancellation does, and what can still change
  the record of a finished run.
- `RunRefinement`: the interleaved worker refines the sequential runner.
- `RunOutcomes`: when a cancelled run can still complete, and when the record of
  a finished run stays terminal.
- `RunStability`: when a record that stands as CANCELLED stays CANCELLED.
- `RunRequests`: what a cancel request and a dispatch do in any state, and that a
  started run can always be brought to its end.
- `Retries`: retrying failed and cancelled runs.
- `TaskQueue`: the two-level semaphore queue, any number of clients with a
  program counter each, and its polling wait on an ideal clock. `TaskOutcomes`:
  why each request ends the way it does.
- `Paragraphs`, `ParagraphLaws`, `Windows`, `Chunker`, `ChunkContents`: from a
  parsed document to its chunks, and what the chunks say of the document.
- `Indexer`: the incremental project index.
- `Cache`, `RateLimits`: the TTL cache with LRU eviction and the sliding-window
  limiter.
- `TaskLifecycle`: the task store with its status graph, event log,
  confirmation queue and file import. `TaskLaws`: what its single operations
  mean, and what a preview says about the import that follows.
- `DocVersions`: version chains, change log and change detection.
- `Headings`, `Columns`: Markdown sections, the DOCX heading stack, and
  spreadsheet column names.
- `Wrappers`: the optional value the modules share.
- `RankFusion`: the fusion of two ranked lists.
- `RiskScan`, `RiskRules`: deduplicated risk rescans, when each rule fires and
  where every record comes from.

`dafny verify dfyconfig.toml` checks the whole project.

Clocks, fresh identifiers, hashes, embeddings, tool outcomes and thread
interleavings are parameters or free choices of the model, so a theorem that
does not mention them holds for all of them. Concrete runs are given where a
plausible guarantee is false.

## Where the code and its documentation differ

The model follows the code; these are the points where that matters.

- `CANCELLED` is described as final, but a runner that has already loaded the
  queued record writes `QUEUED` back (`app/services/runs.py:204-211`), and a
  cancelling thread that read the record earlier can overwrite it too. Exactly
  when it is final is `RunStability.CancelledStaysIff`. An acknowledged
  cancellation can be lost altogether (`RunOutcomes.AcknowledgedCancelCanBeLost`;
  exactly when is `RunOutcomes.CancelledRunCanCompleteIff`).
- A finished run's record can go back to a non-terminal status for ever: a
  cancelling thread writes the record it read before the run ended
  (`RunOutcomes.LateCancelStrandsRun`; exactly when is
  `RunOutcomes.FinalRecordStaysTerminalIff`).
- The retry limit bounds the length of a chain of retries, not their number
  (`Retries.SameRunRetriedAnyTimes`).
- The chunker announces windows that overlap by 100 to 150 characters. The code
  counts paragraphs from the start of the window, so windows overlap, by one
  paragraph, exactly when the window's first paragraph also occurs in its last
  125 characters (`Windows.SlideExactly`). Short windows in the middle are
  dropped (`Windows.LostExactly`).
- A request cancelled between acquisition and execution counts twice as
  cancelled (`TaskQueue.StatisticsExact`), and the queue timeout applies to each
  of the two acquisitions (`TaskQueue.AcquireBoth`).
- A call that finds nothing to index leaves the previous index in place
  (`Indexer.ZeroIffNothingToIndex`). The stored chunks of a file are its fresh
  chunks, with their boundaries, line numbers and headings, exactly when they
  already were or its text has changed (`Indexer.FreshChunksStoredIff`): a file
  whose text is cut differently, or has moved to other lines or under another
  heading, keeps its old chunks (`Indexer.ShiftedLinesAreNotStored`).
- The import preview folds a stored title twice, once in the database and once in
  the program, the import only in the database. Where the two foldings differ a
  row announced as a conflict is imported as a second task of the same title
  (`TaskLaws.FoldingMismatchDuplicates`; otherwise `TaskLaws.PreviewForetellsImport`).
- Confirming does not look at the task's present status, so a cancelled or
  completed task can be reopened (`TaskLifecycle.LateConfirmationReopens`).
- The severity configured on a risk rule replaces the computed one, and an
  acknowledged or resolved risk that still fires is inserted again by the next
  scan (`RiskScan.ClosedRiskReturns`).
- The replaced version row stores an identifier that no row carries; the chain
  of versions is therefore read off the rows' order and numbers.

## Model

| member | source | states |
|---|---|---|
| Runner.ControlledRunner.Run | app/agent/runner.py:73-134 | for every tool registry, step limit, tool outcome and cancel oracle: audit rows, progress reports, tools invoked and result are those of the run's ending; anything but a queued run is refused and changes nothing |
| Runner.InvokedIsPipelinePrefix | app/agent/runner.py:86-125 | the tools invoked are a prefix of the pipeline, in order, and all registered |
| Runner.CompletedIffAllSucceed | app/agent/runner.py:86-134 | COMPLETED if and only if the limit admits all five steps, no cancel check fires, every tool is registered and none raises |
| Runner.OneTerminalEventAndLast | app/agent/runner.py:133-160 | exactly one terminal audit row, the last one, agreeing with the final status and step |
| Runner.OpenToolIffRaised | app/agent/runner.py:109-122 | tool starts minus tool completions is 1 exactly when a tool raised, otherwise 0 |
| Runner.TimingPerInvokedTool | app/observability/audit.py:36-52 | one timing row per tool invoked, under its phase, with an error only on a raising tool's row |
| Runner.ProgressNeverDecreases | app/services/runs.py:146-150 | the percentages over all reports of a run never decrease, and a completed run reports 100 |
| Runner.CompletedRunSpelledOut | app/agent/runner.py:19-54 | a completed run invokes scan, index, retrieve, evaluate and draft, books them under PARSE, INDEX, RETRIEVE and twice MODEL_GENERATE, and reports the statuses from QUEUED over the five steps to COMPLETED at 0, 20, 40, 60, 80, 100 and 100 percent |
| Runner.LimitIsTheWhole | app/agent/runner.py:79 | under any step limit 100 percent is reported when the last admitted step starts, and not before |
| Runner.RoundsToNearest | app/services/runs.py:150 | a percentage is rounded to the nearest integer, a tie to the even one |
| RunProtocol.QueuedOnlyWhileRunningOrFresh | app/services/runs.py:233-306 | under every interleaving: the run is in the table of running tasks, or was never dispatched, or its record is not QUEUED, and no pending cancel write carries QUEUED |
| RunProtocol.RunKeepsInv | app/services/runs.py:186-306 | the whole invariant of the protocol, kept by every run of steps: the above together with what the worker knows at each point of its program and which tools it has invoked |
| RunProtocol.StartedAtMostOnce | app/services/runs.py:233-273 | the pipeline is started at most once and over the run's whole life each tool is invoked at most once, in order |
| RunCancellation.FlaggedStep | app/services/runs.py:198-211 | a flag the worker is not about to overwrite survives every step but the final save; no further tool gets past its check |
| RunCancellation.CancelTakesEffect | app/agent/runner.py:86-92 | after such a cancel write, for every continuation: the flag stays until the final save, only a tool already past its check still runs, and a run before its last check never becomes COMPLETED |
| RunCancellation.FlagSurvivesIff | app/services/runs.py:204-211 | a cancel write survives every continuation up to the final save if and only if it does not land inside a persist whose read saw no flag |
| RunCancellation.FlagClearedIff | app/services/runs.py:204-230 | the only steps that clear a flag on disk: such a persist, and the final save of a run that never saw the flag |
| RunCancellation.OnlyLateCancelsAfterwards | app/services/runs.py:229-276 | after the task has ended no tool runs and the record changes only by cancel writes of threads that had read earlier |
| RunCancellation.OwnRecordStays | app/services/runs.py:229-230 | without late cancel writes the record stays the one the runner returned, which is terminal |
| RunOutcomes.AcknowledgedCancelCanBeLost | app/services/runs.py:281-301 | a concrete run: a cancellation stands on disk as CANCELLED, is overwritten by the first report, and the run completes |
| RunOutcomes.CancelledRunCanCompleteIff | app/services/runs.py:198-211 | in every reachable state, with tools that all succeed: after a cancel write some continuation still ends COMPLETED if and only if the write fell between the read and the write of a persist that saw no flag, or came after the cancel check before the last step |
| RunStability.CancelledStaysIff | app/services/runs.py:186-306 | in every reachable state with CANCELLED on disk, for every step limit, registry and set of raising tools: every continuation leaves CANCELLED there if and only if every pending write carries CANCELLED and the worker, by where it stands in its program, cannot write anything else |
| RunRequests.CancelRequestTakesEffect | app/services/runs.py:281-306 | in every reachable state whose record is not terminal, a cancel request writes the record with the flag set, CANCELLED if it was QUEUED and otherwise with status and step unchanged; outside the persist window and before the last check no continuation then ends COMPLETED |
| RunRequests.CancelOfFinishedRunIsRefused | app/services/runs.py:281-289 | a cancel request changes nothing if and only if the record is COMPLETED, FAILED or CANCELLED |
| RunRequests.DispatchStartsIff | app/services/runs.py:233-273 | a dispatch starts the pipeline exactly when the record it reads is QUEUED and the run is not in the table, and otherwise changes nothing |
| RunRequests.StartedRunCanFinish | app/services/runs.py:186-273 | whatever has happened, a run in the table can be brought to its end by its own steps: cleaned up, out of the table, not QUEUED |
| RunOutcomes.FinalRecordStaysTerminalIff | app/services/runs.py:229-306 | at the final save: the record is terminal in every continuation if and only if every cancel write pending then carries a terminal status |
| RunOutcomes.LateCancelStrandsRun | app/services/runs.py:303-306 | a concrete run: a cancel request read at SCANNING and written after the run completed leaves SCANNING, and no continuation ever changes that status |
| RunRefinement.FinalSaveRefinesRunner | app/services/runs.py:226-230 | under every interleaving the saved record is the one the sequential runner returns for the same cancel answers |
| Retries.RunRecords.RetryRun | app/services/runs.py:309-334 | a retry is refused for a missing, unfinished or exhausted run; otherwise it adds one queued record that counts one more and leaves the rest |
| Retries.RetryCountIsChainLength | app/services/runs.py:318-331 | over every run of calls the retry count is the length of the chain: every run on the way back is a retry until, after exactly that many steps, a first run is reached; it never exceeds the limit |
| Retries.SameRunRetriedAnyTimes | app/services/runs.py:323-334 | the same failed run can be retried any number of times |
| Retries.LimitRetriesInARow | app/services/runs.py:309-334 | of a chain of unsuccessful runs, each made for the one before, exactly the first max_retries retries are granted, after failures and cancellations alike, the k-th counting k |
| TaskQueue.RunKeepsInv | app/services/task_queue.py:139-222 | every counter and every semaphore equals the sum of what the clients at their program points hold or have had booked |
| TaskQueue.CapacitiesRespected | app/services/task_queue.py:153-173 | permits held plus free equal the bound of each semaphore, and calls executing never exceed the global capacity or the project quota |
| TaskQueue.ClampNeverFires | app/services/task_queue.py:213-220 | the active counter is at least one whenever it is decremented |
| TaskQueue.OnlyWaitsBlock | app/services/task_queue.py:170-222 | every step other than the two waits is possible; in particular no release exceeds its bound |
| TaskQueue.StatisticsExact | app/services/task_queue.py:157-212 | in every reachable state the gauges equal the clients at those points, each total is exact, and the four totals add up to the finished requests plus those cancelled after acquisition |
| TaskQueue.NeverDeadlocks | app/services/task_queue.py:160-173 | with capacities of at least one, whenever a request is unfinished some request can step without a timeout or a cancellation |
| TaskQueue.EveryRequestFinishes | app/services/task_queue.py:139-222 | once no more requests arrive, every run, with timeouts and cancellations, is bounded by the work left, and no ordinary step can extend it if and only if every request is done |
| TaskQueue.QuiescentQueueIsFull | app/services/task_queue.py:213-222 | when all requests are done every permit is back and both gauges are zero |
| TaskOutcomes.EveryOutcomeHasItsCause | app/services/task_queue.py:165-212 | over every run, for every request: bound for a timeout only after giving up a wait for one, for a cancellation without a call only with its event set, for any other outcome only because its call returned with it; the call returns exactly once in that last case and never otherwise |
| TaskOutcomes.UndisturbedCallIsRun | app/services/task_queue.py:194-212 | a request neither cancelled nor timed out ends only by running its call, once |
| TaskOutcomes.StartsOnlyUncancelled | app/services/task_queue.py:194-204 | a call starts only from the check of its event and only if the event is not set |
| TaskOutcomes.CancelledCallNeverRuns | app/services/task_queue.py:194-204 | once the event of a request that has not started is set, no continuation runs its call |
| TaskOutcomes.EveryOutcomeIsOpen | app/services/task_queue.py:165-222 | in every reachable state, by its own steps alone: a waiting request can end as timed out, and as cancelled once its event is set; one inside its call can end with any outcome of the call |
| TaskQueue.Acquire | app/services/task_queue.py:224-239 | on an ideal clock: ends at the grant, within one slice of a cancellation, or at the deadline, and times out exactly when neither comes in time |
| TaskQueue.AcquireBoth | app/services/task_queue.py:160-173 | a request leaves the queue within twice the timeout, and that bound is reached |
| Paragraphs.JoinSplit | app/rag/chunker.py:118-120 | joining with blank lines undoes splitting at them, for every text |
| Paragraphs.SplitJoin | app/rag/chunker.py:118-120 | splitting undoes joining, for every list of paragraphs |
| Paragraphs.SplitYieldsParagraphs | app/rag/chunker.py:118-120 | split paragraphs are stripped, not empty and hold no blank line |
| Paragraphs.RemovesFirstOccurrence | app/rag/chunker.py:164-165 | removing a paragraph takes out its first occurrence and nothing else |
| ParagraphLaws.StripTakesOffSpaces | app/rag/chunker.py:120 | stripping takes off exactly the white space around a text |
| ParagraphLaws.StripKeepsParagraphs | app/rag/chunker.py:89 | stripping a section's text does not change its paragraphs |
| ParagraphLaws.SplitOfJoined | app/rag/chunker.py:89 | for any two texts, the paragraphs of their join are those of the first and then those of the second |
| Windows.CountParasInText | app/rag/chunker.py:155-169 | counts the paragraphs found one after the other, each removed once |
| Windows.FillToTarget | app/rag/chunker.py:123-152 | terminates and emits the texts of the windows, as the specification lists them |
| Windows.SlideExactly | app/rag/chunker.py:145-151 | the exact slide: the next window starts at this one's last paragraph if its first paragraph occurs in its last 125 characters, and after it otherwise |
| Windows.WindowsChain | app/rag/chunker.py:129-151 | windows start at the first paragraph, have strictly increasing starts, follow one another without a gap and reach the end |
| Windows.EveryParagraphCovered | app/rag/chunker.py:129-151 | every paragraph lies in a window |
| Windows.OnlyNeighboursShare | app/rag/chunker.py:145-151 | two windows share at most one paragraph, and only immediate neighbours do |
| Windows.WindowTextBounds | app/rag/chunker.py:132-140 | a window's text is at most 1000 characters or a single paragraph, cannot be extended, and is emitted if and only if it has at least 500 characters or is last |
| Windows.TextSplitsBack | app/rag/chunker.py:132-136 | splitting an emitted text gives back exactly its run of paragraphs |
| Windows.WindowsReconstruct | app/rag/chunker.py:129-151 | the windows with each shared paragraph taken once are the paragraphs again |
| Windows.TextsAreEmitted | app/rag/chunker.py:139-140 | the merged texts are those of the windows not dropped, in order |
| Windows.LostExactly | app/rag/chunker.py:139-151 | a paragraph is lost if and only if its first window is short and not last, and it is not saved by an emitted successor that shares it |
| Windows.NothingLost | app/rag/chunker.py:139-140 | nothing is lost when every paragraph is below 500 characters; the last paragraph never is |
| Windows.ShortBeforeLongIsLost | app/rag/chunker.py:139-140 | in any list, a paragraph below 500 characters that is first held by a window starting at it and is followed by one too long to join it is lost |
| Windows.ShortPrefaceIsLost | app/rag/chunker.py:139-140 | the smallest case: of a short preface and a long paragraph only the latter is among the merged texts |
| Chunker.GroupSections | app/rag/chunker.py:49-81 | the sections of a document, one for the formats without headings |
| Chunker.GroupPartitions | app/rag/chunker.py:64-79 | grouping loses, adds and reorders nothing |
| Chunker.SectionsFollowHeadings | app/rag/chunker.py:68-75 | each section holds one heading only and starts with one that differs from the section before |
| Chunker.MergeSection | app/rag/chunker.py:84-115 | the chunks of a section: none, one, or one per emitted window of the text that `ChunkContents.SectionReadsItsChunks` determines |
| Chunker.SplitDocument | app/rag/chunker.py:23-37 | a document's chunks, whose contents `ChunkContents.ParagraphsReachChunks` and `ChunkContents.ChunksSayOnlySections` determine |
| Chunker.ChunksFit | app/rag/chunker.py:23-46 | chunks are numbered from 0; spreadsheet rows are otherwise as they came, any other chunk carries the document's path and is non-empty and at most 1000 characters or a single paragraph |
| ChunkContents.SectionReadsItsChunks | app/rag/chunker.py:89 | a section's text has exactly the paragraphs of its chunks' contents, chunk after chunk |
| ChunkContents.MergedTextIsRun | app/rag/chunker.py:84-115 | each text a section is merged into says a run of the section's paragraphs and nothing else |
| ChunkContents.ParagraphSurvives | app/rag/chunker.py:84-115 | a paragraph of a section is found again in one of its merged texts unless all its windows are dropped |
| ChunkContents.ParagraphsReachChunks | app/rag/chunker.py:23-37 | for every format but xlsx, each paragraph of each parsed chunk is a paragraph of a chunk of the document, under its section's heading, unless it is lost in its section |
| ChunkContents.ShortParagraphsReachChunks | app/rag/chunker.py:23-37 | a document none of whose paragraphs reaches 500 characters loses none of them |
| ChunkContents.ChunksSayOnlySections | app/rag/chunker.py:84-115 | for every format but xlsx, each chunk says a run of the paragraphs of one section and carries that section's heading, first line and last line |
| Indexer.ProjectIndex.Collect | app/rag/indexer.py:94-112 | what a call collects: stored chunks for unchanged files, fresh ones otherwise |
| Indexer.ProjectIndex.Index | app/rag/indexer.py:88-136 | the whole state after a call and the count it returns, whose meaning the agreement theorems below give |
| Indexer.FingerprintReadsAll | app/rag/indexer.py:49-54 | what is hashed for a file is the text of all its chunks, from the first to the last |
| Indexer.EditIsIndexed | app/rag/indexer.py:98-124 | when a file comes back with the content of any one of its stored chunks changed, the index stores its fresh chunks |
| Indexer.CallAgrees | app/rag/indexer.py:98-135 | from any faithful and aligned state, a call that returns n > 0 leaves n chunks of its own files only, aligned, the stored chunks of each file concatenating to the text of its fresh chunks |
| Indexer.IncrementalAgrees | app/rag/indexer.py:88-136 | after any calls, one that returns n > 0 leaves n chunks of its own files only, the stored chunks of each file concatenating to the text of its fresh chunks, with vectors and corpus belonging to the chunks |
| Indexer.IncrementalMatchesRebuild | app/rag/indexer.py:88-136 | the incremental index and one built from nothing hold, for every file, chunks that concatenate to the same text |
| Indexer.RepeatChangesNothing | app/rag/indexer.py:117-124 | repeating a call changes nothing and embeds nothing |
| Indexer.ZeroIffNothingToIndex | app/rag/indexer.py:114-115 | a call returns 0 if and only if no file has a chunk, and then keeps the old index |
| Indexer.FreshChunksStoredIff | app/rag/indexer.py:98-124 | after a call with n > 0 a file's stored chunks are its fresh chunks if and only if they already were or the text of the stored ones differs from the fresh text |
| Indexer.OldBoundariesStay | app/rag/indexer.py:49-54 | whatever its chunks look like now, a file of the same text keeps its old chunks |
| Indexer.ShiftedLinesAreNotStored | app/rag/indexer.py:103-109 | a concrete failure for any short text: indexed, moved to other lines and indexed again, it keeps the old line numbers |
| Indexer.ParsedAreWellFormed | app/rag/indexer.py:98-101 | split documents with distinct paths meet the assumptions of the agreement theorems |
| Cache.TTLCache.Get | app/services/cache.py:50-71 | result and new state of a look-up: miss, expiry, or hit moved to the end |
| Cache.TTLCache.Set | app/services/cache.py:73-88 | new state of a store: oldest entries popped until there is room, the key at the end |
| Cache.TTLCache.Invalidate | app/services/cache.py:90-100 | removes exactly the keys with the prefix and returns how many |
| Cache.RunKeepsInvariant | app/services/cache.py:50-88 | over every run: size at most the maximum, store order is last-touch order, and every entry is the one of an unlimited timestamped map |
| Cache.GetReturnsLatestSet | app/services/cache.py:50-71 | a hit returns the latest value set, unexpired and not invalidated since |
| Cache.FoundForItsLifetime | app/services/cache.py:73-88 | after any calls, an entry just stored is found until its category's time to live is over, the last instant included, and not afterwards; an unknown category has the index's time |
| Cache.CountersExact | app/services/cache.py:50-71 | over every run hits and misses count the look-ups that found an entry and those that did not |
| Cache.FewRivalsRetained | app/services/cache.py:81-88 | a key with fewer than max - 1 other keys touched since its last touch is never evicted for capacity |
| Cache.MaxMinusOneRivalsCanEvict | app/services/cache.py:81-88 | the bound is exact for every maximum of at least two: storing a present key again when full evicts a live key with max - 1 rivals |
| Cache.GetAgreesWithIdeal | app/services/cache.py:50-88 | for such a key the cache answers exactly like the unlimited map |
| Cache.BuildKeyInjective | app/services/cache.py:163-172 | different project, category and hash give different keys |
| Cache.ProjectPrefixExact | app/services/cache.py:102-104 | invalidating a project matches its own keys and no other project's |
| RateLimits.RateLimiter.Allow | app/integrations/email.py:32-42 | the answer and the new buckets of a send request |
| RateLimits.RateLimiter.CanAllow | app/integrations/email.py:44-50 | the answer and the new buckets of a preview |
| RateLimits.BucketRemembers | app/integrations/email.py:34-41 | the pruned bucket answers like the full history of grants under a non-decreasing clock |
| RateLimits.GrantedIffWindowHasRoom | app/integrations/email.py:36-42 | a call is granted if and only if fewer than max_calls of all grants so far lie in the window that ends now, its start excluded |
| RateLimits.WindowBound | app/integrations/email.py:32-42 | every window of the configured length holds at most max_calls grants of a key |
| RateLimits.PreviewsChangeNoGrant | app/integrations/email.py:44-50 | previews consume nothing: the same calls are granted with and without them |
| RateLimits.PreviewForetellsSend | app/integrations/email.py:44-50 | a preview gives the answer that allow gives at the same instant |
| TaskLifecycle.TaskLifecycleService.TransitionStatus | app/services/task_lifecycle.py:242-270 | outcome and new tables of a transition, with its error cases |
| TaskLifecycle.TaskLifecycleService.ProcessConfirmation | app/services/task_lifecycle.py:452-557 | outcome and new tables of a confirmation, whatever the task's status is by then |
| TaskLifecycle.TaskLifecycleService.PreviewImport | app/services/task_lifecycle.py:559-628 | counts of new, duplicate and conflicting rows adding up to all rows, or a rejection if a row is rejected |
| TaskLifecycle.TaskLifecycleService.ConfirmImport | app/services/task_lifecycle.py:630-758 | new tables of an import, and imported + skipped + errors = rows |
| TaskLifecycle.RunConsistent | app/services/task_lifecycle.py:103-168 | over every run each task's log starts with its one initial row, has only edges of the status graph and ends at the current status |
| TaskLifecycle.ConnectedIffConfirmedInTime | app/services/task_lifecycle.py:452-555 | a task's log is a connected path if and only if it was never confirmed after leaving the pending status |
| TaskLifecycle.TerminalIffNotReopened | app/schemas/task_sql.py:122-136 | completed and cancelled are left if and only if a late confirmation gives a different status; in-time runs never leave them |
| TaskLifecycle.LateConfirmationReopens | app/services/task_lifecycle.py:452-555 | a concrete run that reopens a cancelled task |
| TaskLifecycle.ConfirmedAtMostOnce | app/services/task_lifecycle.py:452-555 | each confirmation leaves pending at most once |
| TaskLifecycle.SecondImportIsEmpty | app/services/task_lifecycle.py:673-756 | with duplicates skipped and overwriting off a second import of the same rows imports and changes nothing |
| TaskLifecycle.SecondImportEmptyIff | app/services/task_lifecycle.py:673-756 | after a first import with any options, a second one that skips duplicates and does not overwrite imports nothing if and only if every titled, valid row has left a fingerprint |
| TaskLifecycle.PreviewAfterImport | app/services/task_lifecycle.py:595-627 | after importing titled, valid rows a preview reports every row as duplicate |
| TaskLifecycle.OverwrittenRowReturns | app/services/task_lifecycle.py:673-756 | a row that overwrote a task leaves no fingerprint and is imported again |
| TaskLaws.TransitionFollowsEdge | app/schemas/task_sql.py:122-136 | a transition is granted exactly for a task of the project along one of the fifteen edges of the graph; it moves that task, logs the edge and touches nothing else |
| TaskLaws.PendingOnlyAtFirst | app/schemas/task_sql.py:122-130 | over every run no task comes back to the pending status |
| TaskLaws.UpdateReplacesGivenFields | app/services/task_lifecycle.py:196-236 | an update replaces exactly the given fields of one task and never its status or log |
| TaskLaws.ConfirmationSettles | app/services/task_lifecycle.py:467-555 | ignoring cancels the task, accepting starts it, modifying replaces the given fields and starts it; one log row, one confirmation and one task change |
| TaskLaws.OverwriteReplacesFields | app/services/task_lifecycle.py:699-716 | an overwriting row replaces the fields of the first task of its title, which keeps title, status, log and confirmation; no fingerprint is left |
| TaskLaws.NewRowBecomesTask | app/services/task_lifecycle.py:718-743 | any other valid row that is not skipped becomes one new task, not started, and leaves its fingerprint |
| TaskLaws.PreviewForetellsImport | app/services/task_lifecycle.py:595-743 | where both foldings agree on the stored titles, a titled and acceptable row is previewed as duplicate, conflict or new exactly as an import with both options skips it, overwrites a task or adds one |
| TaskLaws.RejectedIff | app/services/task_lifecycle.py:595-620 | a preview rejects exactly the untitled or unacceptable rows that are neither duplicate nor conflicting |
| TaskLaws.FoldingMismatchDuplicates | app/services/task_lifecycle.py:589-743 | for any title that the database folds differently, the preview announces a conflict and the import adds a second task of the same title |
| DocVersions.VersionStore.RecordFileVersion | app/services/doc_version.py:177-267 | new rows of a recording, and the number returned is the current row's |
| DocVersions.VersionStore.MarkFileDeleted | app/services/doc_version.py:270-284 | no row of the file stays current, all are kept, one log row is added |
| DocVersions.VersionStore.DetectFileChanges | app/services/doc_version.py:109-151 | the four buckets hold exactly the listed paths of their kind, in order |
| DocVersions.RunWellFormed | app/services/doc_version.py:177-284 | over every history: at most one current row per file, numbers 1, 2, 3, ... between deletions with equal parse and index numbers, every modified log row links two adjacent rows with different hashes |
| DocVersions.CurrentVersionCountsChanges | app/services/doc_version.py:177-267 | the current row holds the last hash recorded since the last deletion, and its number counts the content changes |
| DocVersions.DetectionSettles | app/services/doc_version.py:109-151 | after acting on a detection, the same snapshot shows only unchanged files |
| DocVersions.DetectionComparesHistory | app/services/doc_version.py:109-151 | over every history: a file is new, deleted, unchanged or modified exactly as it exists in the snapshot, was recorded since its last deletion, and has the hash recorded last |
| DocVersions.LogCountsHistory | app/services/doc_version.py:177-284 | over every history the change log holds one modification row per replacement of a file's content and one deletion row per deletion |
| DocVersions.InitialisedIsUnchanged | app/services/doc_version.py:439-462 | after first-run initialisation every listed existing file is unchanged |
| Headings.SectionEnds | app/rag/parsers.py:91-98 | the end line of every Markdown section |
| Headings.InSectionChar | app/rag/parsers.py:91-98 | a line is in a section if and only if no heading of the same or a higher rank stands between |
| Headings.SectionsLaminar | app/rag/parsers.py:91-98 | any two sections are nested or disjoint |
| Headings.StackStrict | app/rag/parsers.py:257-265 | the levels on the heading stack strictly increase |
| Headings.StackIsEnclosing | app/rag/parsers.py:257-265 | the stack holds exactly the headings not yet closed, outermost first |
| Headings.SectionsAroundLineAreTheStack | app/rag/parsers.py:257-265 | the Markdown sections around a line are the entries of the DOCX stack after the headings up to it |
| Headings.ParseDocx | app/rag/parsers.py:251-278 | every non-blank paragraph becomes a chunk tagged with the path of the headings that enclose it |
| Headings.JoinedIsBreadcrumb | app/rag/parsers.py:265-268 | a heading path is the enclosing headings' path with the innermost title behind it, separated by " > " |
| Columns.ColumnLetter | app/rag/parsers.py:292-298 | terminates with the one name that decodes to the index |
| Columns.DecodeName | app/rag/parsers.py:292-298 | decoding a column's name gives its index back |
| Columns.NameOfValue | app/rag/parsers.py:292-298 | every non-empty letter string is the name of the column it decodes to |
| Columns.OrderIsShortLex | app/rag/parsers.py:292-298 | column order is length first, then alphabet |
| RankFusion.RrfMerge | app/rag/retriever.py:89-111 | the kept ids are the best ones of both lists in stable descending order, cut as the slice does, each carrying its share of the best score; what a rank is worth is `RankFusion.ScoreOfRanks` |
| RankFusion.ScoreOfRanks | app/rag/retriever.py:97-101 | for duplicate-free lists, ranks i and j counted from 0 score 1/(61+i) + 1/(61+j), and one list alone gives its own term |
| RankFusion.SmallerRankComesFirst | app/rag/retriever.py:97-111 | of two ids that one list each has found, the one at the smaller rank comes strictly first in the answer and scores strictly more |
| RankFusion.EqualRanksDenseFirst | app/rag/retriever.py:97-104 | at equal ranks the id of the dense list comes first |
| RankFusion.BestFirstUnique | app/rag/retriever.py:103-104 | that list is unique: no other order of ids meets the description |
| RankFusion.MergeGuarantees | app/rag/retriever.py:89-111 | for duplicate-free lists of length at most n: first score 1, scores not increasing, none below 61/(2(60+n)) |
| RankFusion.FoundByBothComesFirst | app/rag/retriever.py:97-104 | for n < 62 every id found by both lists comes before every id found by one |
| RankFusion.SixtyTwoIsTheLimit | app/rag/retriever.py:97-104 | from 62 on there are lists for which that fails |
| RiskScan.EvaluateRules | app/services/risk_engine.py:358-400 | the findings of all tasks and enabled rules, in order |
| RiskScan.Deduplicate | app/services/risk_engine.py:147-177 | unique plus duplicates equals detections |
| RiskScan.UniqueChar | app/services/risk_engine.py:147-177 | every new hash is kept exactly once and nothing else |
| RiskScan.RiskStore.Scan | app/services/risk_scanner.py:266-340 | new records of a scan and its counts |
| RiskScan.RunKeepsInvariant | app/services/risk_scanner.py:213-248 | over any scans, acknowledgements, resolutions and task edits a project has at most one active record per hash |
| RiskScan.FiringHasActiveRecord | app/services/risk_scanner.py:266-340 | after a scan every firing task and rule has an active record with its hash |
| RiskScan.RescanInsertsNothing | app/services/risk_scanner.py:213-248 | rescanning unchanged data on the same date inserts nothing |
| RiskScan.ClosedRiskReturns | app/services/risk_scanner.py:342-364 | after closing a record the next scan inserts if and only if its hash is found again |
| RiskRules.DeadlineIsWatched | app/services/risk_engine.py:208-236 | an open task with a due date: the deadline rule fires from days_before days ahead up to the due date, the overdue rule more than grace_days past it, never both if the grace period is not negative, and every day from then on has one of the two if and only if there is no grace period |
| RiskRules.FiresIff | app/services/risk_engine.py:239-298 | when missing evidence, unverified acceptance, a blocking dependency and conflicting materials are found |
| RiskRules.FirstsAreKept | app/services/risk_engine.py:147-177 | of the findings of one new hash the first is kept, and nothing else is |
| RiskRules.EveryRecordIsSourced | app/services/risk_engine.py:321-384 | over every history every record comes from a scan of its project in which its task and its rule fired, with that rule's severity and the digest of task, kind of rule and status |
| RiskRules.KeepsFinding | app/services/risk_scanner.py:342-364 | no event changes what a record says, and only its own acknowledgement or resolution changes its lifecycle |

## Left out

- FastAPI routers, the workbench UI and the React client: request plumbing.
- LLM, embedding, FAISS, BM25, PDF, DOCX, XLSX, CSV and SMTP libraries: an embedding is an arbitrary function of the text, search results are arbitrary ranked lists, parsed paragraphs and rows are inputs; the tokenizer and the index `save` and `load` are not modelled.
- SQLite, JSON files and the file system: tables are sequences or maps, the run record is one cell replaced atomically; I/O failures, partial writes and corrupt files are not modelled.
- SHA-256, UUIDs and clocks: a fingerprint is the text that is hashed, fresh identifiers are parameters, times are inputs; floating point is taken as real numbers, and `build_progress` as exact rounding half to even.
- RunProtocol.StartedAtMostOnce: one process and one run identifier; a restart, which empties the table of running tasks, and the blocking path `execute_project_report_run`, which bypasses it, are not steps of the protocol.
- Runner.ControlledRunner.Run: a step limit outside 1 to 8, for which the program's constructor raises, is excluded by a precondition; a failing audit write is not modelled.
- Retries.RunRecords.RetryRun: status changes of runs are an arbitrary step here; their protocol is in `RunProtocol`.
- TaskQueue.CapacitiesRespected: cancellation through `cancel_event` and from inside the call only; a task cancelled from outside while its thread waits for a permit may leave that permit taken and is not modelled.
- TaskQueue.RunKeepsInv: semaphores, counters and clients form one state that atomic steps transform; the acquisition loop itself is a method.
- TaskQueue.Acquire: time passes only while waiting for the permit.
- Windows.FillToTarget: the program's second result, always an empty list, is dropped.
- Chunker.SplitDocument: chunks are values, so the renumbering in place of a spreadsheet's own chunk objects is not visible to their other holders; section title, level, page and sheet fields are copied like the heading and not modelled.
- Indexer.IncrementalAgrees: spreadsheet rows are assumed to carry their document's path and some content, and paths within a call to be distinct.
- Cache.TTLCache.Set: a maximum of at least one, which the settings enforce; `invalidate_category`, which matches a substring, and the size and rate of the statistics report are not modelled.
- TaskLifecycle.TaskLifecycleService.ConfirmImport: row validation is a given property of a row; case folding by the database and by the program are two arbitrary functions; a task's dependencies, which an import never touches, are not modelled; the audit table, comments and candidate extraction are not modelled.
- DocVersions.VersionStore.DetectFileChanges: always for one project; the check that a path stays inside the project, sizes and time stamps are not modelled.
- Headings.SectionEnds: the text of Markdown chunks and the chunk before the first heading are not modelled.
- RiskScan.EvaluateRules: message texts, the summary by severity and the scan log are not modelled.
- Backups, log rotation, GPU monitoring, benchmarks, quality averages, members, notifications, reports, webhooks, authentication and permissions: no property beyond input and output or counting.
