# Verified model of the traffic estimator and the scraping API

Dafny models of the two distributed subsystems and the algorithmic kernels of this repository, with proofs of what
they promise. `dafny verify dfyconfig.toml` checks everything.

## What is modelled

**The web-graph index** (`Bytes`, `WebGraphIndex`, `WebGraphStore`, `WebGraphLines`). The build reads tab-separated
lines, appends packed big-endian records to 256 partition files, sorts them one at a time, fills a fan-out table and
writes one file; a lookup bisects the file's bytes between two fan-out entries. Files are byte sequences, the
partition files an array, the fan-out table an array filled in nested loops. `int()` on bytes and the 8-byte blake2b
key of a host are left open as functions (`Codec`). The end-to-end theorems are `WebGraphStore.BuildAndLookUp` and, on
lines given by their columns, `WebGraphLines.BuildAndAsk`.

**The task queue and pipeline runs** (`TaskQueue`, `TaskQueueSafety`, `TaskQueueRuns`, `TaskQueueProgress`,
`TaskQueueRows`, `TaskQueueDb`, `TaskQueueWorker`). A transition system over the task table, the run table and what
each worker holds between two transactions; every `connection()` block is one atomic step, and any worker, the
scheduler and the clock may move next. `TaskQueueDb` holds the same transactions as methods that update the tables in
place, and `TaskQueueWorker` proves that they and the worker's routine refine the transition system; `TaskQueueRows`
says what a step makes of any one task, run or claim. Some theorems assume that a report on a task (complete, fail,
defer) comes only from the claim that still holds it, because the statements do not check the holder; each such
theorem says so (`FromHolder`), and the caps and row identities hold without it. A report by `_execute`'s handler
after `_after_collector` itself raised is a step of the system, but outside that assumption.

**The job lifecycle and crawl ingestion** (`JobLifecycle`, `JobCounters`, `JobStore`, `CrawlIngest`, `CrawlSync`).
Dispatch, cancel and any number of reconcilers race on one job row through guarded updates, each holding a stale
snapshot between statements. The engine's document list only grows; its answers are assumed to be the requested slice
and a total that counts every document it has.

**Kernels.** `RateLimit`, `RateLimiter`, `HostThrottle` (token buckets, penalties, per-host delay over an abstract
monotone clock), `Statistics` and `CorrelationLaws` (average ranks, Pearson, Spearman, least squares), `Utf8`,
`SizeLimit` and `JsonBytes` (the per-result byte budget), `Catalog` (batched catalog paging), `SiteUrls` (the URL
budget split), `TechDetect` (implication closure and cart rule), `ColorCluster` (normalising and greedy clustering),
`Sitemap` and `SitemapLaws` (the budgeted walk), `Curve`, `Confidence`, `Buckets`, `Estimator` and `EstimateLaws` (the
log-scale estimate). Floats are exact reals; `10**x`, `log10`, `sqrt` and rounding are functions of which only the
laws in `Confidence.Lawful` are used; random draws are arbitrary values.

## Where the code differs from what one would expect

- A source cap of 0 admits no task, although the settings describe 0 as unlimited (`TaskQueueSafety.CapsStep`).
- A run whose collectors are terminal can be left without a finalize task until the sweep a day later: by an exception on
  a last attempt, by a worker that dies before its check, or by lease recovery (`TaskQueueProgress.StepOrphans` says
  exactly when, `RaiseSkipsTheCheck` is a run that gets there, `OrphansBecomeStale` is the sweep).
- A finalize task whose lease is lost on its last attempt leaves its run active for good: the sweep finds the
  run but its finalize key is taken (`StuckIsReached` gets there). So does the death of
  a worker that hung until recovery gave up its task (`DeathAfterRecovery`). `TaskQueueProgress.StepSticks` and
  `RunSticks` say exactly when, `StuckForever` that it stays so.
- `pages_succeeded`, `pages_failed` and `sync_cursor` may go down (`JobCounters.LowersExactly`, with the runs
  `OldCountsWin` and `DrainLosesCursor`), the first two only where another writes between a reconciler's count and its
  write (`JobCounters.LowersOnlyBehind`); `pages_discovered` and `pages_processed` are monotone
  (`JobLifecycle.StepMonotone`).
- A failure that a drain records may take the row of a document that is delivered later (`CrawlIngest.RunKeepsOrder` says
  exactly when, `FailureOvertakes` is such a run).
- A crawl of more than 4200 documents is complete after the drain only as far as earlier ticks came
  (`CrawlSync.SyncedCrawl.SyncToTheEnd`, `CrawlSync.DrainIsComplete`).
- `applySizeLimit` adds an empty `links` list to a content that had none, and may return more than it was given
  (`SizeLimit.EmptyLinksAppear`, `LimitGrows`, `BrandingGrows`).
- A `max_urls` of 0 lets one sitemap entry through wherever the first urlset has one (`Sitemap.CollectSitemaps`,
  `UrlBudget`, `ZeroBudgetReadsOne`).
- Visits below a positive first bucket edge get the last bucket (`Buckets.OrderNeedsFirstEdge`); the default edges
  start at 0.
- `set_rate` starts a full bucket while callers may still wait for the old one, so a window may see twice the tokens
  (`RateLimit.ReplacedBound`, attained by `ReplacedBoundIsTight`). Once nobody waits for it, a window sees more than a
  kept bucket would grant unless the old one was full again (`ReplacedExactly`).

## Model

| member | source | states |
|---|---|---|
| Bytes.LessIsNumeric | apps/traffic-estimator/src/traffic_estimator/lists/webgraph_index.py:154 | Equal-length byte strings compare exactly as the big-endian numbers they encode, in both directions; this is why sorting packed records and comparing raw key bytes is sound. |
| Bytes.RoundTrip | apps/traffic-estimator/src/traffic_estimator/lists/webgraph_index.py:157 | A number that fits n bytes reads back from its big-endian bytes. |
| Bytes.SortSorts | apps/traffic-estimator/src/traffic_estimator/lists/webgraph_index.py:154 | The list after `recs.sort()` is sorted and a permutation. |
| Bytes.SortedUnique | apps/traffic-estimator/src/traffic_estimator/lists/webgraph_index.py:154 | Any two sorted permutations of the same records are equal, so the result does not depend on the sorting algorithm. |
| Bytes.BisectLeft | apps/traffic-estimator/src/traffic_estimator/lists/webgraph_index.py:157 | The position returned splits the sorted list: exactly the records before it are below the probe. |
| WebGraphIndex.PackOrder | apps/traffic-estimator/src/traffic_estimator/lists/webgraph_index.py:43-46 | Byte order of two packed records is tuple order (key, rank, PageRank rank, hosts), if and only if. |
| WebGraphIndex.PackRoundTrip | apps/traffic-estimator/src/traffic_estimator/lists/webgraph_index.py:43-46 | Every field of a packed record reads back. |
| WebGraphIndex.ScanIsLeast | apps/traffic-estimator/src/traffic_estimator/lists/webgraph_index.py:180-196 | The reference answer: a linear scan finds a key exactly when some accepted record has it, and then returns the least of them. |
| WebGraphIndex.CountIsPartitionPoint | apps/traffic-estimator/src/traffic_estimator/lists/webgraph_index.py:155-157 | In the sorted records those with a prefix below p are exactly the first CountBelow(p), for every p. |
| WebGraphIndex.ProbeMeaning | apps/traffic-estimator/src/traffic_estimator/lists/webgraph_index.py:157 | A record is below a prefix's first possible key if and only if its own prefix is smaller. |
| WebGraphIndex.PartOfRecord | apps/traffic-estimator/src/traffic_estimator/lists/webgraph_index.py:133-156 | A record's first key byte is the top 8 bits of its prefix: the partition file it goes to is the one whose prefixes the writer fills from it. |
| WebGraphIndex.ExternalSortIsSort | apps/traffic-estimator/src/traffic_estimator/lists/webgraph_index.py:114-159 | Partitioning by first key byte, sorting each part and concatenating is one global sort of all records. |
| WebGraphStore.Partition | apps/traffic-estimator/src/traffic_estimator/lists/webgraph_index.py:114-138 | After the pass, file p holds exactly the packed accepted records whose key starts with byte p, in input order; the counts of accepted and skipped lines are exact. |
| WebGraphStore.Cut | apps/traffic-estimator/src/traffic_estimator/lists/webgraph_index.py:153 | Cutting a partition file every RECORD.size bytes gives back exactly the records appended to it. |
| WebGraphStore.TakeSorted | apps/traffic-estimator/src/traffic_estimator/lists/webgraph_index.py:150-154 | Reads and deletes one partition file and returns its records sorted; the later files are untouched. |
| WebGraphStore.FanOutEntry | apps/traffic-estimator/src/traffic_estimator/lists/webgraph_index.py:155-159 | Records written so far plus the bisection point in the partition is the number of records of the whole file below the prefix. |
| WebGraphStore.FillFanOut | apps/traffic-estimator/src/traffic_estimator/lists/webgraph_index.py:155-157 | After a partition's loop every fan-out entry up to its last prefix counts exactly the records below that prefix. |
| WebGraphStore.Seal | apps/traffic-estimator/src/traffic_estimator/lists/webgraph_index.py:160-164 | The finished table overwrites the placeholder bytes and nothing else; a record count over 2^32 - 1 raises instead. |
| WebGraphStore.WriteSorted | apps/traffic-estimator/src/traffic_estimator/lists/webgraph_index.py:141-164 | The bytes written are header, fan-out table and the globally sorted records; None exactly when a u32 would overflow. |
| WebGraphStore.LayoutStores | apps/traffic-estimator/src/traffic_estimator/lists/webgraph_index.py:141-178 | The written layout reads back: magic, count and bits from the header, every fan-out entry, every record. |
| WebGraphStore.Build | apps/traffic-estimator/src/traffic_estimator/lists/webgraph_index.py:69-90 | A file results if and only if the fan-out bits are in range and the records fit; it is the index file of the accepted lines, and the skipped count is right. |
| WebGraphStore.Index.constructor | apps/traffic-estimator/src/traffic_estimator/lists/webgraph_index.py:168-178 | Opening takes its fields from the header of a file that passes the magic and length checks. |
| WebGraphStore.Index.FirstNotBelow | apps/traffic-estimator/src/traffic_estimator/lists/webgraph_index.py:185-191 | The lo/hi loop computes the bisection on the keys in the mapped bytes. |
| WebGraphStore.Index.Get | apps/traffic-estimator/src/traffic_estimator/lists/webgraph_index.py:180-196 | Returns what the bounded bisection of the file determines, including None at the end of the file or on another key; the shift raises exactly for a header of more than 64 fan-out bits. |
| WebGraphStore.BisectSplits | apps/traffic-estimator/src/traffic_estimator/lists/webgraph_index.py:185-191 | On keys in order the bisection ends at the first key that is not below the wanted one. |
| WebGraphStore.LookUpIsScan | apps/traffic-estimator/src/traffic_estimator/lists/webgraph_index.py:180-196 | On any file that indexes a list of entries, a lookup equals the linear scan of that list, for every key. |
| WebGraphStore.BuildAndLookUp | apps/traffic-estimator/src/traffic_estimator/lists/webgraph_index.py:69-196 | End to end: for every input and every query, building, opening and asking gives exactly the linear scan of the accepted lines; an answer exists if and only if the build accepts its arguments and the record count fits. |
| WebGraphLines.SplitOfLine | apps/traffic-estimator/src/traffic_estimator/lists/webgraph_index.py:114-121 | Columns joined by tabs split into these columns again, in particular the five or six of a ranks line. |
| WebGraphLines.LineOfSplit | apps/traffic-estimator/src/traffic_estimator/lists/webgraph_index.py:114-121 | Every line is the joined line of its columns, so what is said of joined columns is said of all input. |
| WebGraphLines.LineMeans | apps/traffic-estimator/src/traffic_estimator/lists/webgraph_index.py:114-131 | A line is accepted if and only if it has five columns, does not start with `#`, has 32-bit numbers in its first and third and, if there, a number not below zero in its sixth; it then gives the key of its fifth column these numbers, hosts cut at 2^32 - 1 and 0 without a sixth. Every other line is skipped. |
| WebGraphLines.AcceptedMeans | apps/traffic-estimator/src/traffic_estimator/lists/webgraph_index.py:114-138 | The accepted entries are what the readable lines say, one for each and none else. |
| WebGraphLines.FormatIs | apps/traffic-estimator/src/traffic_estimator/lists/webgraph_index.py:43-46 | The file by its byte positions: eight magic bytes, count and bits, twelve zeros, the fan-out counts of four bytes from byte 32 on, then the records of twenty bytes. |
| WebGraphLines.RecordIs | apps/traffic-estimator/src/traffic_estimator/lists/webgraph_index.py:43-46 | A record's bytes: eight of the key, then rank, PageRank rank and hosts in four each. |
| WebGraphLines.BuildAndAsk | apps/traffic-estimator/src/traffic_estimator/lists/webgraph_index.py:69-196 | End to end on lines given by their columns: an index results if and only if there are 8 to 24 bits and fewer than 2^32 readable lines, and it answers every host with the least (rank, PageRank rank, hosts) that some line says of it, or nothing if none does. |
| WebGraphLines.AskOneLine | apps/traffic-estimator/src/traffic_estimator/lists/webgraph_index.py:69-196 | A build from one readable line of six columns answers its host with the first, the third and the capped sixth. |
| TaskQueueSafety.ConsistentStep | apps/traffic-estimator/src/traffic_estimator/queue.py:38-173 | Every step of any worker or the scheduler, stale reports and failures reported after the check included, keeps every task keyed to its own run and kind, keys unique and claims on existing rows. |
| TaskQueueSafety.OneTaskPerKind | apps/traffic-estimator/src/traffic_estimator/queue.py:38-74 | A run never has two tasks of one kind, in particular two finalize tasks. |
| TaskQueueSafety.IngestCreates | apps/traffic-estimator/src/traffic_estimator/pipeline.py:95-119 | An ingest adds one run row and exactly one queued, unclaimed task for each of its collectors, or for no collectors exactly the finalize task, and nothing else. |
| TaskQueueSafety.CapsStep | apps/traffic-estimator/src/traffic_estimator/queue.py:77-118 | Every step keeps the running tasks of each kind within its cap, whoever reports; a cap of 0 admits nothing. |
| TaskQueueSafety.DisciplinedStep | apps/traffic-estimator/src/traffic_estimator/queue.py:77-173 | With reports only from claim holders: queued tasks have attempts left, running tasks are within 1..max and locked by one claim whose snapshot is current. |
| TaskQueueRuns.RunKeepsCaps | apps/traffic-estimator/src/traffic_estimator/queue.py:77-173 | At every moment of every run of the system the caps hold and rows are consistent. |
| TaskQueueRuns.RunIsDisciplined | apps/traffic-estimator/src/traffic_estimator/queue.py:77-173 | At every moment of every run with reports only from holders the attempt and lock bounds hold. |
| TaskQueueRuns.StepSpends | apps/traffic-estimator/src/traffic_estimator/worker.py:107-168 | A claim raises a task's attempts + defers by exactly one; no other step, failure, deferral or recovery changes the sum. |
| TaskQueueRuns.ClaimsAreSpent | apps/traffic-estimator/src/traffic_estimator/worker.py:107-168 | In every run a task has been claimed exactly attempts + defers times. |
| TaskQueueRuns.ClaimsAreBounded | apps/traffic-estimator/src/traffic_estimator/collectors/lists.py:21-49 | Hence at most its maximum attempts, plus 40 for the lists collector alone: the termination measure of a task. |
| TaskQueueRuns.TerminalStays | apps/traffic-estimator/src/traffic_estimator/queue.py:137-173 | With reports only from holders a terminal task row never changes again. |
| TaskQueueRuns.StepKeepsRuns | apps/traffic-estimator/src/traffic_estimator/pipeline.py:282-338 | Every step keeps a run's domain and collectors, and a completed or failed run never becomes active again. |
| TaskQueueRuns.FinalizeLastStep | apps/traffic-estimator/src/traffic_estimator/pipeline.py:233-249 | A run with collectors has a finalize task only while every one of its collector tasks is terminal; every step keeps this. |
| TaskQueueRuns.OneActiveRunStep | apps/traffic-estimator/src/traffic_estimator/pipeline.py:46-92 | Every step keeps at most one active run per domain. |
| TaskQueueRuns.RunIsOrderly | apps/traffic-estimator/src/traffic_estimator/pipeline.py:46-119 | Both hold at every moment of every run, the finalize one when reports come from holders. |
| TaskQueueProgress.StepOrphans | apps/traffic-estimator/src/traffic_estimator/worker.py:86-135 | A step leaves a run whose collectors are terminal without a finalize task and without a check due if and only if it is one of three: its only check's worker dies, an exception ends its last open collector task on the last attempt, or recovery gives up every collector task still open. |
| TaskQueueProgress.ProgressStep | apps/traffic-estimator/src/traffic_estimator/worker.py:86-135 | A step keeps it for all runs that a run with terminal collectors has its finalize task or a check due that creates it, if and only if it orphans none. |
| TaskQueueProgress.RunMakesProgress | apps/traffic-estimator/src/traffic_estimator/worker.py:86-135 | Along any run of the system with reports from holders, every moment up to the n-th has this progress if and only if no step before orphaned a run. |
| TaskQueueProgress.RaiseSkipsTheCheck | apps/traffic-estimator/src/traffic_estimator/worker.py:86-105 | A concrete run of three steps, nobody dead and the claim held to the end, that leaves a run orphaned: an exception on the last attempt fails the task without the after-collector check. |
| TaskQueueProgress.SweptRunsHaveFinalize | apps/traffic-estimator/src/traffic_estimator/scheduler.py:46-62 | Every run the scheduler's sweep picks has a finalize task afterwards. |
| TaskQueueProgress.RunIsClosedByFinalize | apps/traffic-estimator/src/traffic_estimator/worker.py:137-156 | At every moment of every run a completed or failed pipeline run has a finalize task. |
| TaskQueueProgress.OrphansBecomeStale | apps/traffic-estimator/src/traffic_estimator/scheduler.py:46-58 | At every moment of every run, a pipeline run with terminal collectors and no finalize task meets the sweep's query if and only if it is older than 24 hours. |
| TaskQueueProgress.StepSticks | apps/traffic-estimator/src/traffic_estimator/queue.py:137-173 | A step leaves a run stuck, active with its finalize task terminal and nobody executing it, if and only if the run was stuck or the step is one of two: recovery fails its finalize task on the last attempt while nobody executes it, or the only worker still executing it dies after the task is terminal. |
| TaskQueueProgress.RunSticks | apps/traffic-estimator/src/traffic_estimator/queue.py:77-173 | Along any run of the system with reports from holders a pipeline run is stuck if and only if one of the steps before stuck it. |
| TaskQueueProgress.RunNeverSticks | apps/traffic-estimator/src/traffic_estimator/queue.py:77-173 | So no pipeline run is stuck at a moment if and only if no step up to it stuck one. |
| TaskQueueProgress.RunIsCommitted | apps/traffic-estimator/src/traffic_estimator/worker.py:137-144 | At every moment of every run a worker past the commit of an estimate has closed the pipeline run, which is why its report cannot leave the run stuck. |
| TaskQueueProgress.StuckIsReached | apps/traffic-estimator/src/traffic_estimator/queue.py:77-173 | Under every configuration that processes finalize tasks a run of the system reaches a stuck pipeline run: three workers die on its finalize task. |
| TaskQueueProgress.DeathAfterRecovery | apps/traffic-estimator/src/traffic_estimator/queue.py:77-173 | Under the same configurations a run of the system reaches the other way in: recovery gives up the task of a worker that hangs, and the worker's death then leaves the pipeline run stuck. |
| TaskQueueProgress.StuckForever | apps/traffic-estimator/src/traffic_estimator/scheduler.py:43-62 | A stuck run stays stuck in every continuation: no worker, recovery or sweep closes it. |
| TaskQueueDb.Database.Insert | apps/traffic-estimator/src/traffic_estimator/queue.py:38-74 | An insert whose key is taken changes nothing and returns None; otherwise exactly one row is added. |
| TaskQueueDb.Database.ClaimNext | apps/traffic-estimator/src/traffic_estimator/queue.py:77-127 | Claims the first row by priority and id that is due, of a configured kind below its cap and not locked by another transaction: running, one more attempt, leased from now, its snapshot returned; None exactly when there is none. |
| TaskQueueDb.Database.Extend | apps/traffic-estimator/src/traffic_estimator/queue.py:130-134 | After a heartbeat recovery leaves a running task alone up to the new lease end and not a moment longer; a task that is not running, and every other task, is unchanged. |
| TaskQueueDb.Database.RecordFailure | apps/traffic-estimator/src/traffic_estimator/queue.py:137-157 | The task ends queued if the snapshot has attempts left and a retry is asked for, else failed, as returned; unlocked, its attempts kept, not claimable before a delay that doubles with each attempt; no other row changes. |
| TaskQueueDb.Database.Recover | apps/traffic-estimator/src/traffic_estimator/queue.py:160-173 | Afterwards no running task is out of lease; each one that was is unlocked with its attempts kept, queued if and only if it has attempts left and else failed; every other row is as it was. |
| TaskQueueDb.Database.DeferClaim | apps/traffic-estimator/src/traffic_estimator/worker.py:158-168 | A deferral costs a claimed task nothing: attempts plus defers are the same; the task is queued, unlocked and not claimable before the delay, which is at least 5 seconds; no other row changes. |
| TaskQueueDb.Database.FailClaim | apps/traffic-estimator/src/traffic_estimator/worker.py:146-156 | A run not failed before is failed afterwards if and only if the task is its finalize task and will not be retried; other runs and other tasks are unchanged. |
| TaskQueueDb.Database.StartNewRun | apps/traffic-estimator/src/traffic_estimator/pipeline.py:95-119 | The run row, exactly one queued task per collector with its key, the configured attempts and no delay, or exactly the finalize task when there are none; every other row is as it was. |
| TaskQueueDb.Database.FinalizeIfClosed | apps/traffic-estimator/src/traffic_estimator/pipeline.py:233-249 | Enqueues the finalize task, of priority 20 and three attempts, if and only if no collector task is open and it was not enqueued before. |
| TaskQueueDb.Database.SweepStale | apps/traffic-estimator/src/traffic_estimator/scheduler.py:43-62 | The sweep over the selected runs is the model's sweep, run by run. |
| TaskQueueDb.Database.IngestName | apps/traffic-estimator/src/traffic_estimator/pipeline.py:58-90 | Decided by the tables as they are: a name with an active run gets that run, else one with a run completed within the window, unless forced, its last run, else a new run with its tasks; no other domain, run or task changes. |
| TaskQueueDb.Database.IngestAll | apps/traffic-estimator/src/traffic_estimator/pipeline.py:46-92 | One result per input in order: Invalid and Duplicate exactly for the right inputs, every other name decided as it would have been first of all; every Existing or Started result an active run of that input's domain, every started run new and with all its tasks. |
| TaskQueueWorker.System.Perform | apps/traffic-estimator/src/traffic_estimator/worker.py:59-168 | Every step of the transition system is what these statements do to the tables: the in-place transactions refine it step by step. |
| TaskQueueRows.RowFollows | apps/traffic-estimator/src/traffic_estimator/queue.py:77-173 | What each step makes of any one task row, by the row alone: claim, report, failure with its doubling delay, deferral, heartbeat and recovery as stated, and every other step leaves it as it is. |
| TaskQueueRows.RunFollows | apps/traffic-estimator/src/traffic_estimator/worker.py:86-156 | A run row is started only by a collector of a queued run, completed only by its estimate's commit and failed only by its finalize task's last failed attempt; nothing else changes it. |
| TaskQueueRows.WorkFollows | apps/traffic-estimator/src/traffic_estimator/worker.py:59-135 | What a worker still has to do for a claim after any step, its own or another's. |
| TaskQueueRows.RowsAdded | apps/traffic-estimator/src/traffic_estimator/scheduler.py:24-62 | Besides ingestion only a list refresh, a check and the sweep add rows: the refresh task, or the finalize task of a run whose collectors are all over. |
| TaskQueueRows.CheckFinalizes | apps/traffic-estimator/src/traffic_estimator/worker.py:128-135 | A check whose own task is over leaves its run with a finalize task if all its other collectors are over too. |
| TaskQueueWorker.System.RunCollector | apps/traffic-estimator/src/traffic_estimator/worker.py:107-135 | The worker's routine, with any steps of others between its transactions, is a run of the transition system: start, report, check in this order, the check left out exactly after a deferral, and nothing else of its own in between. |
| TaskQueueWorker.System.RunFinalize | apps/traffic-estimator/src/traffic_estimator/worker.py:137-144 | The finalize routine under interference is a run of the transition system: the estimate and the run's completion are committed first, then success is reported. |
| CrawlIngest.FirstWinsIsFirst | apps/api/src/db/repos.ts:366-396 | A result row holds the outcome of the first page with its (truncated) URL. |
| CrawlIngest.FirstWinsByUrl | apps/api/src/services/results.ts:117 | In terms of URLs alone: every row is named by a page and has the outcome of the first that names it, a URL of up to 4096 characters is itself a row, a longer one by its first 4096. |
| CrawlIngest.UrlsApart | apps/api/src/services/results.ts:117 | Pages whose URLs differ within the first 4096 characters have different rows. |
| CrawlIngest.InsertRange | apps/api/src/services/reconciler.ts:157-175 | Inserting any range that starts at or before the frontier of a fold keeps it a fold, moved to the range's end: re-reading documents is harmless. |
| CrawlIngest.OverlappingPulls | apps/api/src/services/reconciler.ts:104-199 | With any number of reconcilers pulling, saving cursors, draining and recording failures in any interleaving: there is a row for every document inserted and every failure and none else, it is the first document's of its URL unless a failure's came earlier, and every document below sync_cursor has a row. |
| CrawlIngest.DocumentsFirstExactly | apps/api/src/services/reconciler.ts:181-199 | The rows are those of the documents and then the failures if and only if every URL whose row a failure brought before its document has the same outcome in both. |
| CrawlIngest.DocumentsFirstStep | apps/api/src/services/reconciler.ts:157-199 | A step loses that order if and only if it inserts a document whose URL only a failure's row with another outcome has so far; a lost order never returns. |
| CrawlIngest.RunKeepsOrder | apps/api/src/services/reconciler.ts:104-199 | In every run the rows are the documents' first and the failures' after if and only if no document was overtaken by such a failure. |
| CrawlIngest.FailureOvertakes | apps/api/src/services/reconciler.ts:181-199 | A concrete run of one reconciler: its drain re-scans and records a failure, its lease ends before the job does, the document arrives, and the next lease inserts it in vain; the order is lost. |
| CrawlSync.GetJobStatus | apps/api/src/engine/firecrawl.ts:433-471 | Returns exactly the documents from the cursor to the next cursor; without `hasMore` that is all of them, and with a closed engine up to 4 batches of 50. Counts and status are those of the engine's last answer, an error throws and a 404 is a lost job. |
| CrawlSync.SyncedCrawl.PullPages | apps/api/src/services/reconciler.ts:157-175 | Up to 21 calls; rows stay a fold of the first `frontier` documents even when the engine disappears midway. |
| CrawlSync.SyncedCrawl.SyncTick | apps/api/src/services/reconciler.ts:124-138 | A tick moves the cursor to where the pull came and never back; an unavailable engine leaves it. |
| CrawlSync.SyncedCrawl.Drain | apps/api/src/services/reconciler.ts:181-199 | The rows after the drain are the first-wins fold of the first `frontier` documents and then the failures; with a closed engine the frontier is the larger of its old value and min(4200, all). |
| CrawlSync.SyncedCrawl.SyncToTheEnd | apps/api/src/services/reconciler.ts:124-199 | Any number of ticks while documents arrive, then the drain: for at most 4200 documents every document and failure has its row, keyed by its URL or the first 4096 characters of it, with the outcome of the first page of that URL; beyond that the documents up to a frontier of at least 4200. |
| CrawlSync.DrainIsComplete | apps/api/src/services/reconciler.ts:181-199 | The rows of a drain that stops at the frontier are those of a complete one if and only if every document beyond it that first mentions its URL has a failure of the same outcome. |
| JobLifecycle.InvStep | apps/api/src/services/jobs.ts:230-371 | Every step of dispatch, cancel and any number of reconcilers, a throw from any statement of dispatch included, keeps the job invariant, the validity of every actor's local memory and a single dispatcher. |
| JobLifecycle.StepMonotone | apps/api/src/db/repos.ts:278-321 | discovered and processed never decrease, and a terminal job's status and counters never change. |
| JobLifecycle.RunMonotone | apps/api/src/db/repos.ts:278-321 | The same between any two moments of any run. |
| JobLifecycle.RaceSafety | apps/api/src/services/jobs.ts:230-371 | In every race: at most one hand-off to the engine, exactly one successful terminal transition once terminal and none before, discovered and processed each at least succeeded + failed, and a completed job has a successful result row. |
| JobLifecycle.HandOffsCounted | apps/api/src/services/jobs.ts:230-303 | The counted hand-offs are the engine calls of the run. |
| JobLifecycle.ScrapeOutcome | apps/api/src/services/jobs.ts:250-294 | A scrape asks to end completed if and only if its page was fetched. |
| JobLifecycle.DrainOutcome | apps/api/src/services/reconciler.ts:201-226 | A drain of a crawl the engine completed asks to end completed if and only if a successful row existed when it counted; of any other as the engine ended it. |
| JobLifecycle.FinishEnds | apps/api/src/db/repos.ts:307-321 | A finish gives a job that has not ended the status asked for and leaves an ended one alone. |
| JobLifecycle.EndAsked | apps/api/src/services/jobs.ts:230-371 | A cancel asks for cancelled, an exception or an expiry for failed, a scrape and a drain for their outcome; no other step asks to end a job. |
| JobLifecycle.JobIs | apps/api/src/db/repos.ts:278-321 | What each step makes of the job row: the counters written while it runs, two of them only upwards, the status by dispatch and finish, the engine's id; every other step leaves it as it is. |
| JobLifecycle.CountsAre | apps/api/src/services/reconciler.ts:140-210 | A reconciler is about to write the successful and failed rows as they are now, and what the engine reported where that is more. |
| JobCounters.LowersExactly | apps/api/src/db/repos.ts:293-305 | pages_succeeded, pages_failed or sync_cursor goes down in a step if and only if it writes a smaller value to a running job. |
| JobCounters.RunIsCovered | apps/api/src/services/reconciler.ts:124-210 | At every moment of every run pages_succeeded and pages_failed are at most the successful and failed rows, and so are the counts any reconciler is about to write. |
| JobCounters.LowersOnlyBehind | apps/api/src/services/reconciler.ts:124-210 | In every run pages_succeeded or pages_failed goes down only in a reconciler's write, and only if another actor wrote counters after this reconciler's count. |
| JobCounters.MonotoneWithoutOverlap | apps/api/src/services/reconciler.ts:124-210 | Hence both are monotone along every run in which no actor writes between another's count and its write. |
| JobCounters.OldCountsWin | apps/api/src/services/reconciler.ts:104-155 | A concrete run of two overlapping reconcilers whose last write takes a page, successful or failed, out of the counters again and moves the cursor back. |
| JobCounters.DrainRestoresCursor | apps/api/src/services/reconciler.ts:201-210 | A drain moves sync_cursor back if and only if the job is running and its cursor has passed the one the reconciler leased. |
| JobCounters.DrainLosesCursor | apps/api/src/services/reconciler.ts:124-210 | A concrete run of a single reconciler that saves its cursor and then drains it back to 0. |
| JobCounters.CrawlCompletes | apps/api/src/services/jobs.ts:230-371 | A concrete run from a fresh crawl job to a completed one. |
| JobStore.Store.Claim | apps/api/src/db/repos.ts:278-287 | Succeeds exactly on a queued job and makes it running. |
| JobStore.Store.StartCrawl | apps/api/src/services/jobs.ts:296-303 | Whatever other actors do while the engine accepts the crawl, the row ends with the engine's job id, a job that has ended stays ended, and no result row is lost. |
| JobStore.Store.WriteProgress | apps/api/src/db/repos.ts:293-305 | Only while running: discovered and processed upwards only, the other counters as given; a job that is not running is unchanged. |
| JobStore.Store.FinishJob | apps/api/src/db/repos.ts:307-321 | Succeeds exactly on a non-terminal job; afterwards the job is terminal. |
| JobStore.Store.InsertResult | apps/api/src/db/repos.ts:366-396 | Returns whether the URL was new; the first outcome stays. |
| JobStore.Store.RunScrape | apps/api/src/services/jobs.ts:250-294 | Whatever other actors do in between, the job is terminal at the end, and a successful finish has the status of the page and a row for it. |
| JobStore.Store.CloseCrawl | apps/api/src/services/reconciler.ts:181-226 | The job is terminal at the end; if this call ended it, a crawl the engine completed is completed if and only if there was a successful row at the start, and failed otherwise; any other ends as the engine ended it. |
| JobStore.Store.CancelJob | apps/api/src/services/jobs.ts:349-371 | Refused exactly on a terminal job, which it leaves alone; otherwise the job is cancelled unless others had ended it by the time of the update, and its actual status is returned. |
| RateLimit.TryStep | apps/traffic-estimator/src/traffic_estimator/ratelimit.py:23-32 | One pass creates no tokens beyond the refill or the capacity, the granted one included. |
| RateLimit.GrantedExactly | apps/traffic-estimator/src/traffic_estimator/ratelimit.py:23-32 | A pass is granted if and only if what was left and what has come since make a token; it takes that one token and leaves the rest, up to the capacity. |
| RateLimit.WindowBound | apps/traffic-estimator/src/traffic_estimator/ratelimit.py:15-32 | In any history and any time window [s, t] a bucket grants at most capacity + rate * (t - s) acquisitions. |
| RateLimit.ReplacedBound | apps/traffic-estimator/src/traffic_estimator/ratelimit.py:44-56 | A bucket is replaced at some moment and whoever waits for it goes on taking its tokens: in every window the two grant at most what each allows, the old capacity and refill over the whole window, and one token and the refill since the replacement. |
| RateLimit.ReplacedBoundIsTight | apps/traffic-estimator/src/traffic_estimator/ratelimit.py:44-56 | The bound is attained for every length: n + 1 tokens from each of two buckets of one token a second in n seconds, twice what one bucket allows. |
| RateLimit.ReplacedExactly | apps/traffic-estimator/src/traffic_estimator/ratelimit.py:44-56 | With nobody waiting for the old bucket any more, every window and every later use keep the bound of a single bucket that changed its rate, if and only if the old bucket was full again when it was replaced. |
| RateLimit.RetryIsNeutral | apps/traffic-estimator/src/traffic_estimator/ratelimit.py:23-32 | A pass without a grant is as if it had not happened. |
| RateLimit.TokenBucket.Acquire | apps/traffic-estimator/src/traffic_estimator/ratelimit.py:23-32 | The bucket is exactly one granted pass at the final time away from where it was; at most one sleep is asked for, and no longer than the tokens missing at the call take to come. |
| RateLimiter.RateLimiter.Acquire | apps/traffic-estimator/src/traffic_estimator/ratelimit.py:48-56 | Whatever other callers do during the penalty and while the bucket's lock is taken: never returns before the penalty that stood at the call, and takes exactly one token, in at most two passes, of the key's own bucket or one made since; it asks to sleep for no longer than the rest of that penalty and one token's time. |
| RateLimiter.BucketsKeepWithin | apps/traffic-estimator/src/traffic_estimator/ratelimit.py:15-56 | At any moment of any interleaving every bucket ever made, replaced or not, keeps within capacity + rate * length in every window. |
| RateLimiter.RateLimiter.Penalize | apps/traffic-estimator/src/traffic_estimator/ratelimit.py:58-60 | The end of a key's pause only moves later, for that key alone. |
| RateLimiter.RateLimiter.SetRate | apps/traffic-estimator/src/traffic_estimator/ratelimit.py:44-46 | The key's bucket is dropped, all others stay. |
| HostThrottle.HostThrottle.Wait | apps/traffic-estimator/src/traffic_estimator/ratelimit.py:77-91 | The grant comes at least the delay in force at the call, a negative one counting as none, after the time remembered for the host, whatever other hosts and changed delays do meanwhile, and no longer a sleep than that is asked for; grants of hosts never evicted stay spaced. |
| HostThrottle.HostThrottle.SetDelayFor | apps/traffic-estimator/src/traffic_estimator/ratelimit.py:73-75 | Changes the delay of one host; the recorded grants stay valid. |
| HostThrottle.HostThrottle.Record | apps/traffic-estimator/src/traffic_estimator/ratelimit.py:88-91 | Appends one grant, moves the host to the end of the order and evicts exactly the least recently granted hosts beyond the maximum, with their delays; grants of a host never evicted stay at least its delay apart. |
| HostThrottle.LogGrows | apps/traffic-estimator/src/traffic_estimator/ratelimit.py:77-91 | Appending a grant at least its delay after the remembered time keeps all earlier pairs of that host spaced. |
| Statistics.Ranks | apps/traffic-estimator/src/traffic_estimator/evaluation/benchmark.py:223-236 | The in-place loops give every element #smaller + (#equal + 1) / 2. |
| Statistics.OrderIsPermutation | apps/traffic-estimator/src/traffic_estimator/evaluation/benchmark.py:225 | The sorted index list contains every index exactly once. |
| Statistics.BlockRank | apps/traffic-estimator/src/traffic_estimator/evaluation/benchmark.py:228-235 | The average position of a block of ties is #smaller + (#equal + 1) / 2. |
| Statistics.RanksTotal | apps/traffic-estimator/src/traffic_estimator/evaluation/benchmark.py:223-236 | The ranks of n values sum to n (n + 1) / 2, ties or not. |
| Statistics.RanksInvariant | apps/traffic-estimator/src/traffic_estimator/evaluation/benchmark.py:223-236 | A strictly increasing function of the values leaves the ranks unchanged. |
| Statistics.SpearmanInvariant | apps/traffic-estimator/src/traffic_estimator/evaluation/benchmark.py:250-253 | Strictly increasing functions of either list leave spearman unchanged. |
| Statistics.CauchySchwarz | apps/traffic-estimator/src/traffic_estimator/evaluation/benchmark.py:239-247 | The squared numerator is at most sxx * syy, for lists of any length. |
| Statistics.PearsonInRange | apps/traffic-estimator/src/traffic_estimator/evaluation/benchmark.py:239-247 | Whenever pearson returns a number it is in [-1, 1]. |
| Statistics.PearsonOfLine | apps/traffic-estimator/src/traffic_estimator/evaluation/benchmark.py:239-247 | A list and a straight function of it correlate with 1 if it rises and -1 if it falls. |
| CorrelationLaws.PearsonMeans | apps/traffic-estimator/src/traffic_estimator/evaluation/benchmark.py:239-247 | There is a correlation if and only if there are at least three pairs and neither list is constant; its square times both spreads is the square of the common spread, and its sign is that one's. |
| CorrelationLaws.SpearmanMeans | apps/traffic-estimator/src/traffic_estimator/evaluation/benchmark.py:250-253 | The same for spearman, on the ranks about their mean (n + 1) / 2. |
| CorrelationLaws.OlsFails | apps/traffic-estimator/src/traffic_estimator/evaluation/benchmark.py:256-265 | Exactly when there is no line, and when ols raises: an empty second list, or different lengths where the first list is not constant. |
| Statistics.OlsMinimises | apps/traffic-estimator/src/traffic_estimator/evaluation/benchmark.py:256-265 | No other line has a smaller sum of squared residuals. |
| Utf8.DecodeEncode | apps/api/src/services/results.ts:62-63 | Decoding the bytes of well-formed text gives the text. |
| Utf8.DecodeCut | apps/api/src/services/results.ts:63 | Cutting the bytes anywhere and decoding gives the longest prefix that fits, and one U+FFFD if a character was cut. |
| Utf8.FittingIsLongest | apps/api/src/services/results.ts:62-63 | That prefix is within the room and one more character would not be. |
| Utf8.CutSaves | apps/api/src/services/results.ts:60-63 | Cutting a suffix saves at least its UTF-8 bytes in the JSON-escaped size (section 7 of RFC 8259, section 3 of RFC 3629). |
| JsonBytes.SizeIsJson | apps/api/src/services/results.ts:49-51 | The size held against the budget is the length of the JSON text, written out byte by byte with its escapes, keys and commas. |
| SizeLimit.ShortenedIsPrefix | apps/api/src/services/results.ts:62-63 | A shortened field is a prefix of the original within the bytes it may keep. |
| SizeLimit.ShortenedExactly | apps/api/src/services/results.ts:62-63 | The prefix is as long as fits into the value's bytes less the surplus and 64, without U+FFFD at its end. |
| SizeLimit.TrailedMeans | apps/api/src/services/results.ts:63 | Only U+FFFD is dropped at the end, and all of it. |
| SizeLimit.TrimmedReaches | apps/api/src/services/results.ts:57-64 | Trimming a field either meets the budget or uses the field up. |
| SizeLimit.ApplySizeLimit | apps/api/src/services/results.ts:49-67 | The method is the fold over html, text, markdown after the link and image cuts; truncated exactly when the content was over budget. |
| SizeLimit.MeetsBudget | apps/api/src/services/results.ts:49-67 | The result meets the budget or has nothing left to give up: no text, no links, no logo image. |
| SizeLimit.SizeIsBounded | apps/api/src/services/results.ts:49-67 | The result's size is at most the larger of the budget and the emptied content's size. |
| SizeLimit.TrimOrder | apps/api/src/services/results.ts:49-67 | Every kept text is a prefix; text is cut only once html is empty or absent, markdown only once text is too; nothing else changes but links and the logo image. |
| SizeLimit.LimitedInSteps | apps/api/src/services/results.ts:49-67 | An oversized content gives up exactly this much in exactly this order, each step only while over budget: links beyond 1000, the logo image, html, text, markdown by the exact cut, and last all links. |
| SizeLimit.LimitedExactly | apps/api/src/services/results.ts:49-67 | An oversized content either meets the budget with only surplus links cut, or becomes its skeleton; the latter if and only if neither cutting links nor giving up image and all texts is enough. |
| SizeLimit.EmptyLinksAppear | apps/api/src/services/results.ts:65 | A content without links comes back with an empty list of them if and only if it comes down to its skeleton. |
| SizeLimit.LimitGrows | apps/api/src/services/results.ts:49-67 | The result is larger than the content if and only if the links are given up and the skeleton is the larger of the two. |
| SizeLimit.SkeletonIsLarger | apps/api/src/services/results.ts:65 | For a content without links that is so if and only if its texts and logo image make up less than 11 bytes. |
| SizeLimit.BrandingGrows | apps/api/src/services/results.ts:65 | A concrete content, a branding record over budget, that comes back larger with an empty list of links. |
| Catalog.DiscoverProducts | apps/api/src/engine/catalog.ts:80-111 | Batched fetching returns exactly what page-at-a-time fetching would unless the deadline cut it, and always at least what that finds in as many pages as rounds and a prefix of what it finds in four times as many; every round asks for as few pages as could hold what is missing, at most 4; duplicate-free and at most max. |
| Catalog.TakeRound | apps/api/src/engine/catalog.ts:92-107 | A round of parallel pages has the effect of reading them in order until one ends the catalog. |
| Catalog.OneByOneIsCatalog | apps/api/src/engine/catalog.ts:76-111 | The page-at-a-time reference is the list of distinct URLs cut at max. |
| Catalog.SeenIsJoined | apps/api/src/engine/catalog.ts:94-107 | What is seen is each URL once of the pages put one after the other, up to the first that is missing, empty or short. |
| Catalog.ListedAtFirst | apps/api/src/engine/catalog.ts:94-111 | Each URL is listed where it first appears, so the list is in order of first appearance. |
| Catalog.CutShortIsPrefix | apps/api/src/engine/catalog.ts:80-111 | Whatever fetches failed and whenever the deadline fell, the list is a prefix of the unfailing catalog's. |
| SiteUrls.Collect | apps/api/src/engine/firecrawl.ts:519-541 | The loop keeps the first URL of each identity among start and the admitted candidates, cut at max. |
| SiteUrls.ListedInOrder | apps/api/src/engine/firecrawl.ts:519-541 | Every listed URL comes from start or an admitted candidate, in the order of the candidates. |
| SiteUrls.ListedIsComplete | apps/api/src/engine/firecrawl.ts:519-541 | Every admitted candidate's page is listed. |
| SiteUrls.WithoutInOrder | apps/api/src/engine/firecrawl.ts:551-553 | Dropping the pages already among the products keeps the others in order. |
| SiteUrls.Shares | apps/api/src/engine/firecrawl.ts:554-557 | The two shares fill min(rest, products + others) slots, with at least min(products, ceil(rest/4)) products and min(others, rest - ceil(rest/4)) others. |
| SiteUrls.WithProductShare | apps/api/src/engine/firecrawl.ts:548-559 | The URLs are the first page, then the first products and the first others: a quarter of the slots, rounded up, for products, the rest for others and what they leave for more products; also when start does not parse and the first page is a product's or none. |
| SiteUrls.SharedIsDistinct | apps/api/src/engine/firecrawl.ts:548-559 | No two chosen URLs have the same key and there are exactly min(rest, products + others) of them; a start that parses comes first and its page is not chosen again. |
| TechDetect.TechResult.ResolveImplications | apps/traffic-estimator/src/traffic_estimator/collectors/crawler/tech.py:394-404 | The repeat-until-unchanged loop ends in the least set that holds the hits and is closed under `implies`, each new name filed under its signature's category. |
| TechDetect.ResolutionIsUnique | apps/traffic-estimator/src/traffic_estimator/collectors/crawler/tech.py:394-404 | There is only one such result. |
| TechDetect.OrderDoesNotMatter | apps/traffic-estimator/src/traffic_estimator/collectors/crawler/tech.py:372-404 | Reordering the signature table changes neither the names nor their categories. |
| TechDetect.CategoryIsFirst | apps/traffic-estimator/src/traffic_estimator/collectors/crawler/tech.py:400-406 | Of signatures with one name an implied technology gets the category of the first. |
| TechDetect.HitIsLast | apps/traffic-estimator/src/traffic_estimator/collectors/crawler/tech.py:374-395 | A detected technology gets that of the last that hit. |
| TechDetect.ResolvedAreKnown | apps/traffic-estimator/src/traffic_estimator/collectors/crawler/tech.py:394-404 | Resolving finds no name that the table neither names nor implies. |
| TechDetect.Detect | apps/traffic-estimator/src/traffic_estimator/collectors/crawler/tech.py:359-412 | The detected technologies are the cart rule applied to the resolution of the direct hits: the cart marker is never among them, and for a table that neither names nor implies the generic label, that label is if and only if the marker was all the ecommerce there was. |
| TechDetect.CartRule | apps/traffic-estimator/src/traffic_estimator/collectors/crawler/tech.py:405-412 | That holds of every resolution of a table's hits: the generic label is then the only ecommerce entry, any other ecommerce drops the marker alone, and nothing else moves. |
| ColorCluster.Cluster | apps/brand-service/src/color.ts:104-115 | The merge loop is the greedy fold over the colours by descending weight, sorted again. |
| ColorCluster.WeightIsConserved | apps/brand-service/src/color.ts:104-115 | Clustering conserves total weight and returns descending weights. |
| ColorCluster.HeaviestIsStable | apps/brand-service/src/color.ts:105 | Colours of equal weight keep their order in the sort, so which one represents a cluster is fixed. |
| ColorCluster.RepresentativesApart | apps/brand-service/src/color.ts:108-113 | Representatives are pairwise at least the threshold apart, the earlier measured against the later, for any distance function. |
| ColorCluster.EachHasHome | apps/brand-service/src/color.ts:108-113 | Every colour joins the first representative closer than the threshold, or is one. |
| ColorCluster.WeightIsBrought | apps/brand-service/src/color.ts:110-112 | A cluster weighs exactly what its colours brought. |
| ColorCluster.SourcesAreBrought | apps/brand-service/src/color.ts:110-113 | A cluster names a source if and only if one of its colours came from it. |
| ColorCluster.FounderIsHeaviest | apps/brand-service/src/color.ts:104-113 | The representative is the first and heaviest colour of its cluster. |
| ColorCluster.PaletteCovers | apps/brand-service/src/color.ts:104-115 | Every input colour is in the palette or within the threshold of a palette colour. |
| ColorCluster.PaletteIsFounded | apps/brand-service/src/color.ts:104-115 | Every palette colour is an input's, the heaviest merged into it, with the weight its cluster brought. |
| ColorCluster.PaletteIsApart | apps/brand-service/src/color.ts:104-115 | Two palette colours are never within the threshold of each other in both directions. |
| ColorCluster.NormaliseTotal | apps/brand-service/src/color.ts:91-101 | A source with any weight contributes exactly its source weight, one without contributes nothing. |
| ColorCluster.NormaliseInProportion | apps/brand-service/src/color.ts:91-101 | Each colour keeps its place and gets its part of the source's weight, in proportion to its own. |
| ColorCluster.ReadableMeans | apps/brand-service/src/color.ts:92-97 | The entries of a table are its rows whose colour can be read, in order, each with its colour and weight. |
| ColorCluster.PaletteWeight | apps/brand-service/src/color.ts:91-115 | The palette weighs exactly what the sources that saw any colour are worth together. |
| Sitemap.SpreadPicks | apps/traffic-estimator/src/traffic_estimator/collectors/crawler/sitemap.py:278-282 | The picks are min(k, n) items at strictly increasing in-range positions, from the first. |
| Sitemap.TallyOfKinds | apps/traffic-estimator/src/traffic_estimator/collectors/crawler/sitemap.py:237-242 | url_count is the number of entries read and `kinds` counts each exactly once. |
| Sitemap.TallyOfDays | apps/traffic-estimator/src/traffic_estimator/collectors/crawler/sitemap.py:245-252 | The lastmod buckets count each dated entry exactly once by age, lastmod_count is their sum, and the minimum and maximum are the earliest and latest day. |
| Sitemap.Reserve | apps/traffic-estimator/src/traffic_estimator/collectors/crawler/sitemap.py:254-260 | The reservoir stays a sample of the entries read, of size min(sample_size, entries), no URL more often than it occurs, whatever is drawn. |
| Sitemap.SitemapStats.ReadEntries | apps/traffic-estimator/src/traffic_estimator/collectors/crawler/sitemap.py:236-263 | Reads the entries in order up to the URL budget, and says truncated when it stops early. |
| Sitemap.TakeIndex | apps/traffic-estimator/src/traffic_estimator/collectors/crawler/sitemap.py:210-229 | Exactly the children that fit the budget, or a spread of them, are queued unless already noted; leaving some out says truncated; a guess that was right ends the guessing. |
| Sitemap.WalkOnce | apps/traffic-estimator/src/traffic_estimator/collectors/crawler/sitemap.py:191-265 | One pass of the loop: exactly one request more of the breadth-first walk, its counters, the entries read, whether anything was cut, and whether the URL budget ends the walk. |
| Sitemap.WalkOn | apps/traffic-estimator/src/traffic_estimator/collectors/crawler/sitemap.py:191-265 | The loop is the breadth-first walk and ends only for want of URLs or because a budget is used up; counters, entries and truncation are those of the requests made. |
| Sitemap.Finish | apps/traffic-estimator/src/traffic_estimator/collectors/crawler/sitemap.py:266-275 | Truncated if anything waits; the extrapolated size is the formula's, never below the count. |
| Sitemap.CollectSitemaps | apps/traffic-estimator/src/traffic_estimator/collectors/crawler/sitemap.py:161-275 | At most max_files requests, none twice, in breadth-first order, ending only for want of URLs or budget; the entries read are exactly those the URL budget allows of the walk's entries, and tallies, sample and the counts of requests, indexes, declared and parsed children are theirs; truncated if and only if an index was cut, the URL budget stopped the reading or URLs still wait; the extrapolation is the formula's; the count is within max_urls if and only if that is positive, or 0 and the walk's first urlset is empty; not truncated means everything declared was read except the guesses given up. |
| Sitemap.UrlBudget | apps/traffic-estimator/src/traffic_estimator/collectors/crawler/sitemap.py:261-265 | The condition on the input alone: the entries allowed of the full walk are at most max_urls if and only if max_urls is at least 1, or is 0 and the walk's first urlset is empty. |
| Sitemap.ZeroBudgetReadsOne | apps/traffic-estimator/src/traffic_estimator/collectors/crawler/sitemap.py:261-265 | A concrete site whose single entry is counted under a max_urls of 0. |
| Sitemap.AllowedIsFinal | apps/traffic-estimator/src/traffic_estimator/collectors/crawler/sitemap.py:261-265 | Requests after the URL budget has ended the walk would change nothing that is read. |
| Sitemap.EstimateIsLarger | apps/traffic-estimator/src/traffic_estimator/collectors/crawler/sitemap.py:269-273 | The extrapolation never goes below the count. |
| Sitemap.ReadIsPrefix | apps/traffic-estimator/src/traffic_estimator/collectors/crawler/sitemap.py:236-263 | What is read of a urlset is a beginning of it, at least one entry, and all of it unless the budget was reached. |
| SitemapLaws.GuessesAre | apps/traffic-estimator/src/traffic_estimator/collectors/crawler/sitemap.py:21-185 | Without robots sitemaps the walk starts with the five well-known paths in order, as guesses. |
| SitemapLaws.NotedInOrder | apps/traffic-estimator/src/traffic_estimator/collectors/crawler/sitemap.py:218-222 | Newly noted URLs wait behind all others, in the order of the list. |
| SitemapLaws.NotedAtFirst | apps/traffic-estimator/src/traffic_estimator/collectors/crawler/sitemap.py:218-222 | They are exactly the URLs not seen before, each where it first occurs. |
| SitemapLaws.WithoutInOrder | apps/traffic-estimator/src/traffic_estimator/collectors/crawler/sitemap.py:225-232 | Giving up the guesses leaves exactly the other waiting URLs, in order. |
| SitemapLaws.SpreadAt | apps/traffic-estimator/src/traffic_estimator/collectors/crawler/sitemap.py:278-282 | The i-th of k picks from n > k children is the one at floor(i * n / k), in exact arithmetic. |
| SitemapLaws.TallyOfAges | apps/traffic-estimator/src/traffic_estimator/collectors/crawler/sitemap.py:85-104 | The buckets count the entries of up to 30, 90 and 365 days and the older ones; a date in the future counts as up to 30. |
| SitemapLaws.TallyOfHosts | apps/traffic-estimator/src/traffic_estimator/collectors/crawler/sitemap.py:239-244 | Every entry's host is counted, and a language is listed if and only if some entry has it. |
| SitemapLaws.EstimateBetween | apps/traffic-estimator/src/traffic_estimator/collectors/crawler/sitemap.py:269-273 | Each unread child counts as no less than the smallest urlset read and no more than the largest. |
| Curve.Interpolate | apps/traffic-estimator/src/traffic_estimator/estimator/heuristic.py:27-39 | The search over the sorted points computes the curve's value. |
| Curve.StaysInRange | apps/traffic-estimator/src/traffic_estimator/estimator/heuristic.py:27-39 | Whatever bounds the points' values bounds the curve, duplicate x included. |
| Curve.PassesThrough | apps/traffic-estimator/src/traffic_estimator/estimator/heuristic.py:27-39 | With distinct x the curve passes through every configured point. |
| Curve.OnTheLine | apps/traffic-estimator/src/traffic_estimator/estimator/heuristic.py:34-38 | Between two neighbouring points the curve is the line through them. |
| Curve.Clamped | apps/traffic-estimator/src/traffic_estimator/estimator/heuristic.py:30-33 | Before the first point and after the last it keeps their values. |
| Curve.InterpolatedMoves | apps/traffic-estimator/src/traffic_estimator/estimator/heuristic.py:27-39 | With distinct x, a rising curve never falls and a falling curve never rises, clamped ends included. |
| Buckets.ExactlyOne | apps/traffic-estimator/src/traffic_estimator/estimator/buckets.py:34-41 | With contiguous buckets from zero exactly one contains the visits, and it is the answer. |
| Buckets.IndexGrows | apps/traffic-estimator/src/traffic_estimator/estimator/buckets.py:34-49 | More visits never mean a lower bucket index, negative visits included. |
| Buckets.OrderNeedsFirstEdge | apps/traffic-estimator/src/traffic_estimator/estimator/buckets.py:34-49 | The order holds for all visits if and only if the first edge is at most zero; below a positive first edge the last bucket is returned. |
| Buckets.DefaultsAreContiguous | apps/traffic-estimator/src/traffic_estimator/estimator/buckets.py:7-31 | The default edges meet those conditions after loading. |
| Buckets.DefaultBucket | apps/traffic-estimator/src/traffic_estimator/estimator/buckets.py:7-41 | The default buckets by what they answer: edges at 1000, 10000, 100000, 1000000 and 10000000, and the first bucket for no number or a negative one. |
| Buckets.LoadedSorts | apps/traffic-estimator/src/traffic_estimator/estimator/buckets.py:27-31 | Loading sorts the configured buckets by their minimum and loses none. |
| Confidence.CoverageInRange | apps/traffic-estimator/src/traffic_estimator/estimator/confidence.py:18-43 | Coverage is in [0, 1] for non-negative weights. |
| Confidence.FullCoverage | apps/traffic-estimator/src/traffic_estimator/estimator/confidence.py:18-43 | Coverage is 1 when every collected source was present; disabled sources do not count against it. |
| Confidence.AgreementInRange | apps/traffic-estimator/src/traffic_estimator/estimator/confidence.py:46-54 | Agreement is in [0, 1] and the deviation is non-negative for a non-negative scale. |
| Confidence.AgreementOfEqual | apps/traffic-estimator/src/traffic_estimator/estimator/confidence.py:46-54 | Signals that all say the same agree fully, with deviation 0. |
| Confidence.AgreementIgnoresLevel | apps/traffic-estimator/src/traffic_estimator/estimator/confidence.py:46-54 | Adding the same number to every log estimate leaves agreement alone: confidence is not a function of the traffic. |
| Confidence.ScoreInRange | apps/traffic-estimator/src/traffic_estimator/estimator/confidence.py:57-67 | The score is in [0, 1] whatever the configuration, and at most what 0.65 rounds to when the crawl is blocked. |
| Confidence.ScoreGrows | apps/traffic-estimator/src/traffic_estimator/estimator/confidence.py:57-67 | More coverage or agreement never lowers the score. |
| Confidence.ComputeConfidence | apps/traffic-estimator/src/traffic_estimator/estimator/confidence.py:57-83 | The assignments compute the score, label and details stated as functions. |
| EstimateLaws.SourceCounts | apps/traffic-estimator/src/traffic_estimator/estimator/confidence.py:18-42 | What one more source adds to coverage: its weight unless disabled, and all, 0.8, 0.5, 0.3 or nothing of it by its status. |
| EstimateLaws.CoverageIsShare | apps/traffic-estimator/src/traffic_estimator/estimator/confidence.py:18-43 | Coverage is the earned share of the weights, rounded. |
| EstimateLaws.AgreementFalls | apps/traffic-estimator/src/traffic_estimator/estimator/confidence.py:46-54 | Agreement falls linearly with the standard deviation of the signals, from 1 to 0 at the scale; one signal agrees at 0.6 and none at 0.3. |
| EstimateLaws.ScoreAddsUp | apps/traffic-estimator/src/traffic_estimator/estimator/confidence.py:57-67 | The score adds weighted coverage and agreement and, for two popularity sources, the bonus; a blocked crawl holds it at 0.65, and it stays within 0 and 1. |
| EstimateLaws.GradeFollowsScore | apps/traffic-estimator/src/traffic_estimator/estimator/confidence.py:68-74 | The label is high from the high threshold on, else medium from the medium one on, else low. |
| EstimateLaws.ConfidenceRestsOn | apps/traffic-estimator/src/traffic_estimator/estimator/heuristic.py:133-136 | Confidence is computed from the popularity readings, and from all of them where there is none. |
| Estimator.Adjust | apps/traffic-estimator/src/traffic_estimator/estimator/heuristic.py:100-131 | The modifiers applied in order are caps, then shifts, then the absence caps, floored at zero. |
| Estimator.EstimateTraffic | apps/traffic-estimator/src/traffic_estimator/estimator/heuristic.py:62-171 | The method computes the estimate function; None exactly where the weighted mean divides by zero. |
| Estimator.EstimateIsCoherent | apps/traffic-estimator/src/traffic_estimator/estimator/heuristic.py:133-171 | lower <= visits <= upper, and confidence, coverage and agreement in [0, 1], on every input with a non-negative configuration. |
| EstimateLaws.EstimateHasRange | apps/traffic-estimator/src/traffic_estimator/estimator/heuristic.py:133-164 | One width lies on both sides: visits round 10^e, the bounds 10^max(0, e - w) and 10^(e + w), and the bucket is the one that contains the visits. |
| EstimateLaws.WidthAtFull | apps/traffic-estimator/src/traffic_estimator/estimator/heuristic.py:137-144 | With full coverage and signals that agree the width is the base, or the maximum if that is less. |
| EstimateLaws.WidthGrows | apps/traffic-estimator/src/traffic_estimator/estimator/heuristic.py:137-144 | It grows by missing_evidence per unit of missing coverage and by disagreement per unit of deviation, until the maximum. |
| EstimateLaws.Uncapped | apps/traffic-estimator/src/traffic_estimator/estimator/heuristic.py:100-131 | Without an absence cap in force the final estimate is the base under its hard cap and shifted, not below zero. |
| EstimateLaws.FlagsShift | apps/traffic-estimator/src/traffic_estimator/estimator/heuristic.py:114-125 | Each evidence flag alone moves an uncapped estimate by exactly its own shift and leaves the confidence alone. |
| EstimateLaws.PlainIsBase | apps/traffic-estimator/src/traffic_estimator/estimator/heuristic.py:100-131 | Evidence without flags leaves a base that is not negative as it is. |
| EstimateLaws.NoSignals | apps/traffic-estimator/src/traffic_estimator/estimator/heuristic.py:88-98 | Without any signal, flag or absence the estimate is 3.0 for a reachable page, 2.5 for a name that resolves and 2.0 for neither. |
| EstimateLaws.HardCapsApply | apps/traffic-estimator/src/traffic_estimator/estimator/heuristic.py:100-113 | An unregistered, an unresolved and a parked site are held at their own cap, each exactly in its case. |
| EstimateLaws.AbsencesCap | apps/traffic-estimator/src/traffic_estimator/estimator/heuristic.py:126-131 | The absence caps in force hold the shifted estimate at the least of them. |
| EstimateLaws.AbsenceReadsLastRank | apps/traffic-estimator/src/traffic_estimator/estimator/heuristic.py:173-187 | An absence cap is the signal's curve at the list's last rank plus the tolerance, rounded. |
| EstimateLaws.ReadingsAre | apps/traffic-estimator/src/traffic_estimator/estimator/heuristic.py:67-73 | The readings are those of the signals whose feature is known, in order, each by its own curve, weight and kind. |
| EstimateLaws.BaseBalances | apps/traffic-estimator/src/traffic_estimator/estimator/heuristic.py:76-87 | The base is where the readings balance by weight; without a popularity signal it is held under the cap. |
| Estimator.AbsenceBounds | apps/traffic-estimator/src/traffic_estimator/estimator/heuristic.py:126-130 | Absence from a complete list bounds the final estimate, shifts included. |
| Estimator.HardCapsBound | apps/traffic-estimator/src/traffic_estimator/estimator/heuristic.py:100-131 | Parked, unregistered and unresolvable sites end at most at their cap plus the shifts. |
| Estimator.BaseBetweenSignals | apps/traffic-estimator/src/traffic_estimator/estimator/heuristic.py:74-87 | The weighted mean lies between the lowest and the highest signal; without a popularity signal it is at most the cap. |
| Estimator.WorseReadings | apps/traffic-estimator/src/traffic_estimator/estimator/heuristic.py:67-73 | With one feature worse and falling curves over it, the same signals are read and none is higher. |
| Estimator.WorseRankNeverHelps | apps/traffic-estimator/src/traffic_estimator/estimator/heuristic.py:62-171 | All else equal a worse rank on a falling curve raises neither the estimate, the visits nor the bucket. |

## Left out

- HTTP clients, routes, the browser, the egress proxy, the UI, sessions and crypto: input and output around the models.
- Postgres itself: tables are maps and a transaction is one step; `SKIP LOCKED` means a claim may take any claimable row that is not locked elsewhere.
- blake2b, gzip, memory mapping, regular expressions, URL parsing, host reversal, `deltaE` and html-to-text: functions left open.
- IEEE rounding: reals are exact, so the float `step` of the sitemap spread is the exact quotient.
- Reports of workers whose lease was taken over: excluded by the holder assumption where a theorem needs it.
- `reestimate`, the per-user limits on active jobs and API keys: the code does not make these atomic, so nothing rests on them.
- The collector cache, the collection log and the error texts of tasks and runs.
- The sweep's choice among more than 100 stale runs: any selection of at most 100 is covered.
- `brand-service` roles beyond clustering, `withSlot`, the address tables of the network policy and in-page scripts.
- Feature extraction, normalisation mappings, presenters and schemas: one-branch facts.
- Lone surrogates: texts are well-formed, as JSON bodies decoded from UTF-8 are; the decoder agrees with the platform's on cut well-formed text, the only input it gets.
- The notes and detail dictionaries of an estimate: they do not influence its numbers.
- The `discovered` and `errors` lists of the sitemap walk: kept, but nothing is claimed of them.
- CrawlSync.Engine.Poll: an assumption about the remote engine, not about this code; answers that skip or repeat documents are not covered.
- JobStore.Store.Others: any change of the job row by other actors that the lifecycle theorems allow; those theorems are in `JobLifecycle`.
- HostThrottle.HostThrottle.Wait: the spacing is not claimed for a host that was evicted from a full table, because the code forgets its last grant and its lock.
- RateLimiter.RateLimiter.Acquire: a penalty set while the caller already waits is not waited for, because the code reads it once; and nothing is claimed of other keys' buckets, which others use meanwhile.
