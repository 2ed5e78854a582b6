# GlacierVault: a Dafny model of its protocols

GlacierVault backs up to S3 Glacier Deep Archive with rustic and restores over days. This project models the
parts of it where several goroutines, a SQLite table, a shell wrapper and crashes have to agree, and proves what
holds of them over every input and every run.

| file | what it models |
|---|---|
| `Text.dfy`, `PathIndex.dfy` | string order, trimming, and the SQL select that browses a flat path index as a tree |
| `SubtreeSizer.dfy` | the restore dialog's recursive, paged size computation on top of that select |
| `WarmupPlan.dfy`, `DataPacks.dfy` | sizing of a Glacier warm-up, the time line it is for, and the count of data packs it starts from |
| `WarmupWrapper.dfy` | the wrapper script: batch counter, expiry, retry loop, completion sentinel |
| `RestoreHook.dfy` | rows of `restore_jobs`, their statements, and the hook on the output of a restore process |
| `RestoreLifecycle.dfy` | restore jobs over whole runs with crashes at any step, as a state machine |
| `RestoreManager.dfy` | the restore manager's own code, each method a run of that machine |
| `BackupJobs.dfy` | backup workers, deploy jobs, cancel requests, crash and startup repair on one table |
| `Indexing.dfy` | background indexing behind a shared map of progress handles |
| `KeyCustody.dfy` | provisioning and rotation of the CloudFront signing key with failures after any step |
| `LogBuffer.dfy` | the log ring buffer and the polling streamer |
| `LoginLimiter.dfy` | the login rate limiter under interleaved requests |
| `JsonPaths.dfy`, `SchedulerPaths.dfy` | two hand-written JSON printers or parsers against their counterparts |

The protocols share one shape. `State` holds the table and the processes; an `Event` is one statement, one call
or one step of the outside world; `Enabled` and `Apply` say what it does; `Run` and `Final` are whole runs; an
invariant is kept by every step, and the main lemmas follow for every reachable state. Where the source changes
state step by step there are also classes: their methods keep a ghost copy of the machine, and their contracts say
that the real fields equal its fields and that the machine got there by a run (`Reaches`), so every lemma about
reachable states applies to what the methods leave behind.

Rows of the database are values in a map; an `UPDATE ... WHERE` is one atomic step; a transaction is all or
nothing. A statement is lost only where the model says so: restore statements issued under an expired deadline,
an interrupted cancel request, a failed startup repair, and any step of indexing or provisioning.

## What the code does and what its documentation says

- Restores that were interrupted are re-run in full, as docs/design.md:237-258 says. docs/workflow.md:84-106 still
  describes re-attaching to the batch job and a gap for several batches; the code has neither.
- docs/design.md:242 gives "nothing was submitted" as the reason to fail rows without a batch job. This holds until
  a job is resumed again (`BatchKeptUntilResumed`). A resumed worker clears the recorded ID first, so a second crash
  before the tool reports the next one fails the row although a batch was submitted (`SecondCrashForgets`): restarts
  alone fail such a row exactly if there are two or more of them (`TwoCrashesExact`). It is exactly between a resume
  and its clearing that a recorded ID can get lost (`BatchLostExact`).
- The reconciliation query and the server start without waiting for each other. That the query comes first is
  needed for finished rows to stay finished (`BarrierExact`); a finished row can be reopened exactly while a worker
  that can still write is on it or about to be started (`ReopenExact`).
- When the overall deadline passes after rustic has finished, the status `completed` is not written but the notice
  is sent; the row stays open, without a worker, until the next restart (`OneWorkerEach`, `DoneNotices`).
- Listing children uses Go's byte length as a character offset. A listing is the tree exactly if every first name
  below the prefix that has something below it is as long as the prefix has bytes in excess of characters
  (`ListingIsTree`); it is so for all paths exactly if the prefix has at most one such byte (`SqlChildExact`). File
  names do not matter. A directory with a shorter name is shown next to what it holds, so the size dialog counts its
  files more than once, and never too few (`WalkExact`, `MetOnceExact`; `ShortNamesCountTwice` is such an index).
- The dialog does not look for overlaps in a selection. With long enough names its results are right exactly if no two
  selected paths cover the same file that weighs something, and else too high (`SizeExactIffDisjoint`).
- A single batch gets one day of expiry and no download headroom. Its copies outlive the download exactly if the
  configured rate moves all data packs within a day (`SingleBatchSafeExact`); several batches always do.
- The sentinel is never printed when a restore needs fewer batches than planned (`SentinelExact`).
- When counting the data packs fails, the plan falls back to one batch. Every batch then gets one day, the sentinel
  comes after the first one (`Wrapper.Invoke`), and only the last batch's copies are safe, and only if the rate moves
  all data packs within a day (`FallbackExact`).
- A log stream stops for good at 1000 lines and is not closed for cancelled jobs (`StreamExact`, `Stream.Tick`).
- Provisioning runs are assumed to come one after the other; the code does not ensure it, and it is needed
  (`SerialExact`). Overlapping runs never mix up key and ID (`PairForever`), and can break the trust in a stored key
  exactly while one of them is still to attach or store another (`OverlapExact`). A fresh run that dies between
  claiming its first unique name and tagging the distribution strands the account (`StrandedForever`, `Strands`).
- Stored restore paths read back exactly if they have no backslash and no control character (`RoundTripExact`); what
  json.Marshal writes always does (`MarshalReadsBack`). The scheduler's parser needs more (`ParseExact`).

## Model

| member | source | states |
|---|---|---|
| PathIndex.RangeIsPrefix | api/internal/server/router.go:1076-1078 | for any two strings the range test selects exactly the extensions of the prefix that do not go on with the largest character |
| Text.LessExact | api/internal/server/router.go:1076-1085 | the order of paths is decided at the first difference by code point, a proper prefix coming first |
| Text.BytesExact | api/internal/server/router.go:1062-1085 | comparing the UTF-8 bytes of two texts, as SQLite does, gives the same answer as comparing their characters, and the byte length used as an offset is that of the encoding |
| PathIndex.SqlChildCut | api/internal/server/router.go:1062-1074 | where the select cuts any path: at the first slash at least as many characters in as the prefix has bytes |
| PathIndex.SqlChildExact | api/internal/server/router.go:1062-1074 | the computed child is the tree's child for all well-formed paths below a directory exactly if the prefix has at most one byte more than characters |
| PathIndex.SqlChildFits | api/internal/server/router.go:1062-1074 | for any one path: the computed child is the tree's exactly if the first name below the prefix is the last or not shorter than the prefix's excess bytes |
| PathIndex.SqlChildBelow | api/internal/server/router.go:1071-1074 | for any prefix and path the computed child lies strictly below the prefix, on the way to the path, and is its own child |
| PathIndex.GroupDirExact | api/internal/server/router.go:1063-1082 | for any well-formed index and prefix a group is a directory exactly if its own row says so or some row of it lies deeper |
| PathIndex.GroupOwnFields | api/internal/server/router.go:1063-1082 | for any well-formed index and prefix size and time are those of the child's own row, and zero and empty if it has none |
| PathIndex.ListingHolds | api/internal/server/router.go:1063-1086 | for any well-formed index and prefix the result has all directories before all files, each part ordered by path, without repeats, and holds exactly the children that the paths below are cut to |
| PathIndex.ListingIsTree | api/internal/server/router.go:1063-1086 | the result is the tree's set of first components with its kinds, sizes and times exactly if every path below fits the prefix |
| PathIndex.NarrowFits | api/internal/server/router.go:1062 | a prefix with at most one byte more than characters fits every path |
| PathIndex.PagesArePrefix | api/internal/server/router.go:1086-1087 | pages put together are the listing, for any page size and number of pages |
| PathIndex.ScanRows | api/internal/server/router.go:1090-1106 | the scan keeps every row in order and takes the total from the last one, 0 without rows |
| PathIndex.ListSnapshotChildren | api/internal/server/router.go:1048-1107 | clamped limit and offset; the children are that page of the listing and the total is its length on every non-empty page |
| Text.TrimExact | api/internal/server/router.go:993-996 | trimming strips off both ends what is to be trimmed, all of it, and nothing else |
| Text.TrimAfterTrimRight | api/internal/server/router.go:993-996 | trimming on both ends undoes what the client did to the prefix |
| SubtreeSizer.ChildrenAddUp | api/internal/server/router.go:1063-1086 | for any well-formed index, prefix and weight: what walking the children adds is each file's weight once for every time it is met |
| SubtreeSizer.MeetsAll | frontend/components/RestoreConfirmDialog.tsx:27-45 | every file below the prefix is met |
| SubtreeSizer.MetOnceStep | frontend/components/RestoreConfirmDialog.tsx:34-41 | a file is met once exactly if no stored directory within the prefix's excess bytes leads to it as well, and its main child meets it once |
| SubtreeSizer.MetOnceExact | frontend/components/RestoreConfirmDialog.tsx:27-45 | a file is met once if all directory names on its way are as long as the excess bytes before them, and, with all directories stored, only then |
| SubtreeSizer.ShortNamesCountTwice | frontend/components/RestoreConfirmDialog.tsx:27-45 | a well-formed index with all its directories, one of them with a one-letter name below two two-byte letters, in which a walk counts a file at least twice |
| SubtreeSizer.NarrowDirsAreLong | api/internal/server/router.go:1062 | directories with at most one byte more than characters have names long enough, whatever their files are called |
| SubtreeSizer.WalkExact | frontend/components/RestoreConfirmDialog.tsx:27-45 | for any weight a walk never adds too little, and adds what is strictly below the path exactly if it meets every file that weighs something once |
| SubtreeSizer.NormsCompose | frontend/components/RestoreConfirmDialog.tsx:28 | client and server normalization together denote the trimmed path as a directory |
| SubtreeSizer.NormSelects | api/internal/server/router.go:993-996 | a request without a prefix is about every stored path, any other about the paths strictly below the directory it denotes |
| SubtreeSizer.RootShowsAll | api/internal/server/router.go:993-1034 | for any well-formed index the request without a prefix lists the tree's top level, one child above or at every row |
| SubtreeSizer.Sizer.GetSnapshotFiles | api/internal/server/router.go:962-1034 | not ready exactly while indexing; else exactly the rows from the offset on, up to the clamped limit, of the listing of the root without a prefix and of the trimmed directory with one, and the total |
| SubtreeSizer.Sizer.WalkPage | frontend/components/RestoreConfirmDialog.tsx:34-41 | one page adds exactly the shares of its rows |
| SubtreeSizer.Sizer.WalkPages | frontend/components/RestoreConfirmDialog.tsx:29-44 | the paging loop ends and adds the shares of all children, once each; without an index the first request fails and nothing changes |
| SubtreeSizer.Sizer.WalkDir | frontend/components/RestoreConfirmDialog.tsx:27-45 | for any well-formed index terminates and adds count and bytes of the files strictly below, each as often as it is met, at any depth and page size; fails exactly while the index is not ready |
| SubtreeSizer.Sizer.RecursiveSize | frontend/components/RestoreConfirmDialog.tsx:18-58 | the totals count every file once for each selected known file it is and each time a selected walk meets it; without an index it works out exactly if all selected paths are loaded files, and adds their sizes |
| SubtreeSizer.HitsExact | frontend/components/RestoreConfirmDialog.tsx:18-57 | for any well-formed index sizing one selected path counts a file exactly if the path is that file, loaded, or any directory above it, and once if it is the file or the directory names on the way are long enough; with all directories stored, only then |
| SubtreeSizer.TimesCovered | frontend/components/RestoreConfirmDialog.tsx:47-57 | a selection counts a file exactly if one of its paths covers it, more than once if two do, and at most once if no two do and the one that does meets it once; with all directories stored, only then |
| SubtreeSizer.SizeExactIffDisjoint | frontend/components/RestoreConfirmDialog.tsx:47-57 | for any well-formed index, selection and weight, count and bytes alike: the total is never below that of the files covered; if all directory names are long enough it equals that exactly if no two selected paths cover the same file that weighs something; in general it does if, and with all directories stored only if, each such file is covered at most once and met once |
| SubtreeSizer.DisjointCoversOnce | frontend/components/RestoreConfirmDialog.tsx:47-57 | if the directory names are long enough, selections of which none equals or contains another count every file they cover once and no other |
| SubtreeSizer.DisjointSizeAddsUp | frontend/components/RestoreConfirmDialog.tsx:18-58 | so for them, with long enough directory names, both totals are those of the files covered |
| WarmupPlan.CeilDiv | api/internal/restore/warmup_plan.go:62-70 | the quotient rounded up: the least multiple that covers |
| WarmupPlan.BatchCount | api/internal/restore/warmup_plan.go:55-65 | at least one batch, all but the last with 1000 of the given data packs |
| WarmupPlan.PlanMonotone | api/internal/restore/warmup_plan.go:55-95 | more data packs never mean fewer batches, less headroom, a shorter timeout or an earlier expiry of any batch |
| WarmupPlan.TimeoutExact | api/internal/restore/warmup_plan.go:76 | the int64 nanosecond duration is the planned number of hours exactly up to 2562047 hours |
| WarmupPlan.SlackIsADay | api/internal/restore/warmup_plan.go:80-95 | with several batches the worst case leaves at least one day and less than two |
| WarmupPlan.CopiesSurvive | api/internal/restore/warmup_plan.go:80-95 | in every in-SLA restore of any part of the planned data packs every copy no further ahead of its batch than the slack outlives the download |
| WarmupPlan.ProtectsExact | api/internal/restore/warmup_plan.go:80-95 | a copy thawed a given time ahead of its batch survives all in-SLA restores exactly if that time is at most the slack |
| WarmupPlan.SeveralBatchesSafeAndTight | api/internal/restore/warmup_plan.go:80-95 | for more than 1000 given data packs every copy lives a day past the end of the download; with two days less the slowest restore loses it |
| WarmupPlan.SingleBatchSafeExact | api/internal/restore/warmup_plan.go:67-70 | up to 1000 given data packs get one batch, one day and 96 hours, and the copies are safe exactly if the rate moves all of them within a day |
| WarmupPlan.KeepsAllExact | api/internal/restore/warmup_plan.go:55-95 | every in-SLA restore of at most the given number of data packs, in batches of 1000, keeps all its copies until they are downloaded exactly if there are more than 1000 or the rate moves them within a day |
| WarmupPlan.SingleBatchExamples | api/internal/restore/warmup_plan.go:27 | a full batch is safe at the default rate and not at 100 GB a day |
| WarmupPlan.DeadlineMargin | api/internal/restore/warmup_plan.go:76 | every in-SLA restore of at most the planned batches and data packs ends at least 24 hours a batch, 72 for each it did not need, plus the slack before the timeout; the slowest one leaves no more |
| WarmupPlan.FallbackExact | api/internal/restore/restore.go:216-223 | under the plan of a failed count every batch gets one day, and a copy survives all in-SLA restores exactly if its batch is the last and the rate moves all data packs within a day |
| DataPacks.Counter.AddDataPacks | api/internal/engine/rustic.go:791-810 | adds exactly the non-empty IDs with a data blob, nothing on a parse error |
| DataPacks.DataIdsExact | api/internal/engine/rustic.go:791-810 | the IDs counted are exactly the non-empty ones of packs that some document shows with a blob of type data |
| DataPacks.CountDataPacks | api/internal/engine/rustic.go:819-842 | the number of distinct data packs over all documents, and exactly when it fails |
| DataPacks.CountIsOfASet | api/internal/engine/rustic.go:819-842 | order and repetition of documents do not matter, and more documents never lower the count |
| DataPacks.PlannedFromTheIndex | api/internal/restore/warmup_plan.go:34-38 | sizing by the index gives each batch of any part of it at least the expiry and time its own size would |
| WarmupWrapper.WatchUntil | docker/glaciervault-warmup.sh:104-133 | the retry loop succeeds exactly if the batch thaws by the end of its last watch |
| WarmupWrapper.ExitExact | docker/glaciervault-warmup.sh:104-133 | for any tool the exit status is decided by the first attempt that does not time out: 0 exactly if it succeeds, its own status if it fails, 1 if there is none |
| WarmupWrapper.NeverGivesUpInSla | docker/glaciervault-warmup.sh:104-133 | three watches of the batch's expiry always cover the 48-hour thaw |
| WarmupWrapper.Wrapper.NextBatch | docker/glaciervault-warmup.sh:77-92 | the batch number is the number of maximal runs of equal key sets so far |
| WarmupWrapper.Wrapper.Invoke | docker/glaciervault-warmup.sh:77-133 | one invocation: the planner's expiry for its batch, the retry loop's exit status, and the sentinel exactly on success from the last planned batch on |
| WarmupWrapper.RunsStep | docker/glaciervault-warmup.sh:85-89 | the number goes up by one exactly when the key set changes |
| WarmupWrapper.RepeatsKeepNumbers | docker/glaciervault-warmup.sh:85-89 | the k-th distinct batch gets number k however often each is repeated in a row |
| WarmupWrapper.EarlierSucceeded | docker/glaciervault-warmup.sh:106-119 | if rustic goes on only after success, every earlier batch has succeeded |
| WarmupWrapper.SentinelExact | docker/glaciervault-warmup.sh:110-117 | the sentinel is printed exactly if every planned batch has succeeded, and never if the restore needs fewer |
| RestoreHook.FindUuid | api/internal/restore/resume.go:29 | the leftmost match of the pattern |
| RestoreHook.UuidAtExact | api/internal/restore/resume.go:29 | the pattern written out: groups of 8, 4, 4, 4 and 12 hex digits of either case with dashes in between, and no word character at either end |
| RestoreHook.MentionsExact | api/internal/restore/resume.go:33-38 | a line passes the check exactly if it spells job somewhere, in whatever case |
| RestoreHook.BatchJobID | api/internal/restore/resume.go:33-38 | non-empty exactly if the line mentions a job and holds a UUID, and then the leftmost one |
| RestoreHook.ClassifyExact | api/internal/restore/resume.go:55-67 | the sentinel comes first; other lines report a job exactly if they mention one and hold a UUID, with the leftmost as ID |
| RestoreHook.JobTable.SetStatus | api/internal/restore/restore.go:434-437 | an unguarded status update of one row |
| RestoreHook.JobTable.RecordBatch | api/internal/restore/resume.go:68-76 | first write wins: ID and status change only while no ID is stored |
| RestoreHook.JobTable.ClaimNotice | api/internal/restore/resume.go:136-145 | the claim succeeds exactly once |
| RestoreHook.JobTable.Stamp | api/internal/restore/restore.go:143 | completed_at is set if the statement goes through |
| RestoreHook.JobTable.ClearBatch | api/internal/restore/resume.go:183-186 | the stored ID is forgotten, nothing else |
| RestoreHook.LineHook.NotifyWarmupOnce | api/internal/restore/resume.go:132-147 | a notification goes out exactly if the claim was free |
| RestoreHook.LineHook.Call | api/internal/restore/resume.go:55-79 | one line changes row, captured ID and notifications as the specification does |
| RestoreHook.LineHook.Attempt | api/internal/engine/rustic.go:175-189 | a whole output is folded line by line in order |
| RestoreHook.IdsAfter | api/internal/restore/resume.go:65-71 | after any number of lines the captured ID is that of the first report and the stored one that of the first recorded report |
| RestoreHook.IdsAgreeExact | api/internal/restore/resume.go:53-80 | captured and stored ID agree throughout exactly if the first report is recorded |
| RestoreHook.StatusExact | api/internal/restore/resume.go:55-79 | after any number of lines the status is retrieval complete exactly if a sentinel went through since the first recorded report, or at all without one; else in progress from that report on, and untouched before it |
| RestoreHook.StoredForGood | api/internal/restore/resume.go:68-71 | a stored ID never changes, and from then on the status only moves forward |
| RestoreHook.ForwardExact | api/internal/restore/resume.go:53-80 | the status of an attempt never moves backward exactly if no sentinel goes through before the first recorded report |
| RestoreHook.OneNotice | api/internal/restore/resume.go:56-60 | the notifications of an attempt are exactly one, with the ID of the first report before the first sentinel, if a sentinel came and none was sent before, and else none |
| RestoreLifecycle.StepGood | api/internal/restore/restore.go:63-149 | every step of workers, requests, reconciliation and crashes keeps the invariant |
| RestoreLifecycle.TerminalForever | api/internal/restore/restore.go:63-149 | completed and failed rows never change again, but for the snapshot link, over every run with crashes at any step |
| RestoreLifecycle.OneWorkerEach | api/internal/restore/resume.go:88-127 | after reconciliation a row is open exactly if one live worker is on it or its last status was lost, never both; no row has two workers |
| RestoreLifecycle.ReconcileOutcome | api/internal/restore/resume.go:88-127 | from every restart to the end of its reconciliation, however often a job was resumed before: open rows without a batch job end up failed, for each open row with one exactly one more worker is started and for no other, and a row still open has a live worker or lost its last status |
| RestoreLifecycle.RecallExact | api/internal/restore/resume.go:162-182 | a resumed worker recalls exactly what was asked if and only if the snapshot has not been deleted and the paths are clean, and nothing at all without the snapshot |
| RestoreLifecycle.RunsAsAsked | api/internal/restore/resume.go:187-190 | every run of rustic, first or resumed, does exactly what was asked for clean paths |
| RestoreLifecycle.OneWarmNotice | api/internal/restore/resume.go:129-147 | at most one warm-up notification per job over any number of crashes, resumes and sentinels |
| RestoreLifecycle.DoneNotices | api/internal/restore/restore.go:143-148 | a job with a completion notice is completed and has one notice, unless the deadline swallowed its last status |
| RestoreLifecycle.NoticesSent | api/internal/restore/restore.go:143-148 | without a crash no notice is left out: once no worker is on a job its warm-up notification went out exactly if it was claimed, and a completed job has its completion notice |
| RestoreLifecycle.NothingLost | api/internal/restore/restore.go:95-98 | without an expired deadline no last status is lost |
| RestoreLifecycle.BatchKeptUntilResumed | api/internal/restore/resume.go:110-118 | a recorded batch job stays recorded until the job's next resume, in whatever incarnation it was recorded |
| RestoreLifecycle.BatchLostExact | api/internal/restore/resume.go:162-187 | without a further resume a recorded batch job can get lost exactly if a resumed worker that can read the row has not cleared it yet |
| RestoreLifecycle.SecondCrashForgets | api/internal/restore/resume.go:183-187 | any reachable open row with a recorded batch job, a snapshot and readable paths is taken to failed by a run of exactly two crashes and what follows them: the query, its triage, and the resumed worker up to clearing the batch |
| RestoreLifecycle.TwoCrashesExact | api/internal/restore/resume.go:88-187 | with the reconciliation done and no worker about to clear such a row, runs of crashes, queries, triage and resumed workers up to clearing can take it to failed exactly if they have two crashes or more |
| RestoreLifecycle.BarrierExact | api/cmd/server/main.go:69-72 | finished rows stay finished over all runs exactly if no request is served before the reconciliation query |
| RestoreLifecycle.ReopenExact | api/cmd/server/main.go:69-72 | from any state, with or without that order, some run reopens a finished row exactly if a worker that can still write an open status is on it or about to be started |
| RestoreManager.AttemptExact | api/internal/restore/restore.go:88-149 | an attempt completes an open row exactly if preparing, rustic and the deadline all work out, and never fails it by itself; completed_at is set exactly if rustic succeeds and that statement is in time, and no column but status, ID and claim changes otherwise |
| RestoreManager.AttemptShows | api/internal/restore/restore.go:128-149 | the ID, the claim and the status that an attempt leaves in a row without a batch job, from its output and deadline alone |
| RestoreManager.ReconcileExact | api/internal/restore/resume.go:103-119 | reconciliation fails exactly the open rows without a batch job, resumes exactly the others, once each, and leaves finished rows alone |
| RestoreManager.Manager.Initiate | api/internal/restore/restore.go:63-86 | a new row with the encoded paths, and a worker for it |
| RestoreManager.Manager.RunRestore | api/internal/restore/restore.go:133-139 | the output goes through the hook line by line, statements after the deadline being lost |
| RestoreManager.Manager.WarmAndDownload | api/internal/restore/restore.go:128-141 | first status, then rustic with a fresh hook |
| RestoreManager.Manager.Conclude | api/internal/restore/restore.go:143-148 | completed_at, the last status if in time, and the notice in any case |
| RestoreManager.Manager.Run | api/internal/restore/restore.go:88-149 | the whole row after an attempt as a function of the outside world, reached by a run of the machine |
| RestoreManager.Manager.RunOrFail | api/internal/restore/restore.go:77-83 | an error of the attempt becomes status failed |
| RestoreManager.Manager.Fail | api/internal/restore/restore.go:79-82 | the row is failed whatever the deadline, and the worker is gone |
| RestoreManager.Manager.ResumeAfterRestart | api/internal/restore/resume.go:162-191 | failed if snapshot or paths are gone, else another attempt on the row without its batch job |
| RestoreManager.Manager.TriageOne | api/internal/restore/resume.go:103-119 | one interrupted row: failed, or served by a new worker |
| RestoreManager.Manager.ReconcileInterruptedJobs | api/internal/restore/resume.go:88-127 | the scan loop marks and resumes as specified, for any order of the rows |
| BackupJobs.StepKeeps | api/internal/scheduler/scheduler.go:163-228 | every step of workers, cancel requests, deploy jobs, crash and repair keeps the invariant |
| BackupJobs.TerminalForever | api/internal/scheduler/scheduler.go:213-223 | a row leaves running at most once over every interleaving |
| BackupJobs.EndsAsRan | api/internal/scheduler/scheduler.go:186-223 | over every interleaving a row is completed only if its run succeeded, and failed only if its run failed or a restart interrupted it |
| BackupJobs.EndsExact | api/internal/scheduler/scheduler.go:186-223 | in a run without crashes a job that nobody asks to cancel leaves running as completed if its run succeeded and as failed if it did not |
| BackupJobs.CancelForever | api/internal/server/router.go:847-868 | a request answered 200 means the row is cancelled for good and every goroutine on the job has its context cancelled |
| BackupJobs.KillsWorkers | api/internal/engine/cancel.go:42-53 | killing reaches every goroutine that still works on the job |
| BackupJobs.NoticeMeansCompleted | api/internal/scheduler/scheduler.go:218-227 | completion notices are for rows that are and stay completed, at most one each |
| BackupJobs.RunningIsWorked | api/cmd/server/main.go:74-82 | while the server is up a running row has exactly one goroutine before its update, unless a failed repair left it |
| BackupJobs.NeverStuck | api/cmd/server/main.go:78-82 | if every startup repair goes through no row is left behind |
| BackupJobs.DeployNeedsNoGuard | api/internal/server/router.go:392-528 | a deploy job is never registered and its row is running when it writes, so its update equals a guarded one; for a cancellable job it would not |
| BackupJobs.CancelRegistry.RegisterCancel | api/internal/engine/cancel.go:21-25 | the entry is added, no other changes |
| BackupJobs.CancelRegistry.UnregisterCancel | api/internal/engine/cancel.go:28-32 | the entry is removed, no other changes |
| BackupJobs.CancelRegistry.HasCancel | api/internal/engine/cancel.go:35-40 | whether there is an entry |
| BackupJobs.CancelRegistry.CancelJob | api/internal/engine/cancel.go:44-53 | cancels exactly the registered context and keeps the entry |
| BackupJobs.Server.CreateJob | api/internal/server/router.go:736-748 | a new running row under an unused number, and its goroutine |
| BackupJobs.Server.FinishDeploy | api/internal/server/router.go:518-527 | the deploy job's row was still running, and now is completed on success and failed with a note on an error |
| BackupJobs.Server.UpdateRunning | api/internal/scheduler/scheduler.go:213-224 | the guarded update and its number of affected rows |
| BackupJobs.Server.RepairAtStart | api/cmd/server/main.go:74-82 | all rows left running become failed and marked as interrupted, others stay, or nothing changes |
| BackupJobs.Server.HandleCancelJob | api/internal/server/router.go:847-868 | 200 exactly if registered and running, then marked and killed; else 409 and nothing changes |
| BackupJobs.Server.RunBackup | api/internal/server/router.go:745-781 | with a cancel request in between the row ends cancelled, without a notice and killed; without one it ends failed with the error if rustic failed, else completed with a notice, and with a note if the catalog sync failed |
| BackupJobs.Server.Finish | api/internal/scheduler/scheduler.go:186-228 | a running row becomes completed or failed as rustic ended, with its note; any other row stays; the entry is gone in any case |
| BackupJobs.Server.Announce | api/internal/server/router.go:769-780 | one notice, and a failed sync changes the note of a run-now job and nothing else |
| Indexing.StepGood | api/internal/catalog/indexprogress.go:74-149 | every step of any number of jobs, callers, failures and crashes keeps the invariant |
| Indexing.OneJobEach | api/internal/catalog/indexprogress.go:74-94 | at most one job works for a snapshot, and its handle is the mapped one |
| Indexing.AllOrNothing | api/internal/catalog/indexprogress.go:96-149 | stored rows are none or exactly one full listing, and once there stay, over retries and crashes |
| Indexing.HandlesTellTheTruth | api/internal/catalog/indexprogress.go:82-92 | a handle finished without error means the rows are committed; one finished with an error is not handed out again |
| Indexing.ProgressExact | api/internal/catalog/indexprogress.go:107-148 | over every run a handle shows how many entries are listed, then the last full thousand of rows inserted, and after success either all of them or that there was nothing to do |
| Indexing.EnsureGivesLiveHandle | api/internal/catalog/indexprogress.go:74-94 | every caller gets a handle that is successfully finished or whose job still works |
| Indexing.IndexProgress.Set | api/internal/catalog/indexprogress.go:22-30 | changes stage and count only |
| Indexing.IndexProgress.Finish | api/internal/catalog/indexprogress.go:42-50 | finishes with the error and keeps the progress |
| Indexing.Catalog.EnsureIndexing | api/internal/catalog/indexprogress.go:74-94 | a mapped handle is returned as it is; else a fresh one is mapped and its job started |
| Indexing.Catalog.ListFiles | api/internal/catalog/indexprogress.go:107-115 | the full listing, counted live, or failure |
| Indexing.Catalog.InsertAll | api/internal/catalog/indexprogress.go:117-148 | all entries in order are committed, or no row changes; exactly when it fails |
| Indexing.Catalog.IndexSnapshot | api/internal/catalog/indexprogress.go:99-149 | rows become the full listing unless they were there; exactly when it fails, and then nothing is stored |
| Indexing.Catalog.IndexJob | api/internal/catalog/indexprogress.go:82-92 | the handle always finishes, and the entry is dropped exactly on failure |
| KeyCustody.StepKeeps | api/internal/cloudfront/provision.go:69-149 | every step, refused or with its answer lost, keeps the invariant, a stored key and its ID |
| KeyCustody.Custody | api/internal/cloudfront/rotate.go:23-124 | over all serial runs: stored ID and private key are of one pair that the only managed distribution trusts, enabled means complete, and a stored key never changes, even with unreliable lookups |
| KeyCustody.IdentifiersKept | api/internal/cloudfront/store.go:50-95 | however runs overlap and fail no stored identifier is ever lost, and the stored domain is that of the stored distribution |
| KeyCustody.ReuseKeeps | api/internal/cloudfront/store.go:68-73 | runs that find a distribution leave the stored access control and cache policy as they were, whatever goes wrong |
| KeyCustody.RecoveryExact | api/internal/cloudfront/rotate.go:17-44 | an undisturbed run ends with a usable key exactly if a managed distribution exists or no fresh run came to its first unique name, whether or not access controls and cache policies need unique names too |
| KeyCustody.StrandedForever | api/internal/cloudfront/provision.go:100-130 | otherwise no later run of any kind, overlapping or failing, ever ends with a usable key |
| KeyCustody.Strands | api/internal/cloudfront/provision.go:100-130 | such accounts are reached by serial runs, with unique names for access controls or without: the first fresh run stops after its public key, and no later run ever ends with a usable key |
| KeyCustody.SerialExact | api/internal/server/cloudfront.go:58-68 | the stored key is always trusted exactly if runs do not overlap |
| KeyCustody.PairForever | api/internal/cloudfront/rotate.go:72-92 | however runs overlap there is one managed distribution and the stored ID is that of the stored key's pair |
| KeyCustody.OverlapExact | api/internal/cloudfront/rotate.go:94-123 | overlapping runs can break the trust in a stored key exactly while one of them is to attach or store another key group than the trusted one |
| KeyCustody.Provisioner.CreatePublicKey | api/internal/cloudfront/provision.go:223-236 | a public key under a unique name, or nothing |
| KeyCustody.Provisioner.CreateKeyGroup | api/internal/cloudfront/provision.go:238-250 | a key group under a unique name, or nothing |
| KeyCustody.Provisioner.CreatePlain | api/internal/cloudfront/provision.go:207-221 | an identifier under a name that the account may keep unique, or nothing |
| KeyCustody.Provisioner.CreateDistribution | api/internal/cloudfront/provision.go:284-330 | an untagged distribution that trusts the key group |
| KeyCustody.Provisioner.TagResource | api/internal/cloudfront/provision.go:338-347 | the distribution becomes the managed one |
| KeyCustody.Provisioner.UpdateTrust | api/internal/cloudfront/rotate.go:94-113 | the distribution's trusted key group is replaced |
| KeyCustody.Provisioner.Merge | api/internal/cloudfront/store.go:55-73 | each of the six fields is the new one if there is one, else the stored one |
| KeyCustody.Provisioner.Compose | api/internal/cloudfront/store.go:50-86 | the row to save, field by field and enabled; refused exactly without a domain, an ID or a key |
| KeyCustody.Provisioner.Save | api/internal/cloudfront/store.go:50-95 | that row is written unless it is refused or the statement fails, and then nothing changes |
| KeyCustody.Provisioner.Disable | api/internal/cloudfront/store.go:99-102 | only the flag changes |
| KeyCustody.Provisioner.CreateAll | api/internal/cloudfront/provision.go:95-140 | a fresh run: ready to persist its new key with the identifiers it made, each in its field, or over |
| KeyCustody.Provisioner.CreateTagged | api/internal/cloudfront/provision.go:127-140 | its second half, from the distribution on, with the identifiers in their fields |
| KeyCustody.Provisioner.RotateKey | api/internal/cloudfront/rotate.go:56-124 | a new key pair and group on the distribution found, ready to persist, or the run is over |
| KeyCustody.Provisioner.Attach | api/internal/cloudfront/rotate.go:94-123 | its second half: the trust replaced and the bucket policy ensured |
| KeyCustody.Provisioner.EnsureReady | api/internal/cloudfront/rotate.go:23-44 | a fresh distribution with its key, the one found without a key if one is stored, or with a rotated key: ready to persist or over; undisturbed it follows the specification of an undisturbed run |
| KeyCustody.Provisioner.Reuse | api/internal/cloudfront/rotate.go:29-44 | its second half: the distribution found and nothing else if a key is stored, else with a new ID and group |
| KeyCustody.Provisioner.ProvisionAndSave | api/internal/server/cloudfront.go:66-91 | a whole run is a run of the machine, and an undisturbed one ends where the recovery lemma says; a reusing run leaves access control and cache policy, a fresh one that works stores all it made |
| LogBuffer.SlotOf | api/internal/engine/rustic.go:40-52 | reading from the oldest slot visits the log positions in order |
| LogBuffer.RingBuffer.Write | api/internal/engine/rustic.go:33-38 | the line is appended to the abstract log |
| LogBuffer.RingBuffer.Lines | api/internal/engine/rustic.go:40-52 | exactly the last min(writes, capacity) lines in order |
| LogBuffer.StreamExact | api/internal/server/router.go:883-908 | for every interleaving of writes and polls the stream is an in-order, repeat-free part of the log of at most capacity lines; a poll adds exactly the lines the buffer shows from the number sent on, and makes it all of the log exactly if no more than capacity were written |
| LogBuffer.Stream.Tick | api/internal/server/router.go:883-908 | one tick sends the lines of the buffer from the number sent on, is one poll, and closes on completed and failed only |
| LoginLimiter.CleanupExact | api/internal/auth/ratelimit.go:113-116 | deleting up to a cutoff changes no count exactly if the cutoff spares what the count looks at |
| LoginLimiter.FailuresExact | api/internal/auth/ratelimit.go:73-78 | the count is the number of the address's failures after the given time |
| LoginLimiter.CleanupMembers | api/internal/auth/ratelimit.go:113-116 | exactly the attempts from the cutoff on are kept, as often as they were there |
| LoginLimiter.CleanupChangesNoAnswer | api/internal/auth/ratelimit.go:113-116 | no later answer changes, even with the cutoff in local time far ahead of UTC |
| LoginLimiter.RateLimiter.IsLockedOut | api/internal/auth/ratelimit.go:69-101 | locked exactly with at least five failures after 900 seconds ago, and the remaining time reaches to the end of the last failure's lockout |
| LoginLimiter.RateLimiter.RecordAttempt | api/internal/auth/ratelimit.go:104-117 | the attempt is added and the table cleaned up |
| LoginLimiter.WindowBound | api/internal/server/router.go:150-189 | with at most c requests of an address open at once no 15-minute window holds more than 4 + c of its failures, 5 when handled one at a time |
| LoginLimiter.WindowReached | api/internal/server/router.go:150-189 | and for every c some run reaches that bound |
| LoginLimiter.LockoutEnds | api/internal/auth/ratelimit.go:82-100 | whatever a locked address with no request still open sends, it has been unlocked by the time it was told |
| JsonPaths.ToJSONArray | api/internal/restore/restore.go:446-461 | the builder loop prints the specified text |
| JsonPaths.ReadsClean | api/internal/restore/resume.go:178-182 | reading a string undoes the escaping of every clean path |
| JsonPaths.OnlyCleanReadsBack | api/internal/restore/resume.go:178-182 | a path that reads back was clean |
| JsonPaths.RoundTripExact | api/internal/restore/restore.go:446-461 | decoding the stored text gives the list back exactly if no path has a backslash or control character; quotes need no exception |
| JsonPaths.TrailingBackslashFails | api/internal/restore/restore.go:457 | a path ending in a backslash does not survive |
| SchedulerPaths.SplitJSON | api/internal/scheduler/scheduler.go:271-290 | the loop yields the pieces between the commas at depth 0 |
| SchedulerPaths.TrimQuotes | api/internal/scheduler/scheduler.go:292-300 | the two loops strip exactly the quotes at both ends |
| SchedulerPaths.ParseJSONStringArray | api/internal/scheduler/scheduler.go:255-269 | the kept, trimmed pieces of the text between the brackets |
| SchedulerPaths.JoinSplit | api/internal/scheduler/scheduler.go:271-290 | for every string, joining the pieces with commas gives the string back |
| SchedulerPaths.SplitPieces | api/internal/scheduler/scheduler.go:271-290 | and every piece has its commas inside brackets, and all but the last close what they open |
| SchedulerPaths.SurvivorsParse | api/internal/server/router.go:1386-1389 | the parser inverts the server's encoding on surviving paths |
| SchedulerPaths.SurvivesExact | api/internal/scheduler/scheduler.go:271-300 | a path survives exactly if it is not empty, has no character the encoder escapes, has no comma where as many brackets were closed as opened, and closes all it opens unless it is the last |
| SchedulerPaths.MarshalReadsBack | api/internal/server/router.go:1386-1389 | a JSON decoder gives back every list the server stores, whatever its paths hold |
| SchedulerPaths.PrintersAgree | api/internal/restore/restore.go:446-461 | the restore manager's printer writes what json.Marshal would exactly if no path has a character to escape other than a quote |
| SchedulerPaths.ParseExact | api/internal/scheduler/scheduler.go:255-304 | for every list the parser inverts the encoding exactly if every path is non-empty, needs no escaping, has all its commas inside brackets, and has balanced brackets unless it is the last |

## Left out

- SubtreeSizer.Sizer.WalkDir: the index has unique relative paths and nothing stored below a plain file, and does not change during a walk.
- WarmupPlan.ProtectsExact: the headroom is the exact ceiling of data packs over twice the rate; the rounding of float64 is not modelled.
- WarmupWrapper.Wrapper.Invoke: key sets stand for their SHA-256 hashes, the plan file is read as written, and the edit of the tool's configuration is one field.
- WarmupPlan.CopiesSurvive: copies re-requested by a retry live longer than modelled, which only helps.
- DataPacks.CountDataPacks: index documents are given decoded; the shape of the JSON is not modelled.
- RestoreHook.LineHook.Attempt: lines arrive as the scanner delivers them; its limit on the length of a line is not modelled.
- RestoreManager.Manager.Run: nothing intervenes between its steps; interleavings are covered by the machine it follows.
- RestoreLifecycle.OneWorkerEach: statements fail only through an expired deadline, and the reconciliation query succeeds.
- BackupJobs.Server.RunBackup: the cancel request comes in at one fixed point; interleavings are covered by the machine it follows.
- Indexing.AllOrNothing: a listing that succeeds is complete and the same each time. Rebuilding the catalog and deleting a snapshot bypass the map of handles and are not covered.
- Indexing.OneJobEach: the machine names handles and jobs by numbers; only the class keeps handles as objects.
- KeyCustody.RecoveryExact: one stack and no changes from outside; keys and key groups need unique names, as the source says, and both answers for the other names are covered.
- KeyCustody.Provisioner.CreatePlain: stands for both the origin access control and the cache policy; waiting for the deployment changes nothing and is not modelled.
- LogBuffer.StreamExact: one buffer; restore and backup jobs sharing one space of buffer IDs are not modelled.
- LoginLimiter.RateLimiter.IsLockedOut: stored times are whole seconds that compare like numbers; failing statements and other time formats are not modelled.
- JsonPaths.RoundTripExact: text is a sequence of Unicode characters; invalid UTF-8 is not modelled.
- SchedulerPaths.ParseJSONStringArray: texts of fewer than two characters, on which the source panics, are excluded.
- Error messages of restore rows, time stamps, and the columns nobody decides on.
- HTTP, cookies, OIDC, password hashing, encryption and the S3 proxy: calls into libraries.
- AWS payloads: a call is a step that works, is refused, or works without an answer.
- Cron evaluation, notification delivery, rustic and warmup-s3-archives: steps of the outside world.
- Cost display, themes and pages of the frontend.
