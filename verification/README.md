# Cinema Collections: verified model

The repository is a persistent compilation worker (a FastAPI application over SQLite) and a Home
Assistant integration that is its client. This project models the parts of both whose correctness is
decided by the code itself and proves what they promise over every input, every run and every
reachable state:

| files | part |
|---|---|
| `JobQueue`, `WorkerLoop`, `Consumer`, `CallOutcomes`, `Cancellation`, `ClipBacking`, `QueueEffects`, `CompileRequests` | the persistent queue, the single consumer around it, every step that can interleave with it, cancellation of running jobs, and compile requests |
| `Catalog`, `CatalogIndex`, `CatalogRuns`, `ScanReport` | the catalog scan with move inference, one clip over any number of scans, and what a scan adds and counts |
| `Moves`, `Library`, `LibraryOutcomes`, `LibraryRuns` | trash, restore and permanent deletion with recorded intent, compensation and staging |
| `Transactions`, `Repositories` | nested transactions; collections and profiles with revisions, audits and idempotency records |
| `Idempotency`, `RequestEffects`, `Dispatch`, `Ticks`, `RunTokens` | keyed job requests at the API, the retrying client, the token store and the scheduler |
| `History`, `HistoryRuns`, `Fairness` | no-repeat playback rounds, the daily reset and fairness |
| `Selection` | which clips may be played, in which order, against the order the manager shows |
| `Schedule` | the predicted next run against the dispatcher's due test |
| `Timing`, `Composition` | the timeline the encoder composes, and its timing block through three validators |
| `Wrappers`, `Sequences`, `ClipStates` | shared vocabulary |

SQLite tables are finite maps and sequences, the file system is a map from paths to contents, and
every primitive that can fail (a rename, a copy, an unlink, a commit, a message on the network) takes
its outcome from a parameter, so that the theorems range over every failure. The classes follow the
repository's own classes; each of their methods is proved against a specification function, and the
theorems are about those functions and about runs of them.

Assumptions: fingerprints are injective; log writes do not fail; one consumer; a clip path is unique
per collection when a scan starts; a fixed UTC offset; exact real arithmetic for floats; freshly drawn
uuids do not collide (where a primary key could clash, the clash is modelled).

## Where the code and what one expects of it differ

Each of these is a theorem, with a concrete failing input or the exact condition:

- A cancel request on a running job is not always honoured. The consumer acts only on what it sees when it looks
  at the row, and each progress write puts the flag back to what it was at the claim: a look sees the request exactly
  when the claimed snapshot carried it or it came after the last progress write (`Cancellation.LookSeesIff`), and the
  job ends cancelled instead of succeeding exactly when some look saw it (`Cancellation.CancelledIffSeen`). Scans,
  cleanups and published work are never looked at (`Cancellation.NeverLookedAt`); a failing input is
  `Cancellation.CancelIsLost`.
- Restart recovery fails a job at its attempt cap without touching its clip or its open attempt row:
  `ClipBacking.RestartStrandsClip`; exactly which steps keep clips backed: `ClipBacking.StepKeepsBacked`;
  exactly which steps keep attempt rows closed: `QueueEffects.StepKeepsAttemptsOpen`.
- A clip shown as ready need not have been compiled from what is on disk. After any scans a compiled clip is ready
  exactly when nothing happened to its file or the last thing that happened is that it came back unchanged and sound,
  so it is ready for other inputs exactly when its file changed and later disappeared and came back that way
  (`CatalogRuns.ReadyAfterScansIff`); every compiled clip has such a run (`CatalogRuns.ReadyForOtherInputs`).
- A failed move may leave a partial copy, and a failed compensation a relocated file: a failed transfer is atomic
  exactly when the failing move leaves nothing behind and the undo of every move before it goes through
  (`Moves.FailureIsAtomicIffClean`). A failing commit of a permanent deletion leaves the staged files in staging:
  `Library.FailedDeleteIsAtomicIff`.
- `transaction()` marks a rollback for `Exception` only; an interrupt commits what was written before it:
  `Transactions.InterruptCommitsPrefix`.
- The token store sorts by token text, collection id first, so for every limit the newest token can be the one
  pruned (`RunTokens.NewestIsForgotten`). A succeeded token is kept exactly while fewer than the limit of
  later-sorting tokens were ever mentioned (`RunTokens.SucceededIsKeptIff`). Exactly-once dispatch rests on the
  worker's idempotency records, not on the tokens: `Dispatch.ExactlyOnceFromTheStart`.
- The API's bounds check has a relative tolerance and the client's has none, so they agree exactly for
  files of up to 49,999,999.95 seconds: `Timing.ValidatorsAgree`.
- The predicted next run is the dispatcher's next firing exactly when the schedule that names it has whole minutes
  (`Schedule.PredictionIsNextFiringIff`). Otherwise the dispatcher fires at the start of the predicted minute if that
  is still ahead, and only after the prediction if not (`Schedule.PredictionAgainstFiring`).
- The seeded built-in profile has a revision without an audit event, so its revision is its number of events plus
  one: `Repositories.DeployedDatabaseIsConserved`.
- A crossfade longer than what precedes it makes the timeout's duration estimate too short:
  `Composition.EstimateIsExactIff`.
- Restore sets the clip to ready or discovered, whatever it was: stated in `Library.TrashThenRestore`.

## Model

| member | source | states |
|---|---|---|
| JobQueue.PersistentJobQueue.EnqueueMany | app/src/cinema_collections_worker/queue.py:67-128 | a batch is all or nothing; every entry returned is an active job with the requested fingerprint, inserted only if none was active |
| JobQueue.PersistentJobQueue.ClaimNext | app/src/cinema_collections_worker/queue.py:139-180 | claims the earliest queued job by creation time and id, only while nothing runs, with its attempt row and clip state; None only if something runs or nothing is queued |
| JobQueue.PersistentJobQueue.Update | app/src/cinema_collections_worker/queue.py:182-230 | the caller's record replaces the mutable columns of its row only, closes the job's open attempts unless running, and settles the clip of a compile job |
| JobQueue.PersistentJobQueue.RequestCancel | app/src/cinema_collections_worker/queue.py:232-259 | a queued job ends cancelled and releases its clip, a running job is flagged, a finished job and every other row stand still |
| JobQueue.PersistentJobQueue.SelectActive | app/src/cinema_collections_worker/api.py:476-478 | lists exactly the queued and running jobs, once each, in claim order, as the ordered query defines it |
| JobQueue.PersistentJobQueue.CancelActive | app/src/cinema_collections_worker/api.py:467-479 | cancel-all returns exactly the active jobs, leaves none queued, flags the running one and touches no finished job |
| JobQueue.CancelEachIsSimultaneous | app/src/cinema_collections_worker/api.py:467-479 | cancelling one job after the other, in any order, equals cancelling all listed jobs at once, clips included |
| JobQueue.PersistentJobQueue.Recover | app/src/cinema_collections_worker/api.py:519-532 | restart recovery requeues interrupted jobs below their cap, fails those at it, and changes no other table |
| JobQueue.RecoveryInTwoStatements | app/src/cinema_collections_worker/api.py:519-531 | the two recovery updates in sequence never meet the same job: together they act on each job by its own attempt count |
| WorkerLoop.StepKeepsInv | app/src/cinema_collections_worker/queue.py:67-259 | every step of enqueue, claim, progress, publish, finish, retry, cancel, foreign clip write and restart keeps the queue invariant |
| WorkerLoop.StepKeepsAttempts | app/src/cinema_collections_worker/queue.py:161-171 | a job always has exactly as many attempt rows as its attempt counter says, numbered in order |
| WorkerLoop.StepKeepsFinished | app/src/cinema_collections_worker/queue.py:182-259 | no step changes a finished job, and no step removes a job row or changes what it stands for |
| WorkerLoop.RunKeepsInv | app/src/cinema_collections_worker/queue.py:67-259 | over whole runs: the invariant holds, rows persist, terminal states are never left |
| WorkerLoop.ReachableStates | app/src/cinema_collections_worker/queue.py:67-259 | from the empty database: at most one running job, at most one active job per fingerprint, attempts within their caps, finished_at exactly in terminal states |
| WorkerLoop.NoOvertaking | app/src/cinema_collections_worker/queue.py:139-160 | once a job was claimed, no job then in the table with an earlier stamp is ever claimed again, retries and restarts included |
| WorkerLoop.ClaimsComeInStampOrder | app/src/cinema_collections_worker/queue.py:139-160 | over any run whose new jobs are not stamped before those already queued, all claims come in the order of their stamps |
| WorkerLoop.StepSpends | app/src/cinema_collections_worker/queue.py:139-180 | every claim is paid from the sum of remaining attempts of active jobs, and only an enqueue refills it |
| WorkerLoop.ClaimsAreBounded | app/src/cinema_collections_worker/queue.py:139-180 | any run claims at most the remaining attempts it started with plus those enqueued on the way |
| Consumer.JobWorker.RunOnce | app/src/cinema_collections_worker/jobs.py:896-1094 | one consumer call is the call of the state machine, a legal run with progress writes, looks, cancels, enqueues and foreign clip writes arriving in any order during the work and during publication; it ends idle and retries only below the cap |
| CallOutcomes.CallDecidesJob | app/src/cinema_collections_worker/jobs.py:896-1094 | after one call the claimed job has succeeded if and only if its work was good, of a supported kind, and no look saw a request; is cancelled if and only if a look saw one and the work did not raise; is queued again if and only if it is a compilation below its cap whose work failed unseen or raised while its row was not flagged; has failed otherwise; flags, times and attempt are given too |
| CallOutcomes.CallSettlesClips | app/src/cinema_collections_worker/jobs.py:1033-1090 | after one call a compiled clip is ready with an output if and only if its job succeeded, pending if queued again, failed or released otherwise with the output it had; a successful edit makes its clip discovered; every clip neither the call nor an arrival is about stands still |
| CallOutcomes.PossibleArrivalsHappen | app/src/cinema_collections_worker/jobs.py:493-573 | arrivals that are possible one after the other all happen, none is dropped |
| CallOutcomes.TriedToItsCap | app/src/cinema_collections_worker/jobs.py:1033-1092 | a compilation that keeps failing or raising uncancelled is claimed call after call, before any other, until its cap and then fails |
| CallOutcomes.RequestIsTriedAsOften | app/src/cinema_collections_worker/queue.py:67-128 | from the enqueue on: a request on an idle queue is tried exactly as often as it asks, with one attempt row a try, and then failed |
| Consumer.JobWorker.Consume | app/src/cinema_collections_worker/api.py:535-543 | the consumer's loop over any calls is the run of its calls one after the other, idle in between |
| Consumer.ServingDrainsTheQueue | app/src/cinema_collections_worker/api.py:535-543 | without new jobs, as many calls as there are remaining attempts leave no job queued or running, whatever each call runs into; further calls change nothing |
| Consumer.CourseIsLegal | app/src/cinema_collections_worker/jobs.py:896-1094 | whatever arrives, work, publication of a good result and closing are enabled in that order with the outcome the code picks, and keep the invariant |
| Consumer.WorkIsLegal | app/src/cinema_collections_worker/jobs.py:545-573 | whatever arrives during the work, the same job stays held with the same snapshot and the invariant holds |
| Consumer.JobWorker.Work | app/src/cinema_collections_worker/jobs.py:545-573 | the loop over what happens during the work performs exactly the steps that find something to do |
| Consumer.JobWorker.LookForCancel | app/src/cinema_collections_worker/jobs.py:493-497 | the consumer reads the flag of the row, not of its snapshot |
| Consumer.JobWorker.Close | app/src/cinema_collections_worker/jobs.py:743-780 | recording an outcome is the finish step of the state machine on the held snapshot |
| Consumer.JobWorker.PublishResult | app/src/cinema_collections_worker/jobs.py:1075-1085 | publication marks exactly the held job's clip: ready with an output for a compilation, discovered again for an edit |
| Consumer.JobWorker.WriteProgress | app/src/cinema_collections_worker/jobs.py:555-570 | a progress write puts the consumer's snapshot, cancel flag included, over the row |
| ClipBacking.StepKeepsBacked | app/src/cinema_collections_worker/queue.py:122-126 | every clip shown pending or compiling keeps an active compile job behind it, except after exactly two kinds of step: a restart over a job at its cap, and a foreign write of a busy state |
| ClipBacking.RunKeepsBacked | app/src/cinema_collections_worker/queue.py:175-179 | over any interleaving of jobs, fingerprints, cancels and retries without such a step, busy clips stay backed |
| ClipBacking.BackedAfterRestart | app/src/cinema_collections_worker/api.py:519-531 | a restart keeps clips backed if and only if every busy clip of an exhausted job has another job queued |
| ClipBacking.RestartStrandsClip | app/src/cinema_collections_worker/api.py:524-531 | for every request with a single attempt: enqueue, claim and restart leave a failed job, a clip compiling without a job and an open attempt row |
| Cancellation.LookSeesIff | app/src/cinema_collections_worker/jobs.py:545-570 | over any stay of a job with the consumer, a look sees a cancel request if and only if the claimed snapshot carried it or one came after the last progress write |
| Cancellation.StayOfJob | app/src/cinema_collections_worker/jobs.py:493-573 | through any such stay: what the row's flag says, whether a request has been seen, and whether the result was published, in terms of the steps taken |
| Cancellation.CancelledIffSeen | app/src/cinema_collections_worker/jobs.py:743-780 | a claimed job that runs to success or to a stop ends cancelled if and only if some look saw a request; a retry drops a request that came meanwhile, a success erases it, and a compilation fails below its cap only after one |
| Cancellation.NeverLookedAt | app/src/cinema_collections_worker/jobs.py:814-894 | a cancel on a running scan or cleanup, or after publication, is never seen: the job succeeds and the flag is erased |
| Cancellation.CancelIsLost | app/src/cinema_collections_worker/queue.py:193-207 | a cancel followed by a progress write is missed by the next look and the job succeeds |
| Cancellation.CancelledOnlyIfRequested | app/src/cinema_collections_worker/queue.py:232-259 | over every run from the empty database a job is cancelled or flagged only if its cancellation was requested |
| Cancellation.CancelIsIdempotent | app/src/cinema_collections_worker/queue.py:232-259 | a second cancel request changes nothing; a queued job is cancelled for good |
| QueueEffects.ClipStateIsExplained | app/src/cinema_collections_worker/queue.py:208-229 | which step, and only which, moves a clip to each state; what each outcome of a compile job leaves; outputs never become unavailable by queue steps |
| QueueEffects.EnqueuedAsRequested | app/src/cinema_collections_worker/queue.py:67-128 | every row a batch adds is a requested one that nothing active stood for, with its kind, stamp, fingerprint and cap, queued, unclaimed and uncancelled; exactly the clips of new compilations become pending |
| QueueEffects.RestartIsExact | app/src/cinema_collections_worker/api.py:519-531 | a restart requeues the running job below its cap without a start time, fails it at its cap with a finish time, and changes nothing else |
| QueueEffects.StepKeepsAttemptsOpen | app/src/cinema_collections_worker/queue.py:208-212 | only the running job has an open attempt row, kept by every step except exactly a restart that interrupts a job |
| CompileRequests.PlanBatch | app/src/cinema_collections_worker/jobs.py:323-371 | the loop's running byte count refuses exactly the requests whose whole batch would eat into the reserve, and otherwise plans exactly the wanted clips |
| CompileRequests.WantedIffNeeded | app/src/cinema_collections_worker/jobs.py:278-295 | membership in the loop's result: eligible for the strategy and without a finished, present output for its current inputs |
| CompileRequests.TakenByState | app/src/cinema_collections_worker/jobs.py:278-295 | a clip is wanted if and only if it is asked for, lacks a present output of a succeeded job for exactly its current inputs, and is stale or failed, or discovered unless only stale work is asked for, or busy unless busy clips are skipped |
| CompileRequests.RequestIsServed | app/src/cinema_collections_worker/jobs.py:313-372 | an accepted request leaves an active job for every wanted clip's current inputs; every new job is a compilation of a wanted clip with the request's cap, and exactly the clips of new jobs become pending |
| CompileRequests.JobService.EnqueueCompile | app/src/cinema_collections_worker/jobs.py:313-372 | a request reports work under way, refuses without a trace, or leaves every wanted clip with an active job for its current source and profile |
| Catalog.CatalogService.ScanFile | app/src/cinema_collections_worker/catalog.py:183-287 | one file updates the row at its path, follows the one row that lost this content, or inserts a new row, and is counted once |
| Catalog.FileWritesOneRow | app/src/cinema_collections_worker/catalog.py:207-287 | the row written for a file stood at its path, or its old file is gone, or it is new; output columns survive |
| Catalog.CatalogService.Sweep | app/src/cinema_collections_worker/catalog.py:288-299 | rows without a file become deleted and keep everything else |
| Catalog.CatalogService.ScanCollection | app/src/cinema_collections_worker/catalog.py:172-299 | the walk and the sweep of one collection, with its counts, and its two errors |
| Catalog.CatalogService.Scan | app/src/cinema_collections_worker/catalog.py:163-301 | a scan of several collections applies them all, or on any error none |
| CatalogIndex.CollectionIndexIsExact | app/src/cinema_collections_worker/catalog.py:183-299 | after scanning a collection its live rows and its files are in bijection, no row, id or output is lost, other collections stand still, and every file is counted once |
| CatalogIndex.ScanIndexIsExact | app/src/cinema_collections_worker/catalog.py:172-299 | the same index holds for every collection of a scan at its end |
| CatalogIndex.ScanKeepsRows | app/src/cinema_collections_worker/catalog.py:163-301 | rows and outputs survive a whole scan, unselected collections stand still, added + modified + unchanged is the number of files |
| ScanReport.ScanAddsUncompiledRows | app/src/cinema_collections_worker/catalog.py:239-256 | every row a scan adds is the row of a listed file with source and profile as on disk, discovered if it probes well and invalid otherwise, without an available output or bounds, with an output path of its own; added counts the new rows and deleted the rows that lost their file |
| ScanReport.CollectionSummaryIsExact | app/src/cinema_collections_worker/catalog.py:183-301 | for one collection also: unchanged counts the rows that already said what is on disk, invalid the files that do not probe, modified the rest |
| ScanReport.ScanFailsIff | app/src/cinema_collections_worker/catalog.py:163-199 | a scan fails if and only if the profile of some collection or some listed file cannot be read, with the error of the first such collection |
| CatalogIndex.MovedFileKeepsItsIdIff | app/src/cinema_collections_worker/catalog.py:207-256 | a new file whose content no other new path shows takes over an old row, with its id and output, if and only if exactly one row recorded that content and lost its file, and then that row; otherwise it gets a new row |
| CatalogIndex.RescanIsFixpoint | app/src/cinema_collections_worker/catalog.py:257-287 | scanning an indexed catalog again changes no row and reports every file unchanged |
| CatalogIndex.SecondScanIsSilent | app/src/cinema_collections_worker/catalog.py:257-301 | from any catalog, the second of two scans reports nothing added, modified or deleted |
| CatalogIndex.RefreshSettles | app/src/cinema_collections_worker/catalog.py:257-287 | refreshing a row makes refreshing it again the identity, retained timing included |
| CatalogIndex.ReadyIffCurrent | app/src/cinema_collections_worker/catalog.py:257-277 | a ready clip stays ready if and only if its recorded source and profile match the disk, otherwise it becomes stale |
| CatalogIndex.UncompiledFollowsProbe | app/src/cinema_collections_worker/catalog.py:264-277 | a clip without an output is reset to what the probe says exactly when its source or profile changed |
| CatalogIndex.PublishedThenScanned | app/src/cinema_collections_worker/jobs.py:1067-1085 | after a compilation the next scan leaves the clip ready if and only if the job worked on what is on disk now, and keeps measured bounds exactly while they identify the output file |
| CatalogIndex.TimingIsKeptIff | app/src/cinema_collections_worker/catalog.py:257-287 | a listed row's metadata after a scan is what is on disk now, with its measured bounds kept if and only if they are sound and belong to its available output on disk |
| CatalogIndex.ReadyStaysReady | app/src/cinema_collections_worker/catalog.py:257-287 | under any number of scans over changing disks a ready clip stays ready while its file and profile match its snapshot |
| CatalogRuns.RowAfterScans | app/src/cinema_collections_worker/catalog.py:183-299 | over any number of scans, of this or other collections, a row's state and recorded inputs are a function of what each scan saw of its file: the content, profile and probe found there, nothing, or the same content at a new path |
| CatalogRuns.ReadyAfterScansIff | app/src/cinema_collections_worker/catalog.py:257-299 | after a compilation and any scans the clip is ready if and only if nothing happened to its file or what happened last is an unchanged, sound return; hence ready for other inputs than it was compiled from if and only if such a return came after a change |
| CatalogRuns.SightingsAreAtPath | app/src/cinema_collections_worker/catalog.py:207-238 | as long as, while the file is gone, no path without a row shows the content its row recorded, what the scans see of a clip can be read off the disks at its path |
| CatalogRuns.VanishedAndReturned | app/src/cinema_collections_worker/catalog.py:268-274 | after any scans, a file that vanishes and returns as last seen leaves its clip ready if and only if it has an output and probes well, even if it was stale |
| CatalogRuns.ReadyForOtherInputs | app/src/cinema_collections_worker/catalog.py:268-274 | for every compiled clip and every other content: the file is replaced, vanishes and returns, and the clip is ready for content it was not compiled from |
| Moves.TransferLosesNothing | app/src/cinema_collections_worker/library_manager.py:231-255 | for every failing move, copy, unlink, commit and compensation each file's bytes survive at its origin or recorded destination, and no other path changes |
| Moves.FailureIsAtomicIffClean | app/src/cinema_collections_worker/library_manager.py:231-255 | a failed transfer leaves all files as they were if and only if the failing move leaves neither a partial copy nor an undeleted origin behind and the undo of every earlier move goes through |
| Moves.OutcomeOfFaults | app/src/cinema_collections_worker/library_manager.py:231-255 | a transfer succeeds if and only if no move meets a missing origin, an occupied destination or a fault and the commit goes through; the number of moves made is a function of files and faults |
| Moves.SuccessRelocates | app/src/cinema_collections_worker/library_manager.py:242-255 | a successful transfer moved every file of the plan to a free place and nothing else |
| Moves.FaultlessTransferSucceeds | app/src/cinema_collections_worker/library_manager.py:242-255 | without faults a transfer succeeds if and only if every origin exists, every destination is free and the commit goes through |
| Moves.RelocatedThereAndBack | app/src/cinema_collections_worker/library_manager.py:787-811 | relocating there and back is the identity on files |
| Moves.ContinuedIsTransferred | app/src/cinema_collections_worker/library_manager.py:787-822 | the forward loop with its reverse compensation loop does what the recursive reference transfer does, at every stage |
| Library.LibraryManager.MoveExact | app/src/cinema_collections_worker/library_manager.py:242-255 | one move refuses an occupied destination and otherwise renames, copies and unlinks, or stops where the primitive failed |
| Library.LibraryManager.CompensateMoves | app/src/cinema_collections_worker/library_manager.py:231-240 | the reverse loop attempts every completed move, last first, past failures |
| Library.LibraryManager.MoveAll | app/src/cinema_collections_worker/library_manager.py:787-822 | the moves and the commit of an operation are the reference transfer |
| Library.LibraryManager.MoveToTrash | app/src/cinema_collections_worker/library_manager.py:749-822 | every exit of trash: refused, intent not recorded, rolled back, compensation failed, or active record and hidden clip |
| Library.LibraryManager.Restore | app/src/cinema_collections_worker/library_manager.py:836-913 | every exit of restore, with the record closed and the clip updated only on success |
| Library.LibraryManager.PermanentlyDelete | app/src/cinema_collections_worker/library_manager.py:923-1031 | every exit of permanent deletion; nothing is unlinked before every target is staged and committed |
| Library.LibraryManager.UnlinkStaged | app/src/cinema_collections_worker/library_manager.py:1004-1015 | each staged file is unlinked independently and residue is reported if and only if some unlink failed |
| Library.TrashLosesNothing | app/src/cinema_collections_worker/library_manager.py:749-822 | for every failure point of a trash each selected file survives at its original or recorded path, others stand still, and a record exists once a file moved |
| Library.SuccessfulTrash | app/src/cinema_collections_worker/library_manager.py:795-812 | a successful trash relocated exactly the selected files, recorded where they came from, hid them from the clip and is restorable |
| Library.FailedTrashIsAtomicIffClean | app/src/cinema_collections_worker/library_manager.py:813-822 | a failed trash keeps every clip row, and every file if and only if its faults are clean in the same sense |
| Library.RestoreLosesNothing | app/src/cinema_collections_worker/library_manager.py:872-912 | restore gives the same guarantees, is atomic under the same condition on its faults, and a failed restore leaves its record restorable |
| Library.RestoreSucceedsIffFree | app/src/cinema_collections_worker/library_manager.py:864-902 | without faults a restore succeeds if and only if nothing occupies the original paths |
| Library.TrashThenRestore | app/src/cinema_collections_worker/library_manager.py:836-913 | trash then restore brings back every file and the output flag, for all three targets, and the record is restorable exactly once |
| LibraryRuns.RestoreAfterTrashSucceeds | app/src/cinema_collections_worker/library_manager.py:836-913 | right after a successful trash a restore without faults succeeds |
| LibraryRuns.RestoreLater | app/src/cinema_collections_worker/library_manager.py:836-913 | whatever trashes, restores and permanent deletions of other clips run in between, with whatever failures, the restore has the outcome it would have had at once and brings the same files back |
| LibraryOutcomes.PlansAreExact | app/src/cinema_collections_worker/library_manager.py:765-786 | which file goes where: the selected files, into the directory of the trash record or the staging directory of the request |
| LibraryOutcomes.TrashIsDecided | app/src/cinema_collections_worker/library_manager.py:749-822 | the exit of a trash, its record and the error it reports are decided by the rows, the files and the faults: refused, not recorded, trashed, rolled back, or compensation failed if and only if the undo of a completed move fails |
| LibraryOutcomes.RestoreIsDecided | app/src/cinema_collections_worker/library_manager.py:836-913 | the same for a restore, with the clip row it leaves |
| LibraryOutcomes.DeleteIsDecided | app/src/cinema_collections_worker/library_manager.py:923-1031 | the same for a permanent deletion, with the status of its request; exactly the staged files whose unlink failed are left |
| Library.FailedDeleteLosesNothing | app/src/cinema_collections_worker/library_manager.py:966-1002 | until every target is staged and committed, a permanent deletion loses no byte and changes no clip |
| Library.FailedDeleteIsAtomicIff | app/src/cinema_collections_worker/library_manager.py:966-1002 | a failed deletion restores the files if and only if a move of the staging failed, cleanly; once everything is staged a failing commit leaves the files there |
| Library.SuccessfulDelete | app/src/cinema_collections_worker/library_manager.py:987-1031 | a completed deletion removes exactly the selected files; anything left is in staging and reported as residue |
| Transactions.Database.Transaction | app/src/cinema_collections_worker/database.py:102-126 | for any program tree the outermost block commits all writes, the last one to each key, or restores the start if an exception crossed any block; depth and flag are reset |
| Transactions.NestedIsFlatOrNothing | app/src/cinema_collections_worker/database.py:102-126 | nested blocks commit what the same program without nesting commits, or nothing |
| Transactions.LastWriteIsCommitted | app/src/cinema_collections_worker/database.py:119-124 | after an outermost block that does not roll back each key holds the value of its last write in the trace, and a key never written what it held; a block of plain writes performs them as listed |
| Transactions.ErrorRollsBack | app/src/cinema_collections_worker/database.py:114-120 | an uncaught exception leaves the store as it was |
| Transactions.HandlersStopErrorsOnly | app/src/cinema_collections_worker/database.py:112-118 | a handler for Exception resumes after an exception, keeps the writes before it, and lets an interrupt through |
| Transactions.FlatteningKeepsTrace | app/src/cinema_collections_worker/database.py:102-126 | nesting changes neither the writes nor how control leaves a program |
| Transactions.CaughtFailureStillRollsBack | app/src/cinema_collections_worker/database.py:114-123 | an exception of a nested block rolls everything back even when it is caught outside that block |
| Transactions.FailureHandledInsideCommits | app/src/cinema_collections_worker/database.py:112-124 | an exception handled inside the block that raised it does not |
| Transactions.InterruptCommitsPrefix | app/src/cinema_collections_worker/database.py:114-124 | an interrupt is no Exception: the writes before it are committed unless an exception had crossed a block |
| Transactions.InterruptPassesBlocks | app/src/cinema_collections_worker/database.py:114-124 | an interrupt out of a nested block commits what was written before it |
| Repositories.Repository.Replay | app/src/cinema_collections_worker/repositories.py:89-113 | a missing caller, a conflicting key and a replay are answered without looking at any other table |
| Repositories.Repository.DemoteOtherDefaults | app/src/cinema_collections_worker/repositories.py:160-180 | every other default is demoted with one revision and one audit event each |
| Repositories.Repository.Create | app/src/cinema_collections_worker/repositories.py:182-245 | every exit of collection creation; a clash undoes the demotions and audits made before it |
| Repositories.Repository.Patch | app/src/cinema_collections_worker/repositories.py:273-343 | every exit of a collection patch; a missing row or stale revision undoes the demotions and audits made before it |
| Repositories.Repository.CreateProfile | app/src/cinema_collections_worker/repositories.py:346-381 | every exit of profile creation |
| Repositories.Repository.PatchProfile | app/src/cinema_collections_worker/repositories.py:397-441 | every exit of a profile patch |
| Repositories.CallKeepsConserved | app/src/cinema_collections_worker/repositories.py:160-441 | any call keeps: each revision equals the number of its audit events, plus one for a seeded profile; at most one collection is default; profile version equals revision |
| Repositories.RunKeepsConserved | app/src/cinema_collections_worker/repositories.py:160-441 | the same over any sequence of requests and restarts of the worker, whichever profiles a restart seeds |
| Repositories.DeployedDatabaseIsConserved | app/src/cinema_collections_worker/default_profiles.py:17-37 | from the empty database through its seeding and any requests and restarts: revisions count audit events, except one more for exactly the built-in profile, and the default is unique |
| Repositories.SeedingIsExact | app/src/cinema_collections_worker/default_profiles.py:17-37 | a start inserts the built-in profile at revision one if its id is free and touches no row that is there |
| Repositories.RunKeepsKeysAndRevisions | app/src/cinema_collections_worker/repositories.py:89-137 | from any store, remembered responses never change and no revision falls |
| Repositories.RejectedOrReplayedChangesNothing | app/src/cinema_collections_worker/repositories.py:323-338 | a rejected call and a replay leave all four tables as they were |
| Repositories.FreshCallSucceedsIff | app/src/cinema_collections_worker/repositories.py:182-441 | when a call under a fresh key succeeds and which failure it reports otherwise, for all four calls |
| Repositories.CreateIsExact | app/src/cinema_collections_worker/repositories.py:182-245 | a creation inserts the described row at revision one and changes no other row except by demotion |
| Repositories.TakingTheDefaultMovesIt | app/src/cinema_collections_worker/repositories.py:201-203 | from any store, after a call that takes the default the named collection is the default and the only one |
| Repositories.PatchIsExact | app/src/cinema_collections_worker/repositories.py:314-341 | a patch changes the columns it names in its own row, and no other row except by demotion |
| Repositories.AuditsAreExact | app/src/cinema_collections_worker/repositories.py:160-343 | a call about a collection adds its own audit event and one for every other default it demotes, and no other |
| Repositories.ProfileCallIsExact | app/src/cinema_collections_worker/repositories.py:346-441 | profile calls write one row, the columns they name, with one version, one revision and one audit event |
| Repositories.StalePatchLoses | app/src/cinema_collections_worker/repositories.py:326-338 | from any store, of two patches with distinct keys carrying the same revision at most one succeeds, whatever requests and restarts run in between |
| Repositories.RetryReplays | app/src/cinema_collections_worker/repositories.py:89-113 | from any store, repeating a successful call, however late, returns its first response and changes nothing |
| Repositories.OtherUseOfKeyConflicts | app/src/cinema_collections_worker/repositories.py:89-113 | after a success the same key is replayed if and only if request and actor are the same; otherwise it is a conflict without effect, however late |
| Idempotency.WorkerApi.ReplayOrRemember | app/src/cinema_collections_worker/api.py:381-464 | a keyed request enqueues, reports, cancels one job or cancels all and is remembered in one transaction, or is replayed, in conflict, unavailable or refused without effect |
| Idempotency.EventKeepsSound | app/src/cinema_collections_worker/api.py:391-463 | every delivery, keyed cancels included, and every worker step keep: a key is created exactly when it is remembered, and remembered jobs exist |
| Idempotency.CreatedAtMostOnce | app/src/cinema_collections_worker/api.py:423-464 | over any run each key's create step, an enqueue or a cancel, takes effect at most once |
| Idempotency.RetryIsReplayed | app/src/cinema_collections_worker/api.py:440-451 | whatever happened in between, a retry of an accepted request gets the same jobs and another request under its key a conflict |
| Idempotency.InsertedRetryIsInvisible | app/src/cinema_collections_worker/api.py:440-451 | inserting a retry anywhere after its key was remembered leaves the final state of the run unchanged |
| Idempotency.RetriedCancelAllSparesLaterJobs | app/src/cinema_collections_worker/api.py:937-958 | a retried cancel-all answers with exactly the jobs that were active at the first one and leaves every job enqueued since untouched |
| Idempotency.WorkerApi.Perform | app/src/cinema_collections_worker/api.py:840-958 | the create callbacks of the keyed routes: which rows each changes and which jobs it answers with |
| RequestEffects.CancelAllTakesEffect | app/src/cinema_collections_worker/api.py:467-479 | a first cancel-all answers with the active jobs; afterwards every job that was queued is cancelled, the running one is flagged, finished jobs and all keys stand still, and exactly the clips awaited by a queued compilation are released |
| RequestEffects.CancelOneTakesEffect | app/src/cinema_collections_worker/api.py:919-935 | a first cancel of one job is refused if there is none, and otherwise does the same to that job and its clip only |
| RequestEffects.SubmissionTakesEffect | app/src/cinema_collections_worker/api.py:423-464 | after an accepted first submission every entry of its batch has an active job and the answer is the first entry's; old rows stand still and new rows are the requested ones; a refusal has no effect |
| RequestEffects.FreshSubmissionIsAccepted | app/src/cinema_collections_worker/api.py:423-464 | a submission with fresh ids is refused if and only if it is empty |
| RequestEffects.RememberedIsReplayed | app/src/cinema_collections_worker/api.py:391-451 | a remembered key changes nothing: a conflict if and only if the payload differs, unavailable if and only if a remembered job is gone, and otherwise the remembered jobs |
| RequestEffects.ReportTakesEffect | app/src/cinema_collections_worker/jobs.py:313-322 | a request that finds work under way is remembered with that job and changes no row |
| Dispatch.WorkerApiClient.Mutate | custom_components/cinema_collections/api_client.py:434-454 | the bounded retry loop against a link that loses requests, responses or answers busy |
| Dispatch.WorkerApiClient.TryOnce | custom_components/cinema_collections/api_client.py:434-454 | one attempt either answers for the whole call or leaves exactly what the remaining attempts start from |
| Dispatch.MutateTakesEffectAtMostOnce | custom_components/cinema_collections/api_client.py:434-454 | whatever the link does, one mutation takes effect at most once, and success means it did |
| Dispatch.RememberedMutateIsSilent | custom_components/cinema_collections/api_client.py:434-454 | sending a remembered key again has no effect |
| Ticks.FirstArrivalDecides | custom_components/cinema_collections/api_client.py:434-454 | the first attempt that reaches the worker decides, whether or not its response comes back: if it is accepted, its effect is the effect of the whole mutation, and the client succeeds with its jobs if and only if some attempt from it on is answered; if it is refused nothing happened, and the client is rejected or tries on |
| Ticks.ThreeAttemptsAtMost | custom_components/cinema_collections/api_client.py:442-454 | what the network would do with a fourth attempt never matters |
| Dispatch.ConfigEntryRunTokenStore.Persist | custom_components/cinema_collections/scheduler.py:18-26 | sorting and slicing keeps exactly the tokens with fewer than the limit sorting after them |
| Dispatch.ConfigEntryRunTokenStore.Begin | custom_components/cinema_collections/scheduler.py:99-105 | an occurrence begins unless it is stored as succeeded |
| RunTokens.StoreHoldsTheLast | custom_components/cinema_collections/scheduler.py:90-115 | after any sequence of begins and recordings the store holds exactly the limit of last-sorting tokens ever mentioned |
| RunTokens.SucceededIsKeptIff | custom_components/cinema_collections/scheduler.py:18-26 | an occurrence recorded as succeeded is refused if and only if fewer than the limit of later-sorting tokens were ever mentioned; once pruned it begins again every time |
| RunTokens.NewestIsForgotten | custom_components/cinema_collections/scheduler.py:25-26 | for every limit there are successes of one collection after which the newest success of a collection sorting first is forgotten and none of the older ones is |
| Dispatch.CompilationScheduler.HandleDue | custom_components/cinema_collections/scheduler.py:175-209 | one tick over store, client and worker, ended by the first failing dispatch |
| Ticks.OnlyDueIsSent | custom_components/cinema_collections/scheduler.py:181-209 | what a tick remembers at the worker, reports or stores belongs to the occurrence of a schedule that is due |
| Ticks.NothingToDoIsSilent | custom_components/cinema_collections/scheduler.py:182-191 | with nothing due but what is stored as succeeded, a tick changes nothing at all |
| Ticks.AllDueIsServed | custom_components/cinema_collections/scheduler.py:181-209 | when every link answers and the worker accepts, every due occurrence not stored as succeeded is reported, every due occurrence is remembered, and what is reported is stored as succeeded if at all |
| Ticks.FirstFailureEndsTheTick | custom_components/cinema_collections/scheduler.py:192-207 | a tick raises if and only if some due occurrence got no acceptance; it is stored as failed if at all, and nothing after it is sent |
| Dispatch.TickIsFaithful | custom_components/cinema_collections/scheduler.py:175-209 | every run a tick reports, and every token it marks succeeded, stands for a remembered effect |
| Dispatch.ExactlyOnceEndToEnd | custom_components/cinema_collections/scheduler.py:175-209 | over lost messages, retries, re-dispatch, crashes, restarts and lost tokens no key is ever created twice |
| Dispatch.ExactlyOnceFromTheStart | custom_components/cinema_collections/scheduler.py:175-209 | from the first start of worker and integration no key is ever created twice, and a token marked succeeded was created |
| History.PlaybackHistoryStore.Select | custom_components/cinema_collections/history.py:102-178 | a pick reconciles, prunes, starts a round when none is left and stores the pick; a dry run answers the same and changes nothing |
| History.PlaybackHistoryStore.Reset | custom_components/cinema_collections/history.py:180-196 | an explicit reset starts a new round for exactly the named known collections |
| History.PlaybackHistoryStore.Reconcile | custom_components/cinema_collections/history.py:292-307 | exactly the records of another period are reset, in daily mode only |
| History.ResetOffersEverything | custom_components/cinema_collections/history.py:180-196 | after an explicit reset every eligible clip of the collection can be picked again, in a later round that announces the reset; other collections stand still |
| History.PickIsStored | custom_components/cinema_collections/history.py:140-178 | a pick stores exactly what it answered: clip, round and period, played so far in the answered round, with any announced reset taken off; the clip was offered and not yet played in that round |
| History.DryRunPredictsOrderedPick | custom_components/cinema_collections/history.py:115-161 | in ordered modes a dry run answers what the next real pick of the period returns |
| History.OthersUnaffected | custom_components/cinema_collections/history.py:169-176 | a pick leaves every other collection as reconciliation alone would |
| HistoryRuns.NoRepeatOverAnyRun | custom_components/cinema_collections/history.py:102-196 | from any stored history, over any run of picks, dry runs, resets and ticks rounds never go back, and a clip returns within a round only if a pick in between had it ineligible |
| HistoryRuns.SamePeriodIffNotCrossed | custom_components/cinema_collections/history.py:309-311 | two instants share a period if and only if no reset instant lies between them |
| HistoryRuns.DailyResetsOncePerCrossing | custom_components/cinema_collections/history.py:121-321 | over any picks, dry runs and ticks in order of time, listener and lazy reconcile together reset a record exactly once per stretch with a reset instant in it, and never within a period |
| HistoryRuns.DailyStep | custom_components/cinema_collections/history.py:292-321 | one event resets a record, visible in its last reset and its round, exactly when it finds the period over |
| Fairness.FairShares | custom_components/cinema_collections/history.py:123-178 | with a fixed offer of n clips and any chooser, whatever picks and resets of other collections, dry runs and ticks come in between, after k picks of a collection its round is ceiling(k/n) and every clip was played floor(k/n) or ceiling(k/n) times; in daily mode within one period |
| Fairness.OrderedCycle | custom_components/cinema_collections/history.py:140-157 | in ordered modes, among the same other events, pick k of a collection is element (k - 1) mod n of its offer |
| Selection.CandidateIff | custom_components/cinema_collections/selection.py:137-146 | a clip is a candidate if and only if it is playable, and ready unless nothing playable is |
| Selection.SortingCommutesWithFiltering | custom_components/cinema_collections/selection.py:240-242 | the sorted candidates are the manager's sorted rows restricted to the candidates |
| Selection.OrderIsUnique | custom_components/cinema_collections/selection.py:240-242 | distinct keys have one sorted order, so both sides' sorts agree |
| Selection.SortedByName | custom_components/cinema_collections/selection.py:240-242 | sorted clips go by case-folded path, then path, then id |
| Selection.ListedFollowsTheList | custom_components/cinema_collections/selection.py:150-152 | the listed part is the user's list restricted to what can be played |
| Selection.ArrangedIsPermutation | custom_components/cinema_collections/selection.py:147-155 | every mode plays exactly the candidates; custom order is the list first, then the rest sequentially |
| Selection.Ranks | app/src/cinema_collections_worker/manager_web.py:144-157 | every live row gets its position among its collection's sorted rows, and nothing else is ranked |
| Selection.SequentialOrderFollowsRanks | app/src/cinema_collections_worker/manager_web.py:148-157 | along the sequential playing order the shown ranks strictly increase |
| Selection.SequentialPlaybackCycles | custom_components/cinema_collections/selection.py:147-160 | sequential picks of a collection, among any picks of others, dry runs and ticks, cycle through its candidates in exactly the order shown |
| Schedule.NextSchedule | custom_components/cinema_collections/coordinator.py:257-273 | the earliest instant any enabled schedule names from now on; None if and only if none names a weekday |
| Schedule.EightOffsetsSuffice | custom_components/cinema_collections/coordinator.py:265-272 | eight day offsets always reach a named weekday at or after now |
| Schedule.WeekdaysGoRound | custom_components/cinema_collections/scheduler.py:184-184 | weekdays count from Monday as the calendar does |
| Schedule.PredictionIsNextFiringIff | custom_components/cinema_collections/scheduler.py:182-188 | for any schedules the predicted instant is the first due minute tick if and only if the schedule that names it has whole minutes |
| Schedule.PredictionAgainstFiring | custom_components/cinema_collections/scheduler.py:182-188 | where they differ: the dispatcher fires at the start of the predicted minute if that is not past, and otherwise only after the prediction |
| Schedule.CutPredictsFiring | custom_components/cinema_collections/scheduler.py:185-186 | for any schedules the next firing is the prediction made for their times cut to the minute |
| Timing.AlignmentIsTight | app/src/cinema_collections_worker/ffmpeg.py:17-21 | alignment overshoots by less than one frame and undershoots by at most 1e-9 of a frame |
| Timing.AlignmentIsIdempotent | app/src/cinema_collections_worker/ffmpeg.py:17-21 | aligning an aligned duration changes nothing |
| Timing.CompiledTimingPassesTheChain | app/src/cinema_collections_worker/jobs.py:1119-1140 | what a successful compile measures splits the file exactly, passes the API without the fallback and is accepted unchanged by the client |
| Timing.UnmeasuredPictureIsTheFile | app/src/cinema_collections_worker/jobs.py:1123-1131 | without a picture duration, or with zero, the requested tail is taken off the file |
| Timing.ValidatorsAgree | app/src/cinema_collections_worker/api.py:1023-1058 | the client accepts everything the API serves, fallback included, if and only if the file is at most 49,999,999.95 seconds long |
| Timing.LongFileIsRefused | custom_components/cinema_collections/models.py:117-125 | for every longer file there is metadata the API serves and the client refuses |
| Timing.UnavailableIsAccepted | custom_components/cinema_collections/models.py:95-101 | a clip without an output is served without timing, which the client accepts as none |
| Timing.FallbackIsTheWholeFile | app/src/cinema_collections_worker/api.py:1023-1058 | stored bounds that do not check out are served as the whole file without pads, which the client accepts |
| Timing.AcceptedSplitsTheFile | custom_components/cinema_collections/models.py:57-125 | the client accepts nothing at all, or exactly the five measured numbers that split the file to within a twentieth of a second each, and so add up to it within three; partial blocks are incomplete |
| Timing.ParseTiming | custom_components/cinema_collections/models.py:57-125 | the collecting loop and its checks decide as the validator's definition does, absent and partial blocks included |
| Composition.Build | app/src/cinema_collections_worker/ffmpeg.py:184-239 | the graph appended step by step: every crossfade covers the picture fully if and only if all fit, the picture is as long as content and pads, or last stream and pads, and the sound follows the content within half a sample |
| Composition.CrossfadesOverlapIffFits | app/src/cinema_collections_worker/ffmpeg.py:185-202 | every crossfade covers the running picture for exactly its duration if and only if enough picture precedes it |
| Composition.EstimateIsExactIff | app/src/cinema_collections_worker/jobs.py:177-187 | the duration estimate equals the composed picture if and only if the last crossfade fits or nothing is shown, and is never too long |
| Composition.SoundEndsWithPicture | app/src/cinema_collections_worker/ffmpeg.py:186-239 | when the last crossfade fits, sound and picture end within half a sample of each other |
| Composition.FadeEndsWithContent | app/src/cinema_collections_worker/ffmpeg.py:203-212 | the fade-out ends with the content if and only if the content is at least as long as the fade |
| Composition.MeasuredContentIsComposed | app/src/cinema_collections_worker/jobs.py:1119-1140 | on a file of any length whose picture is as composed, the measured content starts after the lead and ends, with a tail, where the composed content ends and, without one, with the file; an error if that is outside |

## Left out

- FastAPI routes, sessions, CSRF, authentication, Home Assistant entities and flows, and the web client: plumbing and user interface.
- The work inside a job (FFmpeg and ffprobe processes, timeouts, loudness analysis, scan, cleanup and edit bodies): reduced to a verdict; its probe numbers are parameters.
- Consumer.JobWorker.RunOnce: the recorded failure reason, progress percentages, log lines and timestamps other than finished_at and started_at; which progress writes and looks a call makes, and when, is given by its course.
- Consumer.JobWorker.RunOnce: a log write that fails after success, which would requeue a finished job, is excluded by assumption.
- CompileRequests.JobService.EnqueueCompile: the scan-only branch is a single enqueue, and the scan before the plan is a step of its own because its `with` block on the connection ends the surrounding transaction.
- CompileRequests.JobService.EnqueueCompile: paths are resolved outside the model, and a profile or disk that cannot be read raises before any row changes.
- QueueEffects.ClipStateIsExplained: a failed edit also writes its clip to failed (jobs.py:665-684, 738); that write is no step of its own here but one of the foreign clip writes.
- Catalog.CatalogService.Scan: the disk stands still during a scan and other threads' writes fall before or after it; tags and notes in the metadata, which a scan drops, are not columns of the model.
- Library.LibraryManager.MoveToTrash: the clip row is read at the start and written at the end; a concurrent writer in between is the foreign clip write of the state machine.
- Library.LibraryManager.PermanentlyDelete: the last update, which closes the request after the unlinks, is assumed to succeed, and empty staging directories are not entries of the file map.
- Library.LibraryManager.Restore: paths in trash follow from the record id, so an invalid trash record cannot arise.
- Transactions.Database.Transaction: a BEGIN, COMMIT or ROLLBACK that itself fails, and connections of other threads.
- Repositories.Repository.Patch: columns other than default and profile are one body value; two calls with the same key at the same instant, which the primary key serialises, are not interleaved.
- Repositories.Repository.Replay: the idempotency table shared with job requests is modelled separately in each part.
- Idempotency.WorkerApi.ReplayOrRemember: operation and payload are one digest; what the compile route decides to enqueue is a parameter here and decided in the compile requests; a create whose remembering insert fails is covered by the transaction theorem.
- Dispatch.WorkerApiClient.Mutate: backoff delays and the mapping of HTTP status codes; an empty key is refused before the loop.
- Dispatch.ConfigEntryRunTokenStore.Persist: the limit is a parameter (512 in the program); the token's text is its collection and minute, ordered as text orders them at a fixed offset; migration of version-one lists.
- History.PlaybackHistoryStore.Select: the last-selection record, normalisation of loaded data and saving to disk.
- Fairness.FairShares: says nothing of picks on both sides of a daily reset, which restarts the count.
- Selection.ArrangedIsPermutation: the order of strings and their case folding enter as ranks; the media URI and the timing passed along with a selection.
- Schedule.NextSchedule: time zones and daylight saving.
- Timing.ValidatorsAgree: float rounding; numbers are reals and infinities a separate value.
- Composition.Build: command-line text, video and audio filters that keep a stream's length, and the encoder's own rounding.
- Collection enablement, seasonal windows and the policy resolver, uploads, imports, edits, pagination and chunk arithmetic: sound but easier.
