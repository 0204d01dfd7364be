# Memhub durable-state protocols

Memhub keeps durable state in JSON files, marker files and one SQLite index, and coordinates
workers over it that may stop at any point.  This project models the protocols that keep that state
right, and proves their guarantees over all inputs, all runs and all interleavings:

* the cross-process file lock with reclaim of dead owners,
* the commit record that keeps an external Memory Core write from being sent twice,
* the capture store: write-once merge, frozen ingest payload, and an index that can be rebuilt,
* the distillation job ledger: leases, enqueueing, revisions, and retirement in three phases,
* the queue claims L2 to L3 to L4 that are rebuilt from the ledger,
* the project registry: its merge forest, its read cache, and the similarity of names,
* the ranker of recalled hits, and the byte budget of a context capsule.

## How the models are built

Each protocol is a machine on values: a `State`, the operations or events that change it, and
`Apply`, which is the code's effect with the code's guards.  An event is one durable action (a file
created, renamed or unlinked, a transaction, a request answered) or, where several are done under
one lock, one locked operation; the process may stop before any event.  Beside the machine stands
the program, a class whose methods have the control flow of the source, take their durable actions
one at a time, let others act in between, and are proved to follow the machine (`Runs.Leads`, or
`Store() == Apply(...)`).  What the machine's own guards and functions admit is stated once more by
the fields and numbers of the source, and proved to be the same.  Main results are lemmas about every
reachable state or every run.

Conventions: hashes are injective, random identities are fresh numbers, time is an integer, scores
are reals, `localeCompare` is a strict total order of texts.  An atomic rename and an SQLite
transaction are single steps.  Memory Core is an environment that may execute a write, refuse it
with a status, or be silent; it reports success only for a write it has executed, and a refusal
with one of the definitive statuses only for one it has not.  Operations that throw are the
machine's refusals: they leave the state as it was.

| file | what it is about |
|---|---|
| `FileMutationLock`, `LockSafety`, `LockProgram` | src/file-mutation-lock.ts |
| `ArtifactCommit`, `CommitSafety`, `CommitProgram` | the commit record of src/distillation-submit.ts |
| `CaptureMerge`, `CaptureStore`, `CaptureSafety`, `CaptureProgram` | src/capture.ts and the Core write of src/capture-ingest.ts |
| `JobLedger`, `LeaseFencing`, `LeaseLaws`, `Enqueueing`, `Retirement`, `RetirementLaws`, `JobProgram` | src/distillation-jobs.ts |
| `CurrentL3`, `DerivedProvenance`, `DerivedRecovery`, `L4Recovery` | src/distillation-derived-provenance.ts, src/distillation-derived-recovery.ts, the snapshot in src/distillation-jobs.ts and the queueing in src/distillation-submit.ts |
| `ProjectRegistry`, `RegistryCache`, `EditDistance` | src/project-registry.ts |
| `RetrievalRanker` | src/retrieval-ranker.ts |
| `Utf8`, `ContextBudget` | src/context-capsule.ts |
| `Runs`, `Sorting`, `Common` | runs of a machine, sorting by a strict order, and small datatypes |

## Where a promise does not hold as such

The code is modelled as it is.  Where it does not keep a promise in every run, a lemma gives a run
that shows it and another one the exact condition, step by step or for every call.

* The lock reads the owner and probes its process in two steps.  If the owner's process exits
  between them and the lock file by then belongs to another, live process or to nobody, a live lock
  can be unlinked (`TwoInside`).  An exit makes two callers inside possible exactly in that case
  (`ExitBreaksExclusionIff`), and every run with two callers inside has such an exit
  (`BrokenByMisleadingExit`); a crash of an owner that still has its lock file never does harm.
* A reconciliation that Core itself refuses with 400, 401, 403, 409 or 422, or an abandon by the
  operator, closes a commit record although Core may have executed it; the same candidate may then
  be executed again (`ExecutedTwice`).  Closing forgets the record's payload exactly if it was
  executed and its result not stored (`ForgottenByClosing`).  What the record itself shows before it
  is closed is exact too: closing is safe in every state that looks the same exactly if the record
  has no send mark or holds a result (`ClosingIsSafeIff`).
* Marking an event as ingested before it is stored, and then storing it, leaves an index that is
  clean and wrong about it (`StrayMarkerLies`); a change does so exactly if it stores an event that was
  marked before (`StoringMarkedLiesIff`).  A clean index is wrong about exactly these events, in their
  ingested flag only (`LiesIff`, `ReaderSeesScan`), until they are delivered or marked again or their
  account is rebuilt; recovery does not rebuild an account that is clean.
* Submitting takes `result_committed_at` as the time of an L3 result even if it is not a date, the
  reconciliation does not, and a submit does not look for claims.  A submit that queues after a
  reconciliation, or inside one, then queues a second L4 job for the snapshot, exactly if some time in
  it is not a date, unless a retired job has its batch (`TwoL4JobsForOneSnapshot`, `SubmitAfterReconcile`, `SubmitInsideReconcile`).  A
  reconciliation after a submit never adds a job (`ReconcileAfterSubmit`).  Submit itself only records
  the present time, and where all recorded times are dates the two never queue two jobs
  (`DatedStoresOneL4Job`).
* A reconciliation of an L2 source that finds its batch in a retired L3 job answers ok over a missing
  claim (`OkOverMissingClaim`); it leaves a valid claim exactly if there was one or no job, retired
  ones included, had the very batch (`OkIsValidIffBatchIsNew`).
* A direct L2 revision stores its body trimmed beside the hash of the untrimmed body that Core
  confirmed.  If there was something to trim, the reconciliation queues the missing L3 job and then
  fails (`UntrimmedIsRefused`); it succeeds exactly if there was not (`DirectIsRebuiltIffTrimmed`).
* The registry's cache relies on fingerprints: a replacement by another content under a fingerprint
  that is still served misleads a read (`RepeatedMarkServesOldFile`), and only such a replacement does
  (`ReplacementMisleadsIff`).

## Model

| member | source | states |
|---|---|---|
| LockSafety.ReachableIsSafe | src/file-mutation-lock.ts:17-143 | in every interleaving of calls, file steps, starts and crashes in which no exit misleads a guard holder's probe: at most one live caller is in the protected section, reclaim unlinks only the lock of a dead owner, one caller of a process passes the queue at a time |
| LockSafety.TwoInside | src/file-mutation-lock.ts:100-133 | a run, with an owner releasing and exiting between the owner read and the probe, that ends with two live callers inside |
| LockSafety.ExitBreaksExclusionIff | src/file-mutation-lock.ts:79-133 | from any state reached without misleading exits, an exit of a process makes two live callers inside possible, without any further misleading exit, if and only if a surviving guard holder has read an owner of that process and not yet probed it, and the lock file is gone or belongs to another live process |
| LockSafety.BrokenByMisleadingExit | src/file-mutation-lock.ts:79-133 | every run that ends with two live callers inside has a misleading exit, after a beginning without any |
| LockSafety.DeadOwnerIsReclaimed | src/file-mutation-lock.ts:70-133 | a lock whose owner is dead does not stay: a live caller of its host that finds the guard free can reclaim it by steps of its own, and then is inside |
| LockProgram.LockPath.StaleLockCanBeRemoved | src/file-mutation-lock.ts:100-133 | the answer is yes exactly if there was a lock file at one point of the run, what was read of it at a later one named an owner of this host, nobody had that pid at a still later one, and the probe was not denied |
| LockProgram.LockPath.ReclaimDeadLocalLock | src/file-mutation-lock.ts:70-92 | guard, recheck under the guard, unlink and release of the guard form a run; the caller tries to create the lock again exactly if it unlinked, else it waits |
| LockProgram.LockPath.AcquireLockFile | src/file-mutation-lock.ts:32-61 | the retry loop is a run that ends inside the protected section, timed out, or cut off; it times out only if a deadline passes, is cut off only if the schedule ends, and takes a free lock within two turns if nobody else moves first |
| LockProgram.OwnStep | src/file-mutation-lock.ts:41-68 | where a step of a live caller can take it; on release it always finds its own token |
| LockProgram.LockPath.ReleaseOwnedLock | src/file-mutation-lock.ts:135-143 | reading the lock and unlinking it is a run that leaves the protected section |
| LockProgram.LockPath.WithFileMutationLock | src/file-mutation-lock.ts:17-68 | where the section is entered the caller is alone in it; a call that returns has left the queue and no lock file of its own; it times out only if its deadline passes |
| CommitSafety.AtMostOneWritePerGeneration | src/distillation-submit.ts:183-223 | over all runs with crashes: no generation is written twice, what Core executed was frozen in a write, a stored response is the stored result of an executed write whose revision is in the ledger |
| CommitSafety.FrozenForGood | src/distillation-submit.ts:183-232 | a later record of the same generation has the same payload, and keeps a stored Core result, response and rejection; another generation is newly minted |
| CommitSafety.ReplacedOnlyWhenTerminal | src/distillation-submit.ts:113-133 | whenever a record has given way to another or to none, there was a state in between in which it was answered or rejected |
| CommitSafety.ExecutedTwice | src/distillation-submit.ts:233-236 | after an abandon, and after a refused reconciliation, of an executed write the same candidate is executed under a second generation, and the first result is forgotten |
| CommitSafety.ForgottenByClosing | src/distillation-submit.ts:215-247 | in every reachable state each step adds to the forgotten executions exactly the payload of the record it closes, if that was executed and its result never stored, and takes nothing away |
| CommitSafety.NothingForgotten | src/distillation-submit.ts:215-247 | while no record that is marked as sent and holds no result is abandoned, or closed by a refused reconciliation, nothing Core executed is ever forgotten |
| CommitSafety.LostByClosing | src/distillation-submit.ts:215-247 | whatever is forgotten has been so since its own record, marked as sent and without a result, was closed |
| CommitSafety.ClosingIsSafeIff | src/distillation-submit.ts:215-247 | as far as the record and the call tell, closing forgets nothing if and only if the record is not marked as sent or holds a result: otherwise a reachable state that looks the same loses an executed write by it |
| CommitProgram.CommitStore.AskCore | src/distillation-submit.ts:215-223 | a call that minted its generation marks it as sent and sends one plain write, a replay sends none and only asks for the outcome; it gives up only when the turns run out |
| CommitProgram.CommitStore.Finish | src/distillation-submit.ts:248-279 | from the durable result to the stored response: only the response of the record changes, and it is the result; it fails exactly if the result has no id or the ledger refuses it; an answered candidate has its job completed or its revision recorded, a skill neither |
| CommitProgram.CommitStore.Commit | src/distillation-submit.ts:183-405 | at most one write is added, under the next generation and only for a candidate that is not taken up again; with enough turns Core's reply settles record and outcome: an answer with an id is the response, a refusal with 400, 401, 403, 409 or 422 closes the record, everything else leaves it open |
| CommitProgram.FreezesIff | src/distillation-submit.ts:113-133 | a candidate can be frozen exactly if no open record of another one stands in the way and it is not answered; after a rejection any candidate can, under a new generation |
| CommitProgram.CommitStore.Submit | src/distillation-submit.ts:104-408 | the whole call: it fails without a durable change exactly on a failed check or another candidate's open record, returns a recorded response, and otherwise is settled by Core's reply with exactly one write of a fresh candidate and none of a resumed one; it is cut off only when the turns run out, and a dry run changes nothing durable |
| CommitProgram.CommitStore.ReconcileByOperator | src/distillation-submit.ts:619-639 | it never writes to Core, does nothing unless the generation is the inspected one and open, and answers exactly if Core reports a result with an id, which then is stored in that record |
| CommitProgram.CommitStore.AbandonByOperator | src/distillation-submit.ts:640-648 | a record is given up only if unresolved, confirmed and still the inspected generation |
| CommitProgram.CommitStore.PruneRecord | src/distillation-submit.ts:595-603 | a record is collected only if it is the answered or rejected generation that was seen |
| CaptureMerge.MergeFields | src/capture.ts:1265-1285 | the loop over the write-once fields accepts exactly agreeing values and then computes their union |
| CaptureMerge.MergeNotes | src/capture.ts:1286-1299 | the loop over the summaries lays the incoming ones over the stored ones and refuses a change exactly of a complete event |
| CaptureMerge.MergeProvenance | src/capture.ts:1300-1312 | the loop over provenance keys accepts exactly agreeing values and then computes their union |
| CaptureMerge.MergeStatuses | src/capture.ts:1313-1347 | for every pair of statuses: complete if one side is, or if neither side has failed or been truncated and both texts are there; otherwise the incoming one of failed and truncated wins, then the stored one, and partial wins over open |
| CaptureMerge.MergeCaptureEvent | src/capture.ts:1249-1324 | it succeeds exactly if identity, fields, provenance, continuity and the summaries of a complete event agree; the merged event has all fields, summaries and provenance of both, the right status, and says updated exactly when the content changed |
| CaptureMerge.ReplayIsNoop | src/capture.ts:1249-1324 | an accepted delivery that comes again is accepted and changes nothing |
| CaptureMerge.DeliverExtends | src/capture.ts:1249-1347 | over any sequence of deliveries, refused ones included, stored fields never change and the status never goes back |
| CaptureMerge.ContinuityChangesOnce | src/capture.ts:1255-1264 | along any sequence of deliveries the continuity changes at most once |
| CaptureMerge.TextsComplete | src/capture.ts:1300-1342 | after any sequence of open and partial deliveries the event is complete exactly if both texts have come in by accepted ones, and no text is lost |
| CaptureMerge.HalvesComplete | src/capture.ts:1300-1309 | a turn delivered in two halves, one text each, is complete after the second |
| CaptureSafety.InvStep | src/capture.ts:247-447 | every durable action keeps: an intent is the stored event, undirty rows of known accounts are what a scan gives, but for the ingested flag of events stored after their marker |
| CaptureSafety.ReaderSeesScan | src/capture.ts:633-672 | over any run, a reader that is not refused gets at the moment of its query exactly the rows a scan of files and markers gives, but shows as not ingested the events that were stored after their marker; so it gets the scan exactly if the account has none |
| CaptureSafety.ReaderSeesEvents | src/capture.ts:1179-1190 | over any run, a reader that is not refused gets one row for each of the account's events of that moment, which repeats conversation, continuity, time, project hint and status, and says ingested exactly if there is a marker the row knows of |
| CaptureSafety.RecoveryRestores | src/capture.ts:958-979 | a recovery that visited all its accounts leaves a clean, checkpointed index equal to a scan of everything, but for the ingested flag of events stored after their marker in accounts that were clean |
| CaptureSafety.RecoveryRun | src/capture.ts:958-979 | along every run a recovery still covers every account that needs it |
| CaptureSafety.FrozenForGood | src/capture.ts:272-291 | over any run at all: intents and markers never disappear, marker times are write-once, and a stored event with an intent or marker never changes |
| CaptureSafety.CoreSeesOnePayload | src/capture-ingest.ts:35-41 | in every reachable state all Core writes of one event carried the identical stored event, which is still stored |
| CaptureSafety.OnlyTurnsAreSent | src/capture-ingest.ts:35-41 | in every reachable state whatever was sent to Core is a complete event with both texts |
| CaptureSafety.StrayMarkerLies | src/capture.ts:425-447 | a run that marks an event, then stores it, and ends with a clean index that is wrong about it |
| CaptureSafety.StoringMarkedLiesIff | src/capture.ts:296-300 | when a change is about to write, in any reachable state in which no index row of its event is wrong, a clean index that lies about the event becomes possible, without storing another event after its marker, if and only if the change stores an event that was marked before |
| CaptureSafety.LiesIff | src/capture.ts:296-300 | in every reachable state a clean index is wrong about exactly the events that were stored after their marker and whose row was not written again since; such a row is right but for the ingested flag |
| CaptureProgram.CaptureDirectory.Change | src/capture.ts:1119-1165 | dirty sentinel, file or marker, row, clean, checkpoint: exactly the one file or marker changes, and a finished change leaves the account readable |
| CaptureProgram.CaptureDirectory.StoreCaptureEvent | src/capture.ts:247-303 | each outcome, for the reasons of the stored and the delivered event; only the event's own file may change; a finished call leaves the index readable, and wrong about a new event exactly if that was marked before |
| CaptureProgram.RejectsIff | src/capture.ts:256-296 | a delivery is refused exactly if it lacks text, comes from another actor, conflicts, would change a marked event, or differs from what was attempted |
| CaptureProgram.CaptureDirectory.MarkCaptureIngested | src/capture.ts:425-447 | for any event, stored or not: the marker is written once and keeps its time, nothing else changes, the index stays readable and is right about the event afterwards |
| CaptureProgram.CaptureDirectory.Freeze | src/capture.ts:311-350 | an attempt goes on only with the expected stored event, whose payload is frozen if it is complete; it fails only if another event is stored or another payload was attempted |
| CaptureProgram.CaptureDirectory.WithCaptureIngestAttempt | src/capture.ts:311-350 | an ingestion that succeeds sent Core exactly the expected event, which is still the stored one and is marked; Core is written only for a complete event with both texts; it fails only if Core does not accept, or for a changed event or payload |
| CaptureProgram.CaptureDirectory.RecoverCaptureIndex | src/capture.ts:958-979 | from whatever a crash left behind, a recovery that finishes leaves a clean index that agrees with the files as far as RecoveryRestores says |
| CaptureProgram.SettledReads | src/capture.ts:633-672 | after such a call a reader is not refused, and gets the scan exactly if the account has no event that was stored after its marker |
| LeaseFencing.Step | src/distillation-jobs.ts:427-786 | every ledger operation keeps the lease invariant, and every job keeps its identity, evidence and settled results |
| LeaseFencing.OldGenerationsAreFenced | src/distillation-jobs.ts:427-719 | in every reachable store, completion, failure, renewal and pre-write extension with any earlier credential of the job are refused, tokenless ones included |
| LeaseFencing.TokenlessLeaseIsFirst | src/distillation-jobs.ts:449-461 | a lease without a token is only ever the first of its job |
| LeaseFencing.SettledForGood | src/distillation-jobs.ts:469-719 | whatever happens later: completed jobs keep status, result and evidence, deleted ones stay deleted, an ambiguous failure is never leased again |
| LeaseFencing.LeasesEnd | src/distillation-jobs.ts:427-501 | no lease holds a job for good: whatever durations were asked for in any run, every leased job can be leased again with a token 15 minutes after the latest clock |
| LeaseLaws.LeaseTakesFirst | src/distillation-jobs.ts:440-466 | a request changes the first job that is pending or expired, of the project and target asked for and, without a token, never leased; that job is then the harness's for the seconds asked for, at least 30 and at most 900 |
| LeaseLaws.LiveLeaseIsExclusive | src/distillation-jobs.ts:443-446 | over every run, until a lease runs out nothing but its own worker's operations changes its job, whatever others lease, queue, record, complete or retire |
| LeaseLaws.HolderFinishes | src/distillation-jobs.ts:503-530 | after every such run its holder's completion is accepted and stored |
| Enqueueing.CanonicalList | src/distillation-jobs.ts:779-786 | the canonical list is strictly ordered by time and reference, has each reference once, and adds and loses no reference |
| Enqueueing.UniqueEvidence | src/distillation-jobs.ts:779-786 | the map-filling loop computes the canonical list and fails exactly on a blank reference |
| Enqueueing.PermutationsAgree | src/distillation-jobs.ts:779-786 | any permutation of duplicate-free evidence has the same canonical list |
| Enqueueing.EnqueuedBatchesAreDisjoint | src/distillation-jobs.ts:734-756 | in every reachable store an enqueued job differs in hash and evidence from every earlier job of its account, target and project, and shares no reference with one if it is L2 |
| Enqueueing.AddsJobIff | src/distillation-jobs.ts:730-777 | an enqueue adds a job exactly if every reference has text and no job of the account, target and project has the same canonical evidence or, for L2, shares a reference; the new job is pending with exactly that evidence |
| Enqueueing.PermutedBatchIsNotQueuedTwice | src/distillation-jobs.ts:730-742 | enqueueing a permutation of queued evidence changes nothing |
| Enqueueing.QueuedOnceForGood | src/distillation-jobs.ts:730-742 | nor does it after any further operations on the store |
| Retirement.PendingLeavesThroughItsOwner | src/distillation-jobs.ts:136-200 | for every operation on a reachable store: a pending revision stays as it is, is taken over by a later call for the same operation, or leaves through the call owning its generation, retired with the recorded operation or restored on a status of 400 to 599 |
| Retirement.FinalizeIsAllOrNothing | src/distillation-jobs.ts:191-199 | a finalize retires all revisions the call marked and nothing else, or changes nothing; the former exactly if all are still owned by the call |
| Retirement.RollbackRestoresWhatTheCallFound | src/distillation-jobs.ts:172-187 | whatever ran since the call began, a rollback gives each still owned revision its exact record of that time, or leaves it pending if it was |
| Retirement.QuietRetirement | src/distillation-jobs.ts:136-200 | an undisturbed retirement: confirmed, all revisions are retired; refused with none pending before, the jobs are exactly as before; silent, they are left pending; other jobs never change |
| RetirementLaws.BeginMarks | src/distillation-jobs.ts:143-161 | without a conflict the call makes exactly the memory's completed revisions pending that are not yet retired this way, under its own generation and operation |
| RetirementLaws.RetriedDeletionEnds | src/distillation-jobs.ts:154-171 | a deletion that Core left unanswered ends when it is called again, even if Core then answers 404; an archival stays pending |
| RetirementLaws.OnlyTheSameAgain | src/distillation-jobs.ts:149-152 | after a call Core left unanswered exactly the same operation can begin again |
| RetirementLaws.FinishSparesOthers | src/distillation-jobs.ts:177-197 | the end of a call touches only what is still pending under its own generation |
| JobProgram.JobStore.LeaseDistillationJob | src/distillation-jobs.ts:427-467 | it answers none exactly if every job is of another account, project or target, finished, under a live lease or, for a request without a token, leased before; else it leases the first other one to the harness for the exact time, with a new token exactly if asked to, and changes nothing else |
| JobProgram.JobStore.MutateJob | src/distillation-jobs.ts:801-814 | it changes the account's job with that id and no other, exactly if the change is allowed |
| JobProgram.JobStore.CompleteDistillationJob | src/distillation-jobs.ts:469-495 | exactly the holder of a lease in time completes the job, which gets the kind, id and content and loses its lease |
| JobProgram.JobStore.FailDistillationJob | src/distillation-jobs.ts:564-605 | exactly the holder in time, or after a Core write the holder under a token, fails the job, with at most 2000 characters of the message |
| JobProgram.JobStore.RenewDistillationJobLease | src/distillation-jobs.ts:640-657 | exactly the holder in time with a token moves the end of its lease, and never back |
| JobProgram.JobStore.PrepareForExternalWrite | src/distillation-jobs.ts:667-695 | only the holder in time gets it: the lease lasts as long as the write may take, or is extended under a token, and nothing else changes; it is refused only otherwise |
| JobProgram.JobStore.RetryDistillationJob | src/distillation-jobs.ts:697-719 | exactly a failed job whose failure is no ambiguous commit and no invalid evidence is pending again, without lease or failure |
| JobProgram.JobStore.CompleteAfterCoreCommit | src/distillation-jobs.ts:503-530 | exactly the holder, in time or under a token, completes the job with exactly this result and commit time, and its lease is gone |
| JobProgram.JobStore.QuarantineAfterCoreCommit | src/distillation-jobs.ts:537-557 | exactly for the holder, in time or under a token, the failure is recorded; then the job stays an ambiguous one through whatever happens before the second mutation, which finds it and records the time |
| JobProgram.JobStore.EnqueueJob | src/distillation-jobs.ts:721-777 | it answers the equal batch if there is one, else for L2 an overlapping one, else a new job, and adds a job only then |
| JobProgram.JobStore.RecordCompletedRevision | src/distillation-jobs.ts:316-392 | exactly if target, project, evidence, id and body are well-formed it answers a live completed revision with the trimmed id and body and this evidence, a new one only if there was none |
| JobProgram.JobStore.BeginRetirement | src/distillation-jobs.ts:140-164 | it refuses exactly if a revision was deleted while archiving or is pending under the other operation, and does nothing exactly if all are retired this way; otherwise it marks exactly the active revisions and remembers exactly those not pending |
| JobProgram.JobStore.RollBack | src/distillation-jobs.ts:173-186 | the loop over the remembered records restores exactly those still owned |
| JobProgram.JobStore.Finalize | src/distillation-jobs.ts:191-199 | comparing the number of matching revisions decides exactly whether the call owns them all |
| JobProgram.JobStore.RetireDistillationMemory | src/distillation-jobs.ts:136-200 | the whole call is its two ledger operations with those of others in between; its refusals by the revisions' fields; when it returns every revision it found active is retired; it retires only if Core confirms or a retried deletion gets 404, and undisturbed it does if Core confirms |
| JobProgram.MatchingIsAll | src/distillation-jobs.ts:193-196 | as many matching as marked revisions means that every one is still owned |
| CurrentL3.RevisionRefNamesJob | src/distillation-derived-provenance.ts:18-21 | a revision reference names one job, whatever the memory id contains |
| CurrentL3.TrimTakesBlanks | src/distillation-jobs.ts:329-330 | trimming takes the blanks at both ends away, all of them, and nothing else |
| CurrentL3.LatestCompletedL3ByProject | src/distillation-jobs.ts:207-223 | the Map loop returns, in project order, one completed result for each project that has any, and no result of its project has a later commit time, or else completion time; ties go to the later creation, then the higher id |
| CurrentL3.LatestIsMaximum | src/distillation-jobs.ts:217-229 | the current artifact is the unique maximum of one order of a project's results |
| CurrentL3.SnapshotIsLatest | src/distillation-jobs.ts:203-229 | that order is time: the current artifacts are the latest completed results, by valid commit time or else completion time, creation and id |
| CurrentL3.LastCommittedIsCurrent | src/distillation-jobs.ts:203-205 | a result committed later than all others of its project is the current one, whenever its job was created |
| CurrentL3.L4EvidenceSays | src/distillation-derived-recovery.ts:193-203 | the evidence of an L4 batch names each current artifact by a reference to its job, with its project, its body and its effective time |
| CurrentL3.SnapshotForgetsOrder | src/distillation-jobs.ts:207-223 | the snapshot does not depend on the order of the jobs |
| CurrentL3.SameRevisionsOneL4Job | src/distillation-derived-recovery.ts:150-161 | on the same revisions with valid times the two paths never queue two L4 jobs, whatever happens in between |
| DerivedProvenance.SourceIsTheOne | src/distillation-derived-provenance.ts:52-58 | the map entry of a reference is the one completed revision that bears it |
| DerivedProvenance.ValidL3EvidenceBatch | src/distillation-derived-provenance.ts:43-65 | the map-filling check accepts exactly the batches whose every item is an exact completed L2 revision of the project, each once |
| DerivedProvenance.ClaimFailsUnlessGood | src/distillation-derived-provenance.ts:43-93 | checking a claim item by item ends without a failure, thrown or not, exactly if the batch is valid and has the source's exact item |
| DerivedProvenance.IntactNeverThrows | src/distillation-contract.ts:11-18 | the inspection throws for a body that contradicts its hash only if some body in the ledger, or the source's, does |
| DerivedProvenance.ThrowsIff | src/distillation-contract.ts:11-18 | an item makes the check throw exactly if the source's body is not the one Core confirmed and the item would, but for body and time, record it |
| DerivedProvenance.ClaimOutlivesWork | src/distillation-jobs.ts:427-719 | leases, renewals, completions, failures and retries by any workers keep a valid claim valid, with the same claiming jobs |
| DerivedProvenance.ValidIff | src/distillation-derived-provenance.ts:73-107 | the inspection, by the fields of the jobs: a claim is missing exactly if no L3 job refers to the source, and valid exactly if each one that does records only finished L2 results of its project, each once and exactly, the source among them, and any two of them are finished results under one id |
| DerivedProvenance.RepresentativeIsLatest | src/distillation-derived-provenance.ts:103-107 | the representative is the claim with the latest result, the first of them if there is a tie |
| DerivedRecovery.ReconcileCompletedL2 | src/distillation-derived-recovery.ts:20-86 | whatever others do between its reads and its enqueue, a derived job it names is in the ledger with an exact record of a listed, finished source; it queues only while the second read finds the same result; without such a source it fails, and then or on a dry run nothing changes |
| DerivedRecovery.L2EvidenceSays | src/distillation-derived-recovery.ts:62-73 | the queued evidence names the source, with its project, its time and its body |
| DerivedRecovery.QueuedIsValid | src/distillation-derived-recovery.ts:62-78 | a claim that was missing and has just been queued is the one valid claim |
| DerivedRecovery.OkIsValidIffBatchIsNew | src/distillation-derived-recovery.ts:20-86 | an undisturbed reconciliation that answers ok leaves the claim valid if and only if it was valid before or no job, retired ones included, had the very batch of this source |
| DerivedRecovery.OkOverMissingClaim | src/distillation-derived-recovery.ts:62-86 | a store replayed from the empty one on which the reconciliation answers ok, changes nothing, and the claim is missing before and after |
| DerivedRecovery.SecondCallAddsNothing | src/distillation-derived-recovery.ts:41-50 | a second call changes nothing and names the same job |
| DerivedRecovery.MissingIsRebuiltIffIntact | src/distillation-derived-recovery.ts:62-86 | a missing claim of a checked source is rebuilt if and only if the source's body agrees with what Core confirmed |
| DerivedRecovery.DirectIsRebuiltIffTrimmed | src/distillation-jobs.ts:329-330 | a newly recorded direct L2 result with no claim is rebuilt if and only if the body Core confirmed has nothing to trim |
| DerivedRecovery.UntrimmedIsRefused | src/distillation-derived-recovery.ts:74-78 | a reachable store on which the reconciliation queues the missing L3 job and then fails |
| DerivedRecovery.IntactConflictIsTheQueues | src/distillation-derived-recovery.ts:74-78 | where no body contradicts what Core confirmed, a queued job that does not answer is reported as a conflict of the queue |
| L4Recovery.ReconcileCurrentL4 | src/distillation-derived-recovery.ts:94-187 | whatever others do between its reads and its enqueue, a derived job it names records exactly the current result of every project, the source's among at least two; it queues only while the second read finds the same results and no job with these references was listed; without a finished source it fails and changes nothing |
| L4Recovery.AgreesIff | src/distillation-derived-recovery.ts:122-136 | the comparison with a queued L4 job succeeds exactly if that is account-scoped and has one exact record of each current result: its reference, project, body and effective time |
| L4Recovery.QueueNextL4 | src/distillation-submit.ts:297-316 | what submit queues is the snapshot it listed, whatever others do in between, without looking for claims |
| L4Recovery.ReconcileAfterSubmit | src/distillation-derived-recovery.ts:113-136 | right after a submit that queued a snapshot no reconciliation adds a job; for a current source it names the queued job if all commit times are dates, reports differing evidence if not, and several claims if an older one is listed too |
| L4Recovery.SubmitAfterReconcile | src/distillation-submit.ts:297-316 | a submit right after a reconciliation that queued a snapshot adds a second job if and only if some commit time in it is not a date and no job, which could only be a retired one, has the submit's batch |
| L4Recovery.SubmitInsideReconcile | src/distillation-derived-recovery.ts:150-161 | a submit of the snapshot before or after the second read of a reconciliation leads to a second job if and only if some commit time in it is not a date |
| L4Recovery.TwoL4JobsForOneSnapshot | src/distillation-submit.ts:297-316 | a store replayed from the empty one, with a direct and a queued result, on which a reconciliation and then a submit queue two L4 jobs for one snapshot |
| L4Recovery.DatedStoresOneL4Job | src/distillation-submit.ts:226-228 | in every store in which only dates were recorded as commit times, as submit does, the two paths never queue two L4 jobs for one snapshot, whatever happens in between |
| ProjectRegistry.Step | src/project-registry.ts:140-394 | every mutation keeps ids unique, links exactly on merged projects, targets that know the names of what was merged into them; a merged project never changes |
| ProjectRegistry.Walk | src/project-registry.ts:310-352 | following mergedInto from any project terminates at one that is not merged |
| ProjectRegistry.MergesAreAcyclic | src/project-registry.ts:310-352 | in every reachable registry no chain of merges returns to its start |
| ProjectRegistry.PathIsKnown | src/project-registry.ts:211-219 | the end of a chain of merges has the id of its start among its aliases, through any alias update |
| ProjectRegistry.StorageIdsCoverMerges | src/project-registry.ts:96-111 | the storage ids of an active or archived project contain the id of every project transitively merged into it |
| ProjectRegistry.StorageIdsAreNames | src/project-registry.ts:96-111 | every storage id is the given one, an alias of its project, or a name of a project merged directly into it |
| ProjectRegistry.WalkEndKnowsStart | src/project-registry.ts:96-111 | where the walk from a project ends in a live one, that one's storage ids have the project |
| ProjectRegistry.MergedForGood | src/project-registry.ts:346-349 | once merged a project keeps link, names and place through all later mutations |
| ProjectRegistry.MergedNameResolves | src/project-registry.ts:69-94 | merging takes no name away: in every reachable registry every name of a project that was merged, through any chain that ends live, resolves to a live project that goes by it, and to the end of the chain if no other live project does |
| ProjectRegistry.ResolvePrefers | src/project-registry.ts:69-94 | a reference is resolved to a live project that has it as id, name or alias if there is one, else to one with a name that is spelled like it, and only else to the live target of a merged project that goes by it |
| ProjectRegistry.JsonProjectRegistry.EnsureAliasesAvailable | src/project-registry.ts:516-526 | the loop accepts exactly if no other active project of the account goes by one of the aliases |
| ProjectRegistry.JsonProjectRegistry.Create | src/project-registry.ts:140-179 | it succeeds exactly if there is an id, no project of the account goes by it and no other active one by an alias; the new project has exactly the name and aliases asked for |
| ProjectRegistry.JsonProjectRegistry.Update | src/project-registry.ts:181-225 | whatever version the reference was resolved on, the present project is renamed and gets exactly the wanted and the inherited aliases, or nothing changes; it fails only for a blank name, a project that is not active, or a taken alias |
| ProjectRegistry.JsonProjectRegistry.Merge | src/project-registry.ts:310-352 | exactly if both are active and different the source points to the target, which then goes by all its names, and nothing else changes |
| ProjectRegistry.JsonProjectRegistry.ChangeState | src/project-registry.ts:354-394 | archive, unarchive and delete move exactly the project found in the state they require |
| RegistryCache.ReadsAreLinear | src/project-registry.ts:400-446 | in every interleaving of reads, shared fills and replacements whose fingerprints are not served any more, a read returns the file of a version present between its call and its return, and the cache pairs a fingerprint with its own version's file |
| RegistryCache.RepeatedMarkServesOldFile | src/project-registry.ts:404-406 | a run with a repeated fingerprint in which a read returns a file that was not present at any time between its call and its return |
| RegistryCache.ReplacementMisleadsIff | src/project-registry.ts:400-456 | whatever reads and fills are under way, a replacement by a content nobody serves makes a misled read possible if and only if its fingerprint is served: by the cache, by a fill that opened the version with it, loaded it or got it from its own read, or by the shared fill; undecided reads and fills that have not opened the file do no harm |
| RegistryCache.CachingReader.AfterStat | src/project-registry.ts:404-414 | after its stat a read is answered from the cache exactly on an equal fingerprint, and else joins the fill of that fingerprint or starts one; nothing else changes |
| RegistryCache.CachingReader.AfterFill | src/project-registry.ts:414-419 | a read gets the fill's file, or nothing and no cache if the file was gone; nothing else changes |
| RegistryCache.CachingReader.AfterLastStat | src/project-registry.ts:438-446 | the cache is set exactly if the fingerprint is still the present one |
| RegistryCache.CachingReader.Write | src/project-registry.ts:448-455 | with anything else going on before its rename, a write ends with its file present and no cache |
| EditDistance.Levenshtein | src/project-registry.ts:482-498 | the loop over one row overwritten in place computes the edit distance |
| EditDistance.NoCheaperScript | src/project-registry.ts:482-498 | no edit script from one text to the other costs less than the distance |
| EditDistance.CheapestScript | src/project-registry.ts:482-498 | some edit script costs exactly the distance |
| EditDistance.Symmetric | src/project-registry.ts:482-498 | the distance is symmetric |
| EditDistance.Bounds | src/project-registry.ts:482-498 | it is at most the longer length and at least the difference of the lengths |
| EditDistance.ZeroIffEqual | src/project-registry.ts:482-498 | it is zero exactly for equal texts |
| EditDistance.Triangle | src/project-registry.ts:482-498 | it obeys the triangle inequality |
| EditDistance.Similarity | src/project-registry.ts:472-480 | 0 for an empty key and 1 for equal ones; else 92 hundredths of the ratio of the lengths where one key is a part of the other, and the share of the longer key that need not be edited otherwise; always between 0 and 1 |
| EditDistance.PartDistance | src/project-registry.ts:477-477 | of two keys of which one is a part of the other, the edit distance is the difference of their lengths, which is why the branch on lengths agrees with the one on distances |
| EditDistance.SimilarityRange | src/project-registry.ts:472-480 | a similarity is between 0 and 1, symmetric, and 1 exactly for equal keys that are not empty |
| RetrievalRanker.DedupeCandidates | src/retrieval-ranker.ts:125-138 | the loop with its two sets keeps exactly the hits with neither a seen id nor a kept content |
| RetrievalRanker.DedupedIsDistinct | src/retrieval-ranker.ts:125-138 | what is kept comes from the input and has no id and no content twice |
| RetrievalRanker.DroppedIsRepeated | src/retrieval-ranker.ts:125-138 | a dropped hit repeats an earlier id or a kept content |
| RetrievalRanker.DistinctAreKept | src/retrieval-ranker.ts:125-138 | hits with distinct ids and contents are all kept, in order |
| RetrievalRanker.Bm25Scores | src/retrieval-ranker.ts:146-170 | the loops over maps of frequencies compute BM25 of every document |
| RetrievalRanker.DocumentFrequencies | src/retrieval-ranker.ts:149-153 | the map holds, for each query term, in how many documents it occurs |
| RetrievalRanker.Bm25ForgetsOrder | src/retrieval-ranker.ts:146-170 | a document's score does not depend on the order of the documents |
| RetrievalRanker.LexicalIsRelative | src/retrieval-ranker.ts:53-64 | no lexical score is above 1, the best is 1 if any is positive, and fused scores are between 0 and 1 |
| RetrievalRanker.LexicalIffMatched | src/retrieval-ranker.ts:53-64 | as the tokenizer repeats no token, no lexical score is negative, and it is positive exactly for the hits that have a term of the query |
| RetrievalRanker.FusionIsMonotone | src/retrieval-ranker.ts:56-64 | of two hits with the same words the one of higher semantic score never fuses lower |
| RetrievalRanker.Jaccard | src/retrieval-ranker.ts:206-212 | counting common tokens gives the size of the intersection over that of the union |
| RetrievalRanker.SimilarityRange | src/retrieval-ranker.ts:206-212 | the similarity is between 0 and 1, symmetric, and 1 exactly for equal non-empty sets |
| RetrievalRanker.BestOf | src/retrieval-ranker.ts:77-97 | the inner loop finds the candidate better than all others that remain |
| RetrievalRanker.ClosestOf | src/retrieval-ranker.ts:82-84 | the greatest similarity to the earlier picks |
| RetrievalRanker.BetterIsStrict | src/retrieval-ranker.ts:88-92 | adjusted score, fused score and id order candidates of different ids strictly and totally |
| RetrievalRanker.Select | src/retrieval-ranker.ts:74-100 | as many picks as the limit and the candidates allow, no repeats, each the best of what the earlier picks left |
| RetrievalRanker.GreedyIsUnique | src/retrieval-ranker.ts:74-100 | the selection is determined by the set of candidates |
| RetrievalRanker.RankRecallHits | src/retrieval-ranker.ts:40-123 | the ranking has as many kept hits as they and the limit, 1 to 50, allow; of two hits of equal score the one taken first is never closer to the earlier picks, a hit disjoint from them is never passed over for one of lower score, and a repeat is taken before it exactly with a lead of at least 0.12 |
| RetrievalRanker.LeadDecides | src/retrieval-ranker.ts:79-92 | of two candidates one is taken before the other exactly if its lead in score exceeds twelve hundredths of the difference in closeness to the earlier picks; ties go to the higher score, then the lower id |
| RetrievalRanker.PickIsDiverse | src/retrieval-ranker.ts:79-92 | the same of every greedy selection of candidates |
| RetrievalRanker.FirstIsHighest | src/retrieval-ranker.ts:74-92 | the first pick has the highest score |
| RetrievalRanker.FusedIs | src/retrieval-ranker.ts:56-64 | the fused score is 68 hundredths of the semantic score x/(1+x) and 32 of the lexical one relative to the best, and 8 more for a phrase, at most 1 |
| RetrievalRanker.TermScoreIs | src/retrieval-ranker.ts:155-168 | the score of one term is the smoothed inverse frequency times 2.2 tf / (tf + 0.3 + 0.9 of the relative length) |
| RetrievalRanker.TitleCountsTwice | src/retrieval-ranker.ts:140-144 | a hit's tokens are those of its title twice and of its snippet once, up to 2048 |
| RetrievalRanker.ClosestRange | src/retrieval-ranker.ts:82-84 | closeness to the earlier picks is between 0 and 1, 0 exactly if nothing is shared with any, 1 exactly for a repeat |
| RetrievalRanker.RankingForgetsOrder | src/retrieval-ranker.ts:40-123 | for hits with distinct ids and contents the ranking and its scores do not depend on the order of the input |
| Utf8.BytesJoin | src/context-capsule.ts:377-377 | the length of two joined texts is the sum of theirs, less two where the join completes a surrogate pair |
| Utf8.PrefixMonotone | src/context-capsule.ts:375-379 | prefix lengths grow with the prefix, also where it splits a pair, so the searched predicate is monotone |
| Utf8.SuffixMonotone | src/context-capsule.ts:388-392 | the same for suffixes |
| Utf8.Prefix | src/context-capsule.ts:372-383 | the binary search finds the longest prefix that fits and steps back over half a pair |
| Utf8.PrefixAlwaysFits | src/context-capsule.ts:372-383 | for any text the result fits and does not split a pair |
| Utf8.PrefixIsLongest | src/context-capsule.ts:372-383 | for well-formed text the result is the longest prefix of whole code points that fits |
| Utf8.PrefixWastesLittle | src/context-capsule.ts:372-383 | a prefix of well-formed text that had to be cut leaves at most three bytes unused |
| Utf8.Suffix | src/context-capsule.ts:385-396 | the mirrored search |
| Utf8.SuffixAlwaysFits | src/context-capsule.ts:385-396 | for any text the result fits and does not split a pair |
| Utf8.SuffixIsLongest | src/context-capsule.ts:385-396 | for well-formed text the result is the longest suffix of whole code points that fits |
| Utf8.SuffixWastesLittle | src/context-capsule.ts:385-396 | the same for a suffix |
| Utf8.MarkerBytes | src/context-capsule.ts:363-364 | the truncation marker is 46 bytes long |
| Utf8.MarkerText | src/context-capsule.ts:363-364 | which text that is, word by word |
| Utf8.BytesAreEncoded | src/context-capsule.ts:234-234 | the byte length used throughout is the length of the UTF-8 encoding, lone surrogates replaced |
| Utf8.PointRoundTrip | src/context-capsule.ts:234-234 | encoding a code point and decoding it gives it back, with the lead byte telling the length |
| Utf8.PairIff | src/context-capsule.ts:377-380 | each code point beyond the basic plane is exactly one pair of a high and a low surrogate, and no code unit is both |
| Utf8.TruncateHeadTail | src/context-capsule.ts:362-370 | up to 48 bytes it is a prefix; beyond, the text's beginning within seven tenths of what the 46 bytes of the marker leave, the marker, and its end within the rest, without overlap; the result fits, and for well-formed text at most six bytes stay unused |
| Utf8.HeadTailFits | src/context-capsule.ts:366-369 | however the payload is split, head, marker and tail fit together |
| Utf8.HeadTailDisjoint | src/context-capsule.ts:366-369 | of a text longer than the payload, head and tail do not overlap |
| Utf8.TruncatedFits | src/context-capsule.ts:362-370 | the same of the specification that the loops are proved to compute |
| ContextBudget.BuildExtractiveBrief | src/context-capsule.ts:310-348 | the loop over passages with its early end computes the brief |
| ContextBudget.BriefTakesWhatFits | src/context-capsule.ts:310-348 | a brief is empty if the outline leaves at most 32 bytes; else it is, trimmed, the outline with as many whole passages as fit, in order, or with the first one cut to what is left if that is at least 64 bytes, and empty if that leaves no passage |
| ContextBudget.BriefFits | src/context-capsule.ts:310-348 | a brief fits its limit |
| ContextBudget.OutlineIs | src/context-capsule.ts:315-318 | the outline is its title and a bullet for each heading, a line each, and a blank line; without headings there is none |
| ContextBudget.TrimTakesSpace | src/context-capsule.ts:347-347 | trimming takes all white space away at both ends and nothing else |
| ContextBudget.BoundContextItem | src/context-capsule.ts:232-308 | an item within its allowance is unchanged; a longer one shows its brief in brief mode, if it has any, and its head and tail otherwise; the reported bytes and flag are right |
| ContextBudget.BoundedFits | src/context-capsule.ts:232-308 | a bounded item is within its allowance |
| ContextBudget.ApplyContextBudget | src/context-capsule.ts:166-230 | the round-robin terminates; each emitted item is bounded by the smaller of the item limit and what the items before it in turn have left; something is dropped only if one of the two is below 256 bytes in the end; emitted bytes are those of the output and within the total; emitted and dropped items are all items; the cut ones are counted; no lane gets ahead of one that has items left |

## Left out

- HTTP gateway, MCP tool schemas, command line, web UI, installers, process supervision: plumbing around the modelled state.
- Memory Core internals, SQL texts, the WAL, file permissions, fsync and Windows rename retries: atomic rename, exclusive create and transactions are primitives, and a reader refuses while uncheckpointed writes exist.
- Regular expressions, Unicode normalisation, collation, JSON parsing and schema checks of stored files: total functions, parameters or a fixed order by character codes.
- src/secret-redaction.ts: stored capture events are taken as already redacted.
- Liveness of the lock: a crash before the owner is written, or while the reclaim guard is held, blocks for good by design; only safety is stated. Contention errors other than EEXIST are left out.
- CommitProgram.CommitStore.PruneRecord: the age and number limits of collection are an arbitrary choice of the caller; only terminal records are ever collected.
- CommitProgram.CommitStore.Submit: evidence validation, lease checks and the liveness of a recorded memory are one arbitrary check that may pass or fail; the derived enqueue after completion is modelled with the L4 evidence only.
- Privacy and redaction summaries of a capture are one of its provenance values.
- Migration of version 1 job stores and the classification of failures by their text: stores begin empty in the version 2 form.
- Job fields that no operation decides on: scope as a field of its own, reason, conversation, failed_at, updated_at. The last one ranks claims that have no valid time at all; here the time of creation does, and no completed job is without one.
- Listing order of jobs: every result about a listing is proved independent of it, except which of several equally recent claims of one lineage represents it, and whether claims that fail are reported as a conflict or end in the error of the first that throws.
- Content of evidence is one text; user, assistant, reasoning and tool parts are not told apart.
- Descriptions and todos of projects, the order of aliases, and the check that a project id is a safe path segment.
- ProjectRegistry.MergedNameResolves: a rename is not checked against other projects, so another live project may take a merged project's old name; then the first of them in the file is the answer.
- RegistryCache.ReplacementMisleadsIff: nothing is said about a fingerprint under which a fill waits for a read of its own that has looked at the file and not returned; avoiding it is sufficient (ReadsAreLinear).
- RegistryCache.ReadsAreLinear: reads that fail for another reason than a missing file, and reads under the mutation lock.
- RetrievalRanker.RankRecallHits: floating-point rounding of scores and the rounding of reported ones to four digits; the lists of matched terms.
- Utf8.TruncateHeadTail: seven tenths are exact here; in floating point the head is one byte shorter for some payloads. The bounds hold for every split (HeadTailFits, HeadTailDisjoint).
- ContextBudget.BuildExtractiveBrief: which headings a text and which passages an item has is a parameter.
- Scope filtering of context items, result chunking, skill versions and telemetry, branch store, authorisation maps, audit counts.
