# Shiliu coordination and evidence core: a verified model

Shiliu collects favourite videos, transcribes and summarises them, and answers questions with
citations.  The parts modelled here are the ones that have to stay correct through crashes,
restarts, stalled workers and concurrent callers.  Each is written as the program has it, and what
the program is for is proved about it.

| files | part of the system |
|---|---|
| `Leases.dfy` | lease, epoch and fencing columns of one database row |
| `AsrDispatch.dfy`, `AsrRun.dfy`, `AsrSafety.dfy`, `AsrPublish.dfy`, `AsrProgress.dfy` | speech-recognition jobs: a paid request is sent at most once, and a result is published only over its own input |
| `StageDispatch.dfy`, `StageRun.dfy`, `StagePublish.dfy`, `StageProgress.dfy` | the leased transcript and summary stages |
| `RawTranscript.dfy` | sections made of a raw subtitle |
| `Harvest.dfy`, `HarvestRun.dfy`, `HarvestSafety.dfy`, `HarvestStreak.dfy`, `HarvestWitness.dfy`, `HarvestResume.dfy`, `HarvestRestart.dfy`, `HarvestOutcomes.dfy`, `HarvestStarts.dfy`, `HarvestLimits.dfy`, `HarvestFiles.dfy`, `EventLog.dfy` | the resumable publication-date harvest over an append-only log |
| `Collection.dfy`, `CollectionRun.dfy`, `MembershipSafety.dfy`, `Reentry.dfy`, `Coverage.dfy`, `CoverageExact.dfy` | favourite sources, memberships, videos that come back, history coverage |
| `Paging.dfy`, `SnapshotReads.dfy`, `SnapshotPlaces.dfy`, `SnapshotSafety.dfy`, `SnapshotTies.dfy`, `PageOrder.dfy` | library pages read at a snapshot while scans insert rows |
| `Evidence.dfy`, `Packing.dfy`, `PackingSafety.dfy`, `PackingKeeps.dfy`, `Fusion.dfy` | evidence spans: citation check, packing under budgets, fusion |
| `Backfill.dfy`, `BackfillSafety.dfy` | publication-time backfill with compare-and-set rollback |
| `DraftLog.dfy`, `DraftSafety.dfy`, `DraftProgress.dfy`, `DraftLengths.dfy` | the append-only revisions of a knowledge draft |
| `Orders.dfy`, `Wrappers.dfy` | sorting by a strict order; `Option` |

How it is modelled:

- A `with connect(...)` block is one atomic transaction.  Code that updates rows, lists or counters
  in place is a class whose methods change fields; each method is proved equal to a function of the
  old state, and the laws are proved about that function over every run.
- For the leased workers the shared state is a step system: any number of workers, one step per
  transaction or external call, with crashes, stalls, heartbeats and lease expiry between any two
  steps.  `AsrRun` and `StageRun` hold the straight-line code of one worker, and prove that, whatever
  the others do in between, its effect is a run of that step system.
- Clocks, providers, the file system and `fetch_one` are parameters: an oracle answers each call.
- Hashes (citation ids, draft ids, revision ids, candidate and payload hashes) are taken as injective.
- Every lemma carries `{:induction false}`: its body is its whole proof.  A `hide` at the head of a
  body leaves definitions out that the proof does not need.

Where the code does not do what one would expect of it, the model follows the code:

- `HarvestStreak.StreakStopsEverythingIff`: a target that reached two rate limits in a row does not
  always end all requests.  With an unanswered start behind it the next start turns that request into
  an exception and the run goes on to the next target; `HarvestWitness.StreakWithOpenRequest` reaches
  such a log with three runs under the default limit.
- `HarvestRestart.NeverAgainIff`: a request in flight behind an earlier stop of its target is not
  settled by a restart and is sent again while attempts are left; `HarvestWitness.HiddenRequestIsReached`
  reaches such a log with two runs.
- `AsrSafety.LockIsNeeded`: the unclaimed manual reset acts on a stale read; without the process lock
  around manual acquisitions a job can be submitted twice.
- `CoverageExact.CoverageExactIff`: asking again for the coverage in force leaves the queue as it is,
  and three short runs leave it inexact: a linked row queued (`LinkedStaysQueued`), a queued row that is
  no longer selected (`OutdatedStaysQueued`), a selected row that is not queued (`SuccessorStaysUnqueued`).
- `SnapshotSafety.PositionsKeptIff`: a complete scan that only inserts keeps the snapshot positions of
  the old rows only when no two of them share a stored position.  An incomplete scan makes rows share
  one; in `SnapshotTies.TiedCardIsSkipped` the next complete scan then gives a card another key, and a
  reader who follows the cursors never sees a card that was in its snapshot all the time.
- `DraftLengths.RepliesFinalIff`: a command id of the full 160 characters makes the started row take
  the request's own id, so the finished work is never recorded and asking again returns the started row.
- `DraftLengths.OrderKeptIff`: at 159 characters the started and the blocked row of one request share
  an id, and candidates can become ready with no row that says work started.

## Model

| member | source | states |
|---|---|---|
| Leases.FencedHistory | src/shiliu/db.py:1504-1618 | over every history of one row the grants have strictly rising epochs, commits are ordered by epoch, and each guarded commit belongs to a granted claim |
| Leases.OneWriterPerEpoch | src/shiliu/db.py:1568-1589 | two guarded commits under one epoch come from the same owner |
| Leases.HistoryOnlyGrows | src/shiliu/db.py:1504-1566 | the epoch never decreases and commits are never undone, whatever happens next |
| Leases.StaleWorkerIsInert | src/shiliu/db.py:1568-1618 | once the epoch has passed a claim, that worker's writes, batches, heartbeats and release change nothing, in every later state |
| Leases.BatchCommitsIff | src/shiliu/db.py:114-123 | a source batch commits if and only if its claim is current and still live when the batch ends |
| Leases.HeartbeatHolds | src/shiliu/db.py:1590-1602 | an accepted heartbeat gives the whole term anew: until then the claim passes, nobody else is granted the row and nobody else commits, unless its own worker releases or beats again or it is revoked |
| Leases.ClaimHolds | src/shiliu/db.py:1504-1566 | the same for the term a granted claim gives |
| Leases.ReleaseFrees | src/shiliu/db.py:1604-1618 | after a release the next claim is granted at once with the next epoch, and the old claim is dead |
| Leases.LeasedRow.TakeLease | src/shiliu/db.py:1504-1566 | the columns after a claim, and whether it was granted, as the row's history says |
| Leases.LeasedRow.Heartbeat | src/shiliu/db.py:1590-1602 | a heartbeat extends the lease of the current live claim and nothing else |
| Leases.LeasedRow.ReleaseLease | src/shiliu/db.py:1604-1618 | a release frees the row only for the current live claim |
| Leases.LeasedRow.GuardedWrite | src/shiliu/db.py:1568-1589 | a guarded write commits exactly when the check passes |
| Leases.LeasedRow.UnclaimedWrite | src/shiliu/db.py:1478-1487 | a write without a claim commits only while no owner is recorded |
| Leases.LeasedRow.SourceWrite | src/shiliu/db.py:114-123 | the claim is checked when the batch starts and again when it ends |
| AsrSafety.AtMostOneSubmit | src/shiliu/asr.py:380-399 | from any unclaimed row and under any interleaving, crash, stall and lease expiry, `provider.submit` is called at most once |
| AsrSafety.TaskIdIsPermanent | src/shiliu/asr.py:389-399 | a committed task id is never cleared or replaced |
| AsrSafety.DispatchIsNeverForgotten | src/shiliu/asr.py:502-533 | once "submitted" is committed the job stays submitted, has a task id, or waits for review with an unknown-outcome code that no retry clears |
| AsrSafety.LockIsNeeded | src/shiliu/web.py:3072 | without the process lock around manual acquisitions there is a run with two submits |
| AsrSafety.StepKeeps | src/shiliu/asr.py:240-433 | every transaction, call, crash and heartbeat keeps the invariant that ties the row, the lease and the workers' places |
| AsrPublish.InputWasRead | src/shiliu/asr.py:281-334 | in every run, the raw subtitle a worker goes by is one it read from the video at some moment under the claim it still has, and it never changed since |
| AsrPublish.PublishedOverItsInput | src/shiliu/asr.py:434-500 | in every run, whenever a worker's step changes the raw subtitle or completes the job, its claim passes, both are written, and the raw subtitle of that moment is the one it read under the same claim |
| AsrPublish.GoodResultIsPublished | src/shiliu/asr.py:434-500 | a good answer is published if the claim passes and the input is unchanged, and otherwise nothing is written |
| AsrProgress.GoodRunCompletes | src/shiliu/asr.py:240-433 | from every row that waits, and from one in review that an operator asks for again, a worker for whom all goes well completes the job with its result, gives the lease back, and sends one request, or none when a task is known |
| AsrProgress.FailureIsRecorded | src/shiliu/asr.py:502-526 | review when a request may be out with no task known; else another try while fewer than three attempts were made and the error allows one |
| AsrRun.Process.ClaimJob | src/shiliu/asr.py:240-273 | what `acquire` does up to the claim is a run of the step system; it ends holding a claim or done |
| AsrRun.Process.ClaimRow | src/shiliu/db.py:1504-1558 | the claim transaction, which parks a dispatched row without a task id for review |
| AsrRun.Process.ReadJob | src/shiliu/asr.py:281-333 | the second read, the manual reset under the claim, and the decision to go on |
| AsrRun.Process.FindInput | src/shiliu/asr.py:335-362 | the recorded trigger and the checks of the stored audio |
| AsrRun.Process.UploadAudio | src/shiliu/asr.py:364-379 | download and upload, skipped when a task or an upload is known |
| AsrRun.Process.Submit | src/shiliu/asr.py:380-399 | the possible dispatch is committed before the request is sent, the task id after it |
| AsrRun.Process.PollResult | src/shiliu/asr.py:400-422 | the polling loop, which ends in a publication, a failure or the deadline |
| AsrRun.Process.Complete | src/shiliu/asr.py:434-500 | the result is published only if the input is unchanged and the claim still passes |
| AsrRun.Process.RecordFailure | src/shiliu/asr.py:502-533 | the failure is classified from a fresh read: an unknown outcome after a dispatch goes to review |
| AsrRun.Process.Acquire | src/shiliu/asr.py:240-433 | whatever others do in between, the effect of the code on the shared state is a run of the step system, and it gives the lease back |
| StageDispatch.AtMostThreeDispatches | src/shiliu/pipeline.py:1092-1114 | between two resets at most three dispatches are committed, each worker commits and calls at most once, and calls the model only after its own commit |
| StageDispatch.UnknownOutcomeIsNeverRetried | src/shiliu/db.py:1519-1549 | a stage left in processing with nobody to record the outcome is never dispatched again before a reset |
| StageDispatch.StepKeeps | src/shiliu/pipeline.py:55-93 | every step keeps the invariant of the stage row and its workers |
| StagePublish.InputWasRead | src/shiliu/pipeline.py:75-77 | in every run, the input a stage worker goes by is one it read under the claim it still has |
| StagePublish.CompletedOverItsInput | src/shiliu/pipeline.py:114-120 | in every run, a step completes the stage only after a call of the model, under a passing claim, and over the raw subtitle that worker read under the same claim |
| StagePublish.GoodResultIsPublished | src/shiliu/pipeline.py:114-120 | with a passing claim and an unchanged input the stage is completed, and otherwise nothing is written |
| StagePublish.FailureIsRecorded | src/shiliu/pipeline.py:1092-1114 | retry exactly for a retryable error with fewer than three attempts, review otherwise |
| StageProgress.GoodRunCompletes | src/shiliu/pipeline.py:55-93 | from every stage that waits, a worker for whom all goes well completes it with one more attempt and one call, and gives the lease back |
| StageProgress.ResetBringsBack | src/shiliu/db.py:1336-1344 | the operator's reset makes a stage that waits or is in review claimable again with a new epoch, and leaves any other stage alone |
| StageRun.Process.ClaimRow | src/shiliu/db.py:1504-1558 | the claim of a stage row |
| StageRun.Process.RunClaimed | src/shiliu/pipeline.py:517-577 | the stage body follows the step system: due, read, commit processing with one more attempt, call |
| StageRun.Process.CallModel | src/shiliu/pipeline.py:631-694 | from the dispatch on: provider, one model call, then the result or the failure |
| StageRun.Process.RecordFailure | src/shiliu/pipeline.py:1092-1114 | retry while attempts are left, else review |
| StageRun.Process.Execute | src/shiliu/pipeline.py:55-93 | claim, body and release together are a run of the step system |
| RawTranscript.SectionsOf | src/shiliu/pipeline.py:1166-1218 | one section for each maximal run of one two-minute bucket, starting when the run starts; the error exactly when no text is left |
| RawTranscript.RunLength | src/shiliu/pipeline.py:1186-1202 | the leading run of one bucket ends exactly where the bucket first changes |
| RawTranscript.GroupedSnoc | src/shiliu/pipeline.py:1182-1203 | taking subtitles in one at a time gives the division into maximal runs |
| RawTranscript.SectionsConserveText | src/shiliu/pipeline.py:1182-1211 | no text is lost, added or moved |
| HarvestRun.FoldEvents | src/shiliu/p3_metadata_harvest.py:197-232 | the dictionaries filled in one pass are, for every video, the fold of the log |
| HarvestRun.MarkInFlight | src/shiliu/p3_metadata_harvest.py:224-231 | a start that nothing answered is marked unless the newest answer is final |
| HarvestRun.Run.AfterFailure | src/shiliu/p3_metadata_harvest.py:596-650 | stop, give up or try again, as the class of the error, the streak and the attempts say |
| HarvestRun.Run.TryTarget | src/shiliu/p3_metadata_harvest.py:569-701 | the attempts of one target append exactly what the specification says |
| HarvestRun.Run.DoTarget | src/shiliu/p3_metadata_harvest.py:545-701 | one target, with its checks of the last failure and of the streak |
| HarvestRun.Run.RecoverInFlight | src/shiliu/p3_metadata_harvest.py:421-436 | requests in flight become exceptions before anything else is appended |
| HarvestRun.Run.FindActiveStop | src/shiliu/p3_metadata_harvest.py:235-249 | the newest stop that nothing after it resumed |
| HarvestRun.Run.TakeCheckpoint | src/shiliu/p3_metadata_harvest.py:472-510 | a checkpoint is appended when forced or due, and resets the counter |
| HarvestRun.Run.Harvest | src/shiliu/p3_metadata_harvest.py:421-711 | the log a whole run leaves is the one the specification gives |
| HarvestSafety.RunsLegal | src/shiliu/p3_metadata_harvest.py:545-701 | every sequence of runs, each cut after any append, keeps the log discipline |
| HarvestSafety.NothingAfterTerminal | src/shiliu/p3_metadata_harvest.py:421-436 | at most one terminal event per target, and no event about that target follows it |
| HarvestSafety.AttemptsAndStreakBounded | src/shiliu/p3_metadata_harvest.py:557-612 | attempts per target never exceed the limit, and the rate-limit streak never exceeds two |
| HarvestSafety.StartsAreForFirstOpen | src/shiliu/p3_metadata_harvest.py:545-591 | a request is started only for the first non-terminal target in plan order, with the next attempt number |
| HarvestSafety.TargetLegal | src/shiliu/p3_metadata_harvest.py:557-701 | one target ends or the run stops, and only that target is touched |
| HarvestStreak.StreakStopsEverythingIff | src/shiliu/p3_metadata_harvest.py:442-446 | once a target has a streak of two, no further request is ever started if and only if it has no unanswered start or is the last target |
| HarvestWitness.StreakWithOpenRequest | src/shiliu/p3_metadata_harvest.py:557-561 | three runs with the default limit reach a streak of two with an unanswered start |
| HarvestResume.InFlightSettledIff | src/shiliu/p3_metadata_harvest.py:421-436 | a request left in flight becomes an exception at the next start if and only if the newest answer of its target is not a stop |
| HarvestResume.HiddenRequestIsReissued | src/shiliu/p3_metadata_harvest.py:224-231 | behind a stop a resumed run sends the request again |
| HarvestRestart.NeverAgainIff | src/shiliu/p3_metadata_harvest.py:421-436 | a request that a crash left in flight is never sent again, by any later runs and cuts, if and only if the newest answer of its target is not a stop or its attempts are used up |
| HarvestWitness.HiddenRequestIsReached | src/shiliu/p3_metadata_harvest.py:224-231 | two runs with the default limit leave a request in flight behind a stop that a later run sends again |
| HarvestRestart.HeadsAgree | src/shiliu/p3_metadata_harvest.py:545-701 | at the head of every turn of every run the memory of each target equals the fold of the log, all targets before it have ended, and no stop refuses to go on |
| HarvestRestart.RestartContinues | src/shiliu/p3_metadata_harvest.py:545-591 | a crash at the head of any turn of any run and a restart on the log it left, with what remains of the limit on newly resolved targets, go on as the uninterrupted run does, up to checkpoints |
| HarvestRestart.ActiveStopFades | src/shiliu/p3_metadata_harvest.py:235-249 | a legal log that goes on without a new stop keeps its active stop or has none: no older stop comes back |
| HarvestOutcomes.RunAnswers | src/shiliu/p3_metadata_harvest.py:569-701 | in every uncut run each request is followed by what its answer calls for, and each failure by the retry, exception or stop that its class, the streak, the attempts and the wait call for, class by class |
| HarvestOutcomes.StopKindEndsRun | src/shiliu/p3_metadata_harvest.py:590-599 | an authentication failure, a risk control or a local failure is followed by exactly the stop of its kind and a checkpoint, and by nothing else for any target |
| HarvestOutcomes.StopKindsGiveNothingUp | src/shiliu/p3_metadata_harvest.py:590-599 | over every sequence of cut runs no exception of such a kind ever stands in the log |
| HarvestStarts.StartsIff | src/shiliu/p3_metadata_harvest.py:438-566 | a run sends a request if and only if no stop in force binds it, the first open target's newest failure does not wait for the operator, and its streak is below two; the first request is then for that target |
| HarvestStarts.GoodRunEndsAll | src/shiliu/p3_metadata_harvest.py:545-710 | a run that may go on and whose every request is answered well ends every target |
| HarvestLimits.CheckpointsAreTimely | src/shiliu/p3_metadata_harvest.py:459-512 | over every sequence of cut runs a stretch of the log without a checkpoint holds no more requests than the limit |
| HarvestLimits.RunCounts | src/shiliu/p3_metadata_harvest.py:545-552 | a run ends no more targets than its options allow, apart from the requests in flight that its recovery ends |
| HarvestFiles.Materialize | src/shiliu/p3_metadata_harvest.py:266-275 | the two files hold the newest terminal events, in plan order, split by kind |
| HarvestFiles.FilesCoverPrefix | src/shiliu/p3_metadata_harvest.py:266-275 | over every sequence of cut runs the rows of both files are one for each ended target, the ended targets are a prefix of the plan, and one file holds exactly the candidates and the other the exceptions, each in plan order |
| EventLog.LogFile.AppendEvent | src/shiliu/p3_metadata_harvest.py:70-78 | one whole line is added to the file |
| EventLog.LogFile.ReadEvents | src/shiliu/p3_metadata_harvest.py:95-116 | a torn last line is cut off and the rest is parsed, or the log is reported corrupt |
| EventLog.DecodeEncode | src/shiliu/p3_metadata_harvest.py:95-116 | parsing the bytes of a log gives back its events |
| EventLog.CutFileRecovers | src/shiliu/p3_metadata_harvest.py:95-116 | cut at any byte, the file gives exactly the events whose whole line was written, and later appends extend that list |
| EventLog.RecoveredIff | src/shiliu/p3_metadata_harvest.py:95-116 | an event survives the cut if and only if its line does |
| Evidence.RunPassesCheck | src/shiliu/ask/citations.py:11-49 | a contiguous run of coherent segments passes every check of the citation id |
| Evidence.MergeIsRun | src/shiliu/ask/context.py:196-226 | merging two touching runs gives one contiguous run of exactly their segments |
| Evidence.FitIsLongestPrefix | src/shiliu/ask/context.py:161-183 | fitting keeps the longest prefix of segments within the budget |
| Packing.Builder.FitSpan | src/shiliu/ask/context.py:161-183 | the loop that fits one span |
| Packing.Builder.PlaceSpan | src/shiliu/ask/context.py:84-127 | the loop over the selected spans: merge in place, drop, or go on |
| Packing.Builder.TakeSpan | src/shiliu/ask/context.py:77-127 | one turn of the outer loop |
| Packing.Builder.Build | src/shiliu/ask/context.py:77-127 | lists and counters after the whole input, or the error that comes out |
| PackingSafety.PackingIsSound | src/shiliu/ask/context.py:77-127 | well-formed input never fails the citation check; every selected span is a duplicate-free, ordered, contiguous run of one lineage with the quote and citation of its segments; the total is the sum of the quotes; all three budgets hold |
| PackingSafety.UntruncatedLosesNothing | src/shiliu/ask/context.py:84-127 | without truncation every input span lies whole, with provenance and parents, in one selected span, and nothing was dropped |
| PackingSafety.CheckAcceptsIff | src/shiliu/ask/citations.py:11-49 | on coherent segments the check accepts if and only if they are a contiguous run |
| PackingSafety.MergeIsGood | src/shiliu/ask/context.py:196-226 | merging touching good spans is never refused and carries both |
| PackingSafety.FitIsOk | src/shiliu/ask/context.py:161-183 | fitting a good span keeps a good span within the budget, and the same span when no segment was cut |
| PackingSafety.PlaceIsOk | src/shiliu/ask/context.py:84-127 | the inner loop keeps the budgets, only adds to selected spans, and drops nothing unnoticed |
| PackingKeeps.ApartIsSelected | src/shiliu/ask/context.py:122-127 | a whole span that touches no selected span of its lineage is selected as it is, and nothing else changes, if there is room, and is counted as dropped if not |
| PackingKeeps.RoomyInputIsKept | src/shiliu/ask/context.py:77-127 | an input of whole spans, apart from one another and within all budgets, is selected span for span, untruncated |
| PackingKeeps.TouchingIsMerged | src/shiliu/ask/context.py:96-121 | a span that touches one selected span is merged into it when both budgets allow; otherwise it is dropped, or stands alone when it is only adjacent and the merged span would be too long |
| PackingKeeps.TooLongIsDropped | src/shiliu/ask/context.py:88-93 | a span whose first segment is too long is dropped and counted |
| Fusion.FuseEvidence | src/shiliu/ask/context.py:20-58 | every entry of the dictionary comes out once, in the order of the sort key |
| Fusion.FusionIgnoresOrder | src/shiliu/ask/context.py:20-58 | every permutation of the input gives the same ordered ids, scores, videos and start times |
| Fusion.EachIdOnce | src/shiliu/ask/context.py:23-47 | each id of the input comes out exactly once |
| Fusion.ScoreIsTotal | src/shiliu/ask/context.py:25-47 | a fused score is the sum over the occurrences of its id |
| Fusion.EntryCarries | src/shiliu/ask/context.py:35-47 | a fused span carries the provenance and the parents of every occurrence and no others |
| Fusion.BestComesFirst | src/shiliu/ask/context.py:48-58 | scores never rise along the result; equal scores go by video, then start time, then the text of the id |
| Fusion.BetterRanksWeighMore | src/shiliu/ask/context.py:25-28 | every hit counts for something, and one of a better rank for more |
| CollectionRun.Library.AddVideoRow | src/shiliu/db.py:215-267 | a video is inserted or revived, and the result says which |
| CollectionRun.Library.Upsert | src/shiliu/db.py:455-491 | a membership is inserted with a new number or updated in place |
| CollectionRun.Library.ObserveVideo | src/shiliu/db.py:493-520 | an observed video is visible again, and unarchived when it re-enters |
| CollectionRun.Library.InitializeMemberships | src/shiliu/db.py:522-606 | the whole state after a baseline scan |
| CollectionRun.Library.RecordSnapshot | src/shiliu/db.py:608-694 | the whole state after a forward scan, and exactly the videos it created |
| CollectionRun.Library.UpdateCoverage | src/shiliu/db.py:696-760 | the rows and the source after a change of coverage, the error cases, and the number queued |
| CollectionRun.Library.MaterializeMembership | src/shiliu/db.py:781-809 | the state after materialising one row, and the error cases |
| CollectionRun.Library.Remove | src/shiliu/db.py:437-453 | the source goes with its memberships, and no video is touched |
| MembershipSafety.RunsKeepSound | src/shiliu/db.py:455-809 | every sequence of transactions keeps links, removal flags, membership numbers and video ids consistent |
| MembershipSafety.RemovedVideosAreNotHeld | src/shiliu/db.py:665-677 | over every sequence of transactions a removed video never has an active membership |
| MembershipSafety.OnlyCompleteScansRemove | src/shiliu/db.py:608-677 | no transaction but a complete forward scan turns a row or a video removed |
| MembershipSafety.CompleteScanIsExact | src/shiliu/db.py:664-677 | after a complete scan the active memberships are exactly the scanned ids, and each linked video is removed if and only if no source holds it |
| Reentry.ListedComesBack | src/shiliu/db.py:634-663 | a listed item that is new or removed in the source ends with its video unarchived, and when the video was archived or held by no active source, shown with the time the source gives, or the present |
| Reentry.ListedStays | src/shiliu/db.py:510-520 | a listed item the source held already keeps its archive flag, and its shown time never falls |
| Reentry.ForwardScanTurns | src/shiliu/db.py:634-663 | the row and the video of every item a forward scan lists, in terms of the state before it alone |
| Reentry.BaselineScanTurns | src/shiliu/db.py:554-576 | the row and the video of every item a baseline scan lists: no video is made, and one that is there comes back |
| Reentry.ScanKeepsVideos | src/shiliu/db.py:493-520 | no scan changes a video's id, mark, note or discovery time, or anything of an unlisted video but whether it is removed |
| Coverage.BaselineAgreesWithCoverage | src/shiliu/db.py:538-587 | on a source without earlier rows the baseline's choice and the coverage query select the same items with the same cutoff |
| Coverage.LargerCoverageOnlyAdds | src/shiliu/db.py:719-749 | a larger N only adds items and never raises a defined cutoff |
| CoverageExact.CoverageExactIff | src/shiliu/db.py:712-760 | after the call the queue is exactly the selected rows without a video, if and only if the coverage was not in force already, or no linked row was queued, no queued row lay outside the selection, and no selected row was missing |
| CoverageExact.AlwaysExactIff | src/shiliu/db.py:712-741 | for a caller who sees only the source columns, exactness holds for all rows if and only if the coverage asked for is not the one in force |
| CoverageExact.LinkedStaysQueued | src/shiliu/db.py:712-718 | a run that leaves a linked row queued |
| CoverageExact.OutdatedStaysQueued | src/shiliu/db.py:712-718 | a run that leaves a row queued outside the selection, with no linked row queued |
| CoverageExact.SuccessorStaysUnqueued | src/shiliu/db.py:712-718 | a run that leaves a selected row without a video unqueued |
| CoverageExact.AlwaysAgreesIff | src/shiliu/db.py:538-587 | for a list of ids, the baseline's choice and the coverage query agree for all times, policies and limits, if and only if no id repeats |
| Coverage.MaterializeDrains | src/shiliu/db.py:781-809 | materialising a waiting row lowers the queue by exactly one and gives it a visible video |
| Coverage.SelectionIsPrefix | src/shiliu/db.py:707-726 | the first N rows of the ordered query are those with fewer than N rows before them |
| Coverage.NewestAreSelected | src/shiliu/db.py:707-726 | the latest N are N active rows or all there are; none left out is favourited later than one selected, and of equal times the one nearer the top is selected |
| Coverage.NewestItemsAreChosen | src/shiliu/db.py:538-554 | the same for the baseline's choice among the items it was given |
| Paging.PageIsBlock | src/shiliu/db.py:1060-1076 | the n-th page is the n-th block of the listing and `has_next` is exact |
| Paging.WalkReadsAll | src/shiliu/db.py:982-1076 | following `after` cursors reads exactly the unpaged list, each card once and in order, and ends |
| Paging.WalkGoesOn | src/shiliu/db.py:1068-1076 | while a page says another follows, the walk can go on |
| Paging.BeforeGoesBack | src/shiliu/db.py:1059-1067 | the `before` page of a later page's first row is the page before it, and its `has_previous` is exact |
| SnapshotSafety.PositionsKeptIff | src/shiliu/db.py:970-981 | after any run, a complete scan that only inserts keeps the snapshot position of every old row, if and only if no two active rows of the source share a stored position |
| SnapshotSafety.CardsKeptIff | src/shiliu/db.py:970-993 | for one such scan, all cards keep their order keys if and only if every linked row of the source stands at its place in the old list |
| SnapshotTies.TiedCardIsSkipped | src/shiliu/db.py:970-981 | a run with an incomplete scan after which a reader who follows the cursors misses a card of its snapshot |
| SnapshotPlaces.RunsStayInRange | src/shiliu/db.py:455-491 | after every run the active rows of a source stand at positions below their number |
| SnapshotPlaces.CompleteScanPacks | src/shiliu/db.py:633-654 | after a complete scan the stored positions are the places 0, 1, 2, ... of the scan |
| SnapshotSafety.SyncKeepsCards | src/shiliu/db.py:970-993 | after any run, a complete scan that only inserts, of a source without shared positions, keeps every row of the snapshot at its exact order key and shows no other row |
| SnapshotSafety.ReaderSeesSnapshot | src/shiliu/db.py:942-1163 | after any run, with no shared positions in the scanned sources, a reader who follows cursors while complete inserting scans run between the pages is through after at most one page more than its snapshot has cards, and has then seen exactly those cards, each once and in order |
| SnapshotSafety.ReaderGoesOn | src/shiliu/db.py:942-1163 | while a page says that another follows, the reader can go on, whatever scans have run by then |
| PageOrder.ListingIsInOrder | src/shiliu/db.py:982-1047 | of any two cards, an earlier one never has a smaller time; of equal times the snapshot position never falls, then the discovery time and the video id never rise, then the source id never falls |
| PageOrder.ReaderGetsOrder | src/shiliu/db.py:982-1076 | the same for what a reader gets across pages while inserting scans run, by the favourite times of the snapshot |
| PageOrder.NewestComesFirst | src/shiliu/db.py:982-1047 | a run with two favourites whose first page of one card is the newer one |
| PageOrder.ViewsSplit | src/shiliu/db.py:945-950 | every card stands in the feed or in the archive and never in both, and the marked and noted views are the marked and noted cards of the feed |
| PageOrder.SourceSplit | src/shiliu/db.py:965-968 | a view of one source shows the cards of its rows in that view, and no others |
| BackfillSafety.OnlyTheseWrites | src/shiliu/metadata_backfill.py:278-381 | the service rewrites a row only if it is in scope and of the candidate's identity, to fill an unknown time, recording both triples, or to put the old triple back over an unchanged new one |
| BackfillSafety.ApplyThenRollback | src/shiliu/metadata_backfill.py:278-381 | apply, then anything that leaves the row alone, then rollback restores the row exactly |
| BackfillSafety.RolledBackIsClean | src/shiliu/metadata_backfill.py:651-680 | in every run a rolled-back operation leaves no held job of its video behind |
| BackfillSafety.StatesOnlyAdvance | src/shiliu/metadata_backfill.py:278-300 | skipped, rolled-back and conflicted operations are final, and a pending rollback is never applied again |
| BackfillSafety.StageIsIdempotent | src/shiliu/metadata_backfill.py:183-222 | staging the same candidates again changes nothing |
| BackfillSafety.AppliesIff | src/shiliu/metadata_backfill.py:307-377 | a staged operation is written if and only if its row is the video the candidate was made for, in scope, with no known time; otherwise it is skipped and no row or job is touched |
| Backfill.Service.StageRun | src/shiliu/metadata_backfill.py:183-222 | all operations are inserted, or none when the digest or a candidate disagrees |
| Backfill.Service.ApplyOperation | src/shiliu/metadata_backfill.py:307-377 | one operation is written or skipped, with its verdict |
| Backfill.Service.ApplyRun | src/shiliu/metadata_backfill.py:278-381 | the loop over the operations, with its counts |
| Backfill.Service.RestoreOperation | src/shiliu/metadata_backfill.py:692-744 | rollback's first transaction |
| Backfill.Service.RetireOperation | src/shiliu/metadata_backfill.py:611-680 | the held jobs that can be claimed are completed; done when none is left |
| Backfill.Service.RollbackRun | src/shiliu/metadata_backfill.py:682-770 | the loop of both transactions over the operations |
| DraftSafety.RevisionsAreAChain | src/shiliu/knowledge_draft.py:1070-1163 | under any interleaving revisions number 1..n, each names the one before it, all share the first binding, and each command id appears once |
| DraftSafety.ConfirmedIsFinal | src/shiliu/knowledge_draft.py:305-399 | nothing follows a confirmed revision, only cancelled follows cancelled, and a confirmation binds exactly the previewed candidates |
| DraftSafety.ReplayReturnsStoredRow | src/shiliu/knowledge_draft.py:1042-1068 | a request asked again returns its stored row, another payload under its id is refused, and the log stays as it is; the row is the final one for every id not of 160 characters |
| DraftProgress.RequestIsHeard | src/shiliu/knowledge_draft.py:209-218 | a new command that names the latest version reaches its decision with that revision in hand; a wrong version or an empty draft is refused |
| DraftProgress.SavesIff | src/shiliu/knowledge_draft.py:117-190 | a save appends the first revision exactly when there is none, and otherwise returns the latest |
| DraftProgress.PreparesIff | src/shiliu/knowledge_draft.py:209-234 | preparation starts exactly on a saved, blocked or failed draft with sound sources, the latest version and a new command |
| DraftProgress.FinishesIff | src/shiliu/knowledge_draft.py:235-305 | preparation ends ready with the candidates found, exactly when some were found, and failed otherwise |
| DraftProgress.ConfirmsIff | src/shiliu/knowledge_draft.py:307-380 | a confirmation goes through exactly when the draft is ready, its sources sound, the candidates the ones asked for, the version the latest and the command new; every refusal by its reason |
| DraftProgress.CancelsIff | src/shiliu/knowledge_draft.py:382-400 | anything but a confirmed draft is cancelled by a new command on the latest version |
| DraftLengths.RepliesFinalIff | src/shiliu/knowledge_draft.py:227-234 | in every run a request asked again gets its final row, if and only if its id does not have 160 characters |
| DraftLengths.LongCommandSticks | src/shiliu/knowledge_draft.py:227-234 | with an id of 160 characters the finished work is never recorded and a replay returns the started row |
| DraftLengths.OrderKeptIff | src/shiliu/knowledge_draft.py:209-303 | for ids of at most 160 characters, statuses follow one another in the intended order in every run, if and only if no id has 159 characters |
| DraftLengths.ReadyWithoutStart | src/shiliu/knowledge_draft.py:222-234 | two callers of one request with an id of 159 characters make candidates ready straight after a blocked row |
| DraftLog.DraftTable.CommandReplay | src/shiliu/knowledge_draft.py:1042-1068 | the row of a command is returned, refused for another payload, or reported new |
| DraftLog.DraftTable.AppendRevision | src/shiliu/knowledge_draft.py:1070-1163 | one revision is appended under the version check, or the stored row of the command is returned |
| DraftLog.DraftTable.SaveDraft | src/shiliu/knowledge_draft.py:117-190 | the first revision is written once; later saves return what is there |

## Left out

- HTTP, subprocesses, templates, prompts, the command line, the model and speech providers: each call is a step or a parameter that an oracle answers.
- SQL text and database locking: a block that holds one connection is one atomic transaction over maps of rows.
- ASR and stage workers: the video columns they write besides the raw subtitle, the index trigger, temporary files and the returned truth value are not modelled; polling is bounded by a number of rounds.
- AsrProgress.GoodRunCompletes: one worker acts, so the clock stands still and the claim does not run out; `AsrSafety` has the other interleavings.
- AsrSafety.DispatchIsNeverForgotten: an operator's keyboard interrupt inside a provider call counts as a crash of that worker.
- AsrRun.Process.PollResult: polling is bounded by a number of rounds, which stands for the deadline of a clock that is not modelled.
- AsrRun.Process.Acquire: the returned truth value is not stated; the effect on the shared state is.
- The refined-transcript and review stages: they take the stage row read before the claim, so the bound on calls is not stated for them.
- The manifest, the segment files, the digests, the wall-clock spacing and the frozen target set of the harvest: only the ordered target list and the event log are kept, and an interrupt is modelled while a request is out.
- HarvestFiles.Materialize: terminal events of videos outside the plan, which no run writes, are excluded.
- HarvestLimits.CheckpointsAreTimely: the runs share one limit, as `SameLimit` does for attempts.
- HarvestRestart.RestartContinues: the limit on newly resolved targets counts per process, so the restart is given what remains of it.
- EventLog.CutFileRecovers: the encoding of an event holds neither a newline nor a carriage return, as canonical JSON does.
- Reentry.ListedComesBack: stated for scans that list each video once (src/shiliu/bilibili.py:65-76).
- Titles, uploaders, durations, reading state and removal times of the collection: a removal is kept as a flag, and the lease checks around scans are those of the lease model.
- `reconcile_current_items` and other legacy seen-item code: it writes removal flags without looking at memberships.
- Coverage.BaselineAgreesWithCoverage: stated for scans that list each video once, which the reader of scans sees to (src/shiliu/bilibili.py:65-76); `CoverageExact.AlwaysAgreesIff` says that this is needed.
- The order of equal rows in the coverage query compares ids by code points, where the database uses its collation.
- SnapshotSafety.ReaderSeesSnapshot: membership favourite times are known and unchanged, scans list each video once, and scans between the pages list the old rows in their old order with never-seen items in between.
- Note counts and the decoding of cursors in web requests.
- Evidence: time ranges and jump links are reduced to whether a link can be rebuilt, and the source check of raw segments is not part of this model.
- PackingSafety.PackingIsSound: selected spans may still touch one another, and the dropped count is exact only when it is zero.
- Fusion: scores are exact rationals, so floating-point rounding is not modelled.
- Backfill of videos with a source head: snapshots, source cards, wiki pages and their intents; only the held reconcile jobs of a video without a head are kept, and validation of candidates is assumed done.
- Backfill.Service.ApplyOperation: covers videos without a source head; head revision, snapshot and intents are left out.
- Backfill.Service.ApplyRun: covers videos without a source head.
- Backfill.Service.RestoreOperation: covers videos without a source head; rollback intents are left out.
- Backfill.Service.RetireOperation: completes held reconcile jobs; wiki intents are left out.
- Backfill.Service.RollbackRun: covers videos without a source head.
- BackfillSafety.RolledBackIsClean: speaks of held reconcile jobs; wiki intents of videos with a source head are left out.
- Knowledge drafts: grounding and binding checks, materialisation tasks, promotion output and reasons; the research and knowledge services are an oracle.
