# makeros-hub: verified model

A Dafny model of the hub agent's stateful core, with proofs of what that core promises. Code that updates
state in place (coordinators, trackers, tables, supervisors, reading loops) is written as classes and methods
with loops, each proved equal to a function on values; the promises are lemmas about those functions, over
every run of them. `dafny verify dfyconfig.toml` checks the whole project.

The parts, in the system's own terms:

* **Capture to cloud.** `Capture`, `CaptureCoordinators`: pairing a member's upload with the print command that
  names it, with expiry, two caps and ambiguity. `CaptureLaws`, `CaptureExact`, `CaptureRuns`, `CaptureReasons`,
  `CaptureJobs`: nothing recorded disappears without a reason that is true, and pairing is exact. `Submissions`,
  `SubmissionPipelines`: the bounded submission queue backed by the outbox, its drain, retries, dead letters and
  reloads. `SubmissionAnswers`: what each status code does. `SubmissionLaws`, `SubmissionDrains`, `SubmissionCauses`:
  durability over every run, and why a copy is ever lost. `OutboxRecord`: the outbox file format. `Pipeline`: the two
  halves composed.
* **Jobs and queue state.** `JobTracking`, `JobSegments`: telemetry cut into job records. `QueueProgress`,
  `QueueProgressRuns`, `QueueOutcomes`, `QueueFlush`: dispatches matched with jobs and reported in order along the
  cloud's transition map, each report when it is due. `PrinterManagers`, `PrinterManagerRuns`, `PrinterFleets`:
  adapters follow the cloud's list, unacknowledged jobs stay. `Dispatch`, `DispatchLaws`, `DispatchAnswers`: jobs and
  commands are not done twice, and what they are answered. `QueueLives`: dispatcher and trackers together.
  `QueueDelivery`: their reports in one list, and what the cloud takes of it.
* **Virtual AMS.** `VirtualAms`, `VirtualAmsRuns`, `VirtualAmsSupervision`: the version counter tells what is
  shown. `VirtualAmsServing`: what the runtimes serve. `PoolRanking`, `PoolRankingLaws`, `PoolRankingUse`: which
  filaments are shown. `LivePool`, `LivePoolLaws`, `LivePoolRows`: the mirror of the loaded filaments.
* **Wire formats.** `Bytes`, `MqttCodec`, `MqttLaws`, `MqttWire`: MQTT 3.1.1 packets. `Multipart`, `MultipartLaws`,
  `MultipartHeaders`: the upload parser. `JpegReader`, `JpegFrames`: the camera frame scanner.
* **Limits and addresses.** `AuthLimiters` and its laws, `AuthLogins`, `SsdpLimiters`, `IpAllocators`,
  `IpAllocatorRuns`, `IpAllocatorTargets`, `IpAllocatorCrash`.
* **Shared.** `Prelude`, `OrderedDicts` (ordered dictionaries with eviction), `Sorting`, `Json`.

Clocks are parameters; commands, disk writes, HTTP answers, received bytes and digests are parameters or
outcomes chosen freely. Where the code disagrees with its own comments, or with what it is for, the model follows the
code:

* agent.py:279-281 says a failed durable write must never drop the job. It can: when the capture's write fails and
  the first retry's write raises, the job is gone (`SubmissionDrains.TwoFailedWritesLoseTheJob`; exactly when, in
  `SubmissionDrains.SubmitOneLoses`).
* manager.py:497-503 promises that a serial's version never regresses. Two serials that `_safe_serial` maps to one
  directory break it (`VirtualAmsRuns.ClashBreaks`). So do failed version writes: a restarted runtime is above
  what its serial reported exactly when the clock is or the number after the stored one is, which can fail however
  late the restart comes (`VirtualAmsSupervision.StartExceedsExactly`, `VirtualAmsSupervision.LateRestartBreaks`).
* vprinter/manager.py:679-692 takes up the new members and trays before it pushes them; the supervisor remembers a
  configuration as applied only after the push. When the push fails and the cloud then goes back to the configuration
  before, it is skipped as already applied, and the runtime goes on serving the abandoned one
  (`VirtualAmsServing.ChangeOfMindIsLost`; exactly when, in `VirtualAmsServing.ReconcileServesExactly`).
* live_pool.py:87-92 deduplicates by material, id and color, joined with bars that are not escaped: a bar in a
  material can make two filaments one (`LivePoolRows.BarsBlur`; exactly when, in `LivePoolRows.OneFilamentExactly`).
* printers/manager.py:394-395 says a command already executed does not use up a rate-limit slot. It does: the cap
  counts positions (`DispatchLaws.RepeatsAreNotFree`; exactly when it matters, in
  `DispatchLaws.RepeatsAreFreeExactly`).
* agent.py:145-156 calls a report refused with a 4xx deterministic and drops it, an expired login (401) included,
  so the cloud can be told that a job prints or completes without having been told that it was uploading, or that it
  completed without having been told that it printed (`QueueDelivery.RefusedReportIsSkipped`; exactly when, in
  `QueueDelivery.CloudSeesLegalPathsExactly`).
* capture.py:142-147 drops what is pending without a log line; the model gives these items the reason `Cleared`.
* ip_allocator.py:108-111 says state is saved before privileged commands. A fresh allocation claims first, and a
  crash before its save leaves the address behind; a release saves first, and a crash before its removal does the
  same (`IpAllocatorCrash.CrashLeaksExactly`). A re-claim that fails for an address still present leaves that
  address behind unnoticed (`IpAllocatorRuns.LyingKernelLeaks`), and claiming an address another model holds makes
  the two share it (`IpAllocatorRuns.EnsureKeepsUnshared`).

## Model

| member | source | states |
|---|---|---|
| `CaptureCoordinators.CaptureCoordinator.Upload` | makeros_hub/vprinter/capture.py:118-128 | recording an upload prunes, appends, enforces both caps and tries to pair, as the transition function says |
| `CaptureCoordinators.CaptureCoordinator.ProjectFile` | makeros_hub/vprinter/capture.py:130-140 | the same for a print command |
| `CaptureCoordinators.CaptureCoordinator.TryPair` | makeros_hub/vprinter/capture.py:149-183 | takes both queues of a key, captures a unique pair, drops ambiguous or unassemblable ones with a reason; true exactly when a pair was captured |
| `CaptureCoordinators.CaptureCoordinator.ClearAll` | makeros_hub/vprinter/capture.py:142-147 | clearing empties both sides into the dropped items |
| `CaptureCoordinators.CaptureCoordinator.ExpirePending` | makeros_hub/vprinter/capture.py:199-203 | the timer drops what has expired and arms itself again |
| `CaptureCoordinators.PruneBucket` | makeros_hub/vprinter/capture.py:208-223 | the nested loops compute the pruned table and the expired items |
| `CaptureCoordinators.EnforcePerKeyLimit` | makeros_hub/vprinter/capture.py:225-239 | the loop leaves the last items of the key and gives the evicted ones |
| `CaptureCoordinators.EnforceTotalLimit` | makeros_hub/vprinter/capture.py:241-259 | the loop evicts the globally oldest heads down to the cap |
| `CaptureRuns.RunConserves` | makeros_hub/vprinter/capture.py:118-183 | over every run and clock, the uploads (and the intents) ever recorded are exactly those pending, dropped, or captured, each once |
| `CaptureReasons.UploadReasonsAreTrue` | makeros_hub/vprinter/capture.py:118-259 | over every run and clock each dropped upload was dropped at one event and its reason held there: it had expired by then, at least `maxPerKey` newer items of its key stood behind it, more than `maxPending` items waited, a side of its pair held several items, assembling that pair gave that very error, or everything was cleared |
| `CaptureReasons.IntentReasonsAreTrue` | makeros_hub/vprinter/capture.py:118-259 | the same for the dropped intents |
| `CaptureReasons.EvictsTheExcess` | makeros_hub/vprinter/capture.py:241-259 | exactly as many items are evicted as the side holds beyond its cap |
| `CaptureRuns.RunIsSafe` | makeros_hub/vprinter/capture.py:118-183 | under a nondecreasing clock every run keeps: no key on both sides, no empty queue, sorted queues, both caps; every captured pair agrees on member and file name, arrived less than the waiting time apart, has a file that fits its intent, and is captured as the job of the pair with the deterministic id |
| `CaptureRuns.UploadCapturesExactly` | makeros_hub/vprinter/capture.py:149-318 | an upload captures something if and only if exactly one unexpired intent of its member and file name waits, that intent names no MD5 or the file's up to ASCII case, and the filaments can be read; then it captures that pair as the job of the two: the upload's path, digest and size, the intent's plate, `useAms` and mapping (both forms when there are two), and the filaments read |
| `CaptureRuns.IntentCapturesExactly` | makeros_hub/vprinter/capture.py:149-318 | the mirror image for an intent |
| `CaptureJobs.AssemblyIsExact` | makeros_hub/vprinter/capture.py:285-318 | a pair makes a job exactly when the names agree, the MD5 is absent or the file's up to case and the filaments can be read; every attribute of the job is that of its pair; and each assembly error occurs exactly for its own fact |
| `CaptureRuns.RecordUploadKeepsInv` | makeros_hub/vprinter/capture.py:118-128 | one recorded upload keeps the table invariant |
| `CaptureRuns.RecordProjectFileKeepsInv` | makeros_hub/vprinter/capture.py:130-140 | one recorded intent keeps the table invariant |
| `CaptureExact.PruneIsExact` | makeros_hub/vprinter/capture.py:204-223 | head-only pruning removes exactly the expired items of every key and keeps the order |
| `CaptureExact.OldestIsGlobalMinimum` | makeros_hub/vprinter/capture.py:279-283 | the chosen key's head expires no later than anything pending |
| `CaptureExact.TimerIsExact` | makeros_hub/vprinter/capture.py:185-203 | pruning at a time changes nothing if and only if the timer is unarmed or armed for later |
| `CaptureExact.AdmitOk` | makeros_hub/vprinter/capture.py:225-259 | both caps hold after admission and the item just recorded is never the one evicted |
| `CaptureLaws.RecordUploadConserves` | makeros_hub/vprinter/capture.py:118-128 | one recorded upload adds itself to pending plus dropped plus captured and moves nothing else |
| `CaptureLaws.RecordProjectFileConserves` | makeros_hub/vprinter/capture.py:130-140 | the same for an intent |
| `CaptureLaws.ClearConserves` | makeros_hub/vprinter/capture.py:142-147 | clearing moves everything pending to dropped |
| `SubmissionPipelines.SubmissionPipeline.Put` | makeros_hub/agent.py:197-215 | the bounded queue drops its oldest job when full |
| `SubmissionPipelines.SubmissionPipeline.Capture` | makeros_hub/agent.py:277-317 | a captured job is written if it can be and always queued |
| `SubmissionPipelines.SubmissionPipeline.Reload` | makeros_hub/agent.py:322-332 | reloading queues the stored jobs in listing order |
| `SubmissionPipelines.SubmissionPipeline.DropSubmissions` | makeros_hub/agent.py:335-348 | without a model the queue is emptied and the outbox kept |
| `SubmissionPipelines.SubmissionPipeline.RetryOrGiveUp` | makeros_hub/agent.py:364-383 | counts the attempt, dead-letters at the cap, otherwise writes and requeues; a write that raises loses the popped copy |
| `SubmissionPipelines.SubmissionPipeline.DrainSubmissions` | makeros_hub/agent.py:386-503 | the drain loop reaches the specified state, which `SubmissionAnswers` tells in status codes, and returns how many jobs the cloud accepted |
| `SubmissionAnswers.AnswersDecide` | makeros_hub/agent.py:406-501 | the head is accepted if and only if the answer is 200 with `ok` true, rejected if and only if 200 with `ok` false, dead-lettered if and only if 400, 413 or 422; it goes to the back with outbox and ledger untouched if and only if 401 or 403; and an attempt is counted if and only if it is anything else, given up at ten |
| `SubmissionAnswers.DrainIsItsAnswers` | makeros_hub/agent.py:386-503 | a drain posts the heads one after another, each with what its status code means, no more than asked for, queued or answered, and stops early only where a retry's write raised |
| `SubmissionLaws.RunKeepsInv` | makeros_hub/agent.py:277-503 | over any run of captures, drains, overflows, outages, crashes and reloads: each successful write is in the outbox as last written or had a final outcome since, and every queued copy is accounted for |
| `SubmissionLaws.PersistedIsNeverLost` | makeros_hub/agent.py:277-348 | a submission with one successful write is queued, stored or finished |
| `SubmissionLaws.UntrackedExactly` | makeros_hub/agent.py:277-503 | a submission goes untracked if and only if it was never written and every queued copy was lost |
| `SubmissionCauses.CausesAreTrue` | makeros_hub/agent.py:197-503 | over every run each lost copy was lost at one event and its cause held there: 256 copies were queued and one more arrived by a capture or a reload, the model was missing, the drain's attempt that popped this very copy below the cap had its write raise, or the process crashed |
| `SubmissionCauses.RunCounts` | makeros_hub/agent.py:197-503 | over every run the queue holds as many copies as entered it and neither finished nor were lost, at most 256 |
| `SubmissionDrains.RunAttempts` | makeros_hub/agent.py:373-383 | over every run no copy queued or stored reaches the attempt cap |
| `SubmissionDrains.SubmitOneWorks` | makeros_hub/agent.py:406-501 | every answer but a 401 or a 403 uses up attempts left |
| `SubmissionDrains.QueueEmpties` | makeros_hub/agent.py:386-503 | ten posts per queued copy empty the queue whatever the cloud answers, short of 401 and 403 |
| `SubmissionDrains.AuthOutageRotates` | makeros_hub/agent.py:472-486 | answers 401 or 403 only rotate the queue: no attempt counted, nothing written, removed, finished or lost |
| `SubmissionDrains.HealthyDrain` | makeros_hub/agent.py:439-450 | a cloud that answers 200 with `ok` true takes the head of the queue in order and clears exactly those outbox records |
| `SubmissionDrains.RehydrateQueues` | makeros_hub/agent.py:322-332 | reloading keeps the newest jobs that fit and leaves the outbox alone |
| `SubmissionDrains.CrashThenReload` | makeros_hub/vprinter/outbox.py:87-130 | after a crash the outbox is untouched and its records are queued again as last written, in listing order; the last 256 of them when there are more |
| `SubmissionDrains.SubmitOneLoses` | makeros_hub/agent.py:364-383 | one submission loses its job if and only if the answer is none of the deciding ones, the count stays below ten, the write raises, and neither outbox nor queue has another copy |
| `SubmissionDrains.TwoFailedWritesLoseTheJob` | makeros_hub/agent.py:279-291 | a capture whose write fails and whose retry's write fails is gone |
| `OutboxRecord.RoundTrip` | makeros_hub/vprinter/outbox.py:27-79 | loading what was written gives the same job exactly when its attempts are not negative and its timestamp survives ISO parsing |
| `OutboxRecord.OlderNamesAreRead` | makeros_hub/vprinter/outbox.py:44-79 | a record under the older camel-case names, its flag written as a text in any case, is read as the same job |
| `Pipeline.EverythingIsAccountedFor` | makeros_hub/agent.py:268-319 | end to end: the uploads recorded, and the intents, are exactly those waiting, dropped or captured |
| `Pipeline.NothingDisappears` | makeros_hub/agent.py:268-348 | end to end: a captured job is queued, stored or finished unless no write of it succeeded and every copy was lost |
| `Pipeline.LossesAreExplained` | makeros_hub/agent.py:268-503 | end to end: every drop and every loss was recorded at one event, for a reason that held there |
| `JobTracking.JobTracker.ObserveReport` | makeros_hub/printers/jobs.py:234-277 | one report moves the tracker as the transition function says; what each state text does is `JobSegments` |
| `JobTracking.JobTracker.CloseJob` | makeros_hub/printers/jobs.py:169-185 | closing buffers one record and ends the job |
| `JobTracking.JobTracker.Recover` | makeros_hub/printers/jobs.py:201-232 | a recovered record needs the printer's own id |
| `JobTracking.JobTracker.BufferJob` | makeros_hub/printers/jobs.py:187-199 | the buffer keeps the last 500 records |
| `JobTracking.JobTracker.Acknowledge` | makeros_hub/printers/jobs.py:284-287 | an acknowledgement removes exactly the named records |
| `JobSegments.EmitsTheSegmentation` | makeros_hub/printers/jobs.py:159-277 | for every sequence of raw reports the records are the segmentation of those with a state text: a print opens only at "RUNNING", goes on through "PAUSE", "PREPARE", "SLICING", "INIT" and "RUNNING" without another name, and ends at anything else; before them at most one recovered record, from a first text "FINISH" or "FAILED" with the printer's own id |
| `JobSegments.RecordsOrdered` | makeros_hub/printers/jobs.py:169-185 | on a nondecreasing clock the jobs are in order and do not overlap |
| `JobSegments.StatusNeedsItsSignal` | makeros_hub/printers/jobs.py:145-277 | every record ever emitted is of such a stretch: done if and only if "FINISH" ended it, failed if and only if "FAILED" did, cancelled at any other text or another name; with its start, end, whole seconds rounded down, first name, material and key; or it is the recovered one |
| `JobSegments.JobIsStable` | makeros_hub/printers/jobs.py:234-277 | over any telemetry that emits no record a running job goes on, keeps its start, and never changes a key taken from the printer, a name or a material |
| `QueueProgress.QueueProgressTracker.Record` | makeros_hub/printers/queue_progress.py:52-66 | a dispatch joins the end of the list with its baseline keys |
| `QueueProgress.QueueProgressTracker.CollectReports` | makeros_hub/printers/queue_progress.py:68-148 | one collection moves the tracker and reports as the transition function says |
| `QueueProgressRuns.LegalIsFiveWords` | makeros_hub/printers/queue_progress.py:68-148 | the paths of the transition map from uploading are exactly nothing, printing, printing-completed, held, printing-held |
| `QueueProgressRuns.StreamIsStories` | makeros_hub/printers/queue_progress.py:52-148 | every run's reports are the dispatches' words one after another in dispatch order |
| `QueueProgressRuns.EveryWordIsLegal` | makeros_hub/printers/queue_progress.py:52-148 | every dispatch's reports are a path of the transition map, a final one once resolved |
| `QueueProgressRuns.LinksOnlyNewJobs` | makeros_hub/printers/queue_progress.py:52-148 | over any run each report of the k-th dispatch names it, and a job it links was not pending when that dispatch was recorded |
| `QueueProgressRuns.NoSecondLink` | makeros_hub/printers/queue_progress.py:68-148 | a printer job is linked a second time only if it left the pending list in between |
| `QueueOutcomes.EveryReportIsEarned` | makeros_hub/printers/queue_progress.py:68-148 | over any run, told from the dispatches, looks and earlier reports alone: a report with a printer job came at a look at which that was the one pending job neither pending at the dispatch nor taken, and is completed if and only if its status was "done", else held with "print_" and the status, or "print_unknown"; held without a job only as "start_not_observed", after the timeout, in an idle state, with printing unreported and no new job; printing only once, in "RUNNING" or "PAUSE" or with a done job |
| `QueueOutcomes.LooksReportWhatIsOwed` | makeros_hub/printers/queue_progress.py:68-148 | and conversely every look reports all of that when it is due, and nothing else |
| `QueueOutcomes.LinkedExactly` | makeros_hub/printers/queue_progress.py:83-86 | a job is taken exactly when a report named it and it has been pending at every look since |
| `QueueFlush.Flush` | makeros_hub/agent.py:181-194 | posts in order; everything before the first answer that is neither 200-299 nor 400-499 is settled, those answered 200-299 were received, and that report and all behind it are returned |
| `QueueFlush.DeliveredInOrder` | makeros_hub/agent.py:181-194 | over any run settled plus waiting reports are the produced ones in order, and settled ones were taken or refused for good |
| `QueueLives.EveryStartHasALegalLife` | makeros_hub/printers/manager.py:455-571 | over any run of assignments and looks at any printers, every dispatch began with one event that reported uploading alone, and its reports since are one of the five paths from there |
| `QueueLives.ProgressIsTheWords` | makeros_hub/printers/manager.py:552-571 | what is sent of a printer's progress is its dispatches' words one after another |
| `QueueLives.NoSecondLife` | makeros_hub/printers/manager.py:346-353 | over any such run a job whose dispatch has not ended starts again only after a thousand other starts |
| `QueueLives.EndedJobIsFree` | makeros_hub/printers/manager.py:552-571 | once a dispatch's completed or held report is passed on, its job may be dispatched again |
| `QueueDelivery.LegalIsSevenPaths` | makeros_hub/printers/manager.py:455-461 | the paths of the transition map from the assignment on are exactly nothing, held, uploading, uploading-held, uploading-printing, and that followed by completed or held |
| `QueueDelivery.EveryLifeIsLegal` | makeros_hub/agent.py:1777-1791 | over any run, in the one list of the dispatcher's and all printers' reports, those of each assignment are such a path |
| `QueueDelivery.EveryReportBelongs` | makeros_hub/agent.py:1777-1791 | every report of the list names the queue job of the assignment it is counted to |
| `QueueDelivery.CloudSeesLegalPathsExactly` | makeros_hub/agent.py:145-194 | over any run and any heartbeats that flush that list, whatever the cloud answers, what it took of an assignment is a path of the map if and only if it did not drop uploading and take printing or completed, nor drop printing and take completed |
| `QueueDelivery.NothingDroppedIsLegal` | makeros_hub/agent.py:181-194 | when nothing is dropped every assignment is seen along a legal path, however many reports still wait |
| `QueueDelivery.RefusedReportIsSkipped` | makeros_hub/agent.py:145-156 | a job that starts and is found finished at the next look: with 401 on uploading the cloud takes printing and completed of an assigned job, with 401 on printing it takes uploading and completed; the map forbids both |
| `PrinterManagers.PrinterManager.PendingJobs` | makeros_hub/printers/manager.py:316-329 | the pending jobs are the rescued ones and then those of every adapter whose read does not raise |
| `PrinterManagers.PrinterManager.Acknowledge` | makeros_hub/printers/manager.py:331-344 | acknowledging removes the named jobs from the rescued list and from the buffer of every adapter that does not raise |
| `PrinterManagers.PrinterManager.StopAdapter` | makeros_hub/printers/manager.py:276-294 | tearing down moves the adapter's jobs to the rescued list |
| `PrinterManagers.PrinterManager.ReconcileFleet` | makeros_hub/printers/manager.py:94-149 | the reconcile loops reach the specified fleet |
| `PrinterManagerRuns.AckIsExact` | makeros_hub/printers/manager.py:331-344 | an acknowledgement removes exactly the jobs it names, in place, and leaves a raising adapter as it was |
| `PrinterManagerRuns.EmitIsExact` | makeros_hub/printers/jobs.py:187-199 | a job joins the end of one adapter's buffer; a buffer of 500 loses its oldest job, and nothing else changes |
| `PrinterManagerRuns.ReconcileKeepsPending` | makeros_hub/printers/manager.py:94-294 | a reconcile keeps the multiset of pending jobs when no rescue raises |
| `PrinterManagerRuns.RunConserves` | makeros_hub/printers/manager.py:276-344 | over every run the jobs taken in are those pending and those gone |
| `PrinterManagerRuns.ExitsAreExplained` | makeros_hub/printers/manager.py:276-344 | over every run a job leaves at one event: an acknowledgement that names its key while it could be sent, an emission into the buffer of 500 it heads, or a reconcile in which the rescue of the adapter holding it raised |
| `PrinterManagerRuns.NoUnackedJobIsLost` | makeros_hub/printers/manager.py:276-344 | with rescues that never raise, the jobs taken in are pending, removed by an acknowledgement that names them, or dropped as the oldest of a full buffer |
| `PrinterManagerRuns.AckAfterSend` | makeros_hub/printers/manager.py:316-344 | acknowledging what was sent removes every job sent, and a job emitted meanwhile exactly when it carries a sent key |
| `PrinterFleets.FleetFollowsTheList` | makeros_hub/printers/manager.py:94-294 | in every reachable fleet no printer has two adapters, and after any reconcile: a printer not listed has none; one listed once keeps its live adapter with its jobs if that has the very connection facts and is not a wedged Bambu, else has a new empty one with those facts if it starts and none otherwise; none without connection facts; another vendor's is left alone; of several entries the last is matched |
| `PrinterFleets.SendableIsExact` | makeros_hub/printers/manager.py:316-329 | a heartbeat sends exactly the rescued jobs and those of the adapters that can be read, everything pending when all can |
| `Dispatch.Dispatcher.DispatchAssignments` | makeros_hub/printers/manager.py:455-550 | the loop over assignments with its guard and reports |
| `Dispatch.Dispatcher.DispatchCommands` | makeros_hub/printers/manager.py:364-453 | the loop over commands with its guard, cap and reports |
| `Dispatch.Dispatcher.CollectProgress` | makeros_hub/printers/manager.py:552-571 | reports pass through, those an adapter gave before it raised included, and terminal ones release the guard |
| `DispatchLaws.JobsStartOnce` | makeros_hub/printers/manager.py:346-353 | over any run a queue job that did not end in between starts again only after a thousand other starts |
| `DispatchLaws.CommandsExecuteOnce` | makeros_hub/printers/manager.py:391-442 | over any run an executed command executes again only after a thousand others |
| `DispatchLaws.SendsAreCapped` | makeros_hub/printers/manager.py:371-407 | at most sixteen commands are sent per heartbeat |
| `DispatchLaws.EveryCommandIsAnswered` | makeros_hub/printers/manager.py:377-453 | every well-formed command gets exactly one report, in order |
| `DispatchLaws.RepeatsAreFreeExactly` | makeros_hub/printers/manager.py:391-407 | every new command from position 16 on has sixteen new ones before it if and only if the first sixteen positions are all new commands or no later one is |
| `DispatchLaws.PositionDecides` | makeros_hub/printers/manager.py:391-442 | a new command is sent or turned away by its position in the list alone |
| `DispatchLaws.RepeatsAreNotFree` | makeros_hub/printers/manager.py:391-407 | after `a` was executed, sixteen repeats of it make the cap turn away a new `b` whose printer would have carried it out |
| `DispatchAnswers.OkayMeansExecuted` | makeros_hub/printers/manager.py:364-453 | over any run a well-formed command is answered Okay if and only if it is recalled as executed or carried out now among the first sixteen, and otherwise with its own failure; what is recalled was executed, and what was executed is recalled unless a thousand others were since |
| `DispatchAnswers.AssignmentsAreHandled` | makeros_hub/printers/manager.py:355-550 | over any run an assignment whose name is "." or "..", or holds a slash or a backslash, never reaches the printer and is held as a bad assignment; one recalled as started is passed over; the others get the report their printer's answer asks for |
| `VirtualAms.Supervisor.StartFresh` | makeros_hub/vprinter/manager.py:308-349 | a new runtime seeds its version above the clock and the stored one |
| `VirtualAms.Supervisor.HotApply` | makeros_hub/vprinter/manager.py:679-698 | a hot change bumps and stores the version when the signature changes |
| `VirtualAms.Supervisor.ReconcileAll` | makeros_hub/vprinter/manager.py:260-299 | the reconcile loops stop, hot-apply or start as specified |
| `VirtualAmsSupervision.StoredSupervisorTells` | makeros_hub/vprinter/manager.py:260-299 | over every run of reconciles, reports and restarts, with writes succeeding and no shared directory and any clock, a serial's reported versions never go back, equal versions show equal trays, and the next runtime starts above every version its serial reported |
| `VirtualAmsSupervision.SupervisorTells` | makeros_hub/vprinter/manager.py:260-349 | the same whichever writes fail, when every start fits what its serial has reported |
| `VirtualAmsSupervision.ReportedRunTellsExactly` | makeros_hub/vprinter/manager.py:308-349 | over runs whose runtimes report when they come up, with any clock and any failed writes, versions tell displays if and only if every start fits |
| `VirtualAmsSupervision.StartExceedsExactly` | makeros_hub/vprinter/manager.py:504-512 | a new runtime's version is above everything its serial reported if and only if the clock is, or the number after the stored one is |
| `VirtualAmsRuns.ReconcileKeepsInv` | makeros_hub/vprinter/manager.py:260-299 | a reconcile to any configurations keeps the guarantee |
| `VirtualAmsRuns.LostWriteBreaks` | makeros_hub/vprinter/manager.py:516-521 | a failed write and a restart in the same second show one version with two displays |
| `VirtualAmsSupervision.LateRestartBreaks` | makeros_hub/vprinter/manager.py:516-521 | for every n, n failed writes and a restart n seconds later do so too |
| `VirtualAmsRuns.ClashBreaks` | makeros_hub/vprinter/manager.py:752-753 | two serials with one directory break the guarantee although every write succeeds |
| `VirtualAmsRuns.DirectoryIsShared` | makeros_hub/vprinter/manager.py:752-753 | two serials share a directory exactly when they are equal up to characters that are no letter, digit, dash or underscore |
| `VirtualAmsServing.ReconcileServesExactly` | makeros_hub/vprinter/manager.py:256-349 | after a reconcile no runtime is left of a serial without an enabled configuration, and an enabled one's members, trays, address and other facts are those its runtime serves if and only if the runtime comes up or one with its very facts was live, except when the supervisor takes it for the one applied last while the runtime serves another |
| `VirtualAmsServing.PushedRunServes` | makeros_hub/vprinter/manager.py:256-349 | over any run whose pushes succeeded there is no such exception |
| `VirtualAmsServing.ChangeOfMindIsLost` | makeros_hub/vprinter/manager.py:284-297 | members changed with a push that fails and then changed back: the runtime goes on serving the abandoned members through any number of reconciles |
| `VirtualAmsServing.ReportShowsWhatFits` | makeros_hub/vprinter/manager.py:679-686 | a report shows the first units times trays of the pool, in order |
| `PoolRanking.PoolRankingState.ObserveTick` | makeros_hub/vprinter/pool_ranking.py:103-123 | the loops stamp, accrue and evict as specified |
| `PoolRanking.PoolRankingState.SelectKeys` | makeros_hub/vprinter/pool_ranking.py:125-143 | the choice is the specified two-tier one |
| `PoolRankingUse.UseIsTheDecayedSum` | makeros_hub/vprinter/pool_ranking.py:96-123 | over any run a key's lazily decayed use is the sum of its active ticks' spans, none below zero or above ten minutes, decayed by age since it was last tracked, never negative; it was first seen when that began; at most 512 keys |
| `PoolRankingUse.BookFollowsObserve` | makeros_hub/vprinter/pool_ranking.py:103-123 | the run with its record of ticks updates the table as `observe` does |
| `PoolRankingLaws.EvictKeepsTheFreshest` | makeros_hub/vprinter/pool_ranking.py:120-123 | eviction keeps the cap, changes no survivor, and drops nothing used after what it keeps |
| `PoolRankingLaws.SelectFits` | makeros_hub/vprinter/pool_ranking.py:125-143 | the choice is strictly sorted, among the candidates, of size min(distinct, capacity) |
| `PoolRankingLaws.SelectIgnoresOrder` | makeros_hub/vprinter/pool_ranking.py:128-130 | order and duplicates of the candidates do not matter |
| `PoolRankingLaws.SelectIsFair` | makeros_hub/vprinter/pool_ranking.py:131-143 | over capacity a quarter of the slots, at least one, is kept for the most used when there is anything but keys first seen within seven days; as many of the newest of those as then fit are chosen, and the rest goes by decayed use; ties go by name |
| `LivePool.DedupeTrays` | makeros_hub/vprinter/live_pool.py:100-119 | the nested loops keep the first tray of every key |
| `LivePool.PoolFromStatuses` | makeros_hub/vprinter/live_pool.py:82-160 | the pool is the rows of the keys in order, as many as fit |
| `LivePool.MirrorStep` | makeros_hub/vprinter/live_pool.py:316-341 | the loop over configurations computes the specified step |
| `LivePoolLaws.DedupeIsExact` | makeros_hub/vprinter/live_pool.py:100-119 | one entry per filament loaded anywhere, holding the first tray with it in printer order |
| `LivePoolLaws.RankedPoolShowsChosen` | makeros_hub/vprinter/live_pool.py:280-313 | rebuilding from the chosen trays shows exactly the chosen filaments |
| `LivePoolLaws.RankedEqualsUnranked` | makeros_hub/vprinter/live_pool.py:287-313 | without a ranking, or when everything fits, ranked and plain pools are equal |
| `LivePoolLaws.PoolIgnoresOrder` | makeros_hub/vprinter/live_pool.py:94-119 | permuting statuses with distinct printer ids changes no pool |
| `LivePoolLaws.MirrorSettles` | makeros_hub/vprinter/live_pool.py:316-341 | the step answers exactly when a display is out of date, hands out configurations that display the live pools, and then answers nothing |
| `LivePoolLaws.MirrorOneSettles` | makeros_hub/vprinter/live_pool.py:173-188 | the same for the single-printer step |
| `LivePoolRows.OneFilamentExactly` | makeros_hub/vprinter/live_pool.py:51-117 | a tray takes part if and only if its material is not blank; two trays are one filament if and only if their colors and their barred materials and ids are the same, and so, where no material holds a bar, if and only if material, id and color each are; trimming, capitals and the color forms are stated character by character |
| `LivePoolRows.BarsBlur` | makeros_hub/vprinter/live_pool.py:110-117 | a bar in a material makes two different filaments one |
| `LivePoolRows.PoolShowsLoaded` | makeros_hub/vprinter/live_pool.py:82-160 | each row of the pool shows a loaded tray: its material, its id or the stock one, its product, colors, temperatures or the stock ones, and what remains from 0 to 100 or -1; no two rows show one filament |
| `LivePoolRows.MirrorIsExact` | makeros_hub/vprinter/live_pool.py:200-341 | the mirror answers exactly when the slots of some configuration differ in type, id, product, color or colors from the pool of its own model's printers, or of all where the model is blank or has none, and then hands on every configuration, the differing ones with that pool |
| `MqttCodec.EncodeRemainingLength` | makeros_hub/vprinter/mqtt_broker.py:64-76 | the encoding loop computes the length code, or refuses |
| `MqttCodec.DecodeRemainingLength` | makeros_hub/vprinter/mqtt_broker.py:78-86 | the decoding loop computes the value and the bytes used, or refuses |
| `MqttCodec.ReadOnePacket` | makeros_hub/vprinter/mqtt_broker.py:540-557 | the reader takes one packet, waits or fails |
| `MqttCodec.ParseSubscribePacket` | makeros_hub/vprinter/mqtt_broker.py:131-145 | the loop over topics computes the specified list or error |
| `MqttLaws.FourBytesSuffice` | makeros_hub/vprinter/mqtt_broker.py:64-76 | a length code has one to four bytes for every value up to 268435455 |
| `MqttLaws.EncodeLength` | makeros_hub/vprinter/mqtt_broker.py:64-76 | how many bytes a value's code takes |
| `MqttLaws.FewestBytes` | makeros_hub/vprinter/mqtt_broker.py:64-86 | no byte string that decodes to a value is shorter than its code |
| `MqttLaws.DecodeInvertsEncode` | makeros_hub/vprinter/mqtt_broker.py:64-86 | every value up to 268435455 decodes back, whatever follows |
| `MqttLaws.ReadInvertsBuild` | makeros_hub/vprinter/mqtt_broker.py:540-557 | a built packet within the cap is read back with the rest untouched |
| `MqttLaws.Reframes` | makeros_hub/vprinter/mqtt_broker.py:540-557 | any concatenation of built packets is read as the same packets |
| `MqttLaws.AcknowledgementsAreRead` | makeros_hub/vprinter/mqtt_broker.py:147-188 | a built SUBACK or PUBACK is read back as itself; an id over 65535 is refused |
| `MqttLaws.PrefixWaits` | makeros_hub/vprinter/mqtt_broker.py:540-557 | a packet cut short is never taken for a packet or an error |
| `MqttLaws.ReadTakesExactly` | makeros_hub/vprinter/mqtt_broker.py:540-557 | what is read is a built packet if and only if its length code is the shortest |
| `MqttLaws.ParseInvertsBuildPublish` | makeros_hub/vprinter/mqtt_broker.py:152-184 | every PUBLISH that can be built is parsed back |
| `MqttLaws.ParsePublishAcceptsExactly` | makeros_hub/vprinter/mqtt_broker.py:152-171 | the PUBLISH parser accepts only written forms |
| `MqttLaws.ParseInvertsSubscribe` | makeros_hub/vprinter/mqtt_broker.py:131-145 | every subscription is read back with its requested QoS |
| `MqttLaws.SubscribeAcceptsExactly` | makeros_hub/vprinter/mqtt_broker.py:131-145 | the parser accepts exactly the payloads a client can write |
| `MqttLaws.ParseInvertsConnect` | makeros_hub/vprinter/mqtt_broker.py:89-125 | every well-formed CONNECT is read back; its flag byte is stated bit by bit: user name 128, password 64, will retain 32, will QoS 16 and 8, will 4, clean session 2, reserved 1 |
| `MqttLaws.ReadInvertsWrite` | makeros_hub/vprinter/mqtt_broker.py:626-645 | a written text is read back in its place |
| `MqttWire.EncodeSpells` | makeros_hub/vprinter/mqtt_broker.py:64-76 | a length code holds seven bits a byte, the lowest first, every byte but the last with its high bit set |
| `MqttWire.PublishOnTheWire` | makeros_hub/vprinter/mqtt_broker.py:173-184 | a PUBLISH is built exactly for QoS 0, or 1 with a sixteen-bit id, when it fits; it is 0x30 or 0x32, the length, the topic behind its big-endian length, the id, the payload |
| `MqttWire.PublishIsParsed` | makeros_hub/vprinter/mqtt_broker.py:152-171 | DUP, QoS and RETAIN are the bits of the first byte's low half, and the body is the topic, an id when QoS is not 0, the payload |
| `MqttWire.AcknowledgementsOnTheWire` | makeros_hub/vprinter/mqtt_broker.py:147-188 | SUBACK is 0x90 and PUBACK 0x40, each with the big-endian id |
| `Multipart.ParseMultipart` | makeros_hub/multipart.py:50-94 | the loop over chunks computes the specified form or error |
| `Multipart.SplitIsExact` | makeros_hub/multipart.py:57-60 | splitting loses nothing and no chunk holds the delimiter |
| `MultipartLaws.ParseInvertsWrite` | makeros_hub/multipart.py:50-94 | a written body gives back the same fields and the file byte for byte, for every payload without the delimiter and every nonempty boundary without line breaks |
| `MultipartLaws.FileIsExact` | makeros_hub/multipart.py:64-90 | the file comes back byte for byte if and only if the payload does not hold the delimiter |
| `MultipartHeaders.AnyCaseIsRead` | makeros_hub/multipart.py:46-47 | the name and the file name of a part are read in any letter case of their labels |
| `JpegReader.ReadOneJpeg` | makeros_hub/printers/bambu_camera.py:125-156 | the trimming reader agrees with a search over everything received |
| `JpegReader.FindsTheFrame` | makeros_hub/printers/bambu_camera.py:125-156 | a frame that ends within the byte cap is found, from the first start marker to the first end marker three bytes later |
| `JpegReader.FindsNoFrame` | makeros_hub/printers/bambu_camera.py:125-156 | a stream without a frame yields none |
| `JpegReader.CutDoesNotMatter` | makeros_hub/printers/bambu_camera.py:125-156 | the result does not depend on how the stream was cut |
| `JpegReader.ReadIsBounded` | makeros_hub/printers/bambu_camera.py:125-156 | the loop ends within the byte cap plus one piece |
| `JpegFrames.FrameIsExact` | makeros_hub/printers/bambu_camera.py:125-156 | a frame runs from the first FF D8 FF to the first FF D9 that begins at least three bytes later, both included, and there is one exactly when both are there |
| `AuthLimiters.AuthRateLimiter.IsLimited` | makeros_hub/vprinter/auth.py:41-48 | the verdict and the touched buckets |
| `AuthLimiters.AuthRateLimiter.RecordFailure` | makeros_hub/vprinter/auth.py:50-55 | both buckets gain the failure and evict beyond the cap |
| `AuthLimiters.AuthRateLimiter.PruneBucket` | makeros_hub/vprinter/auth.py:85-94 | the loops drop what left the window and the keys left empty |
| `AuthLimiters.MemberAuthSet.LookupMemberId` | makeros_hub/vprinter/auth.py:113-124 | the loop that compares every member finds one if and only if the code has at least eight characters and some member holds its digest, and then the first such member |
| `AuthLimiters.MemberAuthSet.Authenticate` | makeros_hub/vprinter/auth.py:126-133 | the attempt answers and moves the limiter as the attempt function says, which `LoginIsExact` tells on the member list |
| `AuthLogins.LoginIsExact` | makeros_hub/vprinter/auth.py:113-147 | in every reachable state a login is limited if and only if the last window holds `limit` remembered failures of the address or the code; it is let in if and only if it is not limited, the code has at least eight characters and some member's digest is the code's, as the first such member; every other refusal records exactly one failure of the address and one of the code, and nothing else records any |
| `AuthLimiterLaws.VerdictIsExact` | makeros_hub/vprinter/auth.py:41-94 | in every reachable state limited holds if and only if the last window holds at least `limit` failures of the address or code since it was last evicted |
| `AuthLimiterLaws.AttemptsAreBounded` | makeros_hub/vprinter/auth.py:126-133 | when only logins record failures no window holds more than `limit` of one address or code since its last eviction |
| `AuthLimiterEviction.RememberedUntilCrowded` | makeros_hub/vprinter/auth.py:73-83 | an address is not evicted while fewer than `max_keys` others were named since it was last touched |
| `AuthLimiterEviction.CodeRememberedUntilCrowded` | makeros_hub/vprinter/auth.py:73-83 | the same for a code |
| `AuthLimiterEviction.NothingBehindAFailure` | makeros_hub/vprinter/auth.py:73-83 | right after a failure nothing is more recent than its address |
| `AuthLimiterEviction.VerdictCountsEverything` | makeros_hub/vprinter/auth.py:41-94 | while the named keys fit the table, the verdict counts the whole history |
| `AuthLimiterCrowd.EvictionReopensAWindow` | makeros_hub/vprinter/auth.py:73-83 | for every rules some run of logins makes one address fail more often than its limit in one window if and only if the limit is at least one |
| `SsdpLimiters.SsdpRateLimiter.Allow` | makeros_hub/vprinter/ssdp.py:274-286 | the reply decision and the new table |
| `SsdpLimiters.RepliesAreBounded` | makeros_hub/vprinter/ssdp.py:274-286 | between any two calls of a source the replies number at most burst plus rate times elapsed time |
| `SsdpLimiters.TokensStayBounded` | makeros_hub/vprinter/ssdp.py:276-281 | tokens stay within zero and the burst whatever the clock does |
| `SsdpLimiters.PatientIsAnswered` | makeros_hub/vprinter/ssdp.py:277-281 | a call a token's worth of time after the last one is answered |
| `SsdpLimiters.SourcesAreIndependent` | makeros_hub/vprinter/ssdp.py:274-286 | while fewer than `max_sources` others call, a source is served as if it were alone |
| `SsdpLimiters.ClockStepMints` | makeros_hub/vprinter/ssdp.py:277-282 | under any rates a clock that steps back a token's time and forth again wins one reply beyond the bound; the default clock is monotonic, an injected one need not be |
| `OrderedDicts.EvictBeyond` | makeros_hub/vprinter/ssdp.py:284-285 | the eviction loop keeps the most recent entries up to the cap |
| `OrderedDicts.PutTrimKeepsPlace` | makeros_hub/vprinter/auth.py:81-83 | setting a key and evicting cannot push out a key with fewer than the cap's number of others behind it |
| `IpAllocators.EnumerateCandidates` | makeros_hub/vprinter/ip_allocator.py:357-388 | the downward walk lists the specified addresses, for any netmask |
| `IpAllocators.IpAllocator.AllocateFor` | makeros_hub/vprinter/ip_allocator.py:208-289 | re-claims a binding or takes the first candidate that is silent and accepted, claiming before it saves |
| `IpAllocators.IpAllocator.EnsureClaimed` | makeros_hub/vprinter/ip_allocator.py:291-333 | releases a changed binding, then binds, saves and claims, in that order |
| `IpAllocators.IpAllocator.ReleaseFor` | makeros_hub/vprinter/ip_allocator.py:335-353 | forgets the binding, saves, and then removes the address |
| `IpAllocatorRuns.CandidatesAreTheHighest` | makeros_hub/vprinter/ip_allocator.py:357-388 | for any netmask the offsets tried are usable, strictly descending, at most 32, and leave out only usable ones below a full list |
| `IpAllocatorRuns.PrefixCandidatesDescend` | makeros_hub/vprinter/ip_allocator.py:357-388 | under a netmask without holes the candidates are strictly descending addresses between the first host and the broadcast address |
| `IpAllocatorRuns.FreshPicksTheHighest` | makeros_hub/vprinter/ip_allocator.py:264-278 | no usable offset above the one chosen has an address that is silent and accepted by the kernel |
| `IpAllocatorTargets.FreshIsTheHighestFree` | makeros_hub/vprinter/ip_allocator.py:235-289 | under a netmask without holes a fresh address is the highest number of the subnet above the first host and below the broadcast address that is not the hub's own, not bound, silent and accepted by the kernel |
| `IpAllocatorTargets.ClaimGoesWhereItBelongs` | makeros_hub/vprinter/ip_allocator.py:291-333 | a known address is claimed on loopback exactly when the routed prefix holds it, else where its model already has it, else on the default interface; with the bindings, the kernel and the failed removals that leaves; and what is refused changes nothing |
| `IpAllocatorRuns.RunKeepsUnshared` | makeros_hub/vprinter/ip_allocator.py:208-353 | over any run no two models share an address, given the cloud never assigns one another model holds |
| `IpAllocatorRuns.EnsureKeepsUnshared` | makeros_hub/vprinter/ip_allocator.py:291-333 | a claim of a known address keeps that if and only if it is refused before binding or no other model holds the address |
| `IpAllocatorRuns.RunAccounted` | makeros_hub/vprinter/ip_allocator.py:208-353 | over any run every address added is still bound or had its removal fail, given re-adding a present address succeeds |
| `IpAllocatorRuns.LyingKernelLeaks` | makeros_hub/vprinter/ip_allocator.py:211-234 | when re-claiming a present address can fail, it is accounted for exactly when the claim succeeds |
| `IpAllocatorCrash.ScriptIsTheOperation` | makeros_hub/vprinter/ip_allocator.py:208-353 | the saves and commands of an operation, run to the end, are the operation, and its result is saved |
| `IpAllocatorCrash.CrashLeaksExactly` | makeros_hub/vprinter/ip_allocator.py:208-353 | given re-adding a present address succeeds and no two models share one, a crash leaves an address that no state file knows if and only if it comes between a fresh claim and its save or between a release's save and the removal |
| `IpAllocatorCrash.CrashesAreAccounted` | makeros_hub/vprinter/ip_allocator.py:208-353 | over any run of operations, reboots and crashes at any other point, every address on an interface is bound, was there before or had its removal fail, and no two models share one |

## Left out

- Sockets, TLS, asyncio tasks, threads, subprocess calls and HTTP: each is a parameter or a freely chosen outcome.
- JSON and UTF-8 text: records and byte strings are used directly; multipart names and values stay bytes, so
  names that differ as bytes but decode alike are kept apart.
- Hashes and digests: opaque values or function parameters; a job fingerprint is its serial, title and start in
  milliseconds rather than a digest, with half a millisecond rounded up.
- Case folding, stripping and `isalnum` are the ASCII ones.
- The second `queue.Full` race of agent.py:210-215: the queue is changed by one caller at a time.
- Spool staging and the duplicate-capture log of agent.py:290-304: they change neither queue nor outbox.
- Status and diagnostics fields of the printer manager.
- `KlipperJobTracker`: the Bambu tracker with one more closing rule.
- `decode_active_material` and the status normalisers: long but shallow.
- The MQTT session and report builders; SSDP and bind messages; certificates.
- The boundary's extraction from the Content-Type header, and boundaries outside latin-1.
- ParseInvertsWrite: names and values are the bytes sent; the decoding with replacement that follows is not modelled.
- UseIsTheDecayedSum: the half-life's exponential is any decay function that turns sums of ages into products.
- VerdictIsExact: counts failures since the key's last eviction; `RememberedUntilCrowded` says when there is none.
- IPv6 bind addresses: a text that is not an IPv4 address counts as no address.
- The guesses of interface, own address and netmask; the binding file's text, and a save that fails, after which a
  crash at any later point can leave an address behind.
- Loading and saving the ranking file.
- Non-object entries in statuses and units, which the code skips; tray temperatures as text; rounding of the
  remaining percentage; a configuration that raises inside the mirror step.
- Camera transports, inference, Tailscale, updates, probes and the heartbeat body.
