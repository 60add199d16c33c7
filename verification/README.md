# Verified model of the control plane's protocols

The control plane runs scripts on many servers. Its hard parts are protocols that have to survive crashes, retries,
stale reads and lost messages, and a few algorithms whose correctness is not obvious from one function. This project
models them in Dafny 4.11 and proves what they promise. `dafny verify dfyconfig.toml` checks everything.

| part | modules | what is proved |
|---|---|---|
| rolling agent upgrade | `UpgradeModel`, `UpgradeCoordinator`, `UpgradeScan`, `UpgradeOutcome`, `UpgradeService`, `UpgradeReports`, `UpgradePlanning`, `UpgradeLoops`, `UpgradeRuns`, `UpgradeHistory`, `UpgradeConfirmed`, `UpgradeExample`, `Version` | what a scan makes of every target, from the plan and the environment alone; over all interleavings of scans, events, heartbeats and operator actions on stale loads: batch gating, command coherence, rollback of the right install, no success without a verified agent, stable cancellation; plans strictly upgrade |
| agent file replacement | `AgentApplier` | over any number of runs, each failing or dying after any atomic step: the backup is exact, files are old or new, the recorded phase is true; which schedules end in success and which in a complete rollback; what success means for every file |
| log shipping | `LogSplit`, `Utf8`, `LogProtocol`, `LogCrashes`, `LogShipping` | lossless splitting, exactly-once in-order delivery over a lossy link with restarts, exact space accounting; what appends that die and oversized chunks cost |
| script execution | `Execution` | at most one launch per run over concurrent starts, several runners, crashes and restarts; what every later call is told |
| release state | `ReleaseState` | an atomic commit of (current, previous) under any faults, backed by immutable records; when a record is torn, and what that costs |
| secret masking | `Redactor`, `Masking` | completeness, its exact condition, and what else is hidden |
| request limiter | `RateLimiter` | every answer is what the requests admitted so far entitle to; cleanup is invisible; at most twice the maximum in any window, a bound that is reached |
| alert rules | `AlertRules`, `AlertEngine`, `AlertSnapshot`, `AlertSampling` | stored counters are the trailing runs of the samples; which samples count; when alerts and rules are in step |
| script synchronisation | `ScriptSync` | the retry budget of every reachable row |
| scheduler | `Scheduler`, `SchedulerScan` | order and length of a scan, which runs it reaches, when a lease is held |

`Common` and `Faults` hold what several parts share.

How things are modelled:

- Stored state that operations load, change and save (plans, rows, records, files) is a value; a transaction, a
  compare-and-swap, a rename or an exclusive file creation is one atomic step. Objects that change fields in place are
  classes, loops are methods with invariants, and each is proved against a function on values about which the main
  theorems are stated.
- Crashes and failures come from a fault schedule that every atomic step consults, so a contract without a condition on
  the schedule holds for every place to stop. Concurrency is a state machine over atomic steps.
- Clocks, identifiers, network outcomes and the answers of code outside the model are parameters. Fresh identifiers are
  taken from a counter. Fields called history are read by no operation.

Promises that turned out not to hold in full. Each has a member with an input that breaks it, and one with the exact
condition under which it holds:

- A plan in status succeeded may contain a rolled-back target: a failure reported for a batch already passed rolls that
  batch back, and the plan goes on after a resume (`SucceededPlanMayHoldRolledBackTarget`). Over all runs, only such a
  report has this effect (`SucceededPlanAllSucceededIff`). The plan has passed every batch all the same
  (`SucceededPassedEveryBatch`).
- A target of a passed batch that is retried drains without end: no scan, heartbeat, cancel or further retry takes it
  out of draining (`RetryDrainsPassedTarget`, `RetriedTargetDrains`; the run is `RetriedTargetOfPassedBatch`).
- An installation may end as succeeded with a mix of old and new files, if a restore that began after the files were
  replaced dies half way (`InterruptedRestoreSucceedsWithMix`). After any number of runs and rollback commands, success
  means all files new exactly if no restore since the replacement has reached a file that changes (`AnyRuns`).
- A log chunk is lost if an append dies after writing chunks and before the cursor, and all of them are acknowledged
  before the next append: it is refused, or taken for a repeat and dropped in silence (`LaggingCursorLosesChunk`).
  Delivery is exactly once in a run exactly if no append starts in such a state (`ExactlyOnceIff`).
- Cleaning invalid UTF-8 can double a chunk, which takes it past the size the server accepts. The server then closes the
  connection, the upload loop ends and the agent stops; a new start uploads in the same order. The chunk is never
  stored, and nothing behind it in upload order is, of other runs and streams either
  (`OversizedOutputHoldsUpTheRest`, `AlternatingIsOversized`, `OversizedIsNeverStored`, `AnyRounds`). With a link that answers, a flush succeeds
  exactly if no pending chunk is too large (`Flush`); no output makes one exactly if the limit is twice the chunk size
  (`CleanFitsIff`), and valid text never does (`WriteOutput`).
- A secret that starts or ends with `*`, or holds the mask, can survive masking (`RemovedIffSafe`,
  `UnsafeNeedleSurvives`, `StarSecretSurvives`); one that is the mask itself is never replaced (`MaskSecretSurvives`).
- A release whose commit reported an error after it had taken effect becomes its own predecessor when it is committed
  again (`CommitReportsErrorAndCounts`); `CommitAgain` has the schedules.
- A commit that stops exactly at the write of its success record leaves it torn (`CommitSuccess`), and no operation ever
  makes that release current (`TornStaysOut`, `TornReleaseStaysOut`).
- A bootstrap that stops after its history record never succeeds again (`CreateBootstrap`, `BootstrapStaysOut`,
  `BootstrapDiesHalfWay`).
- An alert outlives its reason if marking it as applied fails and the rule turns good before the next scan
  (`FailedMarkStrandsAlert`). It comes back in step exactly with the next transition that is delivered and marked
  (`InStepIff`, `RunInStepIff`).
- A sample counts exactly if at some scan it is among the last two, recent and measured, and no counted one has its time
  (`EverySampleCountsIff`). Samples that arrive faster than that, or scans that come later, miss alerts
  (`FasterSamplesAreLost`, `SlowScanLosesSample`).
- A scan of the scheduler attempts every queued run exactly if no attempt before the last is pushed back (`Scan`,
  `AllAttemptedIff`); a run with room may never be attempted (`RunWithRoomIsNeverAttempted`).

## Model

| member | source | states |
|---|---|---|
| UpgradeCoordinator.RollbackMoves | internal/agentupgrade/coordinator.go:298-315 | a batch rollback moves each target of the batch as its status demands, leaves all others alone, and gives fresh, distinct command identifiers |
| UpgradeCoordinator.RollbackSendsExactly | internal/agentupgrade/coordinator.go:298-315 | the commands of a rollback are those of the targets it takes back, with the identifiers saved for them; `RollbackByStatus` says which targets these are |
| UpgradeCoordinator.MatchTarget | internal/agentupgrade/coordinator.go:358-369 | a report is matched to the first target of the reporting server with that target and command identifier, and to none exactly if there is no such target |
| UpgradeScan.RollbackIsMoves | internal/agentupgrade/coordinator.go:298-315 | a batch rollback is a legal move of that batch alone |
| UpgradeScan.StepDraining | internal/agentupgrade/coordinator.go:64-98 | handling a draining target keeps the loop invariant of the scan: queued commands stay coherent with the targets as changed so far |
| UpgradeScan.StepRollback | internal/agentupgrade/coordinator.go:298-336 | rolling the batch back in mid-loop, after install commands were queued, keeps that invariant |
| UpgradeScan.StepTarget | internal/agentupgrade/coordinator.go:52-159 | so does every branch of the loop body |
| UpgradeScan.ScanTheorem | internal/agentupgrade/coordinator.go:40-184 | every command a scan sends carries the identifier saved for its target; installs go only to targets saved as downloading, verifying or installing, rollbacks only to targets saved as rolling back; only the current batch moves, and the batch advances only when all of it has succeeded |
| UpgradeOutcome.RollbackByStatus | internal/agentupgrade/coordinator.go:298-315 | by status and error code: a target of the batch that installs, reconnects, is checked or has succeeded is taken back, and so is one that downloads or verifies, unless it is the failed one; the failed one is not if its code says that the old files are in place; each target taken back is sent exactly one command, under a new identifier and naming its own install, and no other command is sent |
| UpgradeOutcome.FirstMatch | internal/agentupgrade/coordinator.go:371-377 | the first artifact that fits the system the agent tells, if there is one |
| UpgradeOutcome.RemoveKeepsOthers | internal/agentupgrade/coordinator.go:321-336 | dropping the commands of a batch keeps all others, in order |
| UpgradeOutcome.DrainingSteps | internal/agentupgrade/coordinator.go:64-98 | what a scan makes of a draining target, from the plan and the environment alone |
| UpgradeOutcome.InstallingSteps | internal/agentupgrade/coordinator.go:99-119 | of one that installs |
| UpgradeOutcome.HealthCheckingSteps | internal/agentupgrade/coordinator.go:126-149 | of one under verification that has not failed |
| UpgradeOutcome.FailureReached | internal/agentupgrade/coordinator.go:120-149 | the first overdue or unhealthy target takes the whole batch back, those settled earlier in the same scan included |
| UpgradeOutcome.ScanOutcome | internal/agentupgrade/coordinator.go:40-184 | every scan: when it ends in an error, what becomes of every target, which commands go out, and which batch and status the plan is left with |
| UpgradeOutcome.SucceedsIff | internal/agentupgrade/coordinator.go:126-149 | after a scan a target is a success exactly if it was, or its agent is enabled, online or draining, at exactly the new version, with a snapshot, seen in the last 15 seconds and since the check began, and the verification time is over; none of the batch is if an upgrade in it has failed |
| UpgradeOutcome.ScanRollsBackOnly | internal/agentupgrade/coordinator.go:298-315 | a scan ends no rollback, and takes a target straight to rolled back only from waiting or draining |
| UpgradeReports.MatchIff | internal/agentupgrade/coordinator.go:358-369 | a report is taken for the first target with its server, target and command identifier |
| UpgradeReports.EventByStatus | internal/agentupgrade/coordinator.go:186-249 | which reports move a target in which status, and to what; a failed report takes the batch back by status, or gives up the target whose rollback failed |
| UpgradeReports.HeartbeatByStatus | internal/agentupgrade/coordinator.go:251-285 | exactly the new version starts the health check, any other takes the target back, the old version ends a rollback, and nothing else changes anything |
| UpgradeReports.PauseIff | internal/agentupgrade/service.go:134-147 | a pause is saved exactly for a plan that is pending or runs, and only pauses it |
| UpgradeReports.ResumeIff | internal/agentupgrade/service.go:149-207 | a resume is saved exactly if the plan is paused, not being cancelled, its release available, and every target not yet installed still fits |
| UpgradeReports.CancelIff | internal/agentupgrade/service.go:209-236 | which plans can be cancelled, what becomes of every target, and when the plan is over at once |
| UpgradeReports.RetryIff | internal/agentupgrade/service.go:238-276 | a retry is saved exactly for a target rolled back or given up, of a plan not being cancelled, on a server at the old version; it is a new attempt under a new command |
| UpgradeLoops.RollbackBatch | internal/agentupgrade/coordinator.go:298-315 | the loop that updates the targets in place computes the function that `RollbackByStatus` is about |
| UpgradeLoops.WithoutBatchCommands | internal/agentupgrade/coordinator.go:321-336 | filtering in place keeps exactly the commands of other batches, in order |
| UpgradeLoops.CheckBatchSucceeded | internal/agentupgrade/coordinator.go:390-401 | true exactly if the batch has a target and all its targets have succeeded |
| UpgradeLoops.CheckHasBatch | internal/agentupgrade/coordinator.go:402-409 | true exactly if some target belongs to the batch |
| UpgradeLoops.CheckAllTerminal | internal/agentupgrade/coordinator.go:411-418 | true exactly if every target is terminal |
| UpgradeLoops.ScanLoop.MarkSourceVersionChanged | internal/agentupgrade/coordinator.go:292-296 | the new state of plan and target |
| UpgradeLoops.ScanLoop.RollBack | internal/agentupgrade/coordinator.go:298-336 | replacing the queued commands of the batch by its rollback commands |
| UpgradeLoops.ScanLoop.VisitDraining | internal/agentupgrade/coordinator.go:64-98 | the new state after a draining target, and when the scan is abandoned |
| UpgradeLoops.ScanLoop.VisitInstalling | internal/agentupgrade/coordinator.go:99-119 | the new state after a target that installs |
| UpgradeLoops.ScanLoop.VisitHealthChecking | internal/agentupgrade/coordinator.go:126-149 | the new state after a target under verification, as the function that `HealthCheckingSteps` and `SucceedsIff` are about |
| UpgradeLoops.ScanLoop.VisitRollingBack | internal/agentupgrade/coordinator.go:150-159 | the new state after a target that rolls back |
| UpgradeLoops.ScanLoop.Visit | internal/agentupgrade/coordinator.go:52-159 | the new state after any target |
| UpgradeLoops.ScanActive | internal/agentupgrade/coordinator.go:40-176 | the scan as a loop over targets updated in place computes the function that `ScanTheorem` and the run theorems are about |
| UpgradePlanning.AdmitServer | internal/agentupgrade/service.go:82-109 | a server is admitted exactly if it is eligible, has an artifact and, without a rollback source, is strictly upgraded; what the two version refusals mean |
| UpgradePlanning.InputIs | internal/agentupgrade/service.go:320-346 | which requests are valid, and what a value left out means |
| UpgradePlanning.BuildTargets | internal/agentupgrade/service.go:82-121 | one target per server in order, unless a server is refused |
| UpgradePlanning.CreatePlan | internal/agentupgrade/service.go:42-127 | a plan is created exactly if everything is acceptable; it is a legal initial plan, its first batch is the first server alone, no batch exceeds the batch size, batches are contiguous, and every ordinary target is strictly upgraded |
| UpgradePlanning.BatchesOf | internal/agentupgrade/service.go:82-121 | the numbering gives a first batch of one and contiguous batches of at most the batch size |
| UpgradeRuns.ScanLegal | internal/agentupgrade/coordinator.go:40-184 | a scan is a legal step of every plan that satisfies the invariant |
| UpgradeRuns.EventLegal | internal/agentupgrade/coordinator.go:186-249 | so is an agent event |
| UpgradeRuns.HeartbeatLegal | internal/agentupgrade/coordinator.go:251-285 | so is a heartbeat |
| UpgradeRuns.UntouchedLegal | internal/agentupgrade/service.go:134-207 | so are pause and resume |
| UpgradeRuns.CancelLegal | internal/agentupgrade/service.go:209-236 | so is cancel |
| UpgradeRuns.RetryLegal | internal/agentupgrade/service.go:238-276 | so is the retry of a target |
| UpgradeRuns.ActLegal | internal/agentupgrade/service.go:134-276 | every action, operator actions that are refused included, moves a plan that satisfies the invariant to one that does, along the legal transitions only |
| UpgradeRuns.SwapOnlyCurrent | internal/agentupgrade/postgres.go:201-245 | a save with a revision check replaces the stored plan exactly if the plan was loaded from its latest version |
| UpgradeRuns.StepKeepsInv | internal/agentupgrade/coordinator.go:40-285 | every load-change-save step, on any stale load, with any part of its commands delivered, keeps the global invariant |
| UpgradeRuns.RunKeepsInv | internal/agentupgrade/coordinator.go:40-285 | hence every state of every run satisfies it |
| UpgradeRuns.BatchesAreGated | internal/agentupgrade/coordinator.go:52-172 | in every version, targets of later batches are waiting or cancelled; the current batch only grows by one, and only when all of it has succeeded |
| UpgradeRuns.PassedBatch | internal/agentupgrade/coordinator.go:161-176 | every batch before the current one was wholly succeeded in some earlier version |
| UpgradeRuns.SucceededPassedEveryBatch | internal/agentupgrade/coordinator.go:161-176 | a succeeded plan has passed every batch |
| UpgradeExample.SucceededPlanMayHoldRolledBackTarget | internal/agentupgrade/coordinator.go:186-249 | it may hold a rolled-back target all the same: a run from the start, through creation, both batches, the late failure and the resume |
| UpgradeHistory.SucceededPlanAllSucceededIff | internal/agentupgrade/coordinator.go:186-249 | in every run, a succeeded plan has only succeeded targets exactly if no step took a failed report for a target of a batch already passed |
| UpgradeHistory.RunHasTrace | internal/agentupgrade/coordinator.go:40-285 | every run is a sequence of named steps, which the statements about steps speak of |
| UpgradeHistory.PassedStaysSucceeded | internal/agentupgrade/coordinator.go:52-172 | without such a step, all targets of all passed batches stay succeeded |
| UpgradeHistory.LateFailureStays | internal/agentupgrade/coordinator.go:202-226 | after such a step, some target of a passed batch never succeeds again |
| UpgradeHistory.RetryDrainsPassedTarget | internal/agentupgrade/service.go:238-276 | a retry does not look at the batch: a target of a passed batch starts to drain |
| UpgradeHistory.RetriedTargetDrains | internal/agentupgrade/coordinator.go:52-98 | and in every run it stays draining until another target of its batch reports a failure |
| UpgradeExample.RetriedTargetOfPassedBatch | internal/agentupgrade/service.go:238-276 | a run from the start in which this happens |
| UpgradeRuns.CommandsOfAnAttemptAgree | internal/agentupgrade/coordinator.go:379-384 | all commands ever sent for a target name the same install exactly if they belong to the same attempt, so a rollback undoes the install of its own attempt |
| UpgradeRuns.UnstartedTargetsAreUnheard | internal/agentupgrade/coordinator.go:186-249 | no command with the identifier of an unstarted target was ever sent, so no report can move it |
| UpgradeRuns.CancellationIsStable | internal/agentupgrade/service.go:209-236 | from the cancel request on no target waits or newly drains, the plan is paused or cancelled, and a cancelled plan has only terminal targets and never changes again |
| UpgradeConfirmed.RolledBackOnlyBy | internal/agentupgrade/coordinator.go:186-315 | in every run, a target past the verification becomes rolled back only from rolling back, or by its own failed report with a code that says the old files are in place; and what it takes from every other status |
| UpgradeConfirmed.SuccessIsConfirmed | internal/agentupgrade/coordinator.go:126-149 | in every run, a target that is a success was confirmed by a scan that found no failed upgrade in its batch, and has been a success ever since |
| UpgradeConfirmed.CheckFollowsHeartbeat | internal/agentupgrade/coordinator.go:251-285 | a target in its health check was put there by a heartbeat of its own agent at exactly the new version, at the time it was last updated |
| UpgradeConfirmed.SuccessWasVerified | internal/agentupgrade/coordinator.go:126-149 | so between that heartbeat and the scan that confirmed it lies at least the verification time |
| Version.StableVersionParts | internal/agentupgrade/version.go:27-51 | accepts exactly the stable versions and returns their three parts |
| Version.CompareStableVersions | internal/agentupgrade/version.go:7-25 | accepts exactly the strings that denote three naturals, and orders them as those naturals, for any number of digits (section 11 of Semantic Versioning 2.0.0) |
| Version.NumeralOrder | internal/agentupgrade/version.go:7-25 | length first, then text, is the numeric order of numerals without leading zeros |
| Version.StableIffReads | internal/agentupgrade/version.go:27-51 | a string is accepted exactly if it denotes a version core |
| Version.ReadsIffWritten | internal/agentupgrade/version.go:27-51 | that is, exactly if it is the three numbers written in decimal, with or without the prefix, in at most 64 characters |
| Version.ReadsUnique | internal/agentupgrade/version.go:27-51 | and it denotes only one |
| Version.EqualUpToPrefix | internal/agentupgrade/version.go:7-51 | equal versions differ at most in the `v` prefix |
| AgentApplier.BackupManaged | internal/agentupdate/applier.go:168-188 | stopped anywhere, what the backup holds is right; completed, it is the exact content or absence of every managed file |
| AgentApplier.ReplaceManaged | internal/agentupdate/applier.go:189-219 | stopped anywhere, the files of a prefix are as the source directory wants them and the others unchanged; how long the prefix is |
| AgentApplier.FinishAutomaticRollback | internal/agentupdate/applier.go:140-166 | keeps the old files, and ends as rolled back exactly if its three steps pass |
| AgentApplier.RollbackAfterFailure | internal/agentupdate/applier.go:117-138 | restores from the exact backup as many files as steps pass; the phase it leaves, for every schedule |
| AgentApplier.BackUp | internal/agentupdate/applier.go:48-59 | the first phase keeps the crash invariant, and is over exactly if its steps pass |
| AgentApplier.Replace | internal/agentupdate/applier.go:60-72 | the phase is recorded as replaced only with all files new; how the run ends if a step of it is disturbed, for every schedule |
| AgentApplier.Restart | internal/agentupdate/applier.go:73-84 | the same for the reload and the restart |
| AgentApplier.Confirm | internal/agentupdate/applier.go:85-96 | succeeded is recorded exactly if the confirmation and its record pass, over the files as they were; a confirmation that fails rolls back, and how that ends, for every schedule |
| AgentApplier.FromRestarted | internal/agentupdate/applier.go:85-98 | a run that finds the agent restarted does all this |
| AgentApplier.FromReplaced | internal/agentupdate/applier.go:73-98 | so does one that finds the files replaced |
| AgentApplier.FromBackup | internal/agentupdate/applier.go:60-98 | one that finds the backup complete |
| AgentApplier.FromStaged | internal/agentupdate/applier.go:48-98 | and one that finds the archive staged |
| AgentApplier.ApplyInstall | internal/agentupdate/applier.go:31-98 | under any schedule the crash invariant is kept; the phase the run leaves and the number of files it restored, read off the schedule; a run that ends as succeeded has all files new exactly if it started before the replacement or with all files new |
| AgentApplier.Stage | internal/agentupdate/stager.go:47-106 | staging touches no managed file and no backup; completed, which it is exactly if its steps pass, it establishes the invariant with the present files as the old ones; repeated, it changes nothing |
| AgentApplier.ApplyRollback | internal/agentupdate/applier.go:100-116 | a rollback restores the backup of its own install, as many files as steps pass, and reports success exactly if all its steps pass; all files are then old |
| AgentApplier.Rollback | internal/agentupdate/stager.go:122-169 | the answer for every schedule: no rollback is needed exactly in the phases before the replacement and after a rollback, with the content from before the upgrade in place; which command is a mismatch; success exactly if all steps pass |
| AgentApplier.AnyRuns | internal/agentupdate/applier.go:31-219 | any number of installs and rollbacks, each failing or dying anywhere, described job by job: exact backup past staged, every file old or new, old after a rollback; success means all new exactly if no restore since the replacement, finished or interrupted, has reached a file that the installation changes |
| AgentApplier.RestoredIff | internal/agentupdate/applier.go:31-219 | how far the restores of all jobs have got, over every sequence of jobs |
| AgentApplier.InstallEnds | internal/agentupdate/applier.go:31-138 | from every phase before success: the run succeeds exactly if none of its steps is disturbed; it ends as rolled back, with every file restored, exactly if the first disturbed step copies a file, records the replacement, reloads, restarts or awaits the confirmation, fails without killing the process, and the rollback is not disturbed |
| AgentApplier.RunEnds | internal/agentupdate/applier.go:31-138 | the same for every run in every sequence of jobs, with the old files in place after such a rollback |
| AgentApplier.RollbackResumes | internal/agentupdate/applier.go:31-47 | a run that finds a rollback begun completes it exactly if no step is disturbed |
| AgentApplier.InterruptedRestoreSucceedsWithMix | internal/agentupdate/applier.go:117-138 | for any files, any archive and any point of the restore: the staging, the two runs and the schedule with which success comes with a mix |
| LogSplit.ToValidIsValid | internal/logstream/spool.go:90 | cleaning yields valid UTF-8 (section 3 of RFC 3629) |
| LogSplit.ToValidKeepsValid | internal/logstream/spool.go:90 | and leaves valid text alone |
| LogSplit.ToValidBound | internal/logstream/spool.go:90 | and at most doubles any text, but for an odd byte |
| LogSplit.CleanFitsIff | internal/logstream/spool.go:83-92 | every piece of at most a given size stays within a limit after cleaning exactly if twice the size, odd sizes rounded up, does |
| LogSplit.BoundaryAtStart | internal/logstream/spool.go:83-88 | cutting valid text before a byte that starts a character leaves two valid parts |
| LogSplit.BoundaryNear | internal/logstream/spool.go:83-88 | such a byte is never more than three back |
| Utf8.RuneIff | internal/logstream/spool.go:83-88 | the byte tests find a character of a given length at the front exactly if the encoding of a Unicode scalar value is there (section 3 of RFC 3629) |
| Utf8.ValidIff | internal/logstream/spool.go:83-90 | and take a text as valid exactly if it is a concatenation of such encodings |
| LogSplit.ChunkLength | internal/logstream/spool.go:83-89 | a chunk ends at the last place within the limit before a byte that starts a character, or at the limit if there is none; it is never empty and does not cut a character of valid text |
| LogSplit.Split | internal/logstream/spool.go:81-94 | the loop ends on every input with non-empty pieces of at most the chunk size that concatenate to it; chunks are valid, and the pieces themselves for valid text |
| LogProtocol.NextIsFresh | internal/logstream/spool.go:308-328 | the next sequence number is one more than all chunks ever appended, also when none is pending |
| LogProtocol.AcceptKeeps | internal/logstream/service.go:138-185 | the server stores a chunk exactly if it is the next one, answers a repeated one with its watermark, refuses a gap, and never finds a conflict |
| LogProtocol.AppendKeeps | internal/logstream/spool.go:67-117 | appending keeps agent and server coupled |
| LogProtocol.AcknowledgeKeeps | internal/logstream/spool.go:183-215 | so does deleting below any watermark the server ever gave |
| LogProtocol.StepKeepsInv | internal/logstream/spool.go:67-215 | every append, send, delivery, acknowledgement and loss keeps the invariant, and what is stored only grows, by at most one chunk |
| LogProtocol.RunKeepsInv | internal/logstream/service.go:138-185 | hence every state of every run satisfies it |
| LogProtocol.ExactlyOnce | internal/agent/log_client.go:50-69 | the stored chunks are a gap-free prefix of the redacted appended ones, each once, and every other one is still pending |
| LogProtocol.OversizedIsNeverStored | internal/logstream/service.go:187-194 | a chunk over the limit is never stored in any run, nor is any chunk behind it in its stream |
| LogProtocol.StoredIsStable | internal/logstream/service.go:138-185 | what is stored stays stored unchanged |
| LogProtocol.NextIsRightIff | internal/logstream/spool.go:106-115 | if an append may die before its cursor write, the next number is right exactly if the last chunk is still pending or the cursor was written |
| LogCrashes.ExactlyOnceIff | internal/logstream/spool.go:67-117 | in every run with appends that die between chunk and cursor, delivery is exactly once at a state exactly if no append before it started with a lagging cursor and the last chunk gone; after one that did, it never is again |
| LogCrashes.LaggingCursorLosesChunk | internal/logstream/spool.go:106-115 | the run in which a chunk is lost otherwise, refused if it differs from the one before and dropped in silence if it looks alike |
| LogShipping.Spool.constructor | internal/logstream/spool.go:40-65 | opening counts the files an earlier process left |
| LogShipping.Spool.LastPending | internal/logstream/spool.go:217-246 | the greatest pending sequence number |
| LogShipping.Spool.Append | internal/logstream/spool.go:67-117 | chunks are filed under the next numbers and the cursor moves past them; an append is refused exactly for lack of space, and then changes nothing; the accounting stays exact and within the limit |
| LogShipping.Spool.Enqueue | internal/logstream/spool.go:95-117 | all chunks are written, or none for lack of space; the cursor follows them |
| LogShipping.Spool.Write | internal/logstream/spool.go:248-284 | one more file, and its size on the account |
| LogShipping.Spool.WriteAll | internal/logstream/spool.go:106-110 | one file per chunk under consecutive numbers |
| LogShipping.Spool.Delete | internal/logstream/spool.go:203-213 | one file less, and its size off the account |
| LogShipping.Spool.Acknowledge | internal/logstream/spool.go:183-215 | exactly the files below the watermark are deleted, and the account stays exact |
| LogShipping.Service.Accept | internal/logstream/service.go:138-185 | stream by stream, the answer and the store of the protocol; an insert that fails changes nothing, and one that is reported as failed but found stored is answered like any other |
| LogShipping.AllPending | internal/logstream/spool.go:137-181 | every pending chunk once, in order of stream and number |
| LogShipping.WriteOutput | internal/agent/log_client.go:78-90 | output enters the spool so that the coupling of all streams holds for what was then appended; what was pending stays so; valid text, or any output at half the chunk size, makes no chunk over the limit |
| LogShipping.Send | internal/agent/log_client.go:56-67 | one upload, answered, lost either way or not stored, keeps all streams coupled; it succeeds if the server can take the chunk, and a chunk over the limit is refused and changes nothing; what is pending and stored after each kind of loss |
| LogShipping.Flush | internal/agent/log_client.go:50-69 | a flush keeps all streams coupled whatever is lost; when it succeeds everything appended is stored, redacted, and nothing pending; with a link that answers it succeeds exactly if no pending chunk is over the limit, and what is at or behind such a chunk in upload order stays pending |
| LogShipping.AnyRounds | internal/agent/log_client.go:30-69 | over any number of flushes and writes, the streams hold what was written, and what an oversized chunk holds up is never stored and stays pending unchanged |
| LogShipping.OversizedOutputHoldsUpTheRest | cmd/agent/main.go:186-200 | any output of one chunk that cleaning makes too large, on an agent with an empty spool: whatever follows, the log that another run writes after it is never stored |
| LogShipping.AlternatingIsOversized | internal/logstream/spool.go:83-92 | bytes that are invalid and plain by turns are such output |
| Execution.Replay | internal/executor/execution_record.go:108-141 | computes the decision that `DecidesExactly` and `ChecksAnswer` are about |
| Execution.DecidesExactly | internal/executor/execution_record.go:108-141 | whatever the record files hold: events are replayed exactly if a complete claim and a complete result name the run and the token and the events are those of one launch; the token is refused exactly if the claim is complete and under another; all else that was claimed is uncertain |
| Execution.CheckIsExact | internal/executor/execution_record.go:108-141 | whatever a check replays is the recorded outcome of the one launch under the same token |
| Execution.StepKeepsInv | internal/executor/runner.go:153-330 | every atomic step of every process keeps the invariant, crashes included, and records that are written in full, in part or not at all while the write reports success or failure |
| Execution.RunKeepsInv | internal/executor/runner.go:153-330 | hence every state of every run satisfies it |
| Execution.AtMostOnce | internal/executor/runner.go:153-237 | the launcher is called at most once per run |
| Execution.AnswersAreExact | internal/executor/runner.go:153-237 | a start that was answered by launching or by replay belongs to that one launch under its own token, and a replay is exactly the recorded events |
| Execution.OutcomeIsStable | internal/executor/execution_record.go:152-170 | claim owner, token and recorded outcome never change |
| Execution.ClaimedIsNeverFree | internal/executor/execution_record.go:152-161 | once a run is claimed no later start finds it free |
| Execution.RunKeepsTracked | internal/executor/runner.go:153-330 | in every run a runner has in hand exactly processes of its own that have launched the run and are not done with it, and every claim is owned by a process with its token |
| Execution.ChecksAnswer | internal/executor/runner.go:153-212 | in every run: with the run in hand, the token decides between already active and a mismatch; without, the recorded outcome is replayed exactly if claim and result are complete and the token is the claim's, another token is refused exactly if the claim is complete, and the call is uncertain exactly if the claim is torn, or the token right and the result missing or torn |
| Execution.SavedIsReplayed | internal/executor/execution_record.go:108-170 | once a launch has saved its result, every later call with its token, from whichever runner and after whatever crashes, is told the very events saved; any other token is refused |
| Execution.NoSecondLaunch | internal/executor/runner.go:153-237 | no two steps of a run call the launcher for the same run identifier |
| Execution.UndisturbedCall | internal/executor/runner.go:153-330 | a call for a run nobody has claimed, disturbed by nothing, launches it once and leaves the complete claim and, as the result, exactly the events of the launch, failed or ended |
| Execution.WritesThatFail | internal/executor/execution_record.go:82-106 | what each failed write of a record leaves |
| ReleaseState.RecoverState | internal/release/state.go:321-362 | stopped anywhere, the next load sees the same pair as before; it completes exactly if the schedule lets its steps pass, and then no transaction is left |
| ReleaseState.CommitState | internal/release/state.go:303-319 | the next load sees the new release with the old current one exactly if the schedule gets to the step that records the transaction, and else the old pair, never a mix |
| ReleaseState.SaveHistory | internal/release/state.go:235-263 | a history record appears whole, exactly if there is none and the schedule gets to it, and is never replaced |
| ReleaseState.WriteSuccess | internal/release/state.go:265-301 | a success record is created once; one of the same identity is accepted, a torn or different one refused; it is left torn exactly if the schedule stops at its write |
| ReleaseState.SaveValidated | internal/release/state.go:107-117 | a candidate enters the history without a success time, exactly if it is sound, not a bootstrap and new and its record is written; nothing else changes |
| ReleaseState.CommitSuccess | internal/release/state.go:142-160 | a commit happens as a whole or not at all, exactly if the release matches its history and success records and the schedule gets to the step that counts; for which schedules it reports success, and for which it leaves a torn record |
| ReleaseState.CommitValidated | internal/release/state.go:150-160 | the same for the part after the history check |
| ReleaseState.CreateBootstrap | internal/release/state.go:119-140 | the same for the first release, under any schedule; it never succeeds if there is a history record, and leaves one exactly if the schedule gets to it |
| ReleaseState.Load | internal/release/state.go:162-180 | a load returns what the view says, backed by history and success records of the same identity, exactly if the recovery passes |
| ReleaseState.LoadTarget | internal/release/state.go:182-203 | the answer for every target and schedule: unreadable, found with its success record, validated only, or not found; the current and previous releases are always found |
| ReleaseState.CommitAgain | internal/release/state.go:142-160 | what repeating a commit of unknown outcome leads to, for every schedule of the first one |
| ReleaseState.AnyOperation | internal/release/state.go:107-203 | what one operation does to the pair a load sees and to the records, under any schedule |
| ReleaseState.WholeCommits | internal/release/state.go:107-203 | it moves the visible pair by a whole commit or not at all |
| ReleaseState.AnyOperations | internal/release/state.go:107-362 | over any number of operations, each stopped anywhere and described one by one: current and previous always backed, records never change; a release with a torn record is never current or previous |
| ReleaseState.TornStaysOut | internal/release/state.go:265-301 | in every sequence of operations, a record once torn stays torn and its release is never named again |
| ReleaseState.BootstrapStaysOut | internal/release/state.go:119-140 | and once there is a history record, no bootstrap changes the visible pair |
| ReleaseState.CommitReportsErrorAndCounts | internal/release/state.go:303-362 | the schedule with which a commit counts and reports an error, and the release becomes its own predecessor |
| ReleaseState.BootstrapDiesHalfWay | internal/release/state.go:119-140 | the schedule with which a bootstrap leaves its history record alone, and what any operations after it can do |
| ReleaseState.TornReleaseStaysOut | internal/release/state.go:265-301 | the schedule that tears the record of a release that could be committed; whatever operations follow, it stays out |
| Redactor.OccursIff | internal/secret/redactor.go:41-46 | what it means for a word to occur in a text |
| Redactor.NoneNew | internal/secret/redactor.go:41-46 | a replacement never creates an occurrence of a word that no part of a mask can belong to |
| Redactor.NoneLeft | internal/secret/redactor.go:41-46 | and leaves none of such a word that it replaces |
| Redactor.NothingToReplace | internal/secret/redactor.go:41-46 | a text without the word is unchanged |
| Redactor.RemovedIffSafe | internal/secret/redactor.go:41-46 | a replacement removes a word from every text exactly if the word neither starts nor ends with a star nor holds the mask |
| Masking.CollectVariants | internal/secret/redactor.go:19-33 | the plain and encoded forms of all non-empty secrets |
| Masking.OrderByLength | internal/secret/redactor.go:34-40 | without the empty one and the mask, longest first |
| Masking.Mask | internal/secret/redactor.go:17-48 | no value, no encoded form of one and no lower-cased percent encoding is left, if it is safe, and none is created; a text without them is unchanged; without stars among them, the result is the text with only such occurrences masked, and every occurrence of a variant is hit by the masking of one at least as long |
| Masking.RewriteFacts | internal/secret/redactor.go:41-46 | completeness over all replacements, in any order |
| Masking.RewriteExplained | internal/secret/redactor.go:34-46 | the decomposition of the result into kept bytes and masked needles |
| Masking.StarFreeSecretsAreSafe | internal/secret/redactor.go:17-48 | if no secret holds a star and no encoder adds one, all variants are safe, hence gone |
| Masking.StarSecretSurvives | internal/secret/redactor.go:17-48 | a secret that is a single star is masked nowhere |
| Masking.MaskSecretSurvives | internal/secret/redactor.go:34-46 | nor is one that is the mask itself: an occurrence in the text is left by all replacements |
| Masking.UnsafeNeedleSurvives | internal/secret/redactor.go:34-46 | every variant that is not safe has a text in which it survives all replacements, unless another variant occurs in that text before or after its own |
| RateLimiter.CleaningIsInvisible | internal/agentrelease/http.go:223-230 | with a monotone clock every decision is that of a limiter that never deletes an entry |
| RateLimiter.EntriesAreRecent | internal/agentrelease/http.go:223-230 | and when a request is admitted no entry is kept whose window ended a window ago |
| RateLimiter.RunTallies | internal/agentrelease/http.go:213-243 | with a monotone clock, the counter of every window is the number of requests admitted since it was opened |
| RateLimiter.AllEntitled | internal/agentrelease/http.go:213-243 | so a request is admitted exactly if fewer than the maximum of its client were admitted in the window of the client, and fewer than 64 times the maximum of all in the global one |
| RateLimiter.AtMostTwice | internal/agentrelease/http.go:213-243 | any interval one window long, ends included, admits at most twice the maximum, per client and overall |
| RateLimiter.TwiceIsReached | internal/agentrelease/http.go:213-243 | for all limits, the factor two is reached, by every one of 64 clients and by all together |
| RateLimiter.ReleaseLimits.constructor | internal/agentrelease/http.go:192-201 | an empty limiter |
| RateLimiter.ReleaseLimits.RemoveExpired | internal/agentrelease/http.go:224-228 | exactly the expired entries are deleted |
| RateLimiter.ReleaseLimits.AllowRequest | internal/agentrelease/http.go:213-243 | the decision and the new state, as the function that `AllEntitled` and the bounds are about |
| RateLimiter.Serve | internal/agentrelease/http.go:203-243 | a new limiter over any run: every answer as entitled, decisions as without deletion, bounds as above |
| AlertRules.CountersAreTrailingRuns | internal/ops/postgres.go:150-172 | for every series of evaluations, the stored counters are the lengths of the trailing bad and good runs of those taken, and the desired state follows their latest agreement |
| AlertRules.TrailingIff | internal/ops/postgres.go:157-172 | what a trailing run of a given length says about the last evaluations |
| AlertRules.FlipsExactlyOnAgreement | internal/ops/postgres.go:157-172 | the desired state flips exactly when the last required number agree against it |
| AlertRules.TakenAscends | internal/ops/postgres.go:150-154 | the samples taken are distinct and in time order |
| AlertRules.WindowReadsOn | internal/ops/postgres.go:150-154 | an overlapping window has the effect of its unread part only |
| AlertEngine.ApplyIsPerRule | internal/ops/postgres.go:127-200 | a batch advances every rule by its own evaluations and touches no other |
| AlertEngine.Count | internal/ops/postgres.go:155-172 | the counting branches agree with the counting rule |
| AlertEngine.RuleEngine.CountBatch | internal/ops/postgres.go:136-186 | the rows after the batch, the latest evaluation and the order of first appearance |
| AlertEngine.CollectTransitions | internal/ops/postgres.go:190-199 | one transition per rule whose desired state differs from the applied one, in order of first appearance, with the latest evaluation |
| AlertEngine.RuleEngine.Apply | internal/ops/postgres.go:127-200 | both together, with distinct rules |
| AlertEngine.RuleEngine.MarkApplied | internal/ops/postgres.go:227-240 | the applied state is set only to the state desired at that time |
| AlertEngine.Deduplicate | internal/ops/rules.go:225-239 | the latest transition of each rule in order of first appearance; nothing changes for distinct rules, which is all that a batch yields |
| AlertEngine.RuleEngine.ScanOnce | internal/ops/rules.go:103-135 | what a scan does to every rule and alert, whichever deliveries or marks fail |
| AlertEngine.RunCounts | internal/ops/rules.go:103-128 | over whole runs with any failures, the counters are the trailing runs of all evaluations taken |
| AlertEngine.RescanChangesNothing | internal/ops/postgres.go:150-154 | reading counted samples again changes nothing |
| AlertEngine.InStepIff | internal/ops/rules.go:117-126 | whatever was before, a scan that delivers a transition leaves alert and rule in step exactly if it is marked; any other scan leaves things as they were |
| AlertEngine.RunInStepIff | internal/ops/rules.go:103-128 | in every run, an alert is in step exactly if the last transition delivered was marked, so one that fell behind comes back with the next one delivered and marked |
| AlertEngine.RunStaysInStep | internal/ops/rules.go:103-128 | without failed marks they are in step throughout |
| AlertEngine.FailedMarkStrandsAlert | internal/ops/rules.go:117-126 | the run in which an alert outlives its reason, and is closed by the next bad spell that ends |
| AlertSnapshot.EvaluateServer | internal/ops/rules.go:139-169 | the evaluations of a server over its samples sorted by time, which leaves samples in order of time alone |
| AlertSnapshot.PercentIff | internal/ops/rules.go:154-223 | memory is bad below 10 percent free and good above 15, disk space bad below 15 and good above 20; two readings have to agree |
| AlertSnapshot.OfflineIff | internal/ops/rules.go:196-205 | a server is offline exactly if it is enabled and was never seen, or not for two minutes |
| AlertSnapshot.DisabledIsGood | internal/ops/rules.go:139-149 | the rules of a disabled server are all good at once |
| AlertSnapshot.RulesAreSeparate | internal/ops/rules.go:139-169 | each rule of a server gets exactly its own readings, whatever the other resource measured |
| AlertSnapshot.ReadingsFromSamples | internal/ops/rules.go:150-167 | readings come from recent samples and are never good and bad at once |
| AlertSnapshot.ReadingsAscend | internal/ops/rules.go:148-169 | and come in order of time, strictly if the samples have distinct times |
| AlertSampling.EverySampleCountsIff | internal/ops/postgres.go:54-72 | the samples counted are exactly those that some scan could read, one for every time: all count exactly if each was among the last two, recent and measured at some scan, and all times are distinct |
| AlertSampling.ScanServer | internal/ops/rules.go:137-169 | scanning a server at given times leaves the counters as the trailing runs of those samples |
| AlertSampling.FasterSamplesAreLost | internal/ops/postgres.go:54-72 | three samples before a scan, with which an alert is missed |
| AlertSampling.SlowScanLosesSample | internal/ops/rules.go:150-153 | a sample that the only scan comes too late for |
| ScriptSync.StepKeepsBudget | internal/script/sync_service.go:112-404 | every operation keeps the retry budget |
| ScriptSync.RunKeepsBudget | internal/script/sync_service.go:112-404 | in every reachable row: at most three failures, three only in failed, a retry time exactly when failed below the limit and 30 times a power of two seconds after the failure on both paths, the expected checksum in lower case exactly when ready |
| ScriptSync.CountIsExact | internal/script/sync_service.go:282-294 | the count is the number of entries into failed since the budget was renewed: replays and drift reports cost nothing |
| ScriptSync.EventsByStatus | internal/script/sync_service.go:112-404 | what claim, expiry, report and retry make of every reachable row, by its status: the first two failures set a retry 30 and 60 seconds later, the third none; a failure reported again is not counted again; checksums agree up to the case of letters |
| ScriptSync.LimitHolds | internal/script/sync_service.go:124-133 | a row at the limit is never handed out and stays failed until a verified result or an operator's retry |
| ScriptSync.LimitIsLeft | internal/script/sync_service.go:378-404 | and both of these do leave it |
| ScriptSync.BackoffIsKept | internal/script/sync_service.go:124-133 | a failed row is handed out no sooner than 30 seconds after its first failure and 60 after its second |
| ScriptSync.SyncService.Prepare | internal/script/sync_service.go:203-236 | a row is inserted only where there is none |
| ScriptSync.SyncService.ExpireTransfers | internal/script/sync_service.go:160-201 | exactly the transfers over the timeout fail, but for rows that other transactions have locked |
| ScriptSync.SyncService.Select | internal/script/sync_service.go:124-136 | the most urgent row that may be handed out and is not locked |
| ScriptSync.SyncService.NextCommand | internal/script/sync_service.go:112-156 | lost transfers expire; a row is handed out exactly if one that is not held is pending, drifted, or failed fewer than three times with its retry time come; drifted rows come first, failed ones last, then those that have waited longer; rows that other transactions have locked are skipped by either |
| ScriptSync.SyncService.RecordResult | internal/script/sync_service.go:238-312 | the new row for every report, wrong checksums and replays included; checksums are compared without regard to case |
| ScriptSync.SyncService.RetryScript | internal/script/sync_service.go:378-404 | only failed and drifted rows restart |
| Scheduler.Queue.Push | internal/scheduler/queue.go:19-26 | the new queue; an empty ID is ignored |
| Scheduler.Queue.Remove | internal/scheduler/queue.go:44-48 | the new queue |
| Scheduler.Queue.SortedItems | internal/scheduler/queue.go:34-38 | the queued runs in order |
| Scheduler.Queue.Pop | internal/scheduler/queue.go:28-42 | takes the run that comes before all others |
| Scheduler.BeforeIs | internal/scheduler/queue.go:28-42 | the higher priority comes first, then the earlier time, then the lower ID, and of two runs exactly one |
| SchedulerScan.Service.TryCandidates | internal/scheduler/service.go:95-123 | the first candidate that is not passed over settles the matter; a reservation remains exactly with an assignment or a release that failed |
| SchedulerScan.Service.Place | internal/scheduler/service.go:78-137 | the part of an attempt that looks for room carries out its decision |
| SchedulerScan.Service.ScheduleOne | internal/scheduler/service.go:43-137 | outcome, error, queue, store and leases for every course of an attempt, failed releases included |
| SchedulerScan.DecidesIff | internal/scheduler/service.go:57-137 | a run is expired exactly if it is due and has waited as long as it may; it is pushed back exactly if it is due, not expired, and its task is at its limit or no server has room; it goes to the first server with room exactly if it can be assigned there |
| SchedulerScan.StopsIff | internal/scheduler/service.go:43-137 | every other course: which failures are reported, what counts as expired, and which server stays reserved |
| SchedulerScan.Service.AttemptNext | internal/scheduler/service.go:192-198 | an attempt is on the first run and carries out the decision on it; the queue is as it was exactly if the run is pushed back, and otherwise without it |
| SchedulerScan.Service.Scan | internal/scheduler/service.go:183-200 | as many attempts as the queue held unless one fails; a run is pushed back exactly as its decision says, and then attempted again at once, any other attempt is followed by a later run; no run is lost; every run is attempted exactly if no attempt before the last is pushed back |
| SchedulerScan.AllAttemptedIff | internal/scheduler/service.go:183-200 | why: after as many attempts as there were runs, each push-back before the last has cost one run its attempt |
| SchedulerScan.NeverGoesBack | internal/scheduler/service.go:183-200 | hence the attempts never go back in (priority, queued time, ID) order |
| SchedulerScan.BlockedRunTakesTheRest | internal/scheduler/service.go:183-200 | a run that nobody withdraws and that every later answer would push back takes all the attempts that are left, whatever room the others have |
| SchedulerScan.RunWithRoomIsNeverAttempted | internal/scheduler/service.go:183-200 | a scan of two queued runs with the same answer to every attempt: both are on the first, which is at the limit of its task, and the second has room |

## Left out

- HTTP handlers, WebSocket transport, authentication, JSON, SQL text and the PostgreSQL, Redis and object-store clients: each stored operation is one atomic step.
- Liveness: an upgrade whose agent stays silent is resent to for ever, so only safety is stated.
- Upgrade plans: one plan at a time per run; draining marks on servers and the rows of the event log are not modelled; blank strings in requests count as given.
- UpgradeService.Pause, Resume, Cancel and RetryTarget are functions on plan values; their update of target fields in place is not modelled.
- UpgradeRuns.EventLegal: assumes that agents report only command identifiers they were sent, as the run model enforces.
- Agent file replacement: the archive's download, checksum, extraction and binary version are one content; a rollback without an install identifier (the `previous` directory), which no plan sends, and the interleaving of two installations on one machine are not modelled; sockets to the service manager either succeed or fail.
- AgentApplier.Rollback: covers rollback commands that name their install.
- Log shipping: sequence numbers are unbounded, so 64-bit wrap-around is not modelled; the redaction of a stream is a fixed function while its chunks are repeated.
- LogShipping.Spool.Append: the cursor write completes with the append; appends that die before it are steps of the runs in `LogCrashes`.
- Execution: each runner's mutex is replaced by atomic steps, which allows more interleavings; output streaming, cancellation and process groups are not modelled; the goroutines are states of a process and not methods.
- Execution.AnswersAreExact: takes the token hash to be free of collisions.
- Release state: the audit log, the validation of images and compatibility, and the loss of renames that were not synchronised before a power failure.
- Secret masking: base64, percent encoding and lower-casing are arbitrary functions (lower-casing never empties a text); sections 4 and 5 of RFC 4648 and section 2.1 of RFC 3986 are not modelled.
- Request limiter: the number of concurrent downloads and the choice of the client key; the window and the maximum are taken as already defaulted.
- AlertSampling.ScanServer: the server is enabled at all scans, and its samples are added in the order of their times; of samples with equal times the query returns those added last.
- Alert rules: run rules (queue timeout, task failure) are evaluations like any other; percentages are exact reals and not floating point; a failed transaction changes nothing and is not a step.
- Script synchronisation: which versions a server should have and the alerts raised; only ASCII letters have case, which is all that a hexadecimal checksum has.
- Scheduler: filtering and ranking of servers, automatic retries, lease expiry and the restoration of leases; run IDs are ranks; while a scan runs, others may only take runs out of the queued state.
