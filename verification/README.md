# Provisioning Station: a verified model

This project models the parts of the Provisioning Station that must not go wrong when a process
dies, a packet is lost or a disk is full, and proves what they promise. It has five parts.

**The job service** (`job_service`, `job_history`, `job_manager`, `outcome_tasks`, `outcome_run`,
`job_delivery`, `event_log`). `JobService` is a state machine over the disk (records and tombstones), the
memory of the running process (or none, after a crash) and a ghost history of what was created, enqueued,
executed and cancelled. One action is one durable effect or one critical section, a crash may follow
any action, and a publish that reports failure may or may not have landed. `JobHistory` states the
results over all runs. `JobManager` runs the Go methods against it: each method's new state is the
state after a legal sequence of actions. `OutcomeRun` is one execution: before-boot tasks, one
outcome phase, the published state; `JobDelivery` joins it to the TFTP runner. `EventLog` is the bounded
event log, its pages and its truncation.

**The byte budget and retention** (`storage_budget`, `budget_ledger`, `ordering`, `retention`,
`retention_cleanup`). `StorageBudget` scans a tree while jobs keep writing. `BudgetLedger` is the
account over whole runs. `RetentionCleanup` runs the cleanup in both modes.

**TFTP** (`tftp_codec`, `tftp_transfer`, `tftp_server`). Packets; the stop-and-wait sender with its
16-bit counter against an RFC 1350 client over a channel that loses and repeats packets but keeps their
order; the server loops, and a job that succeeds only when every file was delivered.

**Serial console and terminal** (`serial_hub`, `serial_runs`, `serial_manager`, `serial_capture`,
`terminal_output`, `terminal_grammar`, `terminal_fidelity`). The broadcast hub as a state machine with the whole received
stream as history, the same hub as in-place methods, the transcript of a job, and the filter for control
sequences in the browser.

**Artifacts and legacy cleanup** (`artifact_manifest`, `artifact_archive`, `artifact_store`,
`legacy_plan`, `legacy_example`, `legacy_cleanup`). Which archives are accepted, publication and removal that survive a
dying process, and the checkpointed deletion of legacy state.

`text` and `sets` hold what several parts need: splitting, joining, decimal numbers, sizes of sets. `dafny verify dfyconfig.toml` checks everything.

What the environment may do to a method (fail an operation, cut it off, cancel it) is one of its inputs,
so every contract also says what is certain when the environment does not interfere.

## What the proofs say about the code

Six statements one might expect are false, and the exact condition is proved instead.

* A terminal job can be pruned before its output reservation is released (`cleanupLocked` deletes the
  job; `retentionAfterCompletion` only looks at jobs still in memory). The reservation then stays until
  the next start, and used plus reserved can pass the limit by the size of a tombstone:
  `BudgetLedger.PruneExactly`, `LeakedReservationStays`, `OverrunIsReachable`.
* A record that is unfinished on disk and no longer reserved (its last write failed, or its publish was
  reported as failed and landed) grows at the next start without admission. The budget survives that start
  if and only if the growth finds room: `BudgetLedger.RestartExactly`, `RecoveryOverrunIsReachable`.
* The archive check on `MaxFiles+2` members bounds the payload by `MaxFiles` if and only if there is a
  signature or a member to spare: `ArtifactArchive.PayloadLimit`, and `OneFileTooMany` for an accepted
  archive beyond it.
* Truncating an old event log keeps the sequence increasing exactly when the last line parses from the
  32 KiB tail or the recorded count is past every kept event: `EventLog.TruncationKeepsOrder`, with a
  log for which it is not in `TruncationCanRepeatSequences`.
* A job nobody cancelled is published as canceled when its runner, or else a success task, returns a
  cancellation of its own: `OutcomeRun.PublishedMeans`, and `CanceledByItsTask` for such a run.
* A preview and the following apply see the same excess of bytes if and only if what pruned jobs still
  hold of their reservations equals the tombstones they already have, and list the same artifacts if and
  only if the preview's list also just covers the excess corrected by that difference:
  `RetentionCleanup.PreviewExactly`, with a store on which they differ in `PreviewCanDiffer`.

## Model

| member | source | states |
|---|---|---|
| `JobService.StepKeeps` | internal/jobs/manager.go:174-338 | The invariant over disk, memory and history (records and tombstones match what was accepted, the index matches the records, the queue never exceeds the capacity that was checked, the worker and the cancellers agree) survives every action, crash and half-landed publish. |
| `JobHistory.AtMostOnce` | internal/jobs/manager.go:174-338 | Over every run with crashes and restarts, an accepted request ID never gets a second job, a second place in the queue or a second execution. |
| `JobHistory.DiskRemembers` | internal/jobs/retention.go:233-257 | In every reachable state, also in the middle of pruning, the disk holds the accepted record or a tombstone with its job and fingerprint. |
| `JobHistory.AnswerToAccepted` | internal/jobs/manager.go:174-242 | A later submission with an accepted ID never proceeds: refused while latched, a conflict exactly when the payload differs, else expired or the original job. |
| `JobHistory.AnswerToNew` | internal/jobs/manager.go:174-226 | In every reachable state, a request without an ID or with a well-formed one under which nothing was ever accepted proceeds if and only if the station is neither latched nor stopping, and is told of the shutdown if and only if it is stopping and not latched; a malformed ID never proceeds. |
| `JobHistory.VerdictIsStable` | internal/jobs/manager.go:174-226 | The verdict on a payload is the same at any two times, across pruning, crash and restart, and names the same job; once it is expired it stays expired. |
| `JobHistory.ExpiryIsFinal` | internal/jobs/retention.go:302-364 | Through every run, crashes and restarts included, the disk keeps the tombstone of an expired request ID and every process knows it. |
| `JobHistory.TerminalIsFinal` | internal/jobs/manager.go:361-382 | Within a process no run changes a terminal job. |
| `JobHistory.ForgottenIsFinal` | internal/jobs/retention.go:252-257 | A pruned job does not come back in the same process. |
| `JobHistory.CancellationIsHonored` | internal/jobs/manager.go:361-382 | A cancellation accepted on a live job ends in canceled, in every state in which the worker is not still on that job. |
| `JobHistory.WorkerAndQueue` | internal/jobs/manager.go:262-338 | At most one job runs, exactly the one with a canceller, and the enqueue under the gate never waits. |
| `JobHistory.RecoveryNeverRefuses` | internal/jobs/retention.go:328-364 | No reachable disk makes the start-up checks on tombstones and records refuse. |
| `JobHistory.RecoveryLeavesNothingActive` | internal/jobs/manager.go:657-744 | After recovery every job is terminal, memory equals disk, and every accepted ID is still answered from its own job. |
| `JobHistory.AnyRequestCanSucceed` | internal/jobs/manager.go:174-338 | For any request with a well-formed ID or none, a legal run from the empty disk opens, admits, publishes, enqueues and executes its job to success, and then answers it with that job. |
| `JobHistory.EndingsHaveCauses` | internal/jobs/manager.go:575-604 | Over every run, crashes included, a job shows up as succeeded only if a worker reported success and nobody had canceled it, as failed only if a worker reported that or the station died with the job unfinished, as canceled only by a request, a signal or a worker that reports it. |
| `JobManager.Manager.BeginSubmission` | internal/jobs/manager.go:174-226 | The verdict is the one that `AnswerToAccepted` and `AnswerToNew` describe; a request that proceeds takes the gate, any other changes nothing. |
| `JobManager.Manager.PublishJob` | internal/jobs/manager.go:291-338 | The three endings of a publish: record, memory and index gain exactly the queued job; or nothing changes; or only the record may have landed and the station is latched. |
| `JobManager.Manager.CancelJob` | internal/jobs/manager.go:361-382 | Running jobs get their context cancelled, queued ones become canceled, terminal ones stay. |
| `JobManager.Manager.FinishJob` | internal/jobs/manager.go:575-604 | Stored in memory, and on disk unless the write failed: canceled if a cancellation was accepted before publication, else the result. |
| `JobManager.Manager.PruneOne` | internal/jobs/retention.go:233-257 | Tombstone, memory, unlinking, in an order that is a legal run at every point of failure; it completes unless the disk fails. |
| `JobManager.Manager.Load` | internal/jobs/manager.go:657-744 | The loop over the directory ends in exactly the opened state, by a legal run, whatever the order of entries; only a faulty disk can make it fail. |
| `OutcomeTasks.Validate` | internal/tasks/tasks.go:188-264 | Accepts a plan if and only if it has version 1, at most 64 invocations, identifiers all distinct across phases, and parameters that fit their descriptors. |
| `OutcomeRun.JobRun.RunPhase` | internal/tasks/tasks.go:300-341 | The new results are a prefix of the phase's plan, in order, none running, all but the last succeeded, complete exactly when no error is returned; undisturbed, the error is that of the first body to fail. |
| `OutcomeRun.JobRun.Run` | internal/jobs/manager.go:462-604 | The recorded outcome is succeeded if and only if the deployment was free of errors and not cancelled, failed if and only if it had an error other than a cancellation and was not cancelled, else canceled; only the tasks of that outcome run, results of another phase never occur, and the published state is the stated function of boot error, hook error and cancellation; with nothing interfering, those errors are the runner's and that of the first failing body. |
| `OutcomeRun.RecordIsOrderly` | internal/jobs/manager.go:827-850 | In a terminal record task IDs are unique, nothing is running, and each phase has at most one unsuccessful result, its last. |
| `OutcomeRun.SuccessRanEverything` | internal/jobs/manager.go:534-604 | A succeeded job ran every before-boot and success task once, in plan order, all succeeding. |
| `OutcomeRun.PublishedMeans` | internal/jobs/manager.go:575-604 | Succeeded if and only if neither boot nor hooks failed and nobody cancelled; an accepted cancellation always wins; exactly when canceled appears without one. |
| `OutcomeRun.CanceledByItsTask` | internal/jobs/manager.go:534-604 | A run in which nobody cancels and the deployment succeeds is published as canceled. |
| `JobDelivery.Deploy` | internal/jobs/manager.go:501-604 | A job published as succeeded delivered every file under the TFTP root whole and ran every before-boot and success task; when nothing interferes and no task fails, it succeeds if and only if every file was announced as completed. |
| `JobDelivery.ServedNamesArePaths` | internal/tftp/server.go:243-258 | The file names that the server opens are exactly the safe manifest paths of up to 1024 bytes, and each resolves below the root. |
| `EventLog.EventsLimit` | internal/jobs/manager.go:389-410 | A page is the first `limit` of the events past the cursor, or all of them. |
| `EventLog.ReadByPages` | internal/jobs/manager.go:389-410 | Reading pages of any size from the last sequence seen ends, and gives every event after the start exactly once. |
| `EventLog.Log.Emit` | internal/jobs/manager.go:616-648 | Sequences go up by one; the log stays within its limit plus one maximal and one terminal event; an event is dropped exactly when the log is full and the job live. |
| `EventLog.LogFitsReservation` | internal/jobs/retention.go:64-70 | In every state that the log can reach, it, the largest record that persists and the transcript fit in what was reserved for the job. |
| `EventLog.TruncationKeepsOrder` | internal/jobs/retention.go:481-532 | After truncation the log is within its limit, increasing if and only if the last line parses from the tail or the recorded count is past the kept events, and then cursors end where they did. |
| `EventLog.FittingIsLongest` | internal/jobs/retention.go:481-532 | The kept lines are as many as fit: one more would not. |
| `EventLog.BoundedMeans` | internal/jobs/manager.go:852-857 | A bounded message is the original, or its first `limit` bytes and the mark. |
| `EventLog.TruncationCanRepeatSequences` | internal/jobs/retention.go:481-532 | A log of many small lines and one torn by a crash, whose truncation repeats a sequence. |
| `StorageBudget.Gate.StatusLocked` | internal/storagebudget/budget.go:80-127 | For every schedule of writers within their reservations, used plus reserved is the fixed bytes plus the sum of reservations. |
| `StorageBudget.Gate.EnsureLocked` | internal/storagebudget/budget.go:129-153 | Unless reclaiming reports an error, the answer is yes if and only if in the end there is room for the growth with every reservation counted whole; without room at first exactly the selected evictable files went, and with room none. |
| `StorageBudget.CheckedWriter.Write` | internal/artifact/store.go:395-421 | Every byte of an upload is paid from granted credit, so committed bytes stay within the limit; a write succeeds if and only if it has credit or there is room for it after two attempts to make some. |
| `BudgetLedger.CommittedWithinLimit` | internal/jobs/retention.go:64-88 | Over every run with crashes, failed publishes and unfinished prunes, provided that a tombstone is no larger than its record and unreserved growth at a start finds room: used plus reserved is within the limit but for tombstones whose record or reservation is still there, within it where there is none, and every live job holds its whole reservation. |
| `BudgetLedger.StepKeeps` | internal/storagebudget/budget.go:80-153 | Each admission, import, write, completion, release, prune step and restart keeps that bound. |
| `BudgetLedger.CommittedFromThere` | internal/jobs/retention.go:71-88 | After an overrun the bound holds again from the first moment at which the store is found within its limit. |
| `BudgetLedger.RestartExactly` | internal/jobs/manager.go:715-741 | When nothing was reserved, a start keeps the bound if and only if the growth of unfinished records finds room. |
| `BudgetLedger.RecoveryOverrunIsReachable` | internal/jobs/manager.go:600-604 | A legal run without a prune whose restart ends above the limit: the last write of a record failed. |
| `BudgetLedger.DiskWithinLimit` | internal/storagebudget/budget.go:80-153 | The disk holds at most the limit plus the pending tombstones less the maintenance reserve. |
| `BudgetLedger.PruneExactly` | internal/jobs/retention.go:233-257 | On a full budget a prune cut off after its tombstone is over the limit; past the record it is within it if and only if the reservation was released and the tombstone is no larger than the record; complete, no larger than all files. |
| `BudgetLedger.LeakedReservationStays` | internal/jobs/retention.go:365-384 | A reservation whose job was pruned first is not released before the next start. |
| `BudgetLedger.OverrunIsReachable` | internal/jobs/retention.go:233-257 | A legal run from an empty store that ends above the limit. |
| `Retention.EvictIsShortestPrefix` | internal/jobs/retention.go:269-290 | The evicted artifacts are the shortest prefix of the eligible ones, in eviction order, that covers the excess, or all of them. |
| `Retention.EvictIsOnlyCover` | internal/jobs/retention.go:269-290 | A list is what the loop evicts if and only if it is the shortest prefix of the eligible artifacts that covers the excess, or all of them. |
| `Retention.RescanExactly` | internal/jobs/retention.go:219-268 | After any prune list, used plus reserved is the preview's estimate plus what the jobs' files had been using of reservations still held, less the tombstones that were there before. |
| `RetentionCleanup.PruneListIsTail` | internal/jobs/retention.go:184-195 | The sorted tail past 30 is exactly the jobs that 30 completed jobs are newer than. |
| `RetentionCleanup.NewestAreKept` | internal/jobs/retention.go:184-195 | Exactly min(30, all) completed jobs are kept, and every kept one was created after every pruned one, or at the same time with the larger ID. |
| `RetentionCleanup.AppliedSelection` | internal/jobs/retention.go:154-291 | A successful apply leaves the live jobs and the 30 newest completed ones, removes no pinned, needed or unknown-holding artifact, and evicts the shortest prefix reaching the target. |
| `RetentionCleanup.EvictionOrder` | internal/jobs/retention.go:196-218 | Every evicted artifact holds nothing unknown and has no pin and no unfinished job, and precedes every such artifact that stays: those without a kept job first, by import time, then the others by last use. |
| `RetentionCleanup.CleanupMakesRoom` | internal/jobs/retention.go:258-290 | After a successful apply used plus reserved leaves room for what was needed, or no artifact that may go is left; and before each eviction there was not enough room. |
| `RetentionCleanup.PreviewAgreesWithApply` | internal/jobs/retention.go:219-290 | Where that difference is zero, the preview's two lists are those of the apply, in order. |
| `RetentionCleanup.PreviewExactly` | internal/jobs/retention.go:219-290 | The job lists always agree; the excesses differ by exactly the drift; the artifact lists agree if and only if the preview's is the shortest cover of the corrected excess. |
| `RetentionCleanup.PreviewCanDiffer` | internal/jobs/retention.go:219-290 | A store whose apply evicts an artifact that its preview does not list. |
| `RetentionCleanup.Cleaner.Classify` | internal/jobs/retention.go:163-183 | One pass gives the completed jobs, the protected artifacts and the last use of each artifact. |
| `RetentionCleanup.Cleaner.CleanupLocked` | internal/jobs/retention.go:154-301 | Preview changes nothing; a finished call returned the specified lists and the exact bytes, and an apply left exactly the store without them; only a faulty disk makes it fail; full means a tombstone had no room; a failed one spared every kept job and protected artifact. |
| `RetentionCleanup.Cleaner.PreviewThenApply` | internal/jobs/retention.go:142-149 | Run one after the other on released reservations, the apply removed what the preview listed, and it succeeds where tombstones have room and the disk is not faulty. |
| `TftpCodec.ParseRequest` | internal/tftp/server.go:201-241 | The parser's loop gives the specified result, with the same error for each malformed packet. |
| `TftpCodec.ParseExact` | internal/tftp/server.go:201-258 | A packet parses to a request if and only if it is a well-formed octet read of a safe file with distinct options, and then to that one. |
| `TftpCodec.RequestRoundTrip` | internal/tftp/server.go:201-241 | Encoding a safe file name and distinct lower-case options (section 5 of RFC 1350, RFC 2347) and parsing gives them back. |
| `TftpCodec.OptionAckRoundTrip` | internal/tftp/server.go:427-436 | An option acknowledgement decodes to the negotiated list. |
| `TftpCodec.DataRoundTrip` | internal/tftp/server.go:419-425 | A data packet decodes to its block and bytes. |
| `TftpCodec.NegotiationAgrees` | internal/tftp/server.go:342-372 | The answer decodes to exactly the options that were asked, once each, with the values the transfer uses; the size answered is the file's (RFC 2348, RFC 2349). |
| `TftpCodec.NegotiationExactly` | internal/tftp/server.go:342-372 | Options are accepted if and only if blksize is absent or in 8..65464, timeout absent or in 1..255 and tsize absent or "0"; the block size used is then the smaller of the client's and the server's, or 512. |
| `TftpTransfer.BlocksMakeTheFile` | internal/tftp/server.go:309-339 | The file is its size/blksize + 1 blocks, all full but a shorter last one (section 6 of RFC 1350). |
| `TftpTransfer.AckKeeps` | internal/tftp/server.go:374-417 | When the sender advances past block k the client holds exactly the first k blocks, though numbers wrap at 65536. |
| `TftpTransfer.EveryRunIsCoupled` | internal/tftp/server.go:309-417 | Sender and client agree in every reachable state of a channel that loses and repeats, for files of any length. |
| `TftpServer.Exchange` | internal/tftp/server.go:374-417 | In the trace of the socket every send after the first is the same packet directly after a read that timed out, at most `retries` in all; the awaited acknowledgement ends it, and it gives up only on a last timeout, an error read or a failed send (section 4.2.3.1 of RFC 1123). |
| `TftpServer.OnlyFreshAcksAreAnswered` | internal/tftp/server.go:309-417 | Over a whole transfer, a send directly after an acknowledgement follows one of the packet last sent; a stale one is never answered. |
| `TftpServer.Server.ServeRequest` | internal/tftp/server.go:260-340 | Announces a completion only for a client that holds the whole file, and always unless cancelled or the channel gave out; every send is the first, a repeat after a timeout, or the next packet after its predecessor's acknowledgement; at most `retries` for each packet. |
| `TftpServer.MonitorTransfers` | internal/runner/xilinx.go:292-328 | Signals if and only if every expected file was completed. |
| `TftpServer.ExpectedFiles` | internal/runner/xilinx.go:280-290 | Exactly the payload files under the TFTP root, without it. |
| `TftpServer.RunJob` | internal/runner/xilinx.go:77-175 | Succeeds if and only if it was prepared, the loader did not fail and every expected file was announced; then every file under the TFTP root was delivered whole. |
| `SerialHub.StepKeeps` | internal/serialconsole/manager.go:162-391 | Attach, broadcast, disconnection, detach, receive and shutdown keep: open if and only if in the table with a client, one lease among its clients, rings are suffixes, subscribers hold contiguous pieces. |
| `SerialRuns.EveryPortIsOwned` | internal/serialconsole/manager.go:196-254 | In every reachable state an open port is in the table and has a client, its controller is nobody or one of its clients, and no client belongs to two ports. |
| `SerialRuns.AttachExactly` | internal/serialconsole/manager.go:162-227 | In every state of the hub an attachment is granted if and only if the port is named and found, the rate (the default if none is given) is in 300..4000000, the manager runs, every open attachment of the port has that rate and not both would control it, and a port that nobody has open can be opened. |
| `SerialRuns.AttachGrants` | internal/serialconsole/manager.go:196-254 | A granted attachment is new, open, on the port and at the rate asked for, and leaves every other as it was; a refused one changes nothing. |
| `SerialRuns.StaleDetachChangesNothing` | internal/serialconsole/manager.go:331-347 | A detach changes the state if and only if it is by a client of the port as it is now. |
| `SerialRuns.LeaseLastsUntilClosed` | internal/serialconsole/manager.go:349-370 | An attachment is its port's controller if and only if it attached as one and is not closed. |
| `SerialRuns.RunLater` | internal/serialconsole/manager.go:196-347 | Over every run streams only grow, IDs are not reused, a place in the stream never moves and closing is for good. |
| `SerialRuns.StreamFidelity` | internal/serialconsole/manager.go:229-302 | After any run an attachment has been given the replay it asked for (the last bytes before it, as many as the ring holds) and then the received bytes, contiguous, all of them while it is open. |
| `SerialRuns.EndsOnlyFor` | internal/serialconsole/manager.go:274-391 | An attachment is closed by a step if and only if that is its own detach, a broadcast to its full queue, its port's end, or shutdown. |
| `SerialManager.Manager.Attach` | internal/serialconsole/manager.go:162-254 | The method ends in the specified state and gives the specified refusal. |
| `SerialManager.Manager.Broadcast` | internal/serialconsole/manager.go:274-302 | The loop over clients enqueues or evicts each, and closes a port that lost its last client. |
| `SerialManager.Manager.EndConnection` | internal/serialconsole/manager.go:304-329 | Every client is closed and the port goes, unless the handle was already replaced. |
| `SerialManager.Manager.Detach` | internal/serialconsole/manager.go:331-347 | The method ends in the specified state. |
| `SerialManager.Manager.Write` | internal/serialconsole/manager.go:349-370 | Only the controller's bytes go out; what went out is a prefix of them, all on success, which is certain unless the handle fails. |
| `SerialManager.Manager.Close` | internal/serialconsole/manager.go:372-391 | All connections and all attachments of every port are closed. |
| `SerialCapture.TranscriptIsPrefix` | internal/jobs/serial_capture.go:66-118 | However the bytes are cut, the transcript is their first `limit` bytes, marked truncated if and only if there were more. |
| `SerialCapture.TranscriptOfAttachment` | internal/jobs/serial_capture.go:36-118 | A job's transcript is the beginning of what its port received since the capture attached. |
| `SerialCapture.Capture.Record` | internal/jobs/serial_capture.go:66-118 | The loop with failing and partial writes keeps a prefix of what it read, up to the stop or the end of the queue, one warning at most, and fails exactly on a lost port or a failed write. |
| `SerialCapture.CaptureAll` | internal/jobs/serial_capture.go:142-168 | A complete transcript is everything received; a truncated one is exactly its first `limit` bytes. |
| `TerminalOutput.OscShapeIsRegex` | internal/webui/static/terminal-output.js:72-85 | The check on string commands accepts exactly the language of the regular expression. |
| `TerminalOutput.Filter.PushText` | internal/webui/static/terminal-output.js:20-62 | The loop over fields gives the state and the output of the specification. |
| `TerminalGrammar.OutputIsTokens` | internal/webui/static/terminal-output.js:20-62 | For any frames at any times, the output is plain characters and complete, valid control sequences. |
| `TerminalGrammar.PendingIsBounded` | internal/webui/static/terminal-output.js:64-70 | What is held back is bounded for unbounded input. |
| `TerminalGrammar.SequencePassesOrVanishes` | internal/webui/static/terminal-output.js:31-70 | From ground mode a complete control sequence is output whole if it is valid and fits, and leaves no character behind otherwise. |
| `TerminalFidelity.OutputIsFromInput` | internal/webui/static/terminal-output.js:20-62 | For any frames at any times, the output, followed by what is held back, is the input with some characters left out: nothing is invented, repeated or reordered. |
| `TerminalFidelity.ValidExactly` | internal/webui/static/terminal-output.js:72-85 | A sequence is refused if and only if it is a string command outside the regular language, a palette command that is not pairs of an index up to 255 and a color, or a cursor style other than 0 to 6. |
| `TerminalGrammar.FixedPointsAreTokens` | internal/webui/static/terminal-output.js:20-62 | A fresh filter passes a text unchanged and ends in ground state if and only if it is such a sequence. |
| `TerminalGrammar.FilteringIsIdempotent` | internal/webui/static/terminal-output.js:20-62 | Filtering the output of any run again returns it unchanged. |
| `TerminalGrammar.FramingIsInvisible` | internal/webui/static/terminal-output.js:20-24 | Within the 20 s window, cutting the input into frames does not change the output. |
| `TerminalGrammar.StaleSequenceIsDropped` | internal/webui/static/terminal-output.js:20-24 | After it, what was held is dropped and the filter is as new. |
| `ArtifactManifest.ValidateRelativePath` | internal/artifact/manifest.go:194-212 | Accepts exactly the safe relative paths. |
| `ArtifactManifest.SafePathsStayInside` | internal/artifact/manifest.go:194-212 | A safe path resolves below every directory it is joined to, and two of them never to one file. |
| `ArtifactManifest.ValidatePayload` | internal/artifact/manifest.go:172-192 | Comparing sizes of the sets and each expected file accepts if and only if the two maps are equal. |
| `ArtifactArchive.ValidateAndExtract` | internal/artifact/archive.go:49-214 | Accepts only well-formed archives, and every one unless disk or budget refuse; the total never overflows 64 bits and is the sum of the sizes. |
| `ArtifactArchive.TreeIsManifest` | internal/artifact/archive.go:195-214 | The extracted tree is the manifest, the optional signature and exactly the described files. |
| `ArtifactArchive.PayloadLimit` | internal/artifact/archive.go:88-91 | At most `MaxFiles` payload files if and only if there is a signature or a member to spare; never more than one beyond. |
| `ArtifactArchive.OneFileTooMany` | internal/artifact/archive.go:88-91 | An accepted archive with one payload file more than `MaxFiles`. |
| `ArtifactStore.StagingNames` | internal/artifact/store.go:457-473 | Every temporary name the store makes is one that start-up cleans; no published name is. |
| `ArtifactStore.Store.Import` | internal/artifact/store.go:71-147 | At every point where it may die, SHA-named directories are the old ones, or those and the complete new one; undisturbed, it succeeds if and only if the size is allowed and the archive is known or well-formed. |
| `ArtifactStore.Store.Publish` | internal/artifact/store.go:137-147 | The rename adds exactly the one complete directory, or nothing. |
| `ArtifactStore.Store.Remove` | internal/artifact/store.go:425-453 | The published directory is there or gone, never partly, and goes only if it holds nothing unknown, and then always unless disturbed; a finished removal leaves nothing of it in staging. |
| `ArtifactStore.Store.CleanStaging` | internal/artifact/store.go:457-473 | Removes staging and nothing else. |
| `ArtifactStore.Store.ImportThenRestart` | internal/artifact/store.go:71-147 | After a death and a restart the directory is as before, or has the complete artifact besides. |
| `LegacyPlan.MakePlan` | packaging/migration/cleanup.py:127-177 | There is a plan if and only if every record is in order, no old job holds a request ID and the rest fits; the plan is the specified one. |
| `LegacyPlan.NewestAreKept` | packaging/migration/cleanup.py:144-160 | Every plan keeps exactly min(30, all) jobs, and by the records each kept job was created after each removed one, or at the same time with the larger ID. |
| `LegacyExample.OldestOfManyIsRemoved` | packaging/migration/cleanup.py:144-160 | A state of 31 finished jobs has a plan, and it removes the oldest one only. |
| `LegacyPlan.CleanedIsReady` | packaging/migration/migrate.py:222-229 | The planned state satisfies the migration's limits, keeps every kept job's record and artifact, and forgets no request ID. |
| `LegacyPlan.CleaningIsIdempotent` | packaging/migration/cleanup.py:127-177 | The cleaned state has a plan, and that plan removes nothing. |
| `LegacyCleanup.RemainingIsPlanLessRemovals` | packaging/migration/cleanup.py:237-247 | The check accepts a state if and only if it is the planned files without some approved ones. |
| `LegacyCleanup.RemovedRecordsAreBackedUp` | packaging/migration/cleanup.py:283-310 | The backup holds the record of every job and artifact that the plan removes, and the token, as they were. |
| `LegacyCleanup.Cleanup.Execute` | packaging/migration/cleanup.py:250-334 | Cut off anywhere, the invariant holds: only approved files are gone, only after the backup and a durable `deleting`; an attempt that is not cut off is done if and only if its state was acceptable; a refusal deletes nothing; done means exactly the planned state. |
| `LegacyCleanup.Cleanup.ApplyAndResume` | packaging/migration/cleanup.py:250-334 | However many attempts are cut off, the first that is not ends at exactly the planned state; before that only approved files are missing. |

## Left out

- Sockets, file handles, fsync, services, HTTP, WebSocket and command-line layers: only their effects are modelled (a packet arrives or not, a record landed or not, bytes were written).
- Time: creation and import times are numbers; timeouts and deadlines may happen at any moment; nothing is claimed about how soon something happens.
- JSON, gzip, tar and SHA-256: records are what they decode to, an archive is its members, a digest identifies its content, and a request's fingerprint identifies the request.
- Random IDs never repeat; the counters for subscribers and events do not wrap.
- The methods of one object run one after the other, as their mutex or gate makes them; what runs beside them (job output during a scan, cancellations, services writing legacy state) is explicit.
- The `active` table of `Serve` that drops a repeated request while its transfer runs, and the concurrency of transfers: each uses its own socket, so the model serves them one after the other, and files under the TFTP root do not change meanwhile.
- TFTP channels that reorder packets or hold one back for 65536 blocks: 16-bit numbers cannot tell such packets apart.
- Letter case in TFTP options and modes follows ASCII; a number out of range and a malformed one give the same error.
- Job IDs and artifact IDs are numbers in `Retention` and `RetentionCleanup`; fixed-length hexadecimal text is ordered the same way.
- `BudgetLedger` counts bytes, not files: transient copies of metadata are not in it, and output within the reservation is assumed there (`EventLog.LogFitsReservation` and `SerialCapture.Capture.Record` give the bounds on its parts; an encoded event has at most 512 bytes beside its message).
- `BudgetLedger`, `RetentionCleanup` and `JobManager.Manager.PruneOne` look at one pruning loop for its bytes over time, its selection and its crash safety; no lemma relates the three states to one another.
- `JobDelivery.Deploy` serves the transfers before it runs the tasks, where the source has both at once; they share nothing.
- Subscribers of live events: a full channel loses events, and cancelling a queued job does not close its channels.
- `ArtifactStore.Store.Import` covers a process that dies, not a machine that loses power: the source does not sync what it extracts before the rename.
- Re-verification of a stored artifact before a job, signature policy, and the tar padding check.
- `LegacyCleanup.Cleanup.Execute`: whether kept artifacts verify is one flag, because their files are proved unchanged; empty directories, credentials and unit files are not modelled, and the order in which approved files are unlinked is arbitrary.
- Parsing of timestamps and of the manifest's date: a flag says whether they parse.
- Task timeouts are one kind of error; parameter values are text, truth values, reals and others, so rounding of floating-point numbers is not modelled.
- XSDB execution, target discovery, port discovery, the Windows file operations, the TUI, the dashboard, the MCP server, packaging and `migrate.py` beyond its limits.
