# AutoFlow: a verified model

AutoFlow copies, moves and renames files by jobs and blueprints, undoes what it did, runs jobs from a queue
and on a schedule, and lets an administration server hand commands to its instances. This project models
that logic and proves what each part is for.

**Transfer and undo** (`FileSystem`, `Execution`, `TransferMeaning`, `Rollback`, `RollbackMeaning`, `RunUndo`,
`BlueprintApply`, `UndoHistory`, `MoveSafety`). The disk is a map from paths to bytes, held by the class `Disk`. A hash is an arbitrary
function of the bytes (`digest`), so nothing relies on it being injective. What the operating system
refuses, garbles or leaves half-written while one file is handled is a parameter (`Io`), and `cancelAt` is
how many polls of the cancellation token find it untripped, so every statement about a run holds for every
place where it may stop. `Faithful` disks may refuse a rename, a copy or a directory but copy exactly or
leave nothing behind, and can remove the source of a copy; a `Ready` disk refuses nothing either. The main
results: a run on a ready disk puts every file at its target and changes nothing else (`RunDelivers`), and a
Copy run that may not overwrite keeps every file whatever the disk does (`CopyRunKeeps`); a rollback never
touches a file edited since the run (`ForeignStays`, `EditSurvives`); any interleaving of runs,
blueprint applications and rollbacks of one owner is undone by as many rollbacks (`HistoryUndone`); under
Overwrite exactly the replaced targets are lost (`OverwriteThenUndo`), and they are known before the run
(`OverwriteForeseen`); in Move mode with verification no file is lost whatever the disk does
(`NothingLost`), and a faithful run conserves the multiset of contents (`MoveConserves`).

**Templates** (`Tokenizer`, `Display`, `RoundTrip`, `Evaluation`). The parser and the printer of the template
syntax, and the exact set of pipelines on which they undo each other (`RoundTripExact`). Parser and evaluator
agree on which names exist (`ParsedEvaluates`). A template evaluates to its texts in order, each transform or
preset acting on the whole value before it (`TextsInOrder`, `TransformActs`), and the usual spellings of a name
are one name (`SpellingsAgree`).

**The job queue** (`Queue`, `QueueSafety`, `QueueMeaning`, `QueueOrder`). One worker, spawned tasks and client calls are a step function
over the shared state; a run is any sequence of steps. The worker's handling of a run message is two steps,
so an `enqueue` may come between leaving `queued` and entering `running`; a task gives up its entries one by
one before it reports. Over every run: jobs exclude themselves, starts and completions are counted exactly, a
cancelled execution loses its token for good (`CancelHolds`), and run messages are taken up in the order they
were sent, but for those parked during a pause, which come last first (`TakenUpInOrder`, `FirstInFirstOut`).

**The administration server** (`AdminServer`, `AdminRefinement`, `AdminDelivery`, `AdminOutcome`,
`AdminSqlDelivery`). The in-memory store and the SQL store as two classes over commands and deliveries; the
second refines the first over every run (`SqlRefinesMemory`). In both, the status and the result of a command
say what its deliveries came to (`StatusMeaning`, `ResultMeaning`, `SqlOutcome`), every finished delivery is as
an accepted completion reported it (`FinishedAsReported`), and commands are handed out in the order they were
enqueued, each once.

**Planning** (`Planning`, `FolderPlan`). Simulation with a counter cache gives the plan of the real run,
exactly under a condition that can be checked before it, and the real plan is the plan by counting
(`PlanMeaning`); the plan and the preview of a folder tree are its cut preorder, each node with its own paths.

**Schedules and export** (`Schedule`, `AuditCsv`). The next run is the next scheduled instant, and the
exported CSV reads back field by field.

Methods follow the program's loops and updates and are proved equal to a specification function of the old
state; the lemmas are about those functions.

## Where the code and its documentation part

- `crates/autoflow-domain/src/tokenizer/display.rs` lists `\{` and `\}` among the escapes; the code
  doubles braces instead: a token after a backslash is a token (`BackslashBeforeToken`).
- The same file says that printing and parsing preserve a pipeline. They do, except where a literal that
  ends in a slash and a preset's name stands right before a preset: `RoundTripExact`, `HazardousInput`.
- The two `next_counter` implementations agree only for valid starts and counters that are neither
  negative nor at their end: `NextCountersAgree`. So a simulation and the real run part at a full counter
  (`FullCounterParts`), exactly when `SimulationIsApplication` says.
- For an unknown command the in-memory store reports a missing target, the SQL store a missing command;
  `SqlRefinesMemory` allows for this one difference.
- An execution cancelled in the queue completes twice, once when it is cancelled and once more when the
  worker meets its run message: `CancelledCompletesTwice` says exactly when, `TwoCompletions` gives a run.
- A plan that copied a file onto itself would lose it on rollback (`SamePathCopyIsRemoved`); plans never
  do (`PlanIsSafe`).

## Model

| member | source | states |
|---|---|---|
| FileSystem.Disk.Rename | crates/autoflow-application/src/execution.rs:336 | A rename that is carried out moves the bytes of an existing file and replaces what was at the target; a refused one changes nothing. |
| FileSystem.Disk.Copy | crates/autoflow-application/src/execution.rs:316 | A copy leaves the source's bytes at the target, or what a faulty disk leaves; one that fails leaves there what it has written, if anything. |
| FileSystem.Disk.Remove | crates/autoflow-application/src/execution.rs:347 | Removing takes away that one path, or changes nothing. |
| Execution.ResolveTarget | crates/autoflow-application/src/execution.rs:372-416 | The loop over numbered names finds the resolution of the conflict strategy. |
| Execution.FirstFreeMeaning | crates/autoflow-application/src/execution.rs:406-413 | The search returns the least free number from the first on, and fails exactly when every number below the limit is taken. |
| Execution.ProcessFile | crates/autoflow-application/src/execution.rs:274-359 | Disk and outcome after one file: smart-sync skip, conflict resolution, then copy or move, with every error path. |
| Execution.CopyAndVerify | crates/autoflow-application/src/execution.rs:315-321 | Copy and verification, leaving the target behind when the hashes differ. |
| Execution.MoveAndVerify | crates/autoflow-application/src/execution.rs:322-357 | Clearing under Overwrite, rename, fallback copy with hash check, and removal of the source, in that order. |
| Execution.VisitFile | crates/autoflow-application/src/execution.rs:76-176 | One iteration of the run loop: counters, manifest item, disk and the abort flag. |
| Execution.RunJob | crates/autoflow-application/src/execution.rs:76-235 | The loop, stopped by cancellation or abort, ends in the state of the longest prefix it handled; it succeeds exactly when nothing failed, nothing aborted and the token never tripped. |
| Execution.AbortedStays | crates/autoflow-application/src/execution.rs:165-175 | After an abort no later file changes disk, items or counters. |
| Execution.RunCounts | crates/autoflow-application/src/execution.rs:76-176 | Every visited file is counted once; without failures the manifest lists the visited files in order. |
| FileSystem.DecimalBack | crates/autoflow-application/src/execution.rs:407-413 | Numbers are printed in decimal digits and read back. |
| TransferMeaning.TargetMeaning | crates/autoflow-application/src/execution.rs:280-292 | A file keeps its place below the source root; a root that is a file keeps its name. |
| TransferMeaning.NumberedMeaning | crates/autoflow-application/src/execution.rs:398-413 | The number goes before the last extension; a leading dot starts no extension. |
| TransferMeaning.FreeTarget | crates/autoflow-application/src/execution.rs:274-359 | A file whose target is free is at the target afterwards, in Copy mode too, in Move mode instead, and nothing else changes; the status is Copied or Moved. This holds under every conflict strategy. |
| TransferMeaning.TakenTarget | crates/autoflow-application/src/execution.rs:294-416 | A taken target: left alone when smart sync takes the two for the same; else Skip leaves it alone, Overwrite replaces it, and Rename puts the file under the least free number from 1 on, failing when all below 1000 are taken. |
| TransferMeaning.MissingFile | crates/autoflow-application/src/execution.rs:274-359 | A missing file is never reported as transferred, and nothing changes unless its target was to be overwritten. |
| TransferMeaning.NoDirectory | crates/autoflow-application/src/execution.rs:310-312 | Without a directory to put it in a file is not transferred and nothing changes. |
| TransferMeaning.CopyKeepsOthers | crates/autoflow-application/src/execution.rs:313-321 | Whatever the disk does, copying touches no file that was there, but for its own target under Overwrite. |
| TransferMeaning.VerifiedCopy | crates/autoflow-application/src/execution.rs:315-370 | Whatever the disk does, a verified copy reported as done has the hash of its source, which is still there. |
| TransferMeaning.MovedIsMoved | crates/autoflow-application/src/execution.rs:322-357 | Whatever the disk does, a file reported as moved is at the target reported, with its hash when verification is on, and no longer at its source. |
| TransferMeaning.MismatchedCopyStays | crates/autoflow-application/src/execution.rs:315-321 | A verified copy that does not match is left where it is, and the file counts as failed. |
| TransferMeaning.FailedMoveLeavesNothing | crates/autoflow-application/src/execution.rs:336-357 | A move to a free target that fails leaves nothing behind when the system breaks off no copy and removes what it is told to; then it fails exactly when the fallback copy does not match. |
| TransferMeaning.CopyRunKeeps | crates/autoflow-application/src/execution.rs:76-235 | A Copy run under Skip or Rename keeps every file byte for byte, whatever the disk does and wherever it stops. |
| TransferMeaning.RunDelivers | crates/autoflow-application/src/execution.rs:76-235 | On a disk that refuses nothing, with targets free or overwritable, every file the run gets to is at its target with its bytes, in Move mode no longer at its source, and recorded with the hash of its bytes; every other path is as it was. Files smart sync takes for their targets stay. |
| TransferMeaning.StopsAtFirstFailure | crates/autoflow-application/src/execution.rs:165-175 | A run aborts exactly when the option is set and a file failed, and then exactly one did. |
| Rollback.UndoLast | crates/autoflow-application/src/rollback.rs:37-83 | A rollback undoes the last item first and then the rest of the manifest on the disk that leaves. |
| Rollback.RevertItems | crates/autoflow-application/src/rollback.rs:37-83 | The reverse loop with its existence and hash guards computes the undone disk and both counters. |
| Rollback.RollbackJob | crates/autoflow-application/src/rollback.rs:20-109 | Rolls back the newest open manifest, marks it, and reports the counters; fails exactly when there is none, changing nothing. |
| RollbackMeaning.LastItem | crates/autoflow-application/src/rollback.rs:43-83 | The last item is skipped, and the disk left to the items before it, exactly when it was skipped by the run, its target is missing, the recorded hash is not that of the bytes there, a moved file has something at its source again, or the system refuses; else a copy is removed and a moved file goes back. |
| RollbackMeaning.UndoCounts | crates/autoflow-application/src/rollback.rs:37-83 | Every item is counted once, as reverted or skipped. |
| RollbackMeaning.ForeignStays | crates/autoflow-application/src/rollback.rs:46-70 | Over a whole manifest, a file whose hash no item recorded for its path, and whose path is no source, keeps its bytes. |
| RollbackMeaning.EditSurvives | crates/autoflow-application/src/rollback.rs:46-70 | A target edited after the run that delivered it, so that its hash changed, keeps its edit through the rollback. |
| Rollback.RollbackStore.Save | crates/autoflow-infrastructure/src/rollback.rs:21-40 | Appends one open row. |
| Rollback.RollbackStore.LatestForJob | crates/autoflow-infrastructure/src/rollback.rs:42-60 | Returns an open manifest of the owner than which no other open one of the owner is newer, and nothing exactly when the owner has none open. |
| Rollback.NewestMeaning | crates/autoflow-infrastructure/src/rollback.rs:42-60 | What the query by creation time returns is such a row of the table. |
| Rollback.RollbackStore.MarkRolledBack | crates/autoflow-infrastructure/src/rollback.rs:85-93 | Exactly the rows with the id become marked; manifests, times, order and other marks stay. |
| Rollback.NewestIsTop | crates/autoflow-infrastructure/src/rollback.rs:42-83 | The query by creation time hands out the top of the owner's stack of open manifests, and nothing exactly when the stack is empty. |
| Rollback.MarkPops | crates/autoflow-infrastructure/src/rollback.rs:85-93 | Marking what the query handed out pops that stack. |
| Rollback.SavePushes | crates/autoflow-infrastructure/src/rollback.rs:21-40 | Saving pushes on the owner's stack. |
| RunUndo.TransferShape | crates/autoflow-application/src/execution.rs:313-359 | On a faithful disk a transfer to a free path does exactly its mode's change or nothing, verification and fallback included. |
| RunUndo.TransferUndone | crates/autoflow-application/src/rollback.rs:43-83 | The recorded item of a transfer to a free path passes the guards, and undoing it gives the disk back. |
| RunUndo.ProcessUndoable | crates/autoflow-application/src/execution.rs:274-359 | Under Skip or Rename, whatever handling one file did can be undone from its item, and a skipped or failed file changed nothing. |
| RunUndo.RunThenUndo | crates/autoflow-application/src/execution.rs:76-235 | A run under Skip or Rename, stopped anywhere, then a rollback, gives the disk back; the rollback reverts exactly what the run processed and skips what it skipped. |
| BlueprintApply.ExecutePlanItem | crates/autoflow-application/src/blueprints.rs:1398-1446 | Disk and outcome of one plan item, the same-path case included. |
| BlueprintApply.ApplyPlan | crates/autoflow-application/src/blueprints.rs:202-283 | The apply loop: counters, manifest and disk after the whole plan. |
| BlueprintApply.ApplyCounts | crates/autoflow-application/src/blueprints.rs:208-275 | Every item is processed, failed or skipped, and the processed ones are the recorded ones. |
| RollbackMeaning.ItemMeaning | crates/autoflow-application/src/blueprints.rs:1398-1479 | A plan item whose target is free or overwritable is copied or moved there, counted and recorded with the hash of its bytes; a taken target is left alone under Skip. |
| RollbackMeaning.ItemRenamed | crates/autoflow-application/src/blueprints.rs:1404-1446 | Under Rename a taken target sends the file to the least free number from 1 on, or fails when all below 1000 are taken. |
| BlueprintApply.ExecutedUndoable | crates/autoflow-application/src/blueprints.rs:1398-1479 | Under Skip or Rename an executed item can be undone from its record; a skipped or failed one changed nothing. |
| BlueprintApply.ApplyThenUndo | crates/autoflow-application/src/rollback.rs:128-174 | Applying a plan and rolling back restores the disk, also when targets reuse paths that earlier sources were moved away from. |
| BlueprintApply.SamePathCopyIsRemoved | crates/autoflow-application/src/blueprints.rs:1398-1403 | An item with equal source and target under Copy changes nothing, and rolling it back removes the file. |
| UndoHistory.RunAndRecord | crates/autoflow-application/src/execution.rs:228-233 | A run followed by the saving of its manifest, unless that is empty. |
| UndoHistory.ApplyAndRecord | crates/autoflow-application/src/blueprints.rs:277-283 | An application followed by the saving of its manifest; its counters add up to the plan's length. |
| UndoHistory.RolledBackOrigin | crates/autoflow-application/src/rollback.rs:20-109 | A rollback takes one manifest off the stack and leaves unchanged the disk that undoing the whole stack leads to. |
| UndoHistory.ExecuteKeepsOrigin | crates/autoflow-application/src/rollback.rs:20-174 | A run, an application or a rollback leaves unchanged the disk that undoing the whole stack leads to. |
| UndoHistory.HistoryKeepsOrigin | crates/autoflow-application/src/rollback.rs:20-174 | So does every sequence of them. |
| UndoHistory.DrainReachesOrigin | crates/autoflow-infrastructure/src/rollback.rs:42-93 | As many rollbacks as there are open manifests reach that disk and leave none open. |
| UndoHistory.HistoryUndone | crates/autoflow-application/src/rollback.rs:20-109 | After any sequence of runs (each stopped anywhere), applications and rollbacks, as many rollbacks give back exactly the files at the start, whatever other owners' manifests are in the table. |
| MoveSafety.TargetNotSource | crates/autoflow-domain/src/job.rs:146-156 | With source and target roots apart, no target is a file of the source. |
| MoveSafety.TargetInjective | crates/autoflow-application/src/execution.rs:280-292 | Different files of a job have different targets. |
| MoveSafety.OverwrittenMeaning | crates/autoflow-application/src/execution.rs:326-335 | The overwritten paths are the recorded targets that were files before. |
| MoveSafety.OverwriteShape | crates/autoflow-application/src/execution.rs:274-359 | Under Overwrite on a reliable disk a file replaces its own target or changes nothing. |
| MoveSafety.OverwriteThenUndo | crates/autoflow-application/src/rollback.rs:37-83 | An overwriting run, stopped anywhere, then a rollback: the initial disk without exactly the targets that existed and were overwritten; hence restored if and only if nothing was overwritten. |
| MoveSafety.OverwriteForeseen | crates/autoflow-application/src/execution.rs:280-359 | On a disk that refuses nothing, those targets are known before the run: the existing targets of the files it gets to that smart sync does not take for unchanged. |
| MoveSafety.VerifiedMove | crates/autoflow-application/src/execution.rs:322-357 | Whatever the disk refuses, garbles or leaves half-written, a verified move touches only its file and its target and ends with the file in place or its hash at the recorded target. |
| MoveSafety.NothingLost | crates/autoflow-application/src/execution.rs:76-176 | In Move mode with verification, under every conflict strategy, every disk fault and every stop, each source's hash is at its source or at a target recorded for it. |
| MoveSafety.RenamedContents | crates/autoflow-application/src/execution.rs:336 | A rename to a free path conserves the multiset of contents. |
| MoveSafety.MoveConserves | crates/autoflow-application/src/execution.rs:76-235 | A faithful Move run under Skip or Rename, stopped anywhere, conserves the multiset of contents of the disk. |
| Tokenizer.NormalizeIdentifier | crates/autoflow-domain/src/tokenizer/mod.rs:437-457 | The character loop computes the normal spelling of a name. |
| Tokenizer.Evaluate | crates/autoflow-domain/src/tokenizer/mod.rs:155-203 | The fold over the segments, tokens looked up in any case, stopping at the first error. |
| Tokenizer.TrimTwice | crates/autoflow-domain/src/tokenizer/mod.rs:315-342 | Trimming is idempotent. |
| Display.ReadUntil | crates/autoflow-domain/src/tokenizer/display.rs:53-68 | The text up to the first delimiter and the index after it, or nothing; a line break ends the search for a bracket or a slash. |
| Display.NextAt | crates/autoflow-domain/src/tokenizer/display.rs:95-155 | What the parser loop reads at an index: an escape, a doubled brace, a whole segment or a plain character. |
| Display.ParseTemplate | crates/autoflow-domain/src/tokenizer/display.rs:90-159 | The loop over index, literal and segments computes the parse. |
| Display.PrintLiteral | crates/autoflow-domain/src/tokenizer/display.rs:177-201 | The escaping loop over a literal, with the slash escape depending on what follows. |
| Display.FormatTemplate | crates/autoflow-domain/src/tokenizer/display.rs:172-221 | The printer's loop over the segments. |
| RoundTrip.ParseCanonical | crates/autoflow-domain/src/tokenizer/display.rs:90-159 | Whatever the input, the parse has non-empty, non-adjacent literals and well-formed, known names. |
| RoundTrip.LiteralReadBack | crates/autoflow-domain/src/tokenizer/display.rs:161-201 | A printed literal reads back whole in every context, unless it ends like a preset and a preset follows. |
| RoundTrip.SegmentReadBack | crates/autoflow-domain/src/tokenizer/display.rs:202-221 | A printed token, transform or preset reads back whole in every context. |
| RoundTrip.RoundTripExact | crates/autoflow-domain/src/tokenizer/display.rs:90-221 | A canonical pipeline survives printing and parsing if and only if no literal ending in a slash and a preset's name stands right before a preset. |
| RoundTrip.ReparseExact | crates/autoflow-domain/src/tokenizer/display.rs:90-221 | The same for the parse of every input string. |
| RoundTrip.HazardousInput | crates/autoflow-domain/src/tokenizer/display.rs:161-168 | Inputs, one for every pair of presets, on which the round trip fails. |
| RoundTrip.HazardousExample | crates/autoflow-domain/src/tokenizer/display.rs:161-168 | One of them written out. |
| RoundTrip.BackslashBeforeToken | crates/autoflow-domain/src/tokenizer/display.rs:78-105 | A backslash does not escape a brace: what follows it is still read as a token. |
| RoundTrip.NormalizedIsSnake | crates/autoflow-domain/src/tokenizer/mod.rs:437-457 | Whatever the input, normalization yields lower-case letters and digits with single inner underscores; it leaves a name alone if and only if it has that form, and it is idempotent. |
| RoundTrip.TransformsAgree | crates/autoflow-domain/src/tokenizer/mod.rs:204-342 | For every spelling the evaluator reports an unknown transform exactly when the invocation has a name and closed brackets and the parser does not know the name; without them it is invalid. |
| RoundTrip.PresetsAgree | crates/autoflow-domain/src/tokenizer/mod.rs:270-306 | Likewise for presets. |
| RoundTrip.ParsedEvaluates | crates/autoflow-domain/src/tokenizer/mod.rs:155-342 | Evaluating the parse of any input never meets an unknown transform or preset. |
| RoundTrip.EvaluationSplits | crates/autoflow-domain/src/tokenizer/mod.rs:155-166 | Evaluation continues at any segment from the value of those before it, and the first error is final. |
| RoundTrip.TextEvaluates | crates/autoflow-domain/src/tokenizer/display.rs:90-221 | Every text, printed as a literal and parsed back, evaluates to itself. |
| RoundTrip.EscapesMeaning | crates/autoflow-domain/src/tokenizer/display.rs:161-201 | Braces are doubled and brackets escaped in a literal, and read back. |
| Evaluation.TextsInOrder | crates/autoflow-domain/src/tokenizer/mod.rs:155-203 | A pipeline of literals and known tokens evaluates to the literals and the values of the tokens, in order: the built-in under the name in lower case, else the variable in lower case, else the variable as spelled. |
| Evaluation.TextAppends | crates/autoflow-domain/src/tokenizer/mod.rs:159-160 | After any pipeline with a value, a literal or a known token puts its text behind the value. |
| Evaluation.UnknownTokenFails | crates/autoflow-domain/src/tokenizer/mod.rs:168-203 | A token that is neither built in nor a variable is an error. |
| Evaluation.TransformActs | crates/autoflow-domain/src/tokenizer/mod.rs:204-264 | After any pipeline with a value, a transform without arguments, however its name is spelled, is applied to the whole value. |
| Evaluation.PositionalActs | crates/autoflow-domain/src/tokenizer/mod.rs:315-397 | A transform with arguments is applied to the whole value and its arguments, or is invalid. |
| Evaluation.ArgumentsMeaning | crates/autoflow-domain/src/tokenizer/mod.rs:315-342 | Arguments stand between commas, are trimmed, and are left out when empty. |
| Evaluation.PresetActs | crates/autoflow-domain/src/tokenizer/mod.rs:270-306 | A preset, however spelled, is applied to the whole value. |
| Evaluation.SpellingsAgree | crates/autoflow-domain/src/tokenizer/mod.rs:437-457 | Words put together with underscores, hyphens or spaces, in camel case or in Pascal case normalize to the words with underscores. |
| Queue.JobQueue.BeginEnqueue | crates/autoflow-core/src/queue.rs:324-335 | Refuses a job that runs or waits; otherwise enters a new execution under the lock. |
| Queue.JobQueue.FinishEnqueue | crates/autoflow-core/src/queue.rs:337-343 | Sends the run message after the lock is released. |
| Queue.JobQueue.CancelExecution | crates/autoflow-core/src/queue.rs:345-354 | Sends a cancel message exactly for an active or queued execution. |
| Queue.JobQueue.SetPaused | crates/autoflow-core/src/queue.rs:301-309 | Raises or lowers the pause flag and nothing else. |
| Queue.JobQueue.DropPending | crates/autoflow-core/src/queue.rs:315-322 | Clears the parked messages and leaves `queued` as it is. |
| Queue.JobQueue.ApplyCancel | crates/autoflow-core/src/queue.rs:263-282 | Trips a token, or takes the execution from the queue and reports it, or does nothing. |
| Queue.JobQueue.WorkerLook | crates/autoflow-core/src/queue.rs:76-119 | The loop top: the pause check, then the last parked message. |
| Queue.JobQueue.WorkerReceive | crates/autoflow-core/src/queue.rs:77-119 | Receiving; while paused a run is parked and a cancel handled at once. |
| Queue.JobQueue.WorkerHandle | crates/autoflow-core/src/queue.rs:121-127 | The first half of a run message, or a cancel message. |
| Queue.JobQueue.WorkerLaunch | crates/autoflow-core/src/queue.rs:129-170 | The second half: dropped as cancelled, dropped as a second run of its job, or started. |
| Queue.JobQueue.ReportProgress | crates/autoflow-core/src/queue.rs:171-191 | A task enters `active` and reports. |
| Queue.JobQueue.LeaveActive | crates/autoflow-core/src/queue.rs:199-201 | A task that is over leaves `active`. |
| Queue.JobQueue.LeaveRunning | crates/autoflow-core/src/queue.rs:202 | Then it leaves `running`, so that its job may run again. |
| Queue.JobQueue.DropToken | crates/autoflow-core/src/queue.rs:203 | Then its token goes. |
| Queue.JobQueue.DropMark | crates/autoflow-core/src/queue.rs:245-251 | After an error its cancellation mark goes, too. |
| Queue.JobQueue.ReportTask | crates/autoflow-core/src/queue.rs:205-260 | Afterwards its Completed event is sent. |
| QueueSafety.InvAlways | crates/autoflow-core/src/queue.rs:75-285 | In every reachable state the books on every execution balance and `running` mirrors the live tasks. |
| QueueSafety.MutualExclusion | crates/autoflow-core/src/queue.rs:127-148 | In every reachable state a job has at most one live task, and `running` maps exactly the jobs of live tasks to their executions. |
| QueueSafety.StartsAndCompletions | crates/autoflow-core/src/queue.rs:84-282 | Over every run an execution starts at most once, never when it was cancelled in the queue; one that started completes exactly once, when its task is over; one cancelled in the queue completes twice exactly when its run message is neither on its way nor cleared, else once; any other not at all. |
| QueueSafety.CancelledCompletesTwice | crates/autoflow-core/src/queue.rs:129-141 | Without `stop_all`, an execution cancelled in the queue completes a second time exactly when the worker has met its run message. |
| QueueSafety.TwoCompletions | crates/autoflow-core/src/queue.rs:77-101 | A run in which one execution completes twice: its cancel message is handled while its run message is parked. |
| QueueSafety.CancelledNeverStarts | crates/autoflow-core/src/queue.rs:129-141 | An execution cancelled while queued never starts afterwards, however the run goes on. |
| QueueSafety.CompletedComesLast | crates/autoflow-core/src/queue.rs:194-260 | Over every run a task's Completed follows its one start and all its progress, and nothing follows it. |
| QueueSafety.PauseHolds | crates/autoflow-core/src/queue.rs:76-119 | Between a pause and the next resume at most one execution starts, and none if the worker was at its loop top or parked. |
| QueueMeaning.MarksExact | crates/autoflow-core/src/queue.rs:127-282 | In every reachable state an execution holds its token exactly while its task has not given it up and it was not cancelled, is active exactly while its task works and has made progress, and only what started was cancelled by its token. |
| QueueMeaning.TrippedExactly | crates/autoflow-core/src/queue.rs:84-88 | Over every run an execution is cancelled by its token exactly when the worker met a cancel message, paused or not, while the execution held its token. |
| QueueMeaning.CancelHolds | crates/autoflow-core/src/queue.rs:263-268 | From then on it stays cancelled and without its token, for the rest of every run; it had started. |
| QueueMeaning.QueuedExactly | crates/autoflow-core/src/queue.rs:121-127 | The queued executions are exactly those whose run message is on its way, or was cleared, and was neither taken up nor cancelled. |
| QueueMeaning.TasksRunTheirJobs | crates/autoflow-core/src/queue.rs:324-343 | In every reachable state a job is queued at most once, and an execution is queued and runs for the job it was enqueued for. |
| QueueOrder.TakenUpInOrder | crates/autoflow-core/src/queue.rs:76-119 | From any reachable state that is neither paused nor parked until the next pause, the worker takes up the run in its hand, then what was parked, last first, then what is in the channel and what is sent, first first; nothing is left out, repeated or overtaken. |
| QueueOrder.ParkedInOrder | crates/autoflow-core/src/queue.rs:76-108 | While the queue is paused, run messages are parked in the order in which they were sent, and none is lost. |
| QueueOrder.FirstInFirstOut | crates/autoflow-core/src/queue.rs:109-119 | In a run that is never paused executions start in the order in which their run messages were sent. |
| AdminServer.NormalizeInstanceIds | crates/autoflow-admin-server/src/lib.rs:1475-1485 | The loop that trims, drops empties and deduplicates. |
| AdminServer.ResolveBatchTargets | crates/autoflow-admin-server/src/lib.rs:613-629 | Direct targets and group members, deduplicated; the first missing group is the error. |
| AdminServer.MissingGroup | crates/autoflow-admin-server/src/lib.rs:620-626 | A missing group decides the result, whatever groups follow. |
| AdminServer.MemoryAdminServerStore.SaveBatchCommand | crates/autoflow-admin-server/src/lib.rs:708-733 | Stores the command and one pending delivery for each target. |
| AdminServer.MemoryAdminServerStore.AssignNextCommand | crates/autoflow-admin-server/src/lib.rs:743-773 | Hands out the first awaiting delivery of the instance. |
| AdminServer.MemoryAdminServerStore.PendingCommandCount | crates/autoflow-admin-server/src/lib.rs:775-787 | The counting loop gives the number of places in the table at which a delivery awaits the instance. |
| AdminServer.MemoryAdminServerStore.RecordCommandCompletion | crates/autoflow-admin-server/src/lib.rs:789-833 | Finishes a running delivery and recomputes status and result; the error cases change nothing. |
| AdminServer.SqliteAdminServerStore.SaveBatchCommand | crates/autoflow-admin-server/src/lib.rs:1062-1105 | A taken key is an error and changes nothing; otherwise the command and its deliveries are inserted, a delivery with a taken key being left alone. |
| AdminServer.SqliteAdminServerStore.AssignNextCommand | crates/autoflow-admin-server/src/lib.rs:1120-1166 | Hands out the oldest command with a pending delivery to the instance. |
| AdminServer.SqliteAdminServerStore.PendingCommandCount | crates/autoflow-admin-server/src/lib.rs:1168-1179 | Selecting the pending rows of the instance and counting them gives the same number. |
| AdminServer.SqliteAdminServerStore.RecordCommandCompletion | crates/autoflow-admin-server/src/lib.rs:1181-1253 | Updates the rows and recomputes status and result from the rows ordered by target. |
| AdminRefinement.DeduplicatedMeaning | crates/autoflow-admin-server/src/lib.rs:1475-1485 | Deduplication yields every non-empty trimmed id exactly once. |
| AdminRefinement.SortPermutes | crates/autoflow-admin-server/src/lib.rs:1286-1304 | Ordering by target permutes a command's states and its results. |
| AdminRefinement.ReviewedSame | crates/autoflow-admin-server/src/lib.rs:1684-1727 | Status and result do not depend on the order of the deliveries, but for the order of the results. |
| AdminRefinement.OldestIsFirst | crates/autoflow-admin-server/src/lib.rs:1125-1137 | The join ordered by creation finds the delivery the in-memory search finds. |
| AdminRefinement.StepAgrees | crates/autoflow-admin-server/src/lib.rs:1062-1253 | One call on related stores gives matching replies and related stores. |
| AdminRefinement.SqlRefinesMemory | crates/autoflow-admin-server/src/lib.rs:708-833 | Over every run of enqueue, poll and completion calls with increasing creation times the SQL store gives the in-memory store's replies, and the tables agree but for the order of targets within results. |
| AdminDelivery.StatesMeaning | crates/autoflow-admin-server/src/lib.rs:1642-1659 | A command's delivery states are those of its deliveries and no others. |
| AdminDelivery.AlwaysConsistent | crates/autoflow-admin-server/src/lib.rs:743-833 | At all times a command is Pending while all its deliveries are, else has their aggregate status, and its result is the one its deliveries give. |
| AdminDelivery.TerminalStays | crates/autoflow-admin-server/src/lib.rs:789-833 | No call changes a command in a terminal status. |
| AdminDelivery.TerminalForever | crates/autoflow-admin-server/src/lib.rs:1684-1747 | Once terminal, status and result stay over every further run. |
| AdminDelivery.DeliveriesAreEnqueued | crates/autoflow-admin-server/src/lib.rs:245-281 | After every run the deliveries to an instance are those of the calls that name it among their resolved targets, in order. |
| AdminDelivery.HandedInOrder | crates/autoflow-admin-server/src/lib.rs:743-773 | Over every run the commands an instance was given by its polls are a prefix of those the calls enqueued for it, in order, no command twice. |
| AdminDelivery.WorkDecreases | crates/autoflow-admin-server/src/lib.rs:743-833 | Twice the pending plus the running deliveries goes down by one with every assignment and every accepted completion, and every other poll or completion changes nothing. |
| AdminOutcome.TargetsMeaning | crates/autoflow-admin-server/src/lib.rs:613-629 | The targets are exactly the non-empty trimmed ids named directly or by a group asked for, each once; a missing group is an error, and the first one is named. |
| AdminOutcome.TargetsInOrder | crates/autoflow-admin-server/src/lib.rs:613-629 | Targets stand in the order in which they are first named: directly, then by the groups, group after group. |
| AdminOutcome.StatusMeaning | crates/autoflow-admin-server/src/lib.rs:1684-1705 | After every run a command is Pending while none of its deliveries was handed out, Running while some was and some is open, and when none is open Failed if some failed, else Completed if some completed, else Skipped. |
| AdminOutcome.StatusFitsOnce | crates/autoflow-admin-server/src/lib.rs:1684-1705 | No two statuses fit the same deliveries. |
| AdminOutcome.ResultMeaning | crates/autoflow-admin-server/src/lib.rs:1708-1747 | After every run a command has a result once some delivery is finished, with an entry for every finished delivery and no other, accepted exactly when no delivery failed. |
| AdminOutcome.FinishedAsReported | crates/autoflow-admin-server/src/lib.rs:789-833 | After every run a finished delivery has the status, the time and the message of some accepted completion that named it. |
| AdminOutcome.ReportedIsFinished | crates/autoflow-admin-server/src/lib.rs:789-833 | After every run every accepted completion has its delivery, as it reported it. |
| AdminOutcome.CompletionMeaning | crates/autoflow-admin-server/src/lib.rs:789-833 | A completion is accepted exactly when the delivery it names is running; else the error tells whether there is one, and nothing changes; other deliveries and commands never do. |
| AdminOutcome.CommandsAsEnqueued | crates/autoflow-admin-server/src/lib.rs:708-733 | After every run every command asks for what some call enqueued. |
| AdminOutcome.PollMeaning | crates/autoflow-admin-server/src/lib.rs:743-773 | A poll hands out nothing exactly when no delivery awaits the instance; else what was enqueued under the id, addressed to the instance alone, and exactly that delivery becomes running. It tells how many deliveries still await the instance. |
| AdminSqlDelivery.SqlAlwaysConsistent | crates/autoflow-admin-server/src/lib.rs:1120-1253 | In the SQL store, too, statuses and results are at all times those the deliveries give, results up to the order of targets. |
| AdminSqlDelivery.SqlTerminalForever | crates/autoflow-admin-server/src/lib.rs:1120-1253 | Once terminal, a command of the SQL store is never changed again. |
| AdminSqlDelivery.SqlHandedInOrder | crates/autoflow-admin-server/src/lib.rs:1120-1166 | The SQL store hands out a prefix of what was enqueued, in order, no command twice. |
| AdminSqlDelivery.SqlWorkDecreases | crates/autoflow-admin-server/src/lib.rs:1120-1253 | Its work left goes down in the same way. |
| AdminOutcome.SqlOutcome | crates/autoflow-admin-server/src/lib.rs:1181-1253 | In the SQL store, too, status and result say what the deliveries came to. |
| AdminOutcome.SqlReportedIsFinished | crates/autoflow-admin-server/src/lib.rs:1181-1253 | So has every accepted completion its delivery. |
| Planning.NextCountersAgree | crates/autoflow-application/src/ports/blueprint_store.rs:19-30 | For every start and stored counter the default and the SQL `next_counter` agree in reply and stored value if and only if the start is valid and a stored number is neither negative nor at its end. |
| Planning.SetThenGet | crates/autoflow-infrastructure/src/blueprints.rs:128-159 | Over the whole unsigned range a counter that was set is read back, and no other is disturbed. |
| Planning.CounterStore.Get | crates/autoflow-infrastructure/src/blueprints.rs:128-139 | The unsigned value whose signed form is stored; zero when there is no row; an error exactly for a counter spoiled by overflow. |
| Planning.CounterStore.Set | crates/autoflow-infrastructure/src/blueprints.rs:141-159 | Upserts one counter, which reads back as set. |
| Planning.CounterStore.NextByDefault | crates/autoflow-application/src/ports/blueprint_store.rs:19-30 | Read, choose start or stored value, write the saturated successor. |
| Planning.CounterStore.Next | crates/autoflow-infrastructure/src/blueprints.rs:161-191 | One upsert; a bad start changes nothing, and a counter at its end is spoiled and cannot be decoded from then on. |
| Planning.BuildPlan | crates/autoflow-application/src/blueprints.rs:1272-1320 | The loop gives the simulated plan without touching the store, or the real plan with the counters drawn. |
| Planning.DrawKeepsStep | crates/autoflow-application/src/blueprints.rs:1340-1362 | A counter the store can draw is the one the cache gives, and the cache stays in step with the store. |
| Planning.SimulationIsApplication | crates/autoflow-application/src/blueprints.rs:1272-1362 | For any files, scope and stored counters the simulated plan is the real one, errors included, if and only if, for the files the simulation looks at, the start is valid and each stored counter has room for as many draws as files use it; where the simulation meets a spoiled counter, if and only if the start is valid. |
| Planning.AgreeUndrawn | crates/autoflow-application/src/blueprints.rs:1340-1362 | A counter that cannot be drawn makes the two plans part, unless the simulation fails on a spoiled counter, too. |
| Planning.FullCounterParts | crates/autoflow-infrastructure/src/blueprints.rs:161-191 | A counter at its end fails the real run only. |
| Planning.NegativeCounterParts | crates/autoflow-infrastructure/src/blueprints.rs:128-191 | For a counter stored as a negative number the simulation takes a huge counter and the real run the start. |
| Planning.DrawsStayNatural | crates/autoflow-infrastructure/src/blueprints.rs:161-191 | Drawing never stores a negative counter. |
| Planning.ScopeMeaning | crates/autoflow-domain/src/counter.rs:62-69 | Two files draw the same counter exactly when they agree on what the scope goes by: nothing, the folder or the parent. |
| Planning.ScopesApart | crates/autoflow-domain/src/counter.rs:62-69 | Counters of different scopes, and of different days under the daily scope, are never shared. |
| Planning.PlanMeaning | crates/autoflow-application/src/blueprints.rs:1272-1362 | A real plan whose counters could be drawn gives the files in order, each with its position from 1 and the stored counter, or the start, plus the number of earlier files that draw from the same counter. |
| Planning.PlanIsSafe | crates/autoflow-application/src/blueprints.rs:1304-1318 | Plan targets are under the root and no file is sent to itself. |
| Planning.PlannedThenUndone | crates/autoflow-application/src/rollback.rs:111-200 | Applying a blueprint by its own plan and rolling back restores the disk. |
| FolderPlan.CollectNodes | crates/autoflow-application/src/blueprints.rs:659-726 | The recursive walk appends the plan of a subtree, or reports the first error. |
| FolderPlan.PreviewNodes | crates/autoflow-application/src/blueprints.rs:381-425 | The preview walk with its running folder count. |
| FolderPlan.PlacedIsPreorder | crates/autoflow-application/src/blueprints.rs:659-726 | Whatever the paths, a walk that skips what is below Delete nodes meets the nodes of the cut preorder, in order. |
| FolderPlan.CollectedIsPlanOf | crates/autoflow-application/src/blueprints.rs:659-726 | The recursive walk plans the placed preorder node by node, and fails as its first failing node does. |
| FolderPlan.PlanIsPreorder | crates/autoflow-application/src/blueprints.rs:659-726 | The plan builds if and only if every node of the cut preorder resolves at its place; then its items are those nodes in order, each with the paths it resolves to below its parent and at its position. |
| FolderPlan.PreviewIsPreorder | crates/autoflow-application/src/blueprints.rs:381-425 | The preview in preorder shows the same nodes, each with the name, path and source displayed at its place, and its count is their number. |
| FolderPlan.PlanMatchesPreview | crates/autoflow-application/src/blueprints.rs:381-425 | Whenever the plan builds, its actions are the preview's in preorder and its length is the preview's folder count. |
| FolderPlan.ChildrenPlanned | crates/autoflow-application/src/blueprints.rs:659-726 | The children of a node are planned below its own target, cut of outer slashes, or below the path of its parent when it has none; those of a Delete node are not planned. |
| Schedule.NextRun | crates/autoflow-domain/src/schedule.rs:68-137 | The branches of the computation, with the day and candidate they reassign. |
| Schedule.NextWeekly | crates/autoflow-domain/src/schedule.rs:116-136 | The loop over eight days. |
| Schedule.WeeklyFinds | crates/autoflow-domain/src/schedule.rs:116-136 | The loop returns the first day ahead that fits. |
| Schedule.EightDaysSuffice | crates/autoflow-domain/src/schedule.rs:116-136 | For a validated rule one of the eight days always fits, at most a week away. |
| Schedule.NextRunExact | crates/autoflow-domain/src/schedule.rs:26-137 | A validated Daily or Weekly rule always has a next run: strictly later, at a scheduled instant, with none in between, at most a day or a week away. |
| Schedule.IterationReaches | crates/autoflow-domain/src/schedule.rs:60-66 | Iterating reaches every scheduled instant after the start. |
| Schedule.IterationClimbs | crates/autoflow-domain/src/schedule.rs:60-66 | Iterating meets only scheduled instants, each later than the one before. |
| Schedule.NamesOnTheClock | crates/autoflow-domain/src/schedule.rs:79-98 | An instant a rule names shows the hour and the minute of the rule on the clock, to the second. |
| Schedule.WeekdaysFollow | crates/autoflow-domain/src/schedule.rs:95-97 | Weekdays follow one another, and the first of January 1970 was a Thursday. |
| Schedule.IntervalNext | crates/autoflow-domain/src/schedule.rs:60-76 | An interval rule runs again after its minutes; a schedule that is off never runs. |
| Schedule.ValidMeaning | crates/autoflow-domain/src/schedule.rs:26-58 | A schedule that is on is valid exactly with a known zone and minutes, or a time of day and, when weekly, days from Sunday to Saturday. |
| AuditCsv.AuditEntriesToCsv | crates/autoflow-core/src/lib.rs:754-779 | The loop appends one line for each entry after the header. |
| AuditCsv.EscapeMeaning | crates/autoflow-core/src/lib.rs:781-787 | A field is quoted exactly when it holds a comma, a quote or a line break. |
| AuditCsv.FieldBack | crates/autoflow-core/src/lib.rs:781-787 | An escaped field, with any commas, quotes or line breaks in it, reads back as itself in every context. |
| AuditCsv.RecordBack | crates/autoflow-core/src/lib.rs:759-776 | A row reads back as its fields. |
| AuditCsv.ExportReadsBack | crates/autoflow-core/src/lib.rs:754-787 | Reading the export by section 2 of RFC 4180, with LF as the line break, gives the header and the nine fields of every entry. |
| AuditCsv.ColumnsReadBack | crates/autoflow-core/src/lib.rs:754-776 | Under each column name every entry reads back the value of that column. |

## Left out

- Disk details: directories, symbolic links, permissions and modification times, the latter but for the one bit smart sync asks for; read errors while hashing; names that are not UTF-8.
- Around the run: scripts, encrypted packages, notifications, the progress log, failures of the audit log and of saving a manifest or a job, the checks for disabled jobs and missing sources.
- Collecting files and filters: a run is given its list of files; `Collected` states what the Overwrite and Move results ask of it.
- HistoryUndone: other owners' manifests may be in the table, but during the history only the one owner's commands change the disk; manifests get new ids and later times.
- NothingLost: speaks of hashes, not bytes, since hashes are all that verification compares.
- Runs in Copy mode whose verification or copying fails leave a target behind without an item; undo is stated for faithful disks.
- OverwriteThenUndo: assumes a disk whose copies succeed, since a copy that fails loses the target without recording it; clearing and renaming may still be refused.
- Rollback of folder blueprints is not an inverse in the code: created and deleted folders are not recorded, and a missing source with an existing target counts as moved.
- The payload's own `rolled_back_at` field and the blueprint variant of the query, which compares the same two columns in the other order.
- Text operations of transforms, the matching of regular expressions and the values of the built-in tokens are parameters of the evaluator; only look-up, dispatch, arguments and errors are modelled.
- Queue liveness, channel closing and wake-ups; `stop_all` is its client cancels and `DropPending`.
- Queue.JobQueue.CancelExecution: reads `active` and `queued` in one step, where the code takes the locks one after the other.
- Admin store calls are atomic steps; races between the statements of one SQL call, equal creation times and counts beyond 32 bits are not modelled. Times are numbers, so the text order of RFC 3339 times is taken as their order.
- SqlRefinesMemory: for an unknown command it asks only that both stores refuse, because their errors differ.
- Paths and warnings of a folder plan: resolution and validation of one node are a parameter, and preview and plan paths differ in the code for nodes with an explicit target.
- Destination templates, the clock and generated ids of a file plan are a parameter; the same values are used for the simulation and the real run.
- SimulationIsApplication: asks that no counter the files use is stored as a negative number, since there the plans agree or not by what the destination template makes of the counter; drawing never stores one.
- CounterStore.Next: that a database sum out of the signed range is kept as a floating-point number and is not decoded is taken from SQLite and its driver, which are not part of this model.
- Zones with a changing offset and dates beyond the calendar's range.
- The printing of times and durations in the export; they are given as text.
- HTTP, TLS, signatures, settings, watchers, the desktop shell and its user interface.
