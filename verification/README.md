# A verified model of processkit-go

processkit runs child processes so that none of them outlives its group: a `Group` is a shared
kill-on-close container, a `RunningProcess` a live handle with a merged line channel, a `Pipeline`
a shell-style chain with pipefail attribution, a `Supervisor` a restart loop, and a cassette a
recording of runs that can be replayed without spawning anything. This project models those parts
and proves what they promise, for every interleaving, every input and every reply of the
environment.

| file | what it models |
|---|---|
| `Bytes`, `Utf8`, `JsonText` | byte strings, UTF-8 as Go decodes it (section 3 of RFC 3629), JSON strings as `encoding/json` writes them (section 7 of RFC 8259) |
| `Outcomes` | results, the success test, the three verbs, newline folding |
| `Render` | bounded, escape-safe error text |
| `LineSplitter`, `Chunking` | the incremental line splitter, and when the cuts of its reader show in what it emits |
| `Streaming`, `StreamingSafety`, `StreamingProgress`, `StreamingTrace` | one started process: Start's tail, two drains, the reaper, the consumer and the callers, one action an atomic step |
| `Job`, `GroupMachine`, `GroupSafety`, `NoOrphan`, `GroupProgress`, `GroupKill`, `GroupTrace` | the process-group job, and a group under any number of concurrent Start, Adopt, Close and kill calls, on top of a process table |
| `Groups`, `SoloCalls` | the same objects with their fields, each call by itself, and each such call as a run of the machine |
| `Pipefail`, `Pipeline` | the fold, and the resource protocol of a chain |
| `Supervisor` | the restart machine, its backoff and its failure score |
| `Cassette`, `Retry` | record and replay, and the retry loop over a replay |
| `Probe`, `Batch` | WaitForLine against a producer, OutputAll over its semaphore |

Concurrency is modelled as step machines: an action is one atomic section of the source, `IsRun`
is some interleaving of actions, and theorems quantify over `Reachable` states. A panic of the Go
runtime (send on a closed channel, second close, negative WaitGroup) is an explicit `panicked`
flag. In `GroupMachine` a handle is a whole `Streaming` process, so its safety and progress are
inherited by the group.

## What is assumed

- A delivered SIGKILL ends every process of its target, for a group every process in it. ESRCH means
  that nobody is there. EPERM says nothing about the target: it may live.
- Pids are not reused. No process leaves its group: not with `setsid`, and not with `setpgid` as a
  job-control shell moves its children; the only setpgid is Adopt's own.
- A dead process is gone: a zombie does not answer the signal-0 probe of Adopt, where a kernel would
  let it be tracked as a solo member that no signal affects.
- A process holds no pipe end after it is dead; progress after a teardown is stated for the
  moment when no process holds a write end.
- Line callbacks and tees return, and a decoder is a fixed byte transformation (the bytes of a
  stream are those behind it).
- `float64` is idealised to `real`. Of `0.5^x`, which may overflow for negative x, only
  `Supervisor.Halving` is used; the assumption is shown to be consistent.

## Where the code and its documentation differ

- `drainLines` documents that a "\n" and a preceding "\r" are stripped; `trimLineEnd` also strips
  a lone "\r" at the end of an unterminated remainder (stream.go:268-269, 277-285). The model does
  as the code does. `PieceDocumentedIff` says exactly which pieces the documented rule (`Body`) is
  true of, `StreamDocumentedIff` and `DrainDocumentedIff` of which streams, and
  `LoneCarriageReturn` is a stream it is not true of.
- A run that reaches the line cap and does end in a newline is emitted whole or in fragments
  depending on how reads cut it. Which streams the cuts do not show in is exactly
  `ChunkingInvisibleIff` for arbitrary reads, `ReaderInvisibleIff` for reads of at most 32768 bytes
  and `CutsInvisibleIff` for any other bound; a last run without a newline never matters.
  `AgreesWithSplitIffRunsFit` is a different question: when all readers emit the one-shot split.
- `PgroupJob` takes EPERM for an answer that needs no report (job_unix.go:70-85), also when the
  target lives and may not be signalled, as a set-user-id program started by an ordinary user. Close
  then returns nil and the child stays. `NilCloseSparesOnlyEperm` says that nothing else survives a
  nil Close, `PermissionDenied` reaches such a state.
- A pipeline stage's context is consulted after the whole chain has ended (pipeline.go:242-246), so
  a stage that exited in time can be reported as timed out. `KeepsExitStatusIff` is the exact
  condition, `TimelyStageBlamed` the family it shuts out, `ShortStageTimesOut` a chain of two stages.
- `Group.Processes` can hand out a streamed process before its line channel exists
  (group.go:225-231). `ListedLinesIff` gives the exact condition, `RegisteredBeforeLines` reaches
  such a state, and `ReturnedHandleHasLines` is the promise for handles that Start returned.
- `keyOf` is said to compare any bytes safely. A key tells a command from every other one if and
  only if it is UTF-8, component by component (`ProgramToldApartIff`, `ArgsToldApartIff`,
  `DirToldApartIff`, `KeyIdentifiesIff`), and since the file renders ill-formed bytes as U+FFFD a
  command that holds one always misses, even right after it was recorded (`OnlyTextHits`).

## Model

| member | source | states |
|---|---|---|
| NoOrphan.FrozenOnceClosed | group.go:181-226 | from the moment closed is set, over any further interleaving, no process joins the job's member lists and no handle is registered |
| NoOrphan.EveryChildAnsweredFor | group.go:181-226 | when the Close that set closed has returned, error or not, every child any Start ever spawned is in the member list or its Start is on the Assign-failure path, which sends it a kill and waits for it |
| NoOrphan.EveryMemberTried | internal/sys/job_unix.go:54-68 | that Close, error or not, tried every member and reports the first real error; a process still alive as a solo member or in a member's group is there only because the kill(2) of that very target was neither delivered nor found nobody |
| NoOrphan.NilCloseSparesOnlyEperm | internal/sys/job_unix.go:70-85 | after that Close returned nil, a live solo member, or a live process in a member's group, is there only because the kill(2) of that very target was not permitted |
| NoOrphan.PermissionDenied | internal/sys/job_unix.go:70-85 | a state is reachable in which Close has returned nil and a member is alive, its kill(2) refused |
| NoOrphan.NoOrphans | group.go:322-346 | after that Close returned nil and was refused no permission, no live process is a solo member or sits in a member's process group, so members and all they forked are dead; a child a Start spawned that is still alive is one an Assign-failing Start is about to kill or waits for |
| NoOrphan.CloseReleases | group.go:335-345 | after that Close, with whatever error, every registered process is torn down, and once it is dead and its pipes have no writer its goroutines reach done in at most Work steps, full line channel or not |
| NoOrphan.CloseReleasesUnderInterference | group.go:335-345 | and whatever other callers do meanwhile, each such process takes at most Work steps of its own and cannot rest before done |
| NoOrphan.NoPanic | running.go:65-68 | in no interleaving of group calls does any handle close a channel twice or send on a closed one; done implies a published outcome |
| NoOrphan.ReturnedHandleHasLines | running.go:88-93 | for every handle Start returned, the line channel exists exactly when streaming was requested |
| NoOrphan.ListedLinesIff | group.go:225-231 | for every listed, streamed process in every reachable state: it lacks its line channel if and only if its Start has registered it and not yet launched the drains |
| NoOrphan.RegisteredBeforeLines | group.go:225-231 | a state is reachable in which a listed, streamed process has no line channel yet |
| GroupSafety.InvKept | group.go:160-234 | every action of every thread keeps the whole invariant: lock ownership, who is past the closed check, members against spawned children, handles, progress of the Close in charge |
| GroupSafety.MembersFrozen | group.go:181-185 | one step in a closed group changes neither member list, nor the handles list, nor the children ever spawned |
| GroupSafety.KillKept | group.go:335-341 | the Close in charge keeps: targets tried so far are dead unless an error was noted, processes passed so far are stopped, whatever others do meanwhile |
| GroupSafety.StaysDead | internal/sys/job_unix.go:54-68 | a tracked process group or solo pid with no live process stays so, in an open group as in a closed one, although other processes fork, appear and are adopted |
| GroupProgress.LockAlwaysReleased | group.go:181-226 | in every reachable state with g.mu held, its holder can step, each of its steps (at most four) unlocks or comes closer to unlocking, and nobody else's step interferes |
| GroupProgress.CloseBounded | group.go:330-346 | under any interference a Close past its critical section takes exactly CloseLeft steps of its own, and until it has returned the next one is enabled |
| GroupProgress.CloseFinishes | group.go:335-346 | left to itself it returns, having tried every member, with the first real error of whatever the kernel answered |
| GroupProgress.HandleProjection | group.go:225-231 | what any run of a group does to a handle is a run of that process by itself, with the same actions, the closing of stop aside |
| GroupProgress.HandleBounded | running.go:34-41 | so in every run of a group a torn-down process takes at most Work own steps and, once dead, cannot rest before done |
| GroupKill.KillTriesEverybody | group.go:260-268 | a kill, in whatever company, tries every process that was a member when it was called and nobody but members, one answer a target, the error the first real one; where it was delivered or found nobody, nobody lives |
| GroupKill.KillBounded | internal/sys/job_unix.go:54-68 | past its snapshot a kill takes exactly as many steps of its own as there are targets left, and one, however the group grows, and the next is always enabled |
| GroupTrace.HandleHistory | group.go:225-231 | every handle of a reachable group is a reachable process, whose actions are those the group's run has for it, the closing of stop aside |
| GroupTrace.HandlePublishesFound | running.go:47-64 | in every run of a group a done process was waited for exactly once, and its handle publishes what that Wait left behind: the state's own outcome, the failure of the reap, or exit 0 when there was neither |
| Job.TargetsAreTheMembers | internal/sys/job_unix.go:54-68 | the kill targets are exactly the tracked groups (negated) and the solo pids |
| Job.FirstErrorIsFirst | internal/sys/job_unix.go:78-85 | the broadcast reports nil exactly when every answer was benign, otherwise the first answer that was not |
| Job.PgroupJob.Signal | internal/sys/job_unix.go:54-68 | every group is signalled once under its negated id, then every solo pid once, in order, whatever earlier answers were; the error is the first that is not benign |
| Job.PgroupJob.Assign | internal/sys/job_unix.go:42-52 | a started child joins the groups list, an unstarted one is refused and changes nothing |
| Job.PgroupJob.Adopt | internal/sys/job_unix.go:98-109 | a process that setpgid accepts joins the groups, else a live signallable one joins solo, else nothing changes |
| Groups.Group.Start | group.go:160-234 | a closed group, a failing Configure or failing pipes leave no trace; a failing spawn closes the pipes; a failing Assign kills the child, waits for it and closes the pipes, in this order, and leaves no member; success appends one member and one fresh handle |
| Groups.Group.Adopt | group.go:293-311 | refused on a closed group without touching the job, otherwise exactly the job's own tracking decision |
| Groups.Group.Close | group.go:324-346 | the first Close sends signal 9 to every group, negated, and then to every solo pid, stops every handle and reports the first real error; any later Close changes and sends nothing |
| Groups.Group.Processes | group.go:241-253 | exactly the handles not yet reaped, each once, in the order of registration |
| Groups.RunningProcess.Reap | running.go:47-69 | the state's own outcome is published, or the failure of the reap, or exit 0 when there is neither; then lines is closed if there is such a channel, then done, each exactly once in the life of the handle |
| Groups.RunningProcess.SignalStop | running.go:37-41 | stop is closed by the first call and by no other |
| SoloCalls.SoloStart | group.go:160-234 | a Start nobody interferes with is a run of the machine from a free lock to a free lock, and ends as the contract of the method says for each way it can fail, apart from the closing of the pipes, which the machine does not have |
| SoloCalls.SoloAdopt | group.go:293-311 | likewise an Adopt |
| SoloCalls.SoloClose | group.go:324-346 | likewise a Close, for all answers of the kernel: every handle stopped, the error the first real one, nothing done when the group was closed already |
| SoloCalls.SoloKill | group.go:260-268 | likewise a kill, which takes no lock: the members of the moment as targets, all answers, the first real error, nothing else changed |
| StreamingSafety.InvKept | running.go:47-69 | every action of a started process keeps the byte account, the merge account and the control invariant |
| StreamingSafety.ClosingOrder | running.go:47-69 | in every reachable state nothing has panicked, and the order is drains finished, outcome written, lines closed, done closed |
| StreamingSafety.OutcomeIsFinal | running.go:52-64 | whatever happens after done is closed, the published outcome never changes |
| StreamingTrace.PublishedIsFound | running.go:47-64 | in every run from registration to done there is exactly one Wait, and published is the outcome of its state, the failure of the reap when it left only an error, exit 0 when it left neither |
| StreamingTrace.RunHistory | stream.go:352-379 | in every run the bytes of a stream are those written to it in order, its pipe is open until it is closed, and stop and context end exactly when somebody ends them |
| StreamingSafety.WhatIsDrained | stream.go:328-346 | a stream has a drain exactly when lines are streamed or it has a callback or a tee of its own; with a tee alone it emits nothing |
| StreamingSafety.MergeAccounting | stream.go:202-228 | per stream, what entered the channel is an in-order subsequence of what was emitted; received is a prefix of entered, and the rest, never more than the buffer holds, is in the channel; all of it under Block with no cancellation or stop, with no drop counted; delivered plus dropped is emitted under DropNewest |
| StreamingSafety.DropsWhenFull | stream.go:202-228 | a line is dropped only under DropNewest and only by a full channel |
| StreamingSafety.StreamEndToEnd | stream.go:352-379 | once done, each stream that is split, for the channel or only for a callback, has emitted exactly the splitter's pieces of exactly the bytes the child wrote, and the one-shot split of them when the runs fit the cap |
| StreamingProgress.NotStuck | running.go:34-41 | a torn-down process that is not done always has an enabled step of its own |
| StreamingProgress.InternalWorks | stream.go:328-346 | every step of the package's own goroutines strictly decreases Work |
| StreamingProgress.TeardownBounded | running.go:34-41 | under any interference a torn-down process takes at most Work further steps of its own and cannot rest before done |
| StreamingProgress.TeardownCompletes | running.go:47-69 | left to itself it reaches done within Work steps |
| StreamingTrace.OnlyFullHolds | stream.go:202-228 | with the child gone and its pipes closed, stopped or not, one of the goroutines can move until done, or the channel is full and its consumer can |
| StreamingTrace.ReadingBounded | stream.go:202-228 | whoever cancels or stops in between, goroutines and consumer together take a bounded number of steps and come to rest only with done closed and the channel empty |
| StreamingTrace.EverythingArrives | running.go:80-93 | under Block, when nobody cancelled or stopped, a consumer that received until done was closed and the channel empty was given, per stream and in order, exactly the splitter's pieces of exactly the bytes written |
| LineSplitter.DrainLines | stream.go:240-274 | the loop emits the texts of the reference pieces for the cap given, or 1048576 when it is not positive, and its accumulator never exceeds the cap - 1 + 32768 bytes |
| LineSplitter.TakeChunk | stream.go:247-266 | one read leaves an accumulator below the cap and emits what the step function says |
| LineSplitter.DrainLossless | stream.go:240-274 | for every chunking the emissions stand for raw pieces whose concatenation is the input: lines with one newline at the end, newline-free fragments of exactly the cap, one last newline-free remainder below it |
| LineSplitter.LineEnds | stream.go:276-285 | what is emitted for raw bytes: of a line what precedes its "\r\n" or "\n", a fragment as it is, of a remainder all but a last carriage return |
| LineSplitter.ChunkIndependence | stream.go:240-285 | when every run is below the cap the emissions are the one-shot split, for every chunking |
| LineSplitter.AgreesWithSplitIffRunsFit | stream.go:240-285 | all chunkings emit the one-shot split if and only if every run, the last one included, fits the cap |
| Chunking.CutsInvisibleIff | stream.go:240-274 | all ways to cut a stream into reads of at most a bound emit the same if and only if no terminated run has a length L ≥ cap with L % cap + 2 ≤ the bound |
| Chunking.ReaderInvisibleIff | stream.go:248-249 | the same for the reads the loop makes, of at most 32768 bytes |
| Chunking.ChunkingInvisibleIff | stream.go:240-274 | all chunkings whatever agree with each other if and only if every newline-terminated run is below the cap |
| Chunking.UnterminatedIsInvisible | stream.go:267-270 | a stream without a newline, of any length, comes out the same from every reader |
| Chunking.AccumulatorHolds | stream.go:247-266 | whatever the cuts, the accumulator at the end of the stream is the last len % cap bytes of what follows the last newline |
| LineSplitter.PieceDocumentedIff | stream.go:276-285 | for every chunking a piece is emitted by the documented rule for line ends if and only if it is not an unterminated last one ending in a carriage return |
| Chunking.StreamDocumentedIff | stream.go:234-274 | for every chunking all emissions follow the documented rule if and only if the stream does not end in a carriage return or what follows its last newline is a multiple of the cap long |
| LineSplitter.DrainDocumentedIff | stream.go:234-285 | when the runs fit the cap the documented one-shot split is what is emitted, for every chunking, if and only if the stream does not end in a carriage return |
| LineSplitter.LoneCarriageReturn | stream.go:267-270 | the stream "a\r" comes out as "a", against the documented rule |
| Outcomes.NormalizeLaws | result.go:237-245 | the two replacements behind their fast exit are one left-to-right pass, leave no carriage return, change nothing exactly when there is none, and are idempotent |
| Outcomes.NormalizeAtCr | result.go:237-245 | up to the first carriage return nothing changes; that one, with a line feed right behind it, becomes one line feed, and so on behind it |
| Outcomes.ExtractInCodes | result.go:197-235 | in exit codes: Run takes 0 and the ok-codes and gives the text without trailing blanks, ExitCode any code, Probe answers 0 with yes and 1 with no; anything else is the error that carries program, outcome, both streams and mechanism |
| Render.Sanitize | errors.go:253-269 | the builder loop computes decode, escape per rune, encode |
| Render.SanitizeCases | errors.go:253-269 | from the front: a control character but tab and newline, or DEL, becomes \xNN in lower-case hexadecimal, a bidi control \uNNNN, an ill-formed byte U+FFFD, anything else stays |
| Render.SanitizeLaws | errors.go:253-269 | for every byte string: well-formed, no control rune but newline and tab, no DEL, no bidi control, idempotent |
| Render.Preview | errors.go:239-248 | the backward loop finds the last rune start at or below 200 and marks the cut |
| Render.PreviewDeterministic | errors.go:239-248 | a string has only one preview |
| Render.PreviewOfValid | errors.go:238-248 | on UTF-8 longer than 200 bytes the kept prefix is well-formed and 197 to 200 bytes long |
| Render.PreviewBound | errors.go:225-236 | a rendered preview takes at most 803 bytes whatever the input |
| Render.BoundIsReached | errors.go:225-236 | 803 is attained |
| Render.Diagnostic | errors.go:227-236 | the rendered preview of trimmed stderr unless that is empty, else of trimmed stdout: bounded, quiet, well-formed, sanitize-stable, empty exactly when both are blank |
| Render.TrimSpaceLaws | errors.go:227-236 | trimming takes white space off both ends, all of it and nothing else |
| Utf8.DecodeEncode | errors.go:256-266 | decoding the encoding of any scalars gives those scalars back |
| Utf8.DecodingStepIff | errors.go:256-266 | a string decodes to a scalar first if and only if it begins with that scalar's encoding, and over its width; when there is none it costs one byte |
| Utf8.EncodingIs | errors.go:256-266 | the encoding of a scalar in numbers: length by range, six bits in every byte after the first |
| Utf8.ScrubFixesExactlyValid | processkittest/cassette.go:61-63 | replacing ill-formed bytes by U+FFFD changes nothing exactly on UTF-8, and always yields UTF-8 |
| Pipefail.Pipefail | pipeline.go:336-382 | stdout, mechanism and duration are those of the chain; program, arguments, outcome and stderr are those of the stage that speaks, its ok-codes too, widened by its exit code when it is an unchecked last one |
| Pipefail.ExactlyOneSpeaks | pipeline.go:330-363 | in exit codes: the attributed stage is the leftmost checked one that did not exit with 0 or an ok-code and was not killed by signal 13, else the leftmost checked one that did not so exit, else the last, and no other |
| Pipefail.SuccessMeansNoCheckedFailure | pipeline.go:336-382 | in exit codes: success exactly when every checked stage exited with 0 or an ok-code of its own and the last did so too or is unchecked and exited |
| Pipefail.InsertInvisible | pipeline.go:339-344 | inserting or deleting a non-final stage that is clean or unchecked leaves the result unchanged |
| Pipeline.Output | pipeline.go:106-259 | for every chain and every failing step: which verdict when, the caller's context first; stdout of the last stage, and program, arguments and folded stderr of the stage that speaks; exactly which pipe ends were opened and stages started, in order; and the discipline below in the failing or the succeeding order |
| Pipeline.FailureIsDisciplined | pipeline.go:137-154 | after a failure: the job killed, then each parent pipe end closed exactly once, then each started stage waited for exactly once, then the job closed |
| Pipeline.SuccessIsDisciplined | pipeline.go:204-222 | on success, for every order in which the stages end: each pipe end closed exactly once before any wait, each stage waited for exactly once, the job killed and then closed |
| Pipeline.KeepsExitStatusIff | pipeline.go:204-246 | a stage keeps its exit status, 0 when its process left none, if and only if it has no timeout, or a cancellation came before its deadline, or every stage of the chain, not only this one, had ended before it, the time to the consultation included; otherwise it is timed out; all else of it is as configured and captured |
| Pipeline.NoDeadlineNoTimeout | pipeline.go:242-254 | when no stage deadline falls before the end of the chain every stage keeps its exit status |
| Pipeline.TimelyStageBlamed | pipeline.go:204-258 | a checked stage that exited with 0 in time, clean at that moment, makes the whole chain a timeout if another stage ran past its deadline and no culprit stands to its left |
| Pipeline.ShortStageTimesOut | pipeline.go:204-258 | a chain of two stages that both exit with 0, the first well in time, which Output calls a timeout of the first |
| Supervisor.Run | supervisor.go:255-328 | for every script of replies the verdict is explained: all earlier turns went on, the last one met the named stop condition, pauses and sleep are those of the turns before |
| Supervisor.ConcludedRun | supervisor.go:289-307 | in exit codes: runner calls are Restarts + 1, every turn before the last went on, Restarts never exceeds the budget and equals it when it is exhausted; the reason is the predicate, else the policy when it is Never or OnCrash after exit 0 or an ok-code, else the budget |
| Supervisor.ErroredRun | supervisor.go:277-307 | an error ends a cancelled run, or one that did not come back when the policy is Never or the budget is used up |
| Supervisor.EndedByContext | supervisor.go:273-326 | cancellation means that the context had ended before the next run or ended during a sleep after the last one |
| Supervisor.VerdictUnique | supervisor.go:273-327 | a script determines verdict and number of runs |
| Supervisor.NothingAfterCancellation | supervisor.go:273-287 | no run follows a cancelled one and none starts under an ended context |
| Supervisor.StormState.Record | supervisor.go:377-394 | the score becomes the old one times 0.5 to the number of half-lives since, plus one; exactly one when there was no failure before, no decay, or a factor that is infinite or not a number; the time becomes that of this failure |
| Supervisor.HalvingIsConsistent | supervisor.go:383-387 | some function meets all that is assumed of the decay factor |
| Supervisor.ScoreAtMostCrashes | supervisor.go:377-400 | with a clock that does not go back the score is at most the crashes since the last pause |
| Supervisor.StormPausesBounded | supervisor.go:309-320 | StormPauses × (floor(threshold) + 1) ≤ Restarts in every concluded run |
| Supervisor.SpacedCrashesNeverPause | supervisor.go:204-219 | crashes a half-life or more apart keep the score below 2, so a threshold of 2 never pauses |
| Supervisor.ExactSpacing | supervisor.go:377-394 | i + 1 crashes exactly one half-life apart, unless a pause comes first, reach a score of 2 - 0.5^i |
| Supervisor.LowerThresholdFires | supervisor.go:204-219 | for every threshold below 2 some crashes a half-life apart do pause, so 2 cannot be lowered |
| Supervisor.BackoffLaws | supervisor.go:330-348 | the delay is monotone in n and within [min(base, cap), cap], and 0 without a base |
| Supervisor.BackoffIsExponential | supervisor.go:330-348 | with x(0) the base and x(n + 1) the factor times x(n), the delay before restart n is x(n) in whole nanoseconds, or the cap once x(n) has reached it |
| Supervisor.ConstantBackoff | supervisor.go:340-342 | the first delay is min(base, cap), and with a factor of at most 1, infinite or not a number so is every other |
| Supervisor.JitterLaws | supervisor.go:353-365 | jitter multiplies by 0.5 plus the draw, in whole nanoseconds and up to the largest duration, so it stays between half and one and a half of the delay; off, it changes nothing |
| Supervisor.SleepExactly | supervisor.go:309-326 | restart by restart a pause when the guard fires and the delay of that restart, each jittered by a draw of its own; without jitter the sleep is the sum of the delays and of all pauses |
| Supervisor.TotalSleepBounded | supervisor.go:321-326 | total sleep of a concluded run ≤ 1.5 × (Restarts × cap + StormPauses × stormPause), and without the 1.5 when jitter is off |
| JsonText.ReadBack | processkittest/cassette.go:348-355 | the escaped text of any decoded string, with anything after its closing quote, can be read back exactly |
| JsonText.EscapesAre | processkittest/cassette.go:348-355 | what is escaped by number, with which digits, what by a backslash alone, and that anything else stands for itself |
| JsonText.EscapedByLetter | processkittest/cassette.go:348-355 | the five control characters that have a letter |
| JsonText.FieldRoundTrip | processkittest/cassette.go:61-63 | a byte string written to the file and read back is itself exactly when it is UTF-8 |
| JsonText.KeysAgree | processkittest/cassette.go:348-355 | two invocations share a replay key if and only if program, every argument and directory decode alike |
| JsonText.KeyInjective | processkittest/cassette.go:348-355 | on UTF-8 the key determines the invocation |
| JsonText.TwinLaws | processkittest/cassette.go:348-355 | every string has a twin that decodes alike, and is its own twin exactly when it is UTF-8 |
| JsonText.ProgramToldApartIff | processkittest/cassette.go:348-355 | the key tells a program from every other one if and only if it is UTF-8 |
| JsonText.ArgsToldApartIff | processkittest/cassette.go:348-355 | it tells the arguments apart from all others if and only if every one of them is UTF-8 |
| JsonText.DirToldApartIff | processkittest/cassette.go:348-355 | it tells a directory from every other one if and only if it is UTF-8 |
| JsonText.KeyIdentifiesIff | processkittest/cassette.go:348-355 | it identifies the whole invocation if and only if all of it is UTF-8 |
| JsonText.KeyCollision | processkittest/cassette.go:352-355 | two different ill-formed programs with one key, under any arguments and directory |
| Cassette.ReplaySlot.Play | processkittest/cassette.go:132-140 | entries in capture order, then the last one for ever |
| Cassette.Load | processkittest/cassette.go:175-189 | fails exactly when some entry is malformed, otherwise yields an index that agrees with the log key by key |
| Cassette.RecordReplayRunner.Output | processkittest/cassette.go:193-234 | stdin is rejected in both modes and changes nothing; recording appends exactly the successful runs; replay answers from the log and the lookups made so far, and misses only with the command asked for |
| Cassette.RecordReplayRunner.Save | processkittest/cassette.go:242-254 | nothing in replay mode; otherwise exactly the entries of the recorded runs, in order, as the file renders them, which load exactly when no recorded kill lacks its number and then, if the commands are text, give each of them its own outcome back |
| Cassette.Reopen | processkittest/cassette.go:142-190 | saving a recorder and replaying what was saved fails exactly when a recorded kill lacks its number, and otherwise gives a fresh replayer that serves the recorded runs |
| Cassette.LaterSaveExtends | processkittest/cassette.go:236-241 | a later Save covers everything an earlier one did |
| Cassette.OutcomeRoundTrip | processkittest/cassette.go:256-319 | an outcome is written to the field of its kind and to no other, and every one but a signal kill of unknown number survives recording, file and load |
| Cassette.ReadAs | processkittest/cassette.go:279-319 | an entry is read as the one outcome it sets, and is malformed exactly when it sets none or several |
| Cassette.LoadableIff | processkittest/cassette.go:300-319 | a saved recording loads if and only if it holds no such kill |
| Cassette.EntryInTurn | processkittest/cassette.go:132-140 | the entry at position i of a log is the one its key is up to after the lookups before i |
| Cassette.ReplayEqualsRecording | processkittest/cassette.go:207-234 | repeating a recorded session of text commands gives each position its own outcome, its command and ok-codes, no duration and no mechanism, and its own stdout and stderr exactly when they are UTF-8 |
| Cassette.InterleavingInvisible | processkittest/cassette.go:124-140 | whatever other keys are asked for in between, the lookups of one key are told exactly what they would be told in a session of their own |
| Cassette.HitsIff | processkittest/cassette.go:219-225 | a lookup hits a saved recording exactly when a recorded command, as the file renders it, is that command, and a miss names the command asked for |
| Cassette.OnlyTextHits | processkittest/cassette.go:219-225 | a command that is not UTF-8 always misses, one that is hits as soon as it was recorded |
| Retry.RetryRun | command.go:283-311 | unless a sleep was cut short the verdict is what the last attempt is worth in exit codes; the attempts made are those up to the first final one, or the first whose sleep is cut short |
| Retry.TriesLeast | command.go:204-219 | attempts = least of the budget (1 without one), the first success, the first failure the classifier rejects, a cancelled one above all, and the first sleep cut short; unless it was that, the last attempt decides |
| Retry.RetryOverReplay | command.go:283-311 | retrying against a fresh replay of the recorded attempts makes as many attempts and ends in the same value or error, up to the mechanism |
| Probe.WaitForLine | probe.go:34-79 | under any producer: what was consumed is a prefix of the stream, a success is its first match and ends there, any other ending saw no match; a match buffered at entry is found whatever timer and context do; one that comes later is found when neither is ready before it has come nor at the selects that reach it, unless the line is what is picked there |
| Probe.ScanBuffered | probe.go:44-59 | the first phase consumes at most the lines buffered at entry, up to the first match among them |
| Probe.AwaitLine | probe.go:61-78 | every select takes the case picked if it is ready, else one that is, the channel being ready as long as a line is left and at its end; the last one decides; not-ready only with the channel closed and drained or the timer fired, cancelled only when the context ended |
| Probe.MatchIsFound | probe.go:61-70 | a first match at k that has come by some select is found within the next k + 1, none of them deciding otherwise |
| Probe.WaitingMeans | probe.go:61-78 | without a verdict every select took a line that does not match or had nothing to take |
| Probe.FirstMatchBehind | probe.go:22-33 | after a stretch without a match the search goes on as if it had started behind it |
| Batch.InFlightBounded | batch.go:61-85 | in every interleaving at most max(1, concurrency) runs are in flight |
| Batch.RunsTogether | batch.go:61-85 | and any number up to that, as far as there are commands, does run at the same time in some interleaving |
| Batch.AtMostOnce | batch.go:73-82 | no command is run twice, no slot ever holds anything but its own command's result |
| Batch.ReturnsAll | batch.go:83-84 | when the call returns every command has run exactly once and every slot holds its result |
| Batch.NotStuck | batch.go:75-83 | as long as runs end, some goroutine or the caller can move until the call returns |
| Batch.RunLength | batch.go:66-85 | every interleaving ends after exactly six steps a command and one |
| Batch.OutputAll | batch.go:66-85 | whatever the scheduler picks the call ends, is one of these interleavings, and slot i is what command i came to |

## Left out

- NoOrphan.NoOrphans: for a Close that returned nil and was refused no permission; after any other a target whose own kill(2) failed may live, and `EveryMemberTried` and `NilCloseSparesOnlyEperm` say that nobody else does.
- NoOrphan.CloseReleases: waits for the process to be dead and its pipes to lose their last writer, which a failed kill(2) or a descendant outside the group could delay; so does CloseReleasesUnderInterference.
- SoloCalls.SoloStart: the machine has no pipes, so their closing is only in the contract of `Groups.Group.Start`.
- StreamingSafety.MergeAccounting: delivered plus dropped is stated for both streams together, because they share one counter.
- Supervisor.Run: float64 rounding, and a threshold that is infinite or not a number; a non-finite backoff factor and a decay factor that overflows are modelled.
- Cassette.RecordReplayRunner.Save: JSON syntax around the strings, file permissions, size and version checks; environment names, which are stored but not matched on.
- Probe.WaitForLine: the timer and the context are events of the environment; the schedule is followed for any finite number of selects.
- Retry.RetryRun: the delay itself; whether a sleep was cut short is given by the environment.
- Pipeline.Output: the bytes that flow through the pipes, and stdin of the first stage; what each stage ends with is given by the environment.
- GroupMachine and Streaming are machines over values, because the theorems are about interleavings: the objects with their fields, one call at a time, are in `Groups`, and `SoloCalls` takes each of those calls through the machine.
- The cgroup and Job Object backends, and everything that is a system call: killpg, setpgid, pipes and Wait are abstract steps.
- Shutdown and waitGrace: a signal and a bounded wait in front of Close.
- WaitForPort, WaitFor, WaitAny and WaitAll: short polling loops or single selects.
- Clients, logging, statistics, error classification, signal names, option setters and the other test doubles: tables and thin wrappers.
- Resource limits: validated before anything is started, and enforced by the kernel.
