# Furan 2: a verified model

Furan 2 is a build service. A server records a build in PostgreSQL, starts a Kubernetes job, and hands
the build over to a runner process inside that job; clients cancel and monitor the build through the
same database row and its LISTEN/NOTIFY channels. This project models that protocol and the parts of
the code whose correctness is not evident from one function body, and proves what they guarantee. Where
the code does not keep a promise, the project holds an example and the exact condition under which the
promise is kept.

`dafny verify dfyconfig.toml` checks everything.

| file | what it holds |
|---|---|
| `Models.dfy` | build statuses and their codes |
| `Lifecycle.dfy` | the build protocol: one shared row, CancelBuild and AddEvent callers, the goroutine StartBuild leaves behind, sequential attempts of `Manager.Run`, each with its cancellation goroutine |
| `CallContracts.dfy` | what single CancelBuild and AddEvent calls, and the other actors, can achieve and have achieved |
| `LifecycleSafety.dfy` | what every run of the protocol keeps, and what precedes a cancellation |
| `Abandonment.dfy` | which builds can no longer end, and how that comes about |
| `LostCancellations.dfy` | which granted cancellations can no longer take effect, and where they are lost |
| `Builder.dfy` | `Manager.Run` as code, on the shared row, with the other actors acting in between |
| `Wire.dfy` | decimal numbers, string literals, channel names, NOTIFY statements |
| `Observers.dfy` | any number of ListenForBuildRunning and ListenForBuildCompleted calls beside the protocol |
| `Monitor.dfy` | a MonitorBuild call beside the protocol |
| `Listing.dfy` | ListBuilds as a generated query and as a chain of filters |
| `TagCheck.dfy`, `Images.dfy` | the registry checkers, image names, skipping against pushing, and the whole decision from answers to names |
| `JobWatcher.dfy`, `Retry.dfy`, `TempPaths.dfy`, `StreamAdapter.dfy` | the watch loop of a job, the retry loop, temporary paths of the build cache, the in-process event stream |

## How the protocol is modelled

* A step is one statement: a read of the row, a LISTEN, or the commit of an UPDATE with its NOTIFY. No
  UPDATE carries a guard, so every check is separated from its write. Every choice the world makes is
  part of the step's label; a run is a sequence of labels, and the state it leads to is a function of
  the sequence (`After`). Theorems hold for all runs.
* A write is `Acked`, `Refused`, or `Lost`: committed although the client was told that it failed.
  `Lost` is not in the code, but a connection that breaks during COMMIT produces it.
* Attempts of one job do not overlap (pkg/jobrunner/furanjob.go:17-19 sets parallelism and completions to
  one), but each may crash at any step. How many attempts there are comes with the creation of the job:
  theorems hold for any number, of which the code sets four (pkg/jobrunner/furanjob.go:19: one and three
  retries). A job may exist although its creation was reported as failed, and may end at any time.
* The goroutine StartBuild leaves behind may crash at any step as well.
* The database has the semantics of `PostgresDBLayer`. The fake's CancelBuild, AddEvent and
  SetBuildAsCompleted drop checks and the completion time, and are not modelled.
* A connection of the listen pool is taken to carry only the registration of the call that holds it.
  The code releases such connections without UNLISTEN (pkg/datalayer/datalayer.go:313-316), so this is an
  assumption.
* A cancelled context can make any write or call fail; failures are free choices, so cancellation adds
  none. Events that the runner and the server add themselves are calls among those of any other caller.
* A stored row has a known status, timestamps from a clock (after Go's zero time), and a completion time
  if its status is terminal.
* In `Builder.dfy` the parameter `others` is the schedule of everybody else. It is universally
  quantified; steps in it that are not possible are passed over.

The definitions correspond to the source as follows: `Lifecycle.Apply` and `Lifecycle.Enabled` to
pkg/builder/builder.go:126-254, pkg/datalayer/datalayer.go:337-447, pkg/datalayer/datalayer.go:487-506 and
pkg/grpc/grpc.go:340-371; `Observers.OnRead` and `Observers.OnPayload` to pkg/datalayer/datalayer.go:452-553;
`Monitor.Moved` to pkg/grpc/grpc.go:429-513; `Listing.Keeps` to pkg/datalayer/fake.go:114-164;
`Listing.EvalWith` to pkg/datalayer/datalayer.go:215-246 under SQL's three-valued logic.

## Where the code and its words part

* "Ensure the build is always marked as completed" (pkg/builder/builder.go:172): a build can still end if and only
  if it has not been abandoned (`EndsExactlyUnlessAbandoned`). Abandoned means that the server goroutine
  has left and no attempt is left that could end the build: none past its check if the build was taken
  over, none present or still granted if it was not. Such a build stays NotStarted, Running or
  CancelRequested for ever (`AbandonedNeverEnds`). `HowABuildIsAbandoned` lists all steps with that
  effect; besides crashes, lost acknowledgements and refused writes, a CancelBuild that commits after the
  build has succeeded is enough (`LateCancelAbandons`), and so is a false running signal (`NeverStarts`).
* A terminal status "will not change" (pkg/models/models.go:84): it can, by a writer that was already past its
  check (`CancelOverwritesSuccess`); `WritableExactlyWhenNotQuiescent` says exactly when.
* A CancelBuild that reports success may never reach the runner (`CancelCanBeMissed`,
  `CancelCanMeetNobody`). `CancelledExactlyWhenTold` says exactly when it still can,
  `WhereACancelIsLost` where it was lost otherwise, and `MissedForever` that nothing repairs it.
* A build whose runner was told to cancel may end as Failure, since the context is cancelled before the
  flag is set (`CancelledRunMayFail`).
* Run takes the commit-SHA flag from the request, genSolveOpt from the build; `FlagsAgreeExactly` says
  when that makes no difference. StartBuild sets both to the same value.
* A failed listener both posts an error and closes the running channel; a watcher that takes the latter
  reports a build as running that never was (`FalseSignal`).
* MonitorBuild "streams events from a specified build until completion" (pkg/grpc/grpc.go:428): a client has the
  whole log if and only if no event fell between the read of the row and the LISTEN (`WholeLogExactly`),
  and once the listening or the forwarding goroutine has given up, which the call does not notice, it gets
  at most one more event (`LastDelivery`).
* ListenForBuildCompleted "blocks and listens" (pkg/datalayer/datalayer.go:508): if no verdict is to come it does so
  until it is given up, and `ReturnsExactlyUnlessOver` says exactly when it can still return a status.
* ListBuilds answers like the fake if and only if a criterion besides the limit is set and the options
  are agreeable (`AlikeExactly`). They are not when CompletedAfter lies before Go's zero time, outside the
  documented range (protos/api.proto:24-26), unless another criterion excludes builds that have not ended.
  With nothing but a limit the statement has an empty WHERE clause and is rejected, while the fake answers.
* "At least one field of opts must be a non-zero value" (pkg/datalayer/datalayer.go:193) does not keep such options
  out, nor does the handler's check: it lets through requests whose only criteria are void (an unknown
  state number, or the zero time), and with a limit these lead to the malformed statement
  (`MalformedExactly`, `MalformedIsAdmitted`).

## Model

| member | source | states |
|---|---|---|
| Models.TerminalExactly | pkg/models/models.go:84-122 | the terminal statuses are Success, Failure, Skipped and Cancelled, and events may be added to and listened for on exactly the others |
| CallContracts.RowAfterWrite | pkg/datalayer/datalayer.go:431-447 | what each of the six status writes leaves in the row: nothing if refused, and otherwise, acknowledged or not, its status, the unchanged log, and a completion time for terminal ones |
| CallContracts.AddEventChecks | pkg/datalayer/datalayer.go:337-344 | an AddEvent call that begins in any run is past its check if and only if the build it reads has not ended, and is refused otherwise |
| CallContracts.AddEventSucceedsExactly | pkg/datalayer/datalayer.go:336-360 | an AddEvent call that begins now can succeed, in some continuation, if and only if the build has not ended |
| CallContracts.AddedMeansAppended | pkg/datalayer/datalayer.go:345-359 | a call that returned success had read an ongoing build, and its acknowledged write appended exactly its event to the log |
| CallContracts.CancelBuildSucceedsExactly | pkg/grpc/grpc.go:516-537 | a CancelBuild call that begins now can succeed, in some continuation, if and only if the build is Running |
| CallContracts.GrantedMeansWritten | pkg/datalayer/datalayer.go:368-392 | a call that returned success found the build Running at both reads and was then acknowledged |
| CallContracts.ReportsFailureExactly | pkg/grpc/grpc.go:349-365 | the goroutine is about to write Failure if and only if it was told that the job could not be started or will not run, and has neither written since nor crashed |
| CallContracts.ListenerReads | pkg/datalayer/datalayer.go:397-408 | what the cancellation goroutine makes of each status it may read, and of a failed read |
| CallContracts.ListenerGoesOn | pkg/builder/builder.go:160-165 | it may fail to listen and to wait; told of a cancellation it cancels the context first and sets the flag then |
| CallContracts.CallersMayCome | pkg/datalayer/datalayer.go:336-345 | CancelBuild and AddEvent calls may begin in every state |
| CallContracts.ServersMayCrash | pkg/jobrunner/furanjob.go:17-22 | the server may crash, and the job may end, in every state |
| CallContracts.AttemptsMayCrash | pkg/jobrunner/furanjob.go:17-22 | an attempt may crash wherever it is, which leaves the row alone; it may begin as long as the job grants one, and uses that up |
| CallContracts.WritesMayFail | pkg/datalayer/datalayer.go:345-358 | a write that is due may be acknowledged, lost or refused |
| LifecycleSafety.StepKeepsInv | pkg/builder/builder.go:126-186 | every step of every actor keeps the protocol's invariant: who may own the build, when it has left NotStarted, that an ended build has a completion time |
| LifecycleSafety.RunsKeepInv | pkg/builder/builder.go:126-186 | the invariant holds after every run |
| LifecycleSafety.LastWrite | pkg/datalayer/datalayer.go:487-506 | the status is the one most recently committed; names the commit |
| LifecycleSafety.CallsBounded | pkg/builder/builder.go:153-157 | BRunner.Build has been called at most once, and not at all before the Running write has committed |
| LifecycleSafety.BuildsAtMostOnce | pkg/builder/builder.go:126-157 | over any number of attempts, crashing anywhere, no two steps call BRunner.Build |
| LifecycleSafety.NotStartedIsNeverReentered | pkg/builder/builder.go:131-133 | once a build has left NotStarted it never has that status again |
| LifecycleSafety.HandsOffAtMostOnce | pkg/builder/builder.go:153-157 | after one committed Running write no attempt gets as far as another |
| LifecycleSafety.StaysHandedOff | pkg/builder/builder.go:153-157 | a hand-off is not undone by later steps |
| LifecycleSafety.QuiescentStep | pkg/datalayer/datalayer.go:368-392 | with no writer past its check, no step of an ended build commits a status or lets a writer past its check |
| LifecycleSafety.DrainedStep | pkg/datalayer/datalayer.go:337-345 | with no AddEvent past its check either, no step changes the row or lets an AddEvent past its check |
| LifecycleSafety.TerminalIsAbsorbing | pkg/datalayer/datalayer.go:487-506 | once in-flight writers have drained, a terminal status is never written again in any continuation |
| LifecycleSafety.EventsAreFinal | pkg/datalayer/datalayer.go:337-360 | and once no AddEvent is past its check, the row, events included, never changes again |
| LifecycleSafety.DrainCommits | pkg/builder/builder.go:172-186 | any pending writer of an ended build can get its write committed within two steps |
| LifecycleSafety.WritableExactlyWhenNotQuiescent | pkg/datalayer/datalayer.go:368-392 | an ended build's status can be written again in some continuation if and only if some writer is past its check |
| LifecycleSafety.OverwriteIsPending | pkg/grpc/grpc.go:340-371 | a step that changes a terminal status is the pending write of a CancelBuild caller, of the StartBuild goroutine or of an attempt past its check |
| LifecycleSafety.CancelOverwritesSuccess | pkg/models/models.go:84-98 | a run in which CancelBuild turns a completed Success into CancelRequested |
| Abandonment.AbandonedStep | pkg/builder/builder.go:131-133 | no step gets an abandoned build out of that condition |
| Abandonment.AbandonedNeverEnds | pkg/builder/builder.go:131-133 | an abandoned build stays abandoned, whatever attempts and callers follow |
| Abandonment.OnwardsStep | pkg/grpc/grpc.go:340-371 | unless no verdict is to come, some step commits a terminal status or brings one closer |
| Abandonment.NoVerdictStep | pkg/builder/builder.go:131-157 | with the server gone and no attempt left that could take the build anywhere, no step commits a terminal status or leaves that condition |
| Abandonment.NoVerdictComes | pkg/builder/builder.go:131-157 | nor does any continuation |
| Abandonment.WayToVerdict | pkg/builder/builder.go:172-186 | in all other states a continuation that ends with the commit of a terminal status, within the pods the job still grants |
| Abandonment.CommitsExactlyUnlessOver | pkg/datalayer/datalayer.go:487-506 | for every run: a terminal status can still be committed if and only if the server or an attempt is left that can; an attempt counts for a NotStarted build only if it is past its begin or a pod is left |
| Abandonment.WayToEnd | pkg/builder/builder.go:172-186 | a continuation in which a build that is not abandoned has ended, within the pods the job still grants |
| Abandonment.EndsExactlyUnlessAbandoned | pkg/builder/builder.go:172-186 | for every run and any number of pods: a build can still end, in some continuation, if and only if it has not been abandoned |
| Abandonment.CommitsExactlyUnlessAbandoned | pkg/builder/builder.go:172-186 | on a build that is Running or CancelRequested a terminal status can still be committed if and only if it has not been abandoned |
| Abandonment.CrashAbandons | pkg/builder/builder.go:172-186 | a run in which a crash after the hand-off abandons the build |
| Abandonment.HowABuildIsAbandoned | pkg/builder/builder.go:126-186 | a step abandons a build if and only if it is one of nine. The server has left, and: the last attempt crashes, fails to read the row, has its Running write lost or refused, or its last write refused; the job ends before the build was taken over; or a CancelBuild commits on an ended build that everybody has left. Or no attempt is left, and the server takes the job for running, has its Failure write refused, or crashes |
| Abandonment.AbandoningStep | pkg/grpc/grpc.go:349-370 | the same for any state that meets the invariant |
| Abandonment.ReasonOfAbandonment | pkg/builder/builder.go:153-186 | a build that was taken over, has not ended and has no attempt at work has one of four reasons in its run: a crash, a lost acknowledgement, a refused last write, a late cancellation |
| Abandonment.StrandingStep | pkg/builder/builder.go:153-186 | the step by which the last attempt leaves such a build, or a caller un-ends it |
| Abandonment.ReasonOfLeaving | pkg/grpc/grpc.go:349-370 | the server has left a NotStarted build because it crashed, took the job for running, or had its Failure write refused |
| Abandonment.LeavesNotStarted | pkg/datalayer/datalayer.go:431-447 | a build that is NotStarted after a step was so before it, and the step committed no status |
| Abandonment.LateCancelAbandons | pkg/datalayer/datalayer.go:373-391 | a run without crash, loss or refusal in which a build that succeeded waits for its cancellation for ever |
| Abandonment.NeverStarts | pkg/grpc/grpc.go:349-370 | a run in which the server takes the job for running, the job ends, and the build stays NotStarted for ever |
| LifecycleSafety.OriginOfPending | pkg/datalayer/datalayer.go:381-390 | a notification that waits for the cancellation goroutine stems from a committed CancelBuild |
| LifecycleSafety.OriginOfCheck | pkg/datalayer/datalayer.go:369-375 | a CancelBuild past its check has itself read Running |
| LifecycleSafety.OriginOfNil | pkg/builder/builder.go:160-165 | a goroutine that sets out to cancel was told so by ListenForCancellation within the same attempt |
| LifecycleSafety.NilNeedsCancelCommit | pkg/datalayer/datalayer.go:394-423 | ListenForCancellation returns nil only after a CancelBuild has committed |
| LifecycleSafety.OriginOfVerdict | pkg/builder/builder.go:173-180 | an attempt decides on Cancelled if and only if the flag was set when it read the flag |
| LifecycleSafety.NilEndsChain | pkg/datalayer/datalayer.go:368-423 | before such a nil return there are, in this order, a committed Running write, a read of Running by a CancelBuild call, and the commit of that same call |
| LifecycleSafety.FlagNeedsNil | pkg/builder/builder.go:160-184 | a committed Cancelled is preceded by a nil return of ListenForCancellation in the same attempt |
| LifecycleSafety.CancelledHasCause | pkg/builder/builder.go:155-186 | every committed Cancelled ends the whole chain: hand-off, read of Running, commit of the same call, nil return in the attempt that writes |
| LifecycleSafety.CancelledRunMayFail | pkg/builder/builder.go:162-163 | a run that ends as Failure although its goroutine was told to cancel and cancelled the context |
| LostCancellations.OriginOfListening | pkg/datalayer/datalayer.go:396-418 | a waiting cancellation goroutine read Running, then issued its LISTEN, and holds exactly as many notifications as CancelBuild commits happened since |
| LostCancellations.RunningMeansNotCancelled | pkg/datalayer/datalayer.go:373-383 | while the status is Running no CancelBuild has ever committed |
| LostCancellations.CancelLostOnlyInWindow | pkg/datalayer/datalayer.go:396-423 | a committed CancelBuild unknown to a goroutine that waits fell between its read and its LISTEN |
| LostCancellations.StaysMissed | pkg/datalayer/datalayer.go:368-375 | no step brings a runner that cannot be told back into a state in which it can, and none writes Cancelled |
| LostCancellations.MissedForever | pkg/datalayer/datalayer.go:368-375 | in every continuation a missed cancellation stays missed |
| LostCancellations.NeverCancelled | pkg/datalayer/datalayer.go:368-375 | and Cancelled is never written |
| LostCancellations.TowardsStep | pkg/builder/builder.go:160-181 | a granted cancellation that the runner can be told of has a step that brings the Cancelled write closer |
| LostCancellations.WayToCancelled | pkg/builder/builder.go:160-184 | a continuation that ends with the Cancelled write |
| LostCancellations.CancelledExactlyWhenTold | pkg/builder/builder.go:155-186 | with status CancelRequested, some continuation commits Cancelled if and only if the attempt has decided so, or has yet to read the flag while its goroutine has yet to read the row, has been told, or is between read and LISTEN or waits and some further caller is past its check |
| LostCancellations.OriginOfStopped | pkg/datalayer/datalayer.go:397-421 | a goroutine that stopped did so on an error or an unexpected status |
| LostCancellations.WhereACancelIsLost | pkg/datalayer/datalayer.go:396-423 | a granted cancellation that cannot take effect was lost in one of three places: the attempt was over or had read the flag, the goroutine had given up, or the commit fell between its read and its LISTEN, issued or not |
| LostCancellations.CancelCanMeetNobody | pkg/builder/builder.go:160-165 | a run in which CancelBuild reports success although the goroutine gave up before any LISTEN |
| LostCancellations.CancelCanBeMissed | pkg/grpc/grpc.go:516-537 | a run in which CancelBuild reports success and the runner waits on, uninformed |
| Builder.CheckRepos | pkg/builder/builder.go:203-217 | the loop with its early exit says yes if and only if all registries answer that all tags exist, fails if and only if one fails before any lacks a tag, and says no if and only if one lacks a tag before any fails |
| Builder.World.Do | pkg/builder/builder.go:126-254 | a step of the attempt extends the run; the recorded writes and calls are those of the run |
| Builder.World.Interfere | pkg/builder/builder.go:126-254 | steps of the other actors extend the run but neither move the attempt nor add to its writes and calls |
| Builder.World.CallsAtMostOnce | pkg/builder/builder.go:246-249 | whatever happened on the row so far, BRunner.Build was called at most once |
| Builder.Manager.TakeOver | pkg/builder/builder.go:126-157 | the hand-off happens if and only if the row can be read and is NotStarted at this very read, and the Running write is acknowledged; Running is committed if and only if that read passed and the write commits |
| Builder.Manager.Work | pkg/builder/builder.go:188-254 | between hand-off and return: nil if and only if the work came to a good end and that was recorded; at most Skipped or Success is written, whichever is due |
| Builder.Manager.Skip | pkg/builder/builder.go:218-225 | a build whose images exist is recorded as skipped without a build; the result is that of the write |
| Builder.Manager.Execute | pkg/builder/builder.go:246-253 | one call of the image builder; Success is written only after it returned nil |
| Builder.Manager.Conclude | pkg/builder/builder.go:172-186 | the deferred completion writes Cancelled if the flag was set when it looked, and Failure otherwise |
| Builder.Manager.Run | pkg/builder/builder.go:113-254 | one attempt under any interference and any answers of its dependencies: exactly when it takes over the build, and without that an untouched status unless the Running write was reported as failed but committed; with it the exact statuses committed, calls and result; at most one image build over all attempts; Cancelled if and only if the flag was set when it looked |
| Builder.CompletionContract | pkg/builder/builder.go:172-254 | if the deferred write commits where due, an attempt that took over ends the build: Success or Skipped if and only if Run returns nil, Failure or Cancelled if and only if it errs, in one commit unless a commit was reported as failed |
| Builder.BuildsExactly | pkg/builder/builder.go:188-246 | the image is built if and only if credential, commit, skip test (a tag missing before any registry failed, if asked for), temporary directory, fetch and context directory were all fine |
| Builder.EarlyExit | pkg/builder/builder.go:208-217 | the skip test has three outcomes, of which exactly one occurs |
| Builder.SucceedsExactly | pkg/builder/builder.go:219-253 | Run returns nil after the hand-off if and only if all tags exist where that was asked for, or the image was built, and that was acknowledged |
| Builder.FailsEarly | pkg/builder/builder.go:188-241 | a dependency that fails before the build means no build, no Success and no Skipped, only the verdict of an error |
| Wire.DigitsRoundTrip | pkg/datalayer/datalayer.go:544 | decimal digits parse back to the number they print |
| Wire.AtoiRoundTrip | pkg/datalayer/datalayer.go:544-547 | strconv.Atoi undoes %d for all 64-bit integers, negative ones included |
| Wire.LexDoubled | pkg/datalayer/datalayer.go:332-334 | doubled text inside a string literal reads back as itself, whatever follows |
| Wire.QuoteRoundTrip | pkg/datalayer/datalayer.go:332-334 | a quoted string followed by a suffix lexes to the string and that suffix if and only if the suffix does not begin with a quote |
| Wire.NothingToDouble | pkg/datalayer/datalayer.go:332-334 | text without quotes is sent as it is |
| Wire.HexInjective | pkg/datalayer/datalayer.go:327-329 | different bytes have different hexadecimal forms |
| Wire.HexRoundTrip | pkg/datalayer/datalayer.go:327-329 | every byte is read back from its two digits |
| Wire.UuidStringAt | pkg/datalayer/datalayer.go:327-329 | the canonical form has hyphens at its four places and lower-case digits elsewhere |
| Wire.UuidStringInjective | pkg/datalayer/datalayer.go:327-329 | different ids have different canonical forms |
| Wire.ChannelNameSpelled | pkg/datalayer/datalayer.go:327-329 | a channel name is the prefix of its kind and the id with underscores for hyphens |
| Wire.ChannelNameInjective | pkg/datalayer/datalayer.go:482-484 | equal channel names mean equal kind and equal build id, across all four kinds |
| Wire.ChannelNameChars | pkg/datalayer/datalayer.go:363-365 | channel names consist of lower-case letters, digits and underscores |
| Wire.ChannelNameIsIdentifier | pkg/datalayer/datalayer.go:426-428 | case folding and truncation at 63 bytes leave every channel name as it is |
| Wire.NotifyParts | pkg/datalayer/datalayer.go:353-355 | a NOTIFY statement with a quoted payload is read as that channel and that payload |
| Wire.NotifyDelivers | pkg/datalayer/datalayer.go:353-355 | any event text arrives unchanged on the very channel of its build |
| Wire.StatusLiteral | pkg/datalayer/datalayer.go:499 | a status sent as a number needs no quoting and is recovered by the receiver |
| Observers.HistoryIsRun | pkg/datalayer/datalayer.go:452-553 | beside any number of listening calls the protocol makes ordinary runs, so all its theorems apply |
| Observers.DeliveryIsExact | pkg/datalayer/datalayer.go:465-478 | a waiting call receives the notifications of its own build and kind and no other, even when other builds notify |
| Observers.QueueIsPayloads | pkg/datalayer/datalayer.go:528-537 | a waiting call holds all matching payloads since its LISTEN, in order, and nothing else |
| Observers.SubscribedOnce | pkg/datalayer/datalayer.go:534-537 | a call subscribes once |
| Observers.WokenExactlyWhenNotified | pkg/datalayer/datalayer.go:474-478 | a waiting call can return if and only if a matching write has committed since its LISTEN |
| Observers.OriginOfCall | pkg/datalayer/datalayer.go:513-536 | a waiting call read a status that sends it waiting, and issued its LISTEN afterwards |
| Observers.LastWriter | pkg/datalayer/datalayer.go:487-506 | the status a call reads is the last one committed, if any was, after any earlier commit one cares to name |
| Observers.ResultIsSound | pkg/datalayer/datalayer.go:508-553 | a status that a call returns was committed for this build: Running for ListenForBuildRunning, a terminal one for ListenForBuildCompleted |
| Observers.AnsweredAtOnce | pkg/datalayer/datalayer.go:517-526 | over all histories: a ListenForBuildCompleted that reads an ended build has returned exactly that status, a ListenForBuildRunning that reads Running has returned nil, one that can wait is about to listen, and any other status is an error |
| Observers.ErrorHasCause | pkg/datalayer/datalayer.go:457-477 | a call reports an error only if it was given up, its LISTEN failed, or it read a status on which it has no answer and cannot wait |
| Observers.ListensOrFails | pkg/datalayer/datalayer.go:528-540 | a call about to listen subscribes with nothing received or fails, and one that waits may be given up |
| Observers.WokenIsNil | pkg/datalayer/datalayer.go:474-478 | a ListenForBuildRunning that has been notified returns nil when woken |
| Observers.OriginOfQueued | pkg/datalayer/datalayer.go:537-552 | the first payload received decodes to a status committed for this build |
| Observers.PayloadMeaning | pkg/datalayer/datalayer.go:544-552 | what a call makes of a payload is the status that was written |
| Observers.OverwrittenByRunning | pkg/datalayer/datalayer.go:519-526 | if a matching write came before the read that sent a call waiting, Running was written in between |
| Observers.MissedOnlyInWindow | pkg/datalayer/datalayer.go:513-537 | a matching write that a waiting call does not know of fell between its read and its LISTEN, or was overwritten with Running before the read |
| Observers.NotStartedMeansUnwritten | pkg/datalayer/datalayer.go:431-447 | a status that was written once is never NotStarted again |
| Observers.MissedEndIsMissedForever | pkg/datalayer/datalayer.go:528-540 | if no verdict is to come (ended, abandoned or never started), a call that has received none waits until it is given up |
| Observers.OnlyVerdictsNotify | pkg/datalayer/datalayer.go:496-502 | exactly the commits of terminal statuses notify such a call |
| Observers.Witnessed | pkg/datalayer/datalayer.go:533-537 | any protocol step, seen by a waiting call: the queue grows by the matching payload and nothing else changes for it |
| Observers.WayToReturn | pkg/datalayer/datalayer.go:508-553 | otherwise a continuation in which the call returns the status of the end |
| Observers.ReturnsExactlyUnlessOver | pkg/datalayer/datalayer.go:508-553 | a waiting ListenForBuildCompleted that has received nothing can still return a status if and only if a terminal status can still be committed for its build |
| Observers.EndCanBeMissed | pkg/datalayer/datalayer.go:519-536 | for every build id, a history in which a call misses the end in that window |
| Monitor.NotifiedIsAppended | pkg/datalayer/datalayer.go:350-358 | the payload notified on the event channel is the event appended to the row, for every step |
| Monitor.LogGrows | pkg/datalayer/datalayer.go:350-352 | the log only ever grows, by the event appended |
| Monitor.GrowthKeepsStreamInv | pkg/grpc/grpc.go:463-505 | growth of the log keeps what was received and what is on its way a block of the log |
| Monitor.CoreKeepsInv | pkg/grpc/grpc.go:429-513 | concurrent steps of the protocol keep the stream's invariant |
| Monitor.ReplayKeepsInv | pkg/grpc/grpc.go:442-461 | replaying the row keeps it |
| Monitor.SourceKeepsInv | pkg/grpc/grpc.go:468-480 | the listening goroutine keeps it |
| Monitor.ForwardingKeepsInv | pkg/grpc/grpc.go:482-505 | the forwarding goroutine keeps it |
| Monitor.HistoriesKeepInv | pkg/grpc/grpc.go:429-513 | it holds in every history |
| Monitor.OriginOfReplay | pkg/grpc/grpc.go:434-451 | a call replays the events and goes by the status of the row it has read |
| Monitor.SameReplay | pkg/grpc/grpc.go:443-471 | only closing and beginning to follow end a replay, after the whole row, the one on an ended build and the other on an ongoing one |
| Monitor.ReplayedIsRow | pkg/grpc/grpc.go:434-471 | over all histories: a call that follows or has closed had replayed exactly the events of the row it read, and has closed if and only if that build had ended |
| Monitor.OriginOfSince | pkg/datalayer/datalayer.go:314-316 | the live block begins with the length of the log at the LISTEN |
| Monitor.ReplayCompletes | pkg/grpc/grpc.go:443-461 | the whole row can be sent, and the call then closes or follows, by the status it read |
| Monitor.SourceChecks | pkg/datalayer/datalayer.go:302-308 | the listening goroutine goes on to subscribe if and only if the build it reads has not ended |
| Monitor.FailuresEndTheirPart | pkg/grpc/grpc.go:470-504 | a failed send ends the replay or the forwarding, a failed wait the source, and nothing is received by it |
| Monitor.PrefixAndLive | pkg/grpc/grpc.go:442-505 | what a call has received is a prefix of the log and a later block of it |
| Monitor.StreamOrder | pkg/grpc/grpc.go:442-505 | a client receives a prefix of the log and then a contiguous block from a later point: nothing twice, reordered or invented; once the call follows or has closed, the prefix is exactly the row as it was read, and a closed stream has no block |
| Monitor.NothingLostAfterListen | pkg/datalayer/datalayer.go:314-323 | while the stream works, what was received live, is in the forwarder, in the source and in the connection is, in order, exactly the log since the LISTEN |
| Monitor.CatchesUp | pkg/grpc/grpc.go:485-504 | on a working stream everything on its way can get to the client: the row as it was read and the log since the LISTEN |
| Monitor.WholeLogExactly | pkg/grpc/grpc.go:428-505 | once nothing is on its way on a working stream, the client has the whole log if and only if the log was as long at the LISTEN as at the read of the row, both located in the history |
| Monitor.EbbingStep | pkg/grpc/grpc.go:468-505 | a call that has returned, or whose source or forwarder has given up, stays so, and gets at most what the forwarder has in hand |
| Monitor.LastDelivery | pkg/grpc/grpc.go:468-505 | over every continuation such a call gets at most that one event |
| Monitor.DeliversExactlyInHand | pkg/grpc/grpc.go:485-504 | such a call can still get something if and only if the forwarder has an event in hand |
| Monitor.EventsCanBeMissed | pkg/grpc/grpc.go:434-480 | for every build and event, a history in which an event between the read and the LISTEN is in neither part |
| Listing.OneMore | pkg/datalayer/datalayer.go:215-218 | appending a condition with the next placeholder and its argument adds exactly that criterion to the clause |
| Listing.Branch | pkg/datalayer/datalayer.go:211-218 | one of the eight branches keeps placeholders in step with arguments and the clause equivalent to the criteria so far |
| Listing.Conditions | pkg/datalayer/datalayer.go:210-246 | the clause holds of a row if and only if the row meets every criterion set; placeholders are $1 to $n in order, each bound to its own value |
| Listing.Validate | pkg/datalayer/datalayer.go:195-209 | refuses empty options and windows that begin where they end, and nothing else |
| Listing.GenerateQuery | pkg/datalayer/datalayer.go:194-258 | the options are refused exactly when they ask for nothing or for an empty window; the statement has no condition, and is rejected by PostgreSQL, exactly when they are not refused and nothing but the limit is set; otherwise it renders all criteria, with a LIMIT if and only if one is set |
| Listing.ConditionForCriterion | pkg/datalayer/datalayer.go:247-255 | the clause is empty if and only if no criterion is set |
| Listing.Filter | pkg/datalayer/fake.go:99-107 | the closure keeps exactly the builds that pass, in order |
| Listing.FilterStep | pkg/datalayer/fake.go:114-118 | one more filter in the chain keeps the builds that meet one more criterion |
| Listing.Narrow | pkg/datalayer/fake.go:114-118 | one of the eight branches |
| Listing.Filters | pkg/datalayer/fake.go:114-164 | the chain keeps the builds that meet every criterion set, in order |
| Listing.FakeListBuilds | pkg/datalayer/fake.go:80-169 | the fake's answer: the kept builds, cut off at the limit, or a refusal in the same cases as the query |
| Listing.TestAgreement | pkg/datalayer/datalayer.go:231-246 | SQL's reading of a criterion, null included, and the fake's differ exactly for CompletedAfter before the zero time on a build that has not ended |
| Listing.RowAgreement | pkg/datalayer/fake.go:139-143 | otherwise clause and filters agree on a row |
| Listing.UnendedRow | pkg/datalayer/fake.go:149-163 | a build that has not ended is excluded by both when the other criteria rule it out |
| Listing.WitnessDiffers | pkg/datalayer/fake.go:139-143 | for all other options there is a build, not yet ended and as StartBuild would store it, on which the two differ |
| Listing.RowsAgreeExactly | pkg/datalayer/datalayer.go:231-234 | the criteria under SQL and the filters agree on every row the service can store if and only if CompletedAfter is not before the zero time, or another criterion (a bound on completion, an impossible window, a terminal status) excludes builds that have not ended |
| Listing.SelectedIsKept | pkg/datalayer/datalayer.go:262-276 | for agreeable options the rows selected from any table are those the filters keep |
| Listing.OrderDoesNotMatter | pkg/datalayer/fake.go:108-113 | which builds are kept does not depend on the order in which the store is iterated |
| Listing.KeptIsAnswer | pkg/datalayer/fake.go:165-168 | for agreeable options what the fake keeps, cut off at the limit, is an answer of the clause |
| Listing.ListingsAgree | pkg/datalayer/fake.go:80-169 | for agreeable options, over the same builds in any order, the fake returns a listing that the query may return if and only if there is a criterion besides the limit: the same builds without a limit, min(limit, matches) of them with one |
| Listing.ListingsDiffer | pkg/datalayer/fake.go:139-143 | for all other options there is a store of one build that the fake returns and the query does not |
| Listing.AlikeExactly | pkg/datalayer/datalayer.go:210-276 | for options that neither side refuses: the fake answers as PostgreSQL may, over all tables and all orders of the store, if and only if the options are agreeable and there is a criterion besides the limit |
| Listing.ListBoth | pkg/datalayer/fake.go:80-169 | the two implementations run on the same builds: they refuse the same options; for agreeable ones the answer of the fake is one the query may return if and only if there is a criterion, and where the statement is malformed the fake answers nevertheless |
| Listing.RequestMeans | pkg/grpc/grpc.go:539-560 | the criteria made from a request hold of a row if and only if the row meets the request, field by field: repository, ref, image repository, named state, four optional times, nulls included |
| Listing.VoidExactly | pkg/grpc/grpc.go:539-560 | a request makes no criterion if and only if all its criteria are void |
| Listing.HandleListBuilds | pkg/grpc/grpc.go:562-576 | from request to query: refused as invalid if and only if no field is set, failing if and only if all criteria are void or the two ends of a window are the same instant, and otherwise a query whose clause holds exactly of the rows that meet the request, with the limit of the request |
| Listing.MalformedExactly | pkg/grpc/grpc.go:562-573 | an admitted request leads to a malformed statement if and only if its only criteria are void ones and it has a limit |
| Listing.MalformedIsAdmitted | pkg/grpc/grpc.go:562-572 | the handler's check admits such a request |
| TagCheck.GcrCheckTag | pkg/tagcheck/gcr.go:50-70 | says present if and only if the list parsed and holds the tag; absent and failing answers are kept apart |
| TagCheck.CheckEach | pkg/tagcheck/quayio.go:42-50 | for each tag: present if and only if the registry found it and, for GCR, the parsed list holds it; failing if and only if the answer was neither found nor not found, or the list did not parse |
| TagCheck.AllTagsExist | pkg/tagcheck/quayio.go:54-69 | fails if and only if the repository or some tag's request fails; otherwise lists the absent tags in order with repetitions, and ok means none |
| TagCheck.Visit | pkg/tagcheck/ecr.go:70-79 | the page callback removes exactly the tags listed in the page |
| TagCheck.VisitAll | pkg/tagcheck/ecr.go:69-79 | all pages together remove exactly their tags |
| TagCheck.ListedExactly | pkg/tagcheck/ecr.go:70-78 | a tag is among the listed ones if and only if some image on some page of some answer has it, at whatever place |
| TagCheck.SplitRepo | pkg/tagcheck/ecr.go:29-36 | accepts exactly the names with a server part and a name part without a tag |
| TagCheck.EcrAllTagsExist | pkg/tagcheck/ecr.go:28-95 | what remains is each requested tag listed in no page of any answer, once; fails exactly on bad names, bad registries and errors other than a missing image |
| TagCheck.Enumerate | pkg/tagcheck/ecr.go:88-94 | ranging over the map yields each missing tag once |
| TagCheck.EcrMissingIsAbsent | pkg/tagcheck/ecr.go:68-87 | for a truthful registry the nested loops leave exactly the tags that do not exist |
| TagCheck.AbsentTags | pkg/tagcheck/gcr.go:78-88 | for a truthful registry the loop lists exactly the tags that do not exist |
| TagCheck.NoneAbsent | pkg/tagcheck/quayio.go:58-68 | for a truthful registry the list is empty if and only if all tags exist |
| TagCheck.NoneMissing | pkg/tagcheck/ecr.go:68-94 | for a truthful registry the set is empty if and only if all tags exist |
| TagCheck.CheckersAgree | pkg/tagcheck/gcr.go:73-89 | ECR's set is the set of the tags Quay and GCR list, and empty if and only if all tags exist |
| Images.EverySlotOwned | pkg/buildkit/buildkit.go:68-73 | every slot of the slice belongs to some pair of indices |
| Images.SlotBijection | pkg/buildkit/buildkit.go:68-73 | pairs of indices and slots are in one-to-one correspondence, for all lengths |
| Images.ImageNames | pkg/buildkit/buildkit.go:67-75 | each slot is written exactly once, in order, and holds the name of its own pair |
| Images.PushedExactly | pkg/buildkit/buildkit.go:164-175 | a name is pushed if and only if it is a repository, a colon and a tag of the build, or the commit SHA where the flag is set |
| Images.ChecksDecideNames | pkg/builder/builder.go:203-217 | truthful registries say yes for every repository if and only if every name of the slice exists |
| Images.SkipAgreesWithPush | pkg/builder/builder.go:202-226 | for a build made by StartBuild, an attempt skips if and only if that was asked for and every image that genSolveOpt would push exists |
| Images.CheckTags | pkg/tagcheck/tagcheck.go:11-21 | on truthful answers the checker of a repository, ECR or per tag, says yes if and only if every name of the repository exists |
| Images.AllImagesExist | pkg/builder/builder.go:202-226 | the checkers, the early-exit loop and imageNames together: the answer is yes if and only if every name of the slice that would be pushed exists |
| Images.RunAttempt | pkg/builder/builder.go:113-254 | one attempt of Run on these answers, under any interference: it takes over the build if and only if it reads NotStarted and the Running write is acknowledged; then it commits Skipped if and only if that was asked for, it got that far, every name that would be pushed exists and the write commits, and no image is built |
| Images.NameInjective | pkg/buildkit/buildkit.go:71 | with tags free of colons, a name determines repository and tag |
| Images.FlagsMatter | pkg/buildkit/buildkit.go:164-168 | with different flags, some repository and a SHA that is not among the tags, there is a state of the registries on which the two decisions differ |
| Images.FlagsAgreeExactly | pkg/buildkit/buildkit.go:164-168 | request flag and build flag lead to the same decision for all registries if and only if they are equal, the SHA is among the tags, or there is no repository |
| JobWatcher.SourceOfSignal | pkg/jobrunner/jobrunner.go:332-350 | which branches can cause which signal |
| JobWatcher.EventsThatEndTheWatch | pkg/jobrunner/jobrunner.go:353-389 | which Kubernetes events end the watch, and with which signal; all others, additions and a closed channel among them, are passed over |
| JobWatcher.BranchesThatEndTheWatch | pkg/jobrunner/jobrunner.go:333-344 | the other branches all end it: a stop in silence, the rest with their signal |
| JobWatcher.Watcher.ProcessEvent | pkg/jobrunner/jobrunner.go:353-389 | one signal if and only if the event ends the watch, and the one due |
| JobWatcher.Watcher.Outside | pkg/jobrunner/jobrunner.go:308-323 | the listening goroutine posts its error, unless stopped, before it closes the running channel |
| JobWatcher.Watcher.Take | pkg/jobrunner/jobrunner.go:333-349 | a branch sends what it should and leaves if and only if it is decisive |
| JobWatcher.Watcher.Advance | pkg/jobrunner/jobrunner.go:332-350 | one step of the world or the loop: it leaves if and only if it takes a decisive branch that is ready |
| JobWatcher.Watcher.Start | pkg/jobrunner/jobrunner.go:300-351 | for any merging of events, timer, listener and stop: at most one signal, that of the first decisive branch taken, none only when stopped; a running signal means a succeeded job, a listener that returned nil, or one that failed after its error was posted or stop requested; it stays only while no offered branch is decisive and due |
| JobWatcher.ListenedWellMeansRunning | pkg/jobrunner/jobrunner.go:313-321 | a listener that returned nil saw a committed Running of its build |
| JobWatcher.WatchBuild | pkg/jobrunner/jobrunner.go:300-351 | beside the build protocol, a running signal means that Running was committed for this build, that the job succeeded, or that a failed listener closed the channel and won |
| JobWatcher.BothBranchesReady | pkg/jobrunner/jobrunner.go:312-321 | after a failed listener both branches can be ready |
| JobWatcher.GivesUpUnseen | pkg/datalayer/datalayer.go:452-479 | a history in which the listening call waits and gives up, and Running is never committed |
| JobWatcher.FalseSignal | pkg/jobrunner/jobrunner.go:339-341 | taking the closed channel sends a running signal although the listener gave up in a history in which Running is never committed; if the server takes it for the hand-off and the job ends, the build is abandoned as NotStarted |
| Retry.WithRetries | pkg/datalayer/datalayer.go:113-134 | for any bound and any outcomes: calls up to and including the first that succeeds or cannot be repeated and returns its result, or all the bound allows and wraps the last error |
| TempPaths.Fetch | pkg/s3/s3.go:86-122 | returns a directory if and only if client, file, download, directory and unpacking were all fine, and has then unpacked the download into it; it leaves nothing else behind |
| TempPaths.Save | pkg/s3/s3.go:124-176 | leaves nothing behind and the cache in place, whatever fails; it succeeds if and only if all its steps do, and has then listed, packed and uploaded it |
| TempPaths.LoadCache | pkg/buildkit/buildkit.go:77-141 | the clean-up knows exactly the paths created here, once each; the export path survives a failed fetch |
| TempPaths.CleanUp | pkg/buildkit/buildkit.go:112 | removes its paths, none twice |
| TempPaths.SaveCache | pkg/buildkit/buildkit.go:143-162 | creates nothing that stays; fails exactly where the code says |
| TempPaths.Build | pkg/buildkit/buildkit.go:245-305 | for every combination of failures all temporary paths are passed to removal, none before its last use; the solver is called once, if and only if the build was read and the socket found, with the export directory and, if fetched, the import directory; cache trouble alone never fails a build |
| StreamAdapter.Adapter.Take | pkg/grpc/streamadapter.go:99-116 | a receive that got a message returns accordingly and, if nil, holds it |
| StreamAdapter.Adapter.Do | pkg/grpc/streamadapter.go:63-120 | what every step of a sender, a receiver or the context does to the buffer, to what was sent and taken, and to the results; order, capacity and the correspondence of results to messages are kept |
| StreamAdapter.Adapter.GoesOnExactly | pkg/grpc/streamadapter.go:77-119 | a waiting sender can go on if and only if the stream is cancelled, there is room, or a receiver waits at the empty buffer; a waiting receiver if and only if it is cancelled, something is buffered, or a sender waits |
| StreamAdapter.Adapter.Interleave | pkg/grpc/streamadapter.go:63-120 | in every interleaving, what successful sends were given is what was taken followed by what is buffered, in order and within capacity, and a receive returned nil if and only if it holds a message it took |
| StreamAdapter.OneToOne | pkg/grpc/streamadapter.go:77-116 | the k-th message taken is that of the k-th successful send; no two receives get the same one |

## Left out

- Kubernetes, AWS, GitHub, BuildKit, HTTP, tar archives: foreign calls, present as parameters that say how they end.
- Credentials, API keys, TLS, secrets and registry logins.
- Commands, client library, JSON gateway, generated code and migrations, except for field types and nullability.
- SetBuildStatus, SetBuildCompletedTimestamp, DeleteBuild, CreateBuild and API-key operations of the data layer.
- StartBuild's validation of a request, its cache defaults and its resource limits, including the rounding of resource quantities.
- Manager.Start is present as the two steps JobStarted and JobSignal of the StartBuild goroutine; its ticker only adds events.
- A retried read counts as one step of the protocol; Retry states what the loop itself does.
- Overlapping attempts: the theorems on attempts assume that Kubernetes keeps to one pod at a time.
- Connections that still carry the registration of an earlier call of the listen pool.
- The status that MonitorBuild sends along with each event, and the race between closing its events channel and a send on it.
- Goroutine leaks, durations and the wall clock; a timer is a step that may happen.
- The text of the WHERE clause and of the SELECT: conditions are a small syntax tree with numbered placeholders.
- Listing.AlikeExactly: limits are those of the RPC (32 bits); the range of times a database can hold is not modelled.
- The joining of image names with commas for BuildKit, and build arguments.
- PostgreSQL's limits on payloads, NUL bytes and microsecond rounding of times; lock order between transactions.
- The fake data layer apart from ListBuilds; its removal of listeners takes away the last one rather than its own.
- JobWatcher.Watcher.Start: a send on the unbuffered channels counts as done when it is attempted, so a watcher whose client is gone is not seen to block.
- TempPaths.TempDir.Remove: removal is taken to succeed; the code ignores its errors.
