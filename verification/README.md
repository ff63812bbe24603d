# Rufio: Jobs, Tasks and Machines

Rufio runs a Job, an ordered list of BMC actions against one machine, with two
Kubernetes controllers that share nothing but the object store. The Job
controller lists the Tasks it owns, scans them with an early-returning loop, and
fails the Job, completes it, waits, or creates the next Task with the number of
Completed Tasks as its index. The Task controller runs a Task's action once it
first sees it, persists a StartTime, and from then on polls the BMC under a
ten-minute deadline until it can persist Completed or Failed.

What the API promises for this (api/v1alpha1/job.go:52-55: one action after the
other, stop at the first failure, Completed only if all succeeded) is stated by no
single function. It emerges from the completed count, the early return, unique
Task names, terminal no-ops, and the point at which the StartTime is persisted,
while any call may fail, or succeed without its answer arriving, and any reconcile
may be cut off. This project models the two controllers at the level of single
calls, proves inductive invariants over every interleaved run, and derives the
promise, and its exact limits, from them.

## How it is laid out

| file | content |
|---|---|
| `Conditions.dfy`, `Statuses.dfy` | condition lists as values and as a finite map; statuses |
| `StatusPatch.dfy` | JSON merge patches (section 2 of RFC 7396) and the status patch built from them |
| `StatusObject.dfy` | the status of a fetched object, changed in place, with Go's slices and time pointers and the deep copy |
| `TaskNames.dfy`, `Bmc.dfy` | Task names; actions, commands and power readings |
| `Protocol.dfy` | the labelled transition system: store, reconciles in flight, log, steps, runs |
| `StatusInvariant.dfy`, `OrderInvariant.dfy`, `OrderPreserved.dfy`, `RunLog.dfy`, `TraceInvariant.dfy`, `Deadline.dfy`, `WriteBound.dfy` | the inductive invariants and that every step keeps them |
| `TaskStory.dfy`, `JobStory.dfy`, `RunCalls.dfy` | what a reconcile is, told by its own calls; how each stored status, each Task and each entry of the trace came about |
| `Theorems.dfy`, `ScanOrder.dfy`, `Isolation.dfy`, `Stopping.dfy`, `Deleting.dfy`, `Completion.dfy` | what follows for every run |
| `FaultFreeTask.dfy`, `FaultFreeJob.dfy` | what every reconcile comes to when none of its own calls fails, whatever the others do between them |
| `Timeouts.dfy` | the poll loop ends; exactly when a Task times out or can still be Completed |
| `JobEnds.dfy` | a whole Job ends |
| `Achievable.dfy` | runs there are: a Job can be carried to Completed |
| `Witnesses.dfy` | runs that show what is not guaranteed |
| `Cluster.dfy`, `JobController.dfy`, `TaskController.dfy` | the reconcilers as imperative methods, each shown to be one reconcile of the transition system, with everybody else interfering between any two calls |
| `Machines.dfy`, `Hmac.dfy` | the Machine controller's status and the HMAC secret lookup |

A label of the transition system is one call of a reconcile (or one reading of the
clock) with one of its outcomes. A write is applied, refused, or applied with its
answer lost. A list returns the owned Tasks, in any order, of the current store or
of any earlier one. `RunCalled`, `Commanded`, `RunReturned`, `RunLost` and
`Checked` entries of the log are what runs are judged by; no controller reads them.
`TaskStory` and `JobStory` say the same by the labels alone, in the source's own
constants and texts and without the functions the transition system is written
with: every reconcile that ends is one of a few sequences of calls, each with its
effect and answer; `RunCalls` ties the log's runs to those calls.
A run is lost when its reconcile was cut off, panicked, or had its patch refused
before the StartTime was persisted.

## Assumptions

- Specs do not change. The only writers of status, and the only creators of Tasks
  that a Job owns, are these controllers; Tasks created by users are not
  controlled by a Job.
- Objects are marked as being deleted but stay in the store, so names are not
  reused while old Tasks remain.
- A Get returns the current object. Only the Task list may be stale.
- The clock does not go back.
- At most one reconcile of each object is in flight. Reconciles of different
  objects interleave freely, and users act at any time.
- A fetched Job carries its own apiVersion and kind, which
  `createTaskWithOwner` copies into the owner reference.

The limit of one action kind per Task and the minimum of one action per Job, which
the resource definitions impose, are not needed and not assumed. A boot action
with an empty device list makes `runTask` panic (controller/task.go:216); the model
keeps that as a step of its own.

## Where the obvious claim is false

- docs/README.md:64 says that a new Job is immediately set to Running. The code
  persists Running with its last patch, so a Job can have Tasks while its status is
  still empty (`Witnesses.RunningMayLag`). It is Running exactly when one of its
  status patches has taken effect (`Theorems.RunningOncePatched`).
- Actions run at least once, not exactly once: for every n there is a run in which
  one Task's action is run n times (`Witnesses.RunAnyNumberOfTimes`). A Completed
  Job ran exactly its actions, each once, if and only if no run of one of its Tasks
  was lost (`Theorems.CompletedJobRanAll`).
- The deadline is looked at only after the secrets have resolved and the connection
  is open, so a Task past its deadline need not time out. It does if and only if,
  past its deadline, a patch takes effect that a reconcile of it sent right after it
  opened the connection and read the clock (`Timeouts.TimesOutExactly`). If it was
  idle, a reconcile without faults is enough (`Timeouts.TimesOutWithoutFaults`);
  secrets that do not resolve prevent it for good (`Theorems.NoTimeoutWithoutSecrets`).
- Ten minutes bound the sample of the clock, not the reading of the BMC after it nor
  the CompletionTime: for every d there is a run in which a Task is Completed on a
  reading taken d after its StartTime (`Witnesses.CompletesLate`). A Task past its
  deadline can still be Completed if and only if a reconcile that sampled the clock
  in time is in flight (`Timeouts.OverdueCompletes`).
- The scan's answer depends on the order of the list unless a Failed Task is the
  only one that is not Completed, and only then (`ScanOrder.OrderIndependence`). In
  every reachable store it does not (`Theorems.ScanOrderIndependent`).
- Execution stops when a Task fails (`Stopping.FailedTaskStopsJob`), but not always
  when the Job does. A create that takes effect with its answer lost marks the Job
  Failed, and the Task it created is run afterwards (`Stopping.FailedJobMayRunOn`). A
  terminal Job can still run something if and only if its last Task has not started
  and is not being deleted, or was fetched before it was
  (`Stopping.TerminalJobRuns`).
- Deletion is a no-op only for reconciles that begin after it. A Job or Task that is
  being deleted with no reconcile in flight stays as it is (`Deleting.DeletingJobStays`,
  `Deleting.DeletingTaskStays`). A reconcile that fetched it before goes on: the Job's
  status can still change if and only if one is in flight and not just about to persist
  what is stored (`Deleting.DeletingJobChanges`), the Task's if and only if one is in
  flight and not about to panic (`Deleting.DeletingTaskChanges`), and commands can still
  be issued if and only if it has one yet to issue (`Deleting.DeletingTaskCommands`).
- controller/machine.go:49 says that the requeue interval is used only when the power
  state was retrieved. The code uses it whenever the patch took effect
  (`Machines.Machine.DoReconcile`).
- Terminal statuses are stable only because status reads are current. If a
  reconcile marks a stale base Completed or Failed, the terminal condition in the
  store survives the patch if and only if it is of the same kind
  (`Witnesses.StaleBaseOverwrites`), and a patch that only marks it Running leaves
  none (`Witnesses.StaleRunningOverwrites`). A Completed Task can so become Failed
  (`Witnesses.StaleReadUndoes`), or be run again with no run lost and keep a StartTime
  after its CompletionTime (`Witnesses.StaleReadRunsAgain`).
- docs/README.md:91 says that a reconcile ensures the action succeeded. Completed
  guarantees that the machine was seen in a power state if and only if the action is
  the power action that waits for that state: on, off and soft
  (controller/task.go:250-260), or one that panics and is never Completed. For every
  other action there is a run that ends Completed without it
  (`Completion.CompletedShowsState`).

## Model

| member | source | states |
|---|---|---|
| `Theorems.TraceRefinement` | controller/job.go:109-167 | in every run, the actions run for a Job are its first k actions in order, each repeated as often as its Task was run; every Task but the last was run at least once, and so was the last if it completed |
| `Theorems.ExactlyOnceWithoutLoss` | controller/task.go:138-199 | if no run of the Job's Tasks was lost, the actions run are a prefix of the Job's actions, each once |
| `Theorems.ExecutionCount` | controller/task.go:176-197 | the number of `runTask` calls for a Task is its lost runs, plus one if its StartTime is persisted, plus one if a run is in flight; so at most one more than the runs lost |
| `Theorems.NeverRunAgain` | controller/task.go:138-140 | once a StartTime is persisted the action is never run again |
| `Theorems.CompletedJobIsSound` | api/v1alpha1/job.go:52-55 | a Completed Job has one Task for every action and all are Completed; for each, by the calls made: a reconcile issued exactly the commands of the action, in order, and each of them succeeded, and a later one sampled the clock less than ten minutes after the StartTime and for on, off and soft then had a reading of that power state; the log agrees |
| `Theorems.CompletedTaskIsSound` | controller/task.go:140-173 | the same for every Completed Task, owned by a Job or not |
| `TaskStory.EveryReconcile` | controller/task.go:56-200 | every reconcile of a Task that ends, in any run, is one of a few sequences of calls, one for each way through the source: secrets read if there are any to read, the connection, the clock; then the commands up to the first error if there is no StartTime, else the time-out at ten minutes or more, else the check; each with what it persists, the message and the answer |
| `TaskStory.EveryStatus` | controller/task.go:115-199 | every status a Task ever has is the empty one or was persisted by a reconcile that started it, whose command or connection failed, that timed out, or that had its check met |
| `TaskStory.CommandErrorStops` | controller/task.go:203-234 | after an error of a command the reconcile issues no more: its next step is its patch or it is cut off, and if the patch takes effect the Task is Failed with that error and has a StartTime |
| `TaskStory.StartedWasRun` | controller/task.go:176-199 | a started Task got its StartTime from a reconcile whose calls were the commands of its action, each once, in order and successful, and no other command |
| `TaskStory.CompletedWasChecked` | controller/task.go:155-173 | a Completed Task was run so, and after that persisted by a reconcile that sampled the clock in time and for on, off and soft read that state |
| `RunCalls.LogIsCalls` | controller/task.go:176-182 | in every run, the actions the log says were run for a Job, and how often for a Task, are exactly the calls of `runTask`: a clock read with the connection open and no StartTime |
| `JobStory.EveryReconcile` | controller/job.go:57-167 | every reconcile of a Job that ends, in any run, is one of a few sequences of calls: its own Machine, its list, and what the first open Task listed demands, with what it persists, the message and the answer |
| `JobStory.EveryTaskWasMade` | controller/job.go:184-212 | every Task a Job controls was created by a reconcile of that Job that listed only Completed Tasks, under the Job's name and their number, with the action of that number, the Job as its controller, and the connection this reconcile fetched from the Job's Machine |
| `Theorems.CompletedJobRanAll` | api/v1alpha1/job.go:52-55 | for a Completed Job: the actions run are exactly its actions, in order, each once, if and only if none of its Tasks' runs was lost |
| `Theorems.FailedJobHasCause` | controller/job.go:127-136 | a Failed Job failed for the reason its message gives: a message about a Task names the last of its Tasks, which is Failed, and no other is; any other message is the error of a create that failed |
| `Isolation.CreateCollision` | controller/job.go:153-162 | a Task that stands under the name a reconcile is about to create belongs to no Job or to this one, and to this one if and only if the list was already out of date when it was read |
| `Theorems.TerminalJobStays` | controller/job.go:78-82 | after a terminal status is persisted, the Job's status never changes and no Task is ever created for it |
| `Theorems.StatusesCohere` | controller/job.go:91-99 | in every reachable store, Completed and Failed exclude each other; a Job's StartTime is set iff Running; CompletionTime is set iff Completed, for Jobs and Tasks; a start is never after its completion |
| `Theorems.StatusesOnlyAdvance` | controller/task.go:76-80 | over any longer run Tasks stay, terminal Task statuses stay, and a persisted StartTime of a Job or Task never changes |
| `Theorems.RunningOncePatched` | controller/job.go:95-99 | a Job is Running in the store if and only if some status patch of it has taken effect |
| `Theorems.CreateIsNextAction` | controller/job.go:152-162 | from whatever store the list came, the index to create is in range and all Tasks before it are Completed; if its name is free, it is the number of Tasks there are |
| `Theorems.ScanOrderIndependent` | controller/job.go:116-139 | in every reachable store, present or past, the loop answers the same for every order of the list |
| `ScanOrder.OrderIndependence` | controller/job.go:121-139 | on arbitrary Tasks the loop's answer is the same for all permutations if and only if a Failed Task is the only one not Completed |
| `Isolation.ReconcileIsIsolated` | controller/job.go:109-114 | however far one Job's reconciles go and however they fail, every other Job, its reconcile, its Tasks, the lists of them and what their scans find stay as they were |
| `Stopping.FailedTaskStopsJob` | api/v1alpha1/job.go:54-54 | once one of a Job's Tasks is Failed it stays so, and no action of the Job is ever run again |
| `Stopping.TerminalJobRuns` | controller/job.go:78-82 | a Job with a persisted terminal status can still run something if and only if its last Task has not started and still can |
| `Stopping.CompletedJobIsOver` | controller/job.go:144-150 | a Completed Job never runs anything again |
| `Stopping.FailedJobMayRunOn` | controller/job.go:153-162 | a run in which a Job is Failed with nothing run, and then runs its action |
| `Deleting.DeletingJobStays` | controller/job.go:73-76 | once a Job is being deleted with its reconcile idle, over every continuation it stays as it is, gets no Task, and its reconciles make no call but their Get |
| `Deleting.DeletingJobChanges` | controller/job.go:73-89 | the status of a Job being deleted can still change if and only if a reconcile that fetched it before is in flight and not about to persist the stored status |
| `Deleting.DeletingTaskStays` | controller/task.go:71-74 | once a Task is being deleted with its reconcile idle, over every continuation it stays as it is and no command is issued for it |
| `Deleting.DeletingTaskChanges` | controller/task.go:71-87 | the status of a Task being deleted can still change if and only if a reconcile is in flight and not about to panic |
| `Deleting.DeletingTaskCommands` | controller/task.go:71-87 | a command can still be issued for it if and only if a reconcile in flight has one yet to issue |
| `Theorems.NoForeignCollision` | controller/job.go:186-191 | a Task that stands under one of a Job's Task names is the Job's own or belongs to no Job |
| `Theorems.NoTimeoutWithoutSecrets` | controller/task.go:95-112 | while a Task's secrets do not resolve its status does not change, however much time passes |
| `Timeouts.TimesOutExactly` | controller/task.go:95-173 | for a started Task past its deadline, wherever a reconcile of it stands, in every continuation of every run: it has timed out, with the time elapsed in its message, if and only if since then a patch took effect that its reconciler sent right after it opened the connection and read the clock; else its status is unchanged, or Failed for want of a connection, or Completed by a reconcile that had sampled the clock in time; no other reconcile reads the BMC |
| `Timeouts.OverdueCompletes` | controller/task.go:141-173 | a started Task past its deadline can still be Completed if and only if a reconcile of it that sampled the clock in time is in flight: about to read the BMC, confirmed, or about to persist Completed |
| `Witnesses.CompletesLate` | controller/task.go:141-168 | for every d, a run in which a power Task is Completed on a reading taken d after its StartTime |
| `Timeouts.TimesOutWithoutFaults` | controller/task.go:140-153 | without faults, once a reconcile has begun of a Task that was idle past its deadline, the Task has timed out or that reconcile is in flight |
| `Timeouts.PollLoopEnds` | controller/task.go:138-173 | without faults and with polls at least three seconds apart, a started Task is Completed or Failed before its 202nd reconcile is over |
| `OrderPreserved.Always` | controller/job.go:116-162 | in every reachable state, in the current store and every earlier one, a Job's Tasks are exactly those of its first k actions, and all but the last are Completed; what a reconcile in flight has concluded from a list still holds |
| `OrderPreserved.ListCaused` | controller/job.go:109-139 | what a reconcile concludes from a list, current or stale, is true of the current store |
| `OrderPreserved.CreateExtends` | controller/job.go:153-153 | a create that takes effect adds exactly the next Task of the prefix |
| `OrderInvariant.ScanOfPrefix` | controller/job.go:121-139 | the scan of such a prefix answers by the last Task alone: its count if Completed, its name if Failed, else wait |
| `OrderInvariant.ListCount` | controller/job.go:116-125 | a list of the owned Tasks holds each of the first k names once |
| `OrderInvariant.TaskKeyInjective` | controller/job.go:188-189 | Task keys of different Jobs or indices differ |
| `OrderInvariant.OwnerIndexIs` | controller/job.go:251-268 | a Task is indexed under a name if and only if its first controlling owner has that name, kind Job and this API group and version |
| `OrderInvariant.OwnedIs` | controller/job.go:109-114 | a Task is listed for a Job if and only if it is in its namespace and indexed under its name |
| `StatusInvariant.Always` | controller/job.go:91-167 | every status in the store has one of the shapes the controllers write, and every reconcile in flight still holds the current object |
| `StatusInvariant.TaskStepShape` | controller/task.go:140-197 | a Task's write moves its status from fresh to started or failed, or from started to failed or done with the same StartTime |
| `StatusInvariant.JobStepShape` | controller/job.go:91-166 | a Job's write moves its status to Running or to a terminal status, and a create only adds a new Task |
| `LogInvariant.Always` | controller/task.go:138-199 | in every reachable state, runs, losses and persisted StartTimes balance, and the log agrees with every started or Completed Task; the calls themselves are in `TaskStory.StartedWasRun` and `TaskStory.CompletedWasChecked` |
| `TraceInvariant.Always` | controller/task.go:176-182 | in every reachable state, every Job's trace is its actions in order, and nothing is run for a Job that does not exist |
| `Deadline.Always` | controller/task.go:140-153 | every status check of every run sampled the clock in [StartTime, StartTime + 10 minutes), the bounds in nanoseconds |
| `Deadline.PollsBounded` | controller/task.go:33-33 | if the polls of a Task that asked for another are at least three seconds apart, there are at most 200, counted by the calls |
| `Deadline.PollsSharp` | controller/task.go:250-260 | the bound is sharp: a run with exactly 200 such polls, at 0, 3, 6, ... 597 seconds after the StartTime |
| `Deadline.RequeuesArePolls` | controller/task.go:250-260 | the requeues the log counts are the polls that asked for another, with the time each sampled |
| `WriteBound.WritesBounded` | controller/job.go:95-166 | in any run, a Job of n actions causes at most 3n + 2 writes that change it or its Tasks |
| `WriteBound.StepProgress` | controller/task.go:138-197 | no step takes a Job back, and every such write takes it forward |
| `FaultFreeJob.JobReconciled` | controller/job.go:91-167 | every fault-free reconcile, with others interleaving and any list not older than its start, persists and creates exactly what a scan of the Job's Tasks demands, as they were when it began or, if the last was pending then, as they are when it ends |
| `FaultFreeJob.ReconcileCreates` | controller/job.go:152-166 | every fault-free reconcile of a Job whose Tasks are all Completed, but too few, creates the next action's Task and no other, controlled by the Job and with the connection this reconcile fetched from the Job's Machine, and persists Running |
| `FaultFreeJob.ReconcileCompletes` | controller/job.go:141-150 | every one with all Tasks there and Completed persists the Job as Completed and creates nothing |
| `FaultFreeJob.ReconcileFails` | controller/job.go:127-136 | every one with the last Task Failed persists the Job as Failed, names the Task and creates nothing |
| `FaultFreeJob.ReconcileWaits` | controller/job.go:138-138 | every one with the last Task pending throughout persists nothing, not even Running, and creates nothing |
| `FaultFreeTask.TaskReconciled` | controller/task.go:90-200 | every fault-free reconcile of a Task, with others interleaving, comes to one of four outcomes, and that is what is stored |
| `FaultFreeTask.ReconcileRuns` | controller/task.go:176-199 | every fault-free reconcile of a new Task runs its action exactly once, all commands in order without error, and persists exactly the StartTime |
| `FaultFreeTask.ReconcileChecks` | controller/task.go:155-173 | every one of a started Task that ends less than ten minutes after the StartTime makes one check; it persists Completed if and only if the check is met, and else changes nothing and asks to be requeued after three seconds |
| `FaultFreeTask.ReconcileTimesOut` | controller/task.go:141-153 | every one that begins ten minutes or more after the StartTime persists Failed with the time elapsed, without reading the BMC |
| `JobEnds.JobEnds` | api/v1alpha1/job.go:52-55 | every Job of n actions is Completed or Failed after 203n + 3 rounds, each asking for one fault-free reconcile of the Job and one of its last Task if it is pending, with everybody else interleaving, if polls are at least three seconds apart |
| `JobEnds.RoundAchieves` | controller/job.go:116-166 | a round that leaves a Job not terminal moved it or one of its Tasks on, or had its pending Task's poll ask for one more |
| `Achievable.JobCanComplete` | api/v1alpha1/job.go:52-55 | for every list of actions there is a run that ends with the Job Completed and exactly those actions run |
| `Completion.CompletedShowsState` | controller/task.go:238-265 | Completed guarantees that after the run a reading of a power state was had if and only if the action is on and the state On, or off or soft and the state Off, or a boot action without a device, which panics and is never Completed |
| `Completion.CompletesOn` | controller/task.go:263-264 | for every action that does not panic and every reading its check accepts, a run that ends Completed having seen only that reading, or none |
| `Witnesses.RunAnyNumberOfTimes` | controller/task.go:182-197 | for every n, a run in which one Task's action is run n times |
| `Witnesses.RunningMayLag` | controller/job.go:153-166 | a run after which a Job has its first Task while its own status is empty |
| `Witnesses.StaleBaseOverwrites` | controller/job.go:84-99 | when a reconcile goes on from a base that is not terminal and marks it Completed or Failed, a stored terminal condition of a Job or Task survives its patch if and only if it is of the same kind |
| `Witnesses.StaleRunningOverwrites` | controller/job.go:95-99 | a patch that only marks a stale base Running leaves no terminal condition in the store |
| `Witnesses.StaleReadUndoes` | controller/task.go:60-84 | a run in which a Task is Completed, and a reconcile that fetched it as it was before ends with it Failed and no longer Completed |
| `Witnesses.StaleReadRunsAgain` | controller/task.go:176-197 | a run in which a Task is Completed, and a reconcile that fetched it as it was when new runs its action once more with no run lost and leaves it Completed with a StartTime after its CompletionTime |
| `JobController.Reconcile` | controller/job.go:57-89 | whatever others do between its calls, a call is exactly one complete reconcile of the transition system, ends with its answer, and is one of the sequences of calls of `JobStory.EveryReconcile` |
| `JobController.DoReconcile` | controller/job.go:91-167 | the steps after the fetch carry the reconcile to one of those ends |
| `JobController.Begin` | controller/job.go:95-99 | the status in hand becomes the one of a started reconcile, with Running and StartTime if they were missing, and the patch base stays as it was |
| `JobController.ScanTasks` | controller/job.go:116-139 | the loop finds what the recursive scan of the listed Tasks finds |
| `JobController.Conclude` | controller/job.go:127-166 | fail, wait, complete or create, as the scan says, ending with the answer of that branch |
| `JobController.CreateNext` | controller/job.go:152-166 | the index is in range for every reachable state; a failed create marks the Job Failed |
| `JobController.CreateTaskWithOwner` | controller/job.go:184-212 | without an error the store holds the Task of that index: named and controlled after the Job, with the Machine's connection and an empty status; an error comes wrapped with the Task's name |
| `TaskController.Reconcile` | controller/task.go:56-88 | whatever others do between its calls, a call is exactly one complete reconcile of the transition system, ends with its answer, and is one of the sequences of calls of `TaskStory.EveryReconcile` |
| `TaskController.DoReconcile` | controller/task.go:90-200 | secrets, connection, then check or start, carrying the reconcile to one of those ends |
| `TaskController.CheckStarted` | controller/task.go:138-174 | deadline before status check before completion, each branch persisting what the model persists |
| `TaskController.StartTask` | controller/task.go:176-199 | the StartTime is set before the action is run and persisted after it, with Failed if it returned an error |
| `TaskController.RunTask` | controller/task.go:203-234 | its calls are the commands of the action, in order, all successful; or up to the first error, which it returns wrapped; it panics only on an empty device list |
| `TaskController.CheckTaskStatus` | controller/task.go:238-265 | one reading for a power action and no call for any other; done if and only if the reading shows what on, off or soft wait for, requeue if not, error if there is none |
| `StatusObject.ResourceStatus.SetCondition` | api/v1alpha1/job.go:95-118 | in-place update of the slice equals the list update, and writes only to its own backing array |
| `StatusObject.ResourceStatus.HasCondition` | api/v1alpha1/job.go:128-136 | the scan answers by the first entry of the type |
| `StatusObject.ResourceStatus.DeepCopyInto` | api/v1alpha1/zz_generated.deepcopy.go:284-299 | the copy has the same value, with a backing array and time pointers of its own |
| `StatusObject.ResourceStatus.UpdateUnderCopy` | api/v1alpha1/zz_generated.deepcopy.go:692-707 | any sequence of in-place updates after the deep copy leaves the copy as it was, and merging the JSON patch computed against it gives the updated status |
| `Conditions.SetIsMapUpdate` | api/v1alpha1/task.go:92-115 | under first-match lookup SetCondition is map update; the entry keeps its message unless a new one is given |
| `Conditions.HasIsLookup` | api/v1alpha1/task.go:125-133 | HasCondition is lookup and compare; an absent type is neither True nor False |
| `Conditions.SetKeepsTheRest` | api/v1alpha1/job.go:98-117 | other entries keep value and place, the list grows by at most one, types stay unique |
| `Conditions.SetAllRemembersLast` | api/v1alpha1/job.go:93-136 | after any sequence of calls from the empty list, types are unique and HasCondition answers what the last call for that type wrote |
| `MergePatch.MergeOfDiff` | controller/job.go:84-86 | round trip: the merge patch between two null-free objects carries the one to the other |
| `StatusPatch.PatchIsFieldwise` | controller/task.go:82-84 | the JSON merge patch between base and changed status, applied to any stored status, writes whole the fields that differ and leaves the others |
| `StatusPatch.EncodeInjective` | api/v1alpha1/task.go:59-85 | no two statuses have the same JSON, empty fields omitted |
| `TaskNames.ParseOfFormat` | api/v1alpha1/job.go:138-141 | every Task name reads back as its Job and index, also when the Job's name contains "-task-" and digits |
| `TaskNames.FormatTaskNameInjective` | api/v1alpha1/job.go:138-141 | different Jobs or indices give different Task names |
| `TaskNames.DecimalDigits` | api/v1alpha1/job.go:138-141 | an index is written in digits, without leading zeros |
| `Bmc.ReadingHolds` | controller/kube.go:43-55 | a reading with "on" in it, in any case and place, is On; one with "off" is Off unless "on" occurs too |
| `Bmc.PowerStateIs` | controller/kube.go:43-55 | letter by letter: On if and only if an o stands right before an n, Off if and only if not and an o stands right before two f, in either case, and Unknown otherwise |
| `Bmc.CommandsAre` | controller/task.go:203-234 | the commands of an action: power, then the first boot device for the next boot only, then virtual media |
| `Machines.SetInIsSet` | api/v1alpha1/machine.go:146-173 | apart from update times, a Machine's SetCondition is a Job's or a Task's |
| `Machines.MachineHistory` | controller/machine.go:120-166 | after any mix of open failures, read failures and lost patches, the persisted status is what the last persisted attempt saw, and LastUpdateTime is the time of the last persisted flip |
| `Machines.PersistedIs` | controller/machine.go:120-181 | once an attempt was persisted: Contactable True with no message if the power was read, else False with the error; On, Off or Unknown by the letters of the reading; and the update time is that of the attempt since which all agree |
| `Machines.UncontactableIsUnknown` | controller/machine.go:122-132 | a persisted Contactable False comes with power unknown |
| `Machines.Machine.SetCondition` | api/v1alpha1/machine.go:146-173 | the entry's update time moves only if its status does, its message always |
| `Machines.Machine.UpdatePowerState` | controller/machine.go:170-181 | the power state is the reading's, or unknown with an error |
| `Machines.Machine.DoReconcile` | controller/machine.go:120-166 | power and Contactable agree with how far the contact got; requeued after three minutes if and only if the patch took effect |
| `Hmac.RetrieveHMACSecrets` | controller/machine.go:192-212 | whatever the order of the map: on success every algorithm with a nonempty list has the "secret" entries, or empty, of its references in list order and no other is present; it fails iff some reference does not resolve, and names one |

## Left out

- `main.go`, manager and controller setup, flags, metrics, access rules: wiring.
- `controller/client.go`: how options become a BMC client is field copying and a merge in a library that is not part of this model; opening a connection is a step that succeeds or fails.
- The API server, the informer cache, the work queue and its retries: the store is a map, a list may be of any earlier store, and a reconcile may start at any time.
- Removal of objects and garbage collection: a deleted Job or Task stays in the store with its mark.
- Liveness under failures: `JobEnds` and the results it rests on assume that the reconciles a round asks for meet no fault. That the work queue retries until one does not is not modelled.
- Secret lookup inside the protocol is one step that resolves or does not; the lookup of HMAC secrets is modelled in `Hmac.dfy`, `resolveAuthSecretRef` only by its outcome.
- Times in the store keep their nanoseconds; the API serializes whole seconds, which is not modelled.
- A Job's and a Task's status share one class; the two declarations in the API have the same fields and methods.
- Machine conditions are a field holding a sequence that is reassigned; their aliasing with the patch base is not modelled.
- Deep copies of specs and provider options, and UIDs in owner references.
- Texts of errors from libraries, logging, events, closing the connection and its metadata; the `ok` results of BMC commands, which the code only logs.
- Achievable.JobCanComplete: starts from an empty store and takes boot actions whose device lists are not empty, because an empty one panics.
- Theorems.FailedJobHasCause: from the Job to the cause only; a Task's failure precedes its Job's by a reconcile that may never come (`FaultFreeJob.ReconcileFails` says what that reconcile does).
