/** The Task controller: Reconcile, doReconcile, runTask and checkTaskStatus,
    against everybody else's steps. */
module TaskController {
  import opened Options
  import opened Conditions
  import opened Statuses
  import opened StatusObject
  import opened Bmc
  import opened Protocol
  import opened Cluster
  import TaskStory

  datatype RunResult = RunOk | RunError(message: string) | RunPanic

  /** These own steps, and then the plan's first k commands, all of them successful. */
  ghost predicate Issuing(before: seq<Label>, own: seq<Label>, tk: Key, plan: seq<Command>, k: nat) {
    k <= |plan| && own == before + TaskStory.Issued(tk, plan[..k])
  }

  lemma IssuedOneMore(before: seq<Label>, own: seq<Label>, tk: Key, plan: seq<Command>, k: nat)
    requires Issuing(before, own, tk, plan, k) && k < |plan|
    ensures Issuing(before, own + [TaskStep(tk, TCommand(plan[k], None))], tk, plan, k + 1)
  {
    TaskStory.OneMoreIssued(tk, plan, k);
  }

  /** The k-th command of the plan returned this error. */
  ghost predicate Stopped(before: seq<Label>, own: seq<Label>, tk: Key, plan: seq<Command>, k: nat, error: string) {
    && own != [] && k < |plan| && own[|own| - 1] == TaskStep(tk, TCommand(plan[k], Some(error)))
    && Issuing(before, own[..|own| - 1], tk, plan, k)
  }

  ghost predicate StoppedWith(
      before: seq<Label>, own: seq<Label>, tk: Key, plan: seq<Command>, message: string) {
    exists k: nat, error: string ::
      Stopped(before, own, tk, plan, k, error) && message == TaskStory.CommandMessage(plan[k], error)
  }

  lemma StopsAt(before: seq<Label>, own: seq<Label>, tk: Key, plan: seq<Command>, k: nat, error: string)
    requires Issuing(before, own, tk, plan, k) && k < |plan|
    ensures Stopped(before, own + [TaskStep(tk, TCommand(plan[k], Some(error)))], tk, plan, k, error)
  {
    var own' := own + [TaskStep(tk, TCommand(plan[k], Some(error)))];
    assert own'[..|own'| - 1] == own;
  }

  lemma NothingIssued(before: seq<Label>, tk: Key, plan: seq<Command>)
    ensures Issuing(before, before, tk, plan, 0)
  {
  }

  /** What a plan consists of, from its start on. */
  lemma PlanParts(action: Action)
    ensures
      var plan := TaskStory.Plan(action);
      var p := if action.power.Some? then 1 else 0;
      var b := if action.boot.Some? then p + 1 else p;
      && (action.power.Some? ==> |plan| > 0 && plan[0] == SetPower(action.power.value))
      && (action.boot.Some? ==> |plan| > p)
      && (action.boot.Some? && action.boot.value.devices == [] ==> plan[p] == NoDevice)
      && (action.boot.Some? && action.boot.value.devices != [] ==>
            plan[p] == SetBootDevice(action.boot.value.devices[0], false, action.boot.value.efiBoot))
      && (action.media.Some? ==>
            |plan| == b + 1 && plan[b] == SetVirtualMedia(action.media.value.kind, action.media.value.url))
      && (action.media.None? ==> |plan| == b)
  {
  }

  /** Where runTask stands after the first k commands. */
  ghost predicate RunAt(pc: TaskPc, action: Action, k: nat) {
    var plan := TaskStory.Plan(action);
    if k < |plan| then pc.TRunning? && pc.task.action == action && pc.issued == k
    else k == |plan| && pc.TPatching? && pc.task.action == action && pc.answer == Done
  }

  /** One command of runTask, which is the next of the plan. */
  method IssueNext(
      c: Client, tk: Key, action: Action, command: Command, ghost before: seq<Label>, ghost k: nat)
    returns (error: Option<string>)
    requires c.Valid() && RunAt(TaskPcAt(c.sys, tk), action, k)
    requires
      var plan := TaskStory.Plan(action);
      && k < |plan| && plan[k] == command && command != NoDevice
      && Issuing(before, Own(c.trace, TaskActor(tk)), tk, plan, k)
    modifies c
    ensures c.Valid() && old(c.trace) <= c.trace && c.Moved(TaskActor(tk))
    ensures
      var pc, pc' := old(TaskPcAt(c.sys, tk)), TaskPcAt(c.sys, tk);
      match error
      case None =>
        && RunAt(pc', action, k + 1) && pc'.task == pc.task && pc'.current == pc.current
        && Issuing(before, Own(c.trace, TaskActor(tk)), tk, TaskStory.Plan(action), k + 1)
      case Some(e) =>
        && pc' == Fail(pc.task, pc.current, TaskStory.CommandMessage(command, e))
        && Stopped(before, Own(c.trace, TaskActor(tk)), tk, TaskStory.Plan(action), k, e)
  {
    ghost var own := Own(c.trace, TaskActor(tk));
    TaskStory.PlanIsCommands(action);
    error := c.Issue(tk, command);
    match error {
      case None => IssuedOneMore(before, own, tk, TaskStory.Plan(action), k);
      case Some(e) => StopsAt(before, own, tk, TaskStory.Plan(action), k, e);
    }
  }

  /** What runTask's calls were, by its result. */
  ghost predicate RanTo(before: seq<Label>, own: seq<Label>, tk: Key, action: Action, result: RunResult) {
    && (result.RunOk? ==> own == before + TaskStory.Issued(tk, TaskStory.Plan(action)) && !Panics(action))
    && (result.RunError? ==> StoppedWith(before, own, tk, TaskStory.Plan(action), result.message))
    && (result.RunPanic? ==> Panics(action))
  }

  /** A boot action without a device. */
  predicate Panics(action: Action) {
    action.boot.Some? && action.boot.value.devices == []
  }

  lemma RunStops(before: seq<Label>, own: seq<Label>, tk: Key, action: Action, k: nat, error: string, message: string)
    requires Stopped(before, own, tk, TaskStory.Plan(action), k, error)
    requires message == TaskStory.CommandMessage(TaskStory.Plan(action)[k], error)
    ensures Continues(before, own) && RanTo(before, own, tk, action, RunError(message))
  {
  }

  lemma RunEnds(before: seq<Label>, own: seq<Label>, tk: Key, action: Action, k: nat)
    requires Issuing(before, own, tk, TaskStory.Plan(action), k) && k == |TaskStory.Plan(action)| && !Panics(action)
    ensures Continues(before, own) && RanTo(before, own, tk, action, RunOk)
  {
    assert TaskStory.Plan(action)[..k] == TaskStory.Plan(action);
  }

  lemma RunPanics(before: seq<Label>, own: seq<Label>, tk: Key, action: Action, k: nat)
    requires Issuing(before, own, tk, TaskStory.Plan(action), k) && Panics(action)
    ensures Continues(before, own + [TaskStep(tk, TPanic)])
  {
  }

  /** runTask: the commands of the action, in order, up to the first error. */
  method RunTask(c: Client, tk: Key, action: Action) returns (result: RunResult)
    requires c.Valid() && c.Moved(TaskActor(tk)) && RunAt(TaskPcAt(c.sys, tk), action, 0)
    modifies c
    ensures c.Valid() && old(c.trace) <= c.trace && c.Moved(TaskActor(tk))
    ensures Continues(old(Own(c.trace, TaskActor(tk))), Own(c.trace, TaskActor(tk)))
    ensures RanTo(old(Own(c.trace, TaskActor(tk))), Own(c.trace, TaskActor(tk)), tk, action, result)
    ensures TaskPcAt(c.sys, tk) == AfterRun(old(TaskPcAt(c.sys, tk)), result)
  {
    ghost var before, k := Own(c.trace, TaskActor(tk)), 0;
    PlanParts(action);
    NothingIssued(before, tk, TaskStory.Plan(action));
    if action.power.Some? {
      var error := IssueNext(c, tk, action, SetPower(action.power.value), before, k);
      if error.Some? {
        result := RunError("failed to perform PowerAction: " + error.value);
        RunStops(before, Own(c.trace, TaskActor(tk)), tk, action, k, error.value, result.message);
        return;
      }
      k := k + 1;
    }
    result := RunBootAndMedia(c, tk, action, before, k);
  }

  /** Where the reconcile stands after runTask. */
  ghost function AfterRun(pc: TaskPc, result: RunResult): TaskPc
    requires pc.TRunning? || pc.TPatching?
  {
    match result
    case RunOk => TPatching(pc.task, pc.current, Done)
    case RunError(message) => Fail(pc.task, pc.current, message)
    case RunPanic => TIdle(Panicked)
  }

  /** runTask once the power action is done. */
  method RunBootAndMedia(c: Client, tk: Key, action: Action, ghost before: seq<Label>, ghost issued: nat)
    returns (result: RunResult)
    requires c.Valid() && c.Moved(TaskActor(tk)) && RunAt(TaskPcAt(c.sys, tk), action, issued)
    requires issued == if action.power.Some? then 1 else 0
    requires Issuing(before, Own(c.trace, TaskActor(tk)), tk, TaskStory.Plan(action), issued)
    modifies c
    ensures c.Valid() && old(c.trace) <= c.trace && c.Moved(TaskActor(tk))
    ensures Continues(before, Own(c.trace, TaskActor(tk)))
    ensures RanTo(before, Own(c.trace, TaskActor(tk)), tk, action, result)
    ensures TaskPcAt(c.sys, tk) == AfterRun(old(TaskPcAt(c.sys, tk)), result)
  {
    ghost var k := issued;
    PlanParts(action);
    if action.boot.Some? {
      if action.boot.value.devices == [] {
        RunPanics(before, Own(c.trace, TaskActor(tk)), tk, action, k);
        TaskStory.PlanIsCommands(action);
        c.PanicNoDevice(tk);
        return RunPanic;
      }
      var command := SetBootDevice(action.boot.value.devices[0], false, action.boot.value.efiBoot);
      var error := IssueNext(c, tk, action, command, before, k);
      if error.Some? {
        result := RunError("failed to perform OneTimeBootDeviceAction: " + error.value);
        RunStops(before, Own(c.trace, TaskActor(tk)), tk, action, k, error.value, result.message);
        return;
      }
      k := k + 1;
    }
    if action.media.Some? {
      var command := SetVirtualMedia(action.media.value.kind, action.media.value.url);
      var error := IssueNext(c, tk, action, command, before, k);
      if error.Some? {
        result := RunError("failed to perform SetVirtualMedia: " + error.value);
        RunStops(before, Own(c.trace, TaskActor(tk)), tk, action, k, error.value, result.message);
        return;
      }
      k := k + 1;
    }
    RunEnds(before, Own(c.trace, TaskActor(tk)), tk, action, k);
    return RunOk;
  }

  datatype CheckResult = CheckDone | CheckRequeue | CheckError

  /** The calls of a check and what it makes of them: one reading for a power action, and no call for any other. */
  ghost predicate Polled(before: seq<Label>, own: seq<Label>, tk: Key, action: Action, result: CheckResult) {
    match action.power
    case None => result == CheckDone && own == before
    case Some(p) =>
      && |own| == |before| + 1 && own[..|before|] == before
      && var l := own[|before|];
         && l.TaskStep? && l.task == tk && l.taskMove.TPower?
         && match l.taskMove.reading
            case None => result == CheckError
            case Some(raw) => result == if TaskStory.Shows(p, raw) then CheckDone else CheckRequeue
  }

  /** checkTaskStatus: only power actions are polled, and only on, off and soft wait for a state. */
  method CheckTaskStatus(c: Client, tk: Key, action: Action) returns (result: CheckResult)
    requires c.Valid() && c.Moved(TaskActor(tk))
    requires
      var pc := TaskPcAt(c.sys, tk);
      (pc.TPolling? || pc.TConfirmed?) && pc.task.action == action && (pc.TPolling? <==> action.power.Some?)
    modifies c
    ensures c.Valid() && old(c.trace) <= c.trace && c.Moved(TaskActor(tk))
    ensures Continues(old(Own(c.trace, TaskActor(tk))), Own(c.trace, TaskActor(tk)))
    ensures Polled(old(Own(c.trace, TaskActor(tk))), Own(c.trace, TaskActor(tk)), tk, action, result)
    ensures
      var pc := old(TaskPcAt(c.sys, tk));
      TaskPcAt(c.sys, tk) == match result
        case CheckDone => TConfirmed(pc.task, pc.sampled)
        case CheckRequeue => TIdle(Requeue(REQUEUE_AFTER))
        case CheckError => TIdle(Error)
  {
    if action.power.Some? {
      var reading := c.GetPowerState(tk);
      if reading.None? {
        return CheckError;
      }
      PowerStateIs(reading.value);
      var state := ToPowerState(reading.value);
      match action.power.value {
        case PowerOn =>
          if state != On {
            return CheckRequeue;
          }
        case PowerHardOff | PowerSoftOff =>
          if state != Off {
            return CheckRequeue;
          }
        case _ =>
      }
    }
    return CheckDone;
  }

  ghost predicate InHand(task: FetchedTask, base: ResourceStatus)
    reads task.status, base
  {
    && task.status.Valid() && base.Valid()
    && task.status != base && task.status.backing != base.backing
  }

  /** The fetched object as the patch base remembers it. */
  ghost function Original(task: FetchedTask, base: ResourceStatus): Task
    reads base, base.backing, base.startTime, base.completionTime
    requires base.Valid()
  {
    Task(task.owners, task.action, task.connection, task.deleting, base.View())
  }

  /** Sets the Failed condition and persists it; the reconcile ends with an error either way. */
  method FailTask(c: Client, tk: Key, task: FetchedTask, base: ResourceStatus, message: string)
    requires c.Valid() && InHand(task, base)
    requires TaskPcAt(c.sys, tk) == Fail(Original(task, base), task.status.View(), message)
    modifies c, task.status, task.status.backing
    ensures c.Valid() && old(c.trace) <= c.trace && c.Moved(TaskActor(tk))
    ensures TaskPcAt(c.sys, tk) == TIdle(Error)
    ensures Continues(old(Own(c.trace, TaskActor(tk))), Own(c.trace, TaskActor(tk)))
  {
    task.status.SetCondition(Failed, True, Some(message));
    var _ := c.PatchTaskStatus(tk, task.status, base);
  }

  /** doReconcile with the connection open and a StartTime: deadline, status check, completion. */
  method CheckStarted(c: Client, tk: Key, task: FetchedTask, base: ResourceStatus) returns (answer: Answer)
    requires c.Valid() && InHand(task, base) && task.status.View() == base.View()
    requires task.status.startTime != null && TaskPcAt(c.sys, tk) == TOpened(Original(task, base))
    modifies c, task.status, task.status.backing
    ensures c.Valid() && old(c.trace) <= c.trace && c.Moved(TaskActor(tk))
    ensures TaskPcAt(c.sys, tk) == TIdle(answer) && answer in {Done, Requeue(REQUEUE_AFTER), Error}
    ensures Continues(old(Own(c.trace, TaskActor(tk))), Own(c.trace, TaskActor(tk)))
  {
    var start := task.status.startTime.at;
    var now := c.TaskNow(tk);
    var running := now as int - start as int;
    if running >= TIMEOUT {
      FailTask(c, tk, task, base, TimeoutMessage(running));
      return Error;
    }
    answer := CheckInTime(c, tk, task, base);
  }

  /** The status check of a Task within its deadline, and its completion if the check is met. */
  method CheckInTime(c: Client, tk: Key, task: FetchedTask, base: ResourceStatus) returns (answer: Answer)
    requires c.Valid() && c.Moved(TaskActor(tk)) && InHand(task, base) && task.status.View() == base.View()
    requires
      var pc := TaskPcAt(c.sys, tk);
      (pc.TPolling? || pc.TConfirmed?) && pc.task == Original(task, base) && (pc.TPolling? <==> task.action.power.Some?)
    modifies c, task.status, task.status.backing
    ensures c.Valid() && old(c.trace) <= c.trace && c.Moved(TaskActor(tk))
    ensures TaskPcAt(c.sys, tk) == TIdle(answer) && answer in {Done, Requeue(REQUEUE_AFTER), Error}
    ensures Continues(old(Own(c.trace, TaskActor(tk))), Own(c.trace, TaskActor(tk)))
  {
    var result := CheckTaskStatus(c, tk, task.action);
    match result {
      case CheckError => return Error;
      case CheckRequeue => return Requeue(REQUEUE_AFTER);
      case CheckDone =>
    }
    answer := CompleteTask(c, tk, task, base);
  }

  /** Sets the CompletionTime and the Completed condition and persists them. */
  method CompleteTask(c: Client, tk: Key, task: FetchedTask, base: ResourceStatus) returns (answer: Answer)
    requires c.Valid() && InHand(task, base) && task.status.View() == base.View()
    requires TaskPcAt(c.sys, tk).TConfirmed? && TaskPcAt(c.sys, tk).task == Original(task, base)
    modifies c, task.status, task.status.backing
    ensures c.Valid() && old(c.trace) <= c.trace && c.Moved(TaskActor(tk))
    ensures TaskPcAt(c.sys, tk) == TIdle(answer) && answer in {Done, Error}
    ensures Continues(old(Own(c.trace, TaskActor(tk))), Own(c.trace, TaskActor(tk)))
  {
    var now := c.TaskNow(tk);
    task.status.StampCompletion(now);
    task.status.SetCondition(Completed, True, None);
    var ok := c.PatchTaskStatus(tk, task.status, base);
    return if ok then Done else Error;
  }

  /** Where the reading of the clock leads when the Task has no StartTime. */
  lemma BeforeRun(tk: Key, t: Task, now: Time)
    requires t.status.startTime.None?
    ensures
      var pc := TaskOpenedEffect(tk, t, now).pc;
      && RunAt(pc, t.action, 0) && (pc.TRunning? || pc.TPatching?)
      && pc.task == t && pc.current == t.status.(startTime := Some(now))
  {
    TaskStory.PlanIsCommands(t.action);
  }

  /** doReconcile with the connection open and no StartTime: run the action. */
  method StartTask(c: Client, tk: Key, task: FetchedTask, base: ResourceStatus) returns (answer: Answer)
    requires c.Valid() && InHand(task, base) && task.status.View() == base.View()
    requires task.status.startTime == null && TaskPcAt(c.sys, tk) == TOpened(Original(task, base))
    modifies c, task.status, task.status.backing
    ensures c.Valid() && old(c.trace) <= c.trace && c.Moved(TaskActor(tk))
    ensures TaskPcAt(c.sys, tk) == TIdle(answer) && answer in {Done, Error, Panicked}
    ensures Continues(old(Own(c.trace, TaskActor(tk))), Own(c.trace, TaskActor(tk)))
  {
    var now := c.TaskNow(tk);
    BeforeRun(tk, Original(task, base), now);
    task.status.StampStart(now);
    answer := RunAndPersist(c, tk, task, base);
  }

  /** The StartTime is persisted after runTask whatever it returned, unless it panicked. */
  method RunAndPersist(c: Client, tk: Key, task: FetchedTask, base: ResourceStatus) returns (answer: Answer)
    requires c.Valid() && c.Moved(TaskActor(tk)) && InHand(task, base)
    requires
      var pc := TaskPcAt(c.sys, tk);
      RunAt(pc, task.action, 0) && (pc.TRunning? || pc.TPatching?)
      && pc.task == Original(task, base) && pc.current == task.status.View()
    modifies c, task.status, task.status.backing
    ensures c.Valid() && old(c.trace) <= c.trace && c.Moved(TaskActor(tk))
    ensures TaskPcAt(c.sys, tk) == TIdle(answer) && answer in {Done, Error, Panicked}
    ensures Continues(old(Own(c.trace, TaskActor(tk))), Own(c.trace, TaskActor(tk)))
  {
    var result := RunTask(c, tk, task.action);
    match result {
      case RunPanic => return Panicked;
      case RunError(message) =>
        FailTask(c, tk, task, base, message);
        return Error;
      case RunOk =>
        var ok := c.PatchTaskStatus(tk, task.status, base);
        return if ok then Done else Error;
    }
  }

  method DoReconcile(c: Client, tk: Key, task: FetchedTask, base: ResourceStatus) returns (answer: Answer)
    requires c.Valid() && InHand(task, base) && task.status.View() == base.View()
    requires !task.deleting && !Is(base.View(), Failed) && !Is(base.View(), Completed)
    requires TaskPcAt(c.sys, tk) == AfterTaskGet(Original(task, base))
    modifies c, task.status, task.status.backing
    ensures c.Valid() && old(c.trace) <= c.trace
    ensures TaskStory.JustEnded(c.start, c.trace, tk)
    ensures TaskPcAt(c.sys, tk) == TIdle(answer) && answer in {Done, Requeue(REQUEUE_AFTER), Error, Panicked}
    ensures Continues(old(Own(c.trace, TaskActor(tk))), Own(c.trace, TaskActor(tk)))
  {
    if NeedsSecrets(task.connection) {
      var resolved := c.ResolveSecrets(tk);
      if !resolved {
        TaskStory.EveryReconcile(c.start, c.trace, tk);
        return Error;
      }
    }
    answer := Connect(c, tk, task, base);
    TaskStory.EveryReconcile(c.start, c.trace, tk);
  }

  /** doReconcile once the secrets are there: connect, then check a started Task or start a new one. */
  method Connect(c: Client, tk: Key, task: FetchedTask, base: ResourceStatus) returns (answer: Answer)
    requires c.Valid() && InHand(task, base) && task.status.View() == base.View()
    requires TaskPcAt(c.sys, tk) == TOpening(Original(task, base))
    modifies c, task.status, task.status.backing
    ensures c.Valid() && old(c.trace) <= c.trace && c.Moved(TaskActor(tk))
    ensures TaskPcAt(c.sys, tk) == TIdle(answer) && answer in {Done, Requeue(REQUEUE_AFTER), Error, Panicked}
    ensures Continues(old(Own(c.trace, TaskActor(tk))), Own(c.trace, TaskActor(tk)))
  {
    var failure := c.OpenBmc(tk);
    if failure.Some? {
      FailTask(c, tk, task, base, "Failed to connect to BMC: " + failure.value);
      return Error;
    }
    if task.status.startTime != null {
      answer := CheckStarted(c, tk, task, base);
    } else {
      answer := StartTask(c, tk, task, base);
    }
  }

  /** Whatever the others do meanwhile, a call of Reconcile is one complete
      reconcile of the transition system, and returns the answer it ends with. */
  method Reconcile(c: Client, tk: Key) returns (answer: Answer)
    requires c.Valid() && TaskPcAt(c.sys, tk).TIdle?
    modifies c
    ensures c.Valid() && old(c.trace) <= c.trace
    ensures TaskStory.JustEnded(c.start, c.trace, tk)
    ensures TaskPcAt(c.sys, tk) == TIdle(answer) && answer in {Done, Requeue(REQUEUE_AFTER), Error, Panicked}
    ensures OneReconcile(old(Own(c.trace, TaskActor(tk))), Own(c.trace, TaskActor(tk)))
  {
    var got := c.GetTask(tk);
    if TaskPcAt(c.sys, tk).TIdle? {
      TaskStory.EveryReconcile(c.start, c.trace, tk);
    }
    match got {
      case GetFailed => return Error;
      case NotFound => return Done;
      case Found(task) =>
        if task.deleting {
          return Done;
        }
        var failed := task.status.HasCondition(Failed, True);
        var completed := task.status.HasCondition(Completed, True);
        if failed || completed {
          return Done;
        }
        var base := task.status.DeepCopy();
        answer := DoReconcile(c, tk, task, base);
    }
  }
}
