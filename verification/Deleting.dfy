/** What deletion stops, and what it does not: an object marked as being deleted
    is left alone by every reconcile that begins later, and a reconcile that
    fetched it before goes on. */
module Deleting {
  import opened Options
  import opened Conditions
  import opened Statuses
  import opened Bmc
  import opened Protocol
  import opened StatusInvariant
  import opened OrderInvariant
  import Achievable
  import JobStory
  import OrderPreserved
  import Stopping
  import TaskStory
  import Theorems
  import WriteBound
  import Shapes = StatusInvariant
  import Order = OrderInvariant

  // ---- A Job that is being deleted ----

  ghost predicate JobDeleting(s: Sys, jk: Key) {
    jk in s.jobs && s.jobs[jk].deleting
  }

  /** Nothing the Job's reconcile can still do changes the Job: it is idle, or about
      to persist the status that is stored. */
  ghost predicate JobOver(s: Sys, jk: Key)
    requires jk in s.jobs
  {
    var pc := JobPcAt(s, jk);
    pc.JIdle? || (pc.JPatching? && pc.current == s.jobs[jk].status)
  }

  lemma OwnStepOver(s: Sys, jk: Key, m: JobMove)
    requires Shapes.Inv(s) && JobEnabled(s, jk, m) && JobDeleting(s, jk) && JobOver(s, jk)
    ensures
      var s' := Next(s, JobStep(jk, m));
      && jk in s'.jobs && s'.jobs[jk] == s.jobs[jk] && JobPcAt(s', jk).JIdle? && s'.tasks == s.tasks
      && (JobPcAt(s, jk).JIdle? ==> m.JGet?)
  {
    assert JobPcOk(s.jobs, jk, JobPcAt(s, jk), s.clock);
  }

  lemma OtherStepOver(s: Sys, l: Label, jk: Key)
    requires Shapes.Inv(s) && Enabled(s, l) && JobDeleting(s, jk) && ActorOf(l) != Some(JobActor(jk))
    ensures
      var s' := Next(s, l);
      && jk in s'.jobs && s'.jobs[jk] == s.jobs[jk] && JobPcAt(s', jk) == JobPcAt(s, jk)
      && forall tk :: Owned(s'.tasks, tk, jk) <==> Owned(s.tasks, tk, jk)
  {
    JobStory.OtherPcs(s, l, jk);
    match l
    case User(m) => OrderPreserved.UserStepFrame(s, m);
    case TaskStep(tk, m) => Theorems.TerminalTaskStep(s, tk, m, jk);
    case JobStep(j, m) =>
      Theorems.StepIsIsolated(s, j, m, jk);
      OrderPreserved.JobStepFrame(s, j, m);
  }

  /** The Job itself, and which Tasks it has, as they were. */
  ghost predicate JobLeft(s: Sys, s': Sys, jk: Key) {
    && jk in s.jobs && jk in s'.jobs && s'.jobs[jk] == s.jobs[jk]
    && forall tk :: Owned(s'.tasks, tk, jk) <==> Owned(s.tasks, tk, jk)
  }

  lemma StepOver(s: Sys, l: Label, jk: Key)
    requires Shapes.Inv(s) && Enabled(s, l) && JobDeleting(s, jk) && JobOver(s, jk)
    ensures JobLeft(s, Next(s, l), jk) && JobOver(Next(s, l), jk)
    ensures JobPcAt(s, jk).JIdle? ==> JobPcAt(Next(s, l), jk).JIdle?
    ensures JobPcAt(s, jk).JIdle? && ActorOf(l) == Some(JobActor(jk)) ==> l.jobMove.JGet?
  {
    if ActorOf(l) == Some(JobActor(jk)) {
      OwnStepOver(s, jk, l.jobMove);
    } else {
      OtherStepOver(s, l, jk);
    }
  }

  lemma {:induction false} OverStays(s0: Sys, ls: seq<Label>, more: seq<Label>, jk: Key)
    requires Initial(s0) && Run(s0, ls) && Run(s0, ls + more)
    requires JobDeleting(After(s0, ls), jk) && JobOver(After(s0, ls), jk)
    ensures JobLeft(After(s0, ls), After(s0, ls + more), jk) && JobOver(After(s0, ls + more), jk)
    ensures JobPcAt(After(s0, ls), jk).JIdle? ==>
      && JobPcAt(After(s0, ls + more), jk).JIdle?
      && forall l :: l in more && ActorOf(l) == Some(JobActor(jk)) ==> l.jobMove.JGet?
    decreases |more|
  {
    if more == [] {
      assert ls + more == ls;
    } else {
      var front, l := more[..|more| - 1], more[|more| - 1];
      assert (ls + more)[..|ls + more| - 1] == ls + front;
      OverStays(s0, ls, front, jk);
      Shapes.Always(s0, ls + front);
      StepOver(After(s0, ls + front), l, jk);
      assert more == front + [l];
    }
  }

  /** Once a Job is being deleted with no reconcile of it in flight, then whatever
      follows, the Job stays as it is, no Task is created for it, and every
      reconcile of it makes no call but its Get. */
  lemma DeletingJobStays(s0: Sys, ls: seq<Label>, more: seq<Label>, jk: Key)
    requires Initial(s0) && Run(s0, ls) && Run(s0, ls + more)
    requires
      var s := After(s0, ls);
      jk in s.jobs && s.jobs[jk].deleting && JobPcAt(s, jk).JIdle?
    ensures
      var s, s' := After(s0, ls), After(s0, ls + more);
      && jk in s'.jobs && s'.jobs[jk] == s.jobs[jk]
      && (forall tk :: Owned(s'.tasks, tk, jk) <==> Owned(s.tasks, tk, jk))
      && (forall l :: l in more && l.JobStep? && l.job == jk ==> l.jobMove.JGet?)
  {
    OverStays(s0, ls, more, jk);
    forall l | l in more && l.JobStep? && l.job == jk
      ensures l.jobMove.JGet?
    {
      assert ActorOf(l) == Some(JobActor(jk));
    }
  }

  // ---- What its reconcile in flight can still do ----

  /** Nothing was there at first, and a list may still say so. */
  lemma {:induction false} EmptyFirst(s0: Sys, ls: seq<Label>)
    requires Initial(s0) && Run(s0, ls)
    ensures View(After(s0, ls), 0) == map[]
  {
    if ls != [] {
      var front, l := ls[..|ls| - 1], ls[|ls| - 1];
      EmptyFirst(s0, front);
      Shapes.Always(s0, front);
      WriteBound.StepGrows(After(s0, front), l);
      JobStory.GrownRemembers(After(s0, front), Next(After(s0, front), l));
    }
  }

  lemma JobOn(s: Sys, ls: seq<Label>, jk: Key, pc: JobPc, m: JobMove, pc': JobPc) returns (more: seq<Label>)
    requires Run(s, ls) && Achievable.JobAt(s, After(s, ls), jk, pc)
    requires JobEnabled(After(s, ls), jk, m) && JobEffectOf(After(s, ls), jk, m) == Local(pc')
    ensures Run(s, more) && Achievable.JobAt(s, After(s, more), jk, pc')
  {
    var _ := Achievable.LocalJobStep(s, After(s, ls), jk, pc, m, pc');
    RunStep(s, ls, JobStep(jk, m));
    more := ls + [JobStep(jk, m)];
  }

  lemma ToConnected(s: Sys, jk: Key) returns (ls: seq<Label>, pc: JobPc)
    requires Shapes.Inv(s) && (JobPcAt(s, jk).JFetched? || JobPcAt(s, jk).JStarted? || JobPcAt(s, jk).JConnected?)
    ensures Run(s, ls) && Achievable.JobAt(s, After(s, ls), jk, pc)
    ensures pc.JConnected? && JobPcOk(s.jobs, jk, pc, s.clock)
  {
    ls, pc := [], JobPcAt(s, jk);
    assert JobPcOk(s.jobs, jk, pc, s.clock);
    if pc.JFetched? {
      var pc' := JStarted(pc.job, With(pc.job.status.(startTime := Some(s.clock)), Running, None));
      ls := JobOn(s, ls, jk, pc, JNow(s.clock), pc');
      pc := pc';
    }
    if pc.JStarted? {
      var c := Connection("", RpcSecrets(map[]));
      var pc' := JConnected(pc.job, pc.current, c);
      ls := JobOn(s, ls, jk, pc, JMachine(pc.job.machine, Some(c)), pc');
      pc := pc';
    }
  }

  /** With a list in which nothing is there yet. */
  lemma ToScanned(s: Sys, jk: Key) returns (ls: seq<Label>, pc: JobPc)
    requires Shapes.Inv(s) && View(s, 0) == map[]
    requires JobPcAt(s, jk).JFetched? || JobPcAt(s, jk).JStarted? || JobPcAt(s, jk).JConnected?
    ensures Run(s, ls) && Achievable.JobAt(s, After(s, ls), jk, pc) && JobPcOk(s.jobs, jk, pc, s.clock)
    ensures pc.JFinishing? || (pc.JCreating? && pc.index < |pc.job.actions|)
  {
    ls, pc := ToConnected(s, jk);
    var m := JList(Some(Listing(0, [])));
    var pc' := AfterScan(pc, ScanCompleted(0));
    ls := JobOn(s, ls, jk, pc, m, pc');
    pc := pc';
  }

  /** A reconcile about to persist a status that is not the one stored. */
  ghost predicate ChangesNext(s: Sys, s': Sys, jk: Key) {
    && s'.jobs == s.jobs && jk in s.jobs
    && JobPcAt(s', jk).JPatching? && JobPcAt(s', jk).current != s.jobs[jk].status
  }

  lemma ToFinish(s: Sys, ls: seq<Label>, jk: Key, pc: JobPc) returns (more: seq<Label>)
    requires Run(s, ls) && Achievable.JobAt(s, After(s, ls), jk, pc) && JobPcOk(s.jobs, jk, pc, s.clock)
    requires pc.JFinishing?
    ensures Run(s, more) && ChangesNext(s, After(s, more), jk)
  {
    var done := With(pc.current, Completed, None).(completionTime := Some(s.clock));
    more := JobOn(s, ls, jk, pc, JNow(s.clock), JPatching(pc.job, done, Done));
  }

  lemma ToFail(s: Sys, ls: seq<Label>, jk: Key, pc: JobPc) returns (more: seq<Label>)
    requires Run(s, ls) && Achievable.JobAt(s, After(s, ls), jk, pc) && JobPcOk(s.jobs, jk, pc, s.clock)
    requires pc.JCreating? && pc.index < |pc.job.actions|
    ensures Run(s, more) && ChangesNext(s, After(s, more), jk)
  {
    RunStep(s, ls, JobStep(jk, JCreate(Refused, "")));
    more := ls + [JobStep(jk, JCreate(Refused, ""))];
  }

  lemma ToPatch(s: Sys, jk: Key) returns (ls: seq<Label>)
    requires Order.Inv(s) && View(s, 0) == map[] && jk in s.jobs && !JobOver(s, jk)
    ensures Run(s, ls) && ChangesNext(s, After(s, ls), jk)
  {
    var pc := JobPcAt(s, jk);
    assert JobPcOk(s.jobs, jk, pc, s.clock) && JobPcCaused(s, jk, pc);
    ls := [];
    if pc.JFetched? || pc.JStarted? || pc.JConnected? {
      ls, pc := ToScanned(s, jk);
    }
    if pc.JFinishing? {
      ls := ToFinish(s, ls, jk, pc);
    } else if pc.JCreating? {
      ls := ToFail(s, ls, jk, pc);
    }
  }

  lemma PatchChanges(s: Sys, jk: Key)
    requires Shapes.Inv(s) && ChangesNext(s, s, jk)
    ensures Enabled(s, JobStep(jk, JPatch(Applied)))
    ensures
      var s' := Next(s, JobStep(jk, JPatch(Applied)));
      jk in s'.jobs && s'.jobs[jk].status != s.jobs[jk].status
  {
    assert JobPcOk(s.jobs, jk, JobPcAt(s, jk), s.clock);
    JobStepWrites(s, jk, JPatch(Applied));
  }

  /** Some continuation changes the Job's status. */
  ghost predicate JobMayChange(s0: Sys, ls: seq<Label>, jk: Key)
    requires Run(s0, ls) && jk in After(s0, ls).jobs
  {
    exists more :: Run(s0, ls + more) && jk in After(s0, ls + more).jobs
      && After(s0, ls + more).jobs[jk].status != After(s0, ls).jobs[jk].status
  }

  lemma JobCanChange(s0: Sys, ls: seq<Label>, jk: Key)
    requires Initial(s0) && Run(s0, ls) && jk in After(s0, ls).jobs && !JobOver(After(s0, ls), jk)
    ensures JobMayChange(s0, ls, jk)
  {
    var s := After(s0, ls);
    OrderPreserved.Always(s0, ls);
    EmptyFirst(s0, ls);
    var way := ToPatch(s, jk);
    Achievable.Compose(s0, ls, way);
    var patch := JobStep(jk, JPatch(Applied));
    Shapes.Always(s0, ls + way);
    PatchChanges(After(s0, ls + way), jk);
    RunStep(s0, ls + way, patch);
    assert ls + (way + [patch]) == ls + way + [patch];
    assert Run(s0, ls + (way + [patch]));
  }

  /** The status of a Job that is being deleted can still change if and only if a
      reconcile that fetched it before the mark is in flight, and is not just about
      to persist the status that is stored. */
  lemma DeletingJobChanges(s0: Sys, ls: seq<Label>, jk: Key)
    requires Initial(s0) && Run(s0, ls) && jk in After(s0, ls).jobs && After(s0, ls).jobs[jk].deleting
    ensures JobMayChange(s0, ls, jk) <==>
      var pc := JobPcAt(After(s0, ls), jk);
      !pc.JIdle? && !(pc.JPatching? && pc.current == After(s0, ls).jobs[jk].status)
  {
    if JobOver(After(s0, ls), jk) {
      forall more | Run(s0, ls + more)
        ensures JobLeft(After(s0, ls), After(s0, ls + more), jk)
      {
        OverStays(s0, ls, more, jk);
      }
    } else {
      JobCanChange(s0, ls, jk);
    }
  }

  // ---- A Task that is being deleted ----

  ghost predicate TaskDeleting(s: Sys, tk: Key) {
    tk in s.tasks && s.tasks[tk].deleting
  }

  /** The next thing its run comes to is an empty list of boot devices. */
  predicate PanicsNext(pc: TaskPc) {
    || (pc.TRunning? && pc.issued < |TaskStory.Plan(pc.task.action)|
        && TaskStory.Plan(pc.task.action)[pc.issued] == NoDevice)
    || (pc.TOpened? && pc.task.status.startTime.None? && TaskStory.Plan(pc.task.action) != []
        && TaskStory.Plan(pc.task.action)[0] == NoDevice)
  }

  /** It has a command yet to issue. */
  predicate CommandsNext(pc: TaskPc) {
    || (pc.TRunning? && pc.issued < |TaskStory.Plan(pc.task.action)|
        && TaskStory.Plan(pc.task.action)[pc.issued] != NoDevice)
    || ((pc.TFetched? || pc.TOpening? || pc.TOpened?) && pc.task.status.startTime.None?
        && TaskStory.Plan(pc.task.action) != [] && TaskStory.Plan(pc.task.action)[0] != NoDevice)
  }

  predicate Commanding(l: Label, tk: Key) {
    l.TaskStep? && l.task == tk && l.taskMove.TCommand?
  }

  lemma OtherTaskStep(s: Sys, l: Label, tk: Key)
    requires Shapes.Inv(s) && Enabled(s, l) && TaskDeleting(s, tk) && ActorOf(l) != Some(TaskActor(tk))
    ensures tk in Next(s, l).tasks && Next(s, l).tasks[tk] == s.tasks[tk]
    ensures TaskPcAt(Next(s, l), tk) == TaskPcAt(s, tk) && !Commanding(l, tk)
  {
    match l
    case User(m) =>
    case TaskStep(k, m) => OtherTask(s, k, m, tk);
    case JobStep(j, m) => JobStepWrites(s, j, m);
  }

  lemma OtherTask(s: Sys, k: Key, m: TaskMove, tk: Key)
    requires TaskEnabled(s, k, m) && tk in s.tasks && k != tk
    ensures
      var s' := Next(s, TaskStep(k, m));
      tk in s'.tasks && s'.tasks[tk] == s.tasks[tk] && TaskPcAt(s', tk) == TaskPcAt(s, tk)
  {
  }

  /** A reconcile that can change the Task no more: idle, or about to panic. */
  predicate TaskOver(pc: TaskPc) {
    pc.TIdle? || PanicsNext(pc)
  }

  lemma OwnTaskStepOver(s: Sys, tk: Key, m: TaskMove)
    requires Shapes.Inv(s) && TaskEnabled(s, tk, m) && TaskDeleting(s, tk) && TaskOver(TaskPcAt(s, tk))
    ensures
      var s' := Next(s, TaskStep(tk, m));
      && tk in s'.tasks && s'.tasks[tk] == s.tasks[tk] && TaskOver(TaskPcAt(s', tk))
      && (TaskPcAt(s, tk).TIdle? ==> m.TGet? && TaskPcAt(s', tk).TIdle?)
  {
    if !TaskPcAt(s, tk).TIdle? {
      TaskStory.PlanIsCommands(TaskPcAt(s, tk).task.action);
    }
  }

  lemma NextTaskOver(s0: Sys, ls: seq<Label>, l: Label, tk: Key)
    requires Initial(s0) && Run(s0, ls) && Enabled(After(s0, ls), l)
    requires TaskDeleting(After(s0, ls), tk) && TaskOver(TaskPcAt(After(s0, ls), tk))
    ensures
      var s, s' := After(s0, ls), Next(After(s0, ls), l);
      && tk in s'.tasks && s'.tasks[tk] == s.tasks[tk] && TaskOver(TaskPcAt(s', tk))
      && (TaskPcAt(s, tk).TIdle? ==>
            TaskPcAt(s', tk).TIdle? && (ActorOf(l) == Some(TaskActor(tk)) ==> l.taskMove.TGet?))
  {
    Shapes.Always(s0, ls);
    if ActorOf(l) == Some(TaskActor(tk)) {
      OwnTaskStepOver(After(s0, ls), tk, l.taskMove);
    } else {
      OtherTaskStep(After(s0, ls), l, tk);
    }
  }

  lemma {:induction false} TaskOverStays(s0: Sys, ls: seq<Label>, more: seq<Label>, tk: Key)
    requires Initial(s0) && Run(s0, ls) && Run(s0, ls + more)
    requires TaskDeleting(After(s0, ls), tk) && TaskOver(TaskPcAt(After(s0, ls), tk))
    ensures tk in After(s0, ls + more).tasks && After(s0, ls + more).tasks[tk] == After(s0, ls).tasks[tk]
    ensures TaskOver(TaskPcAt(After(s0, ls + more), tk))
    ensures TaskPcAt(After(s0, ls), tk).TIdle? ==>
      && TaskPcAt(After(s0, ls + more), tk).TIdle?
      && forall l :: l in more && ActorOf(l) == Some(TaskActor(tk)) ==> l.taskMove.TGet?
    decreases |more|
  {
    if more == [] {
      assert ls + more == ls;
    } else {
      var front, l := more[..|more| - 1], more[|more| - 1];
      assert (ls + more)[..|ls + more| - 1] == ls + front;
      TaskOverStays(s0, ls, front, tk);
      NextTaskOver(s0, ls + front, l, tk);
      assert more == front + [l];
    }
  }

  /** Once a Task is being deleted with no reconcile of it in flight, then whatever
      follows, the Task stays as it is, and every reconcile of it makes no call but
      its Get: no command is issued. */
  lemma DeletingTaskStays(s0: Sys, ls: seq<Label>, more: seq<Label>, tk: Key)
    requires Initial(s0) && Run(s0, ls) && Run(s0, ls + more)
    requires
      var s := After(s0, ls);
      tk in s.tasks && s.tasks[tk].deleting && TaskPcAt(s, tk).TIdle?
    ensures
      var s, s' := After(s0, ls), After(s0, ls + more);
      && tk in s'.tasks && s'.tasks[tk] == s.tasks[tk]
      && (forall l :: l in more && l.TaskStep? && l.task == tk ==> l.taskMove.TGet?)
  {
    TaskOverStays(s0, ls, more, tk);
    forall l | l in more && l.TaskStep? && l.task == tk
      ensures l.taskMove.TGet?
    {
      assert ActorOf(l) == Some(TaskActor(tk));
    }
  }

  // ---- What its reconcile in flight can still do ----

  /** A reconcile about to persist the Task's next status. */
  ghost predicate AboutToPatch(s: Sys, tk: Key) {
    TaskPcAt(s, tk).TPatching? && tk in s.tasks
  }

  lemma ToFailure(s: Sys, tk: Key) returns (ls: seq<Label>)
    requires Shapes.Inv(s) && (TaskPcAt(s, tk).TFetched? || TaskPcAt(s, tk).TOpening?)
    ensures Run(s, ls) && AboutToPatch(After(s, ls), tk)
  {
    var pc := TaskPcAt(s, tk);
    assert TaskPcOk(s.tasks, tk, pc, s.clock);
    ls := [];
    if pc.TFetched? {
      ls := Achievable.OpenFetched(s, ls, tk, pc.task);
    }
    RunStep(s, ls, TaskStep(tk, TOpen(Some(""))));
    ls := ls + [TaskStep(tk, TOpen(Some("")))];
  }

  lemma ToCompletion(s: Sys, ls: seq<Label>, tk: Key, pc: TaskPc) returns (more: seq<Label>)
    requires Run(s, ls) && Achievable.TaskAt(s, After(s, ls), tk, pc) && TaskPcOk(s.tasks, tk, pc, s.clock)
    requires pc.TPolling? || pc.TConfirmed?
    ensures Run(s, more) && AboutToPatch(After(s, more), tk)
  {
    more := ls;
    if pc.TPolling? {
      Achievable.AcceptsSome(pc.task.action);
      more := Achievable.PollTask(s, ls, tk, pc.task, pc.sampled, Achievable.SomeReading(pc.task.action));
    }
    RunStep(s, more, TaskStep(tk, TNow(s.clock)));
    more := more + [TaskStep(tk, TNow(s.clock))];
  }

  lemma ToError(s: Sys, ls: seq<Label>, tk: Key, pc: TaskPc) returns (more: seq<Label>)
    requires Run(s, ls) && Achievable.TaskAt(s, After(s, ls), tk, pc) && TaskPcOk(s.tasks, tk, pc, s.clock)
    requires pc.TRunning? && Commands(pc.task.action)[pc.issued] != NoDevice
    ensures Run(s, more) && AboutToPatch(After(s, more), tk)
  {
    var l := TaskStep(tk, TCommand(Commands(pc.task.action)[pc.issued], Some("")));
    RunStep(s, ls, l);
    more := ls + [l];
  }

  lemma ToClockRead(s: Sys, tk: Key) returns (ls: seq<Label>, pc: TaskPc)
    requires Shapes.Inv(s) && TaskPcAt(s, tk).TOpened? && !PanicsNext(TaskPcAt(s, tk))
    ensures Run(s, ls) && Achievable.TaskAt(s, After(s, ls), tk, pc) && TaskPcOk(s.tasks, tk, pc, s.clock)
    ensures pc.TPolling? || pc.TConfirmed? || pc.TPatching? || pc.TRunning?
    ensures pc.TRunning? ==> Commands(pc.task.action)[pc.issued] != NoDevice
  {
    var t := TaskPcAt(s, tk).task;
    assert TaskPcOk(s.tasks, tk, TOpened(t), s.clock);
    TaskStory.PlanIsCommands(t.action);
    OpenedShape(s, tk, t);
    ls := Achievable.ReadClock(s, [], tk, t);
    pc := TaskOpenedEffect(tk, t, s.clock).pc;
  }

  lemma ToTaskPatch(s: Sys, tk: Key) returns (ls: seq<Label>)
    requires Shapes.Inv(s) && !TaskOver(TaskPcAt(s, tk))
    ensures Run(s, ls) && AboutToPatch(After(s, ls), tk)
  {
    var pc := TaskPcAt(s, tk);
    assert TaskPcOk(s.tasks, tk, pc, s.clock);
    if pc.TFetched? || pc.TOpening? {
      ls := ToFailure(s, tk);
    } else {
      TaskStory.PlanIsCommands(pc.task.action);
      ls := [];
      if pc.TOpened? {
        ls, pc := ToClockRead(s, tk);
      }
      if pc.TPolling? || pc.TConfirmed? {
        ls := ToCompletion(s, ls, tk, pc);
      } else if pc.TRunning? {
        ls := ToError(s, ls, tk, pc);
      }
    }
  }

  lemma TaskPatchChanges(s: Sys, tk: Key)
    requires Shapes.Inv(s) && AboutToPatch(s, tk)
    ensures Enabled(s, TaskStep(tk, TPatch(Applied)))
    ensures
      var s' := Next(s, TaskStep(tk, TPatch(Applied)));
      && tk in s'.tasks && TaskAdvance(s.tasks[tk].status, s'.tasks[tk].status)
  {
    TaskStepShape(s, tk, TPatch(Applied));
  }

  /** Some continuation changes the Task's status. */
  ghost predicate TaskMayChange(s0: Sys, ls: seq<Label>, tk: Key)
    requires Run(s0, ls) && tk in After(s0, ls).tasks
  {
    exists more :: Run(s0, ls + more) && tk in After(s0, ls + more).tasks
      && After(s0, ls + more).tasks[tk].status != After(s0, ls).tasks[tk].status
  }

  lemma TaskCanChange(s0: Sys, ls: seq<Label>, tk: Key)
    requires Initial(s0) && Run(s0, ls) && tk in After(s0, ls).tasks && !TaskOver(TaskPcAt(After(s0, ls), tk))
    ensures TaskMayChange(s0, ls, tk)
  {
    Shapes.Always(s0, ls);
    var way := ToTaskPatch(After(s0, ls), tk);
    Achievable.Compose(s0, ls, way);
    var patch := TaskStep(tk, TPatch(Applied));
    Shapes.Always(s0, ls + way);
    TaskPatchChanges(After(s0, ls + way), tk);
    RunStep(s0, ls + way, patch);
    assert ls + [] == ls && ls + (way + [patch]) == ls + way + [patch];
    assert Run(s0, ls + way) && Run(s0, ls + (way + [patch]));
  }

  /** The status of a Task that is being deleted can still change if and only if a
      reconcile that fetched it before the mark is in flight, and is not about to
      panic. */
  lemma DeletingTaskChanges(s0: Sys, ls: seq<Label>, tk: Key)
    requires Initial(s0) && Run(s0, ls) && tk in After(s0, ls).tasks && After(s0, ls).tasks[tk].deleting
    ensures TaskMayChange(s0, ls, tk) <==>
      var pc := TaskPcAt(After(s0, ls), tk);
      !pc.TIdle? && !PanicsNext(pc)
  {
    if TaskOver(TaskPcAt(After(s0, ls), tk)) {
      forall more | Run(s0, ls + more)
        ensures tk in After(s0, ls + more).tasks && After(s0, ls + more).tasks[tk] == After(s0, ls).tasks[tk]
      {
        TaskOverStays(s0, ls, more, tk);
      }
    } else {
      TaskCanChange(s0, ls, tk);
    }
  }

  // ---- Commands ----

  /** Some continuation issues a command for the Task. */
  ghost predicate MayCommand(s0: Sys, ls: seq<Label>, tk: Key) {
    exists more, l :: Run(s0, ls + more) && l in more && Commanding(l, tk)
  }

  lemma RunningNoCommand(s: Sys, tk: Key, m: TaskMove)
    requires Shapes.Inv(s) && TaskEnabled(s, tk, m) && TaskPcAt(s, tk).TRunning? && !CommandsNext(TaskPcAt(s, tk))
    ensures !m.TCommand? && TaskEffectOf(s, tk, m).pc.TIdle?
  {
    assert TaskPcOk(s.tasks, tk, TaskPcAt(s, tk), s.clock);
    TaskStory.PlanIsCommands(TaskPcAt(s, tk).task.action);
  }

  lemma PcNoCommand(s: Sys, tk: Key, m: TaskMove)
    requires Shapes.Inv(s) && TaskEnabled(s, tk, m) && TaskDeleting(s, tk) && !CommandsNext(TaskPcAt(s, tk))
    ensures !m.TCommand? && !CommandsNext(TaskEffectOf(s, tk, m).pc)
  {
    var pc := TaskPcAt(s, tk);
    if pc.TRunning? {
      RunningNoCommand(s, tk, m);
    } else if pc.TOpened? && m.TNow? {
      OpenedNoCommand(tk, pc.task, s.clock);
    }
  }

  lemma OwnStepNoCommand(s: Sys, tk: Key, m: TaskMove)
    requires Shapes.Inv(s) && TaskEnabled(s, tk, m) && TaskDeleting(s, tk) && !CommandsNext(TaskPcAt(s, tk))
    ensures TaskDeleting(Next(s, TaskStep(tk, m)), tk) && !CommandsNext(TaskPcAt(Next(s, TaskStep(tk, m)), tk))
    ensures !m.TCommand?
  {
    PcNoCommand(s, tk, m);
  }

  lemma OpenedNoCommand(tk: Key, t: Task, now: Time)
    requires !CommandsNext(TOpened(t))
    ensures !CommandsNext(TaskOpenedEffect(tk, t, now).pc)
  {
    TaskStory.PlanIsCommands(t.action);
  }

  lemma NextNoCommand(s0: Sys, ls: seq<Label>, l: Label, tk: Key)
    requires Initial(s0) && Run(s0, ls) && Enabled(After(s0, ls), l)
    requires TaskDeleting(After(s0, ls), tk) && !CommandsNext(TaskPcAt(After(s0, ls), tk))
    ensures TaskDeleting(Next(After(s0, ls), l), tk) && !CommandsNext(TaskPcAt(Next(After(s0, ls), l), tk))
    ensures !Commanding(l, tk)
  {
    Shapes.Always(s0, ls);
    if ActorOf(l) == Some(TaskActor(tk)) {
      OwnStepNoCommand(After(s0, ls), tk, l.taskMove);
    } else {
      OtherTaskStep(After(s0, ls), l, tk);
    }
  }

  lemma {:induction false} NoCommand(s0: Sys, ls: seq<Label>, more: seq<Label>, tk: Key)
    requires Initial(s0) && Run(s0, ls) && Run(s0, ls + more)
    requires TaskDeleting(After(s0, ls), tk) && !CommandsNext(TaskPcAt(After(s0, ls), tk))
    ensures TaskDeleting(After(s0, ls + more), tk) && !CommandsNext(TaskPcAt(After(s0, ls + more), tk))
    ensures forall l :: l in more ==> !Commanding(l, tk)
    decreases |more|
  {
    if more == [] {
      assert ls + more == ls;
    } else {
      var front, l := more[..|more| - 1], more[|more| - 1];
      assert (ls + more)[..|ls + more| - 1] == ls + front;
      NoCommand(s0, ls, front, tk);
      NextNoCommand(s0, ls + front, l, tk);
      assert more == front + [l];
    }
  }

  lemma ToRunning(s: Sys, tk: Key) returns (ls: seq<Label>)
    requires Shapes.Inv(s) && CommandsNext(TaskPcAt(s, tk))
    ensures Run(s, ls)
    ensures
      var pc := TaskPcAt(After(s, ls), tk);
      pc.TRunning? && pc.issued < |Commands(pc.task.action)| && Commands(pc.task.action)[pc.issued] != NoDevice
  {
    var pc := TaskPcAt(s, tk);
    TaskStory.PlanIsCommands(pc.task.action);
    ls := [];
    if !pc.TRunning? {
      ls := Stopping.OpenedFrom(s, tk, pc);
      ls := Achievable.ReadClock(s, ls, tk, pc.task);
    }
  }

  lemma CanCommand(s0: Sys, ls: seq<Label>, tk: Key)
    requires Initial(s0) && Run(s0, ls) && CommandsNext(TaskPcAt(After(s0, ls), tk))
    ensures MayCommand(s0, ls, tk)
  {
    Shapes.Always(s0, ls);
    var way := ToRunning(After(s0, ls), tk);
    Achievable.Compose(s0, ls, way);
    var pc := TaskPcAt(After(s0, ls + way), tk);
    var l := TaskStep(tk, TCommand(Commands(pc.task.action)[pc.issued], None));
    RunStep(s0, ls + way, l);
    assert ls + (way + [l]) == ls + way + [l];
    assert Run(s0, ls + (way + [l])) && l in way + [l] && Commanding(l, tk);
  }

  /** A command can still be issued for a Task that is being deleted if and only if
      a reconcile that fetched it before the mark has one yet to issue. */
  lemma DeletingTaskCommands(s0: Sys, ls: seq<Label>, tk: Key)
    requires Initial(s0) && Run(s0, ls) && tk in After(s0, ls).tasks && After(s0, ls).tasks[tk].deleting
    ensures MayCommand(s0, ls, tk) <==> CommandsNext(TaskPcAt(After(s0, ls), tk))
  {
    if CommandsNext(TaskPcAt(After(s0, ls), tk)) {
      CanCommand(s0, ls, tk);
    } else {
      forall more | Run(s0, ls + more)
        ensures forall l :: l in more ==> !Commanding(l, tk)
      {
        NoCommand(s0, ls, more, tk);
      }
    }
  }
}
