/** When a Job's actions stop being run. */
module Stopping {
  import opened Options
  import opened Conditions
  import opened Statuses
  import opened Bmc
  import opened Protocol
  import opened StatusInvariant
  import opened OrderInvariant
  import opened RunLog
  import opened TraceInvariant
  import Achievable
  import Theorems
  import Witnesses
  import WriteBound
  import Shapes = StatusInvariant
  import Order = OrderInvariant
  import Ordered = OrderPreserved

  // ---- What a step runs ----

  lemma {:induction false} OthersRun(events: seq<Event>, jk: Key)
    requires forall e :: e in events ==> !e.RunCalled? || e.owner != Some(jk)
    ensures ActionsRun(events, jk) == []
  {
    if events != [] {
      assert events[|events| - 1] in events;
      OthersRun(events[..|events| - 1], jk);
    }
  }

  lemma NoRunRuns(events: seq<Event>, jk: Key)
    requires NoRun(events)
    ensures ActionsRun(events, jk) == []
  {
    OthersRun(events, jk);
  }

  lemma CallByOther(called: Event, rest: seq<Event>, jk: Key)
    requires called.RunCalled? && called.owner != Some(jk) && NoRun(rest)
    ensures ActionsRun([called] + rest, jk) == []
  {
    OthersRun([called] + rest, jk);
  }

  lemma TaskLogs(s: Sys, tk: Key, m: TaskMove)
    requires TaskEnabled(s, tk, m)
    ensures Next(s, TaskStep(tk, m)).log == s.log + TaskEffectOf(s, tk, m).events
  {
  }

  lemma TaskStepRuns(s: Sys, tk: Key, m: TaskMove, jk: Key)
    requires Shapes.Inv(s) && TaskEnabled(s, tk, m)
    requires StartsRun(s, tk, m) ==> !Owned(s.tasks, tk, jk)
    ensures ActionsRun(Next(s, TaskStep(tk, m)).log, jk) == ActionsRun(s.log, jk)
  {
    TaskLogs(s, tk, m);
    ActionsRunAppend(s.log, TaskEffectOf(s, tk, m).events, jk);
    if StartsRun(s, tk, m) {
      RunStepEvents(s, tk);
      var events := TaskEffectOf(s, tk, TNow(s.clock)).events;
      assert events == [events[0]] + events[1..];
      CallByOther(events[0], events[1..], jk);
    } else {
      TaskStepQuiet(s, tk, m);
      NoRunRuns(TaskEffectOf(s, tk, m).events, jk);
    }
  }

  lemma JobStepRuns(s: Sys, j: Key, m: JobMove, jk: Key)
    requires JobEnabled(s, j, m)
    ensures ActionsRun(Next(s, JobStep(j, m)).log, jk) == ActionsRun(s.log, jk)
  {
    var events := JobEffectOf(s, j, m).events;
    JobLogs(s, j, m);
    Theorems.JobStepNoRun(s, j, m);
    ActionsRunAppend(s.log, events, jk);
    OthersRun(events, jk);
  }

  lemma JobLogs(s: Sys, j: Key, m: JobMove)
    requires JobEnabled(s, j, m)
    ensures Next(s, JobStep(j, m)).log == s.log + JobEffectOf(s, j, m).events
  {
  }

  /** A step that does not start a run of one of the Job's Tasks runs nothing for it. */
  lemma StepRuns(s: Sys, l: Label, jk: Key)
    requires Shapes.Inv(s) && Enabled(s, l)
    requires l.TaskStep? && StartsRun(s, l.task, l.taskMove) ==> !Owned(s.tasks, l.task, jk)
    ensures ActionsRun(Next(s, l).log, jk) == ActionsRun(s.log, jk)
  {
    match l
    case User(m) =>
    case TaskStep(tk, m) => TaskStepRuns(s, tk, m, jk);
    case JobStep(j, m) => JobStepRuns(s, j, m, jk);
  }

  // ---- A failed Task stops its Job ----

  lemma FailedKept(v: TaskStore, w: TaskStore, jk: Key, i: nat)
    requires OwnedFailed(v, jk, i) && Older(v, w)
    ensures OwnedFailed(w, jk, i)
  {
  }

  lemma NoStartBeside(s: Sys, jk: Key, i: nat, tk: Key)
    requires Order.Inv(s) && OwnedFailed(s.tasks, jk, i)
    requires TaskPcAt(s, tk).TOpened? && TaskPcAt(s, tk).task.status.startTime.None?
    ensures !Owned(s.tasks, tk, jk)
  {
    assert TaskPcOk(s.tasks, tk, TaskPcAt(s, tk), s.clock);
    if Owned(s.tasks, tk, jk) {
      NoFreshBeside(s, jk, i, tk);
    }
  }

  lemma FailedStep(s: Sys, l: Label, jk: Key, i: nat)
    requires Order.Inv(s) && Enabled(s, l) && OwnedFailed(s.tasks, jk, i)
    ensures OwnedFailed(Next(s, l).tasks, jk, i) && ActionsRun(Next(s, l).log, jk) == ActionsRun(s.log, jk)
  {
    WriteBound.StepGrows(s, l);
    FailedKept(s.tasks, Next(s, l).tasks, jk, i);
    if l.TaskStep? && StartsRun(s, l.task, l.taskMove) {
      NoStartBeside(s, jk, i, l.task);
    }
    StepRuns(s, l, jk);
  }

  lemma NoFreshBeside(s: Sys, jk: Key, i: nat, tk: Key)
    requires Order.Inv(s) && OwnedFailed(s.tasks, jk, i) && Owned(s.tasks, tk, jk)
    ensures !TaskFresh(s.tasks[tk].status)
  {
    var k: nat :| Prefix(s.tasks, jk, s.jobs[jk].actions, k);
    Theorems.FailedIsLast(s.tasks, jk, s.jobs[jk].actions, k, i);
    if TaskFresh(s.tasks[tk].status) {
      FreshIsLast(s.tasks, jk, s.jobs[jk].actions, k, tk);
    }
  }

  /** If a single Task fails, the execution of its Job stops: the Task stays
      Failed and no action of the Job is ever run again. */
  lemma {:induction false} FailedTaskStopsJob(s0: Sys, ls: seq<Label>, more: seq<Label>, jk: Key, i: nat)
    requires Initial(s0) && Run(s0, ls) && Run(s0, ls + more) && OwnedFailed(After(s0, ls).tasks, jk, i)
    ensures OwnedFailed(After(s0, ls + more).tasks, jk, i)
    ensures ActionsRun(After(s0, ls + more).log, jk) == ActionsRun(After(s0, ls).log, jk)
    decreases |more|
  {
    if more == [] {
      assert ls + more == ls;
    } else {
      var front := more[..|more| - 1];
      assert (ls + more)[..|ls + more| - 1] == ls + front;
      FailedTaskStopsJob(s0, ls, front, jk, i);
      Ordered.Always(s0, ls + front);
      FailedStep(After(s0, ls + front), more[|more| - 1], jk, i);
    }
  }

  // ---- What a terminal Job can still run ----

  /** A Task that has not started and still can: it is not being deleted, or its
      reconcile has fetched it before it was. */
  ghost predicate CanStart(s: Sys, tk: Key) {
    && tk in s.tasks && TaskFresh(s.tasks[tk].status)
    && var pc := TaskPcAt(s, tk);
       !s.tasks[tk].deleting || pc.TFetched? || pc.TOpening? || pc.TOpened?
  }

  ghost predicate LastCanStart(s: Sys, jk: Key)
    requires jk in s.jobs
  {
    exists k: nat :: k > 0 && Prefix(s.tasks, jk, s.jobs[jk].actions, k) && CanStart(s, TaskKey(jk, k - 1))
  }

  /** Some continuation runs an action of the Job. */
  ghost predicate StillRuns(s0: Sys, ls: seq<Label>, jk: Key)
    requires Run(s0, ls)
  {
    exists more :: Run(s0, ls + more) && ActionsRun(After(s0, ls + more).log, jk) != ActionsRun(After(s0, ls).log, jk)
  }

  ghost predicate NoneCanStart(s: Sys, jk: Key) {
    forall tk :: Owned(s.tasks, tk, jk) ==> !CanStart(s, tk)
  }

  ghost predicate Quiet(s: Sys, jk: Key) {
    jk in s.jobs && Terminal(s.jobs[jk].status) && NoneCanStart(s, jk)
  }

  /** No step makes a Task startable that was not. */
  lemma StartableBefore(s: Sys, l: Label, tk: Key)
    requires Shapes.Inv(s) && Enabled(s, l) && tk in s.tasks && CanStart(Next(s, l), tk)
    ensures CanStart(s, tk)
  {
    match l
    case User(m) =>
    case JobStep(jk, m) => JobStepWrites(s, jk, m);
    case TaskStep(k, m) => StartableBeforeTask(s, k, m, tk);
  }

  lemma StartableBeforeTask(s: Sys, k: Key, m: TaskMove, tk: Key)
    requires Shapes.Inv(s) && TaskEnabled(s, k, m) && tk in s.tasks && CanStart(Next(s, TaskStep(k, m)), tk)
    ensures CanStart(s, tk)
  {
    TaskStepShape(s, k, m);
    assert TaskPcOk(s.tasks, tk, TaskPcAt(s, tk), s.clock);
  }

  lemma QuietTerminalStep(s: Sys, l: Label, jk: Key)
    requires Order.Inv(s) && Enabled(s, l) && Quiet(s, jk)
    ensures Quiet(Next(s, l), jk) && ActionsRun(Next(s, l).log, jk) == ActionsRun(s.log, jk)
  {
    Theorems.TerminalStep(s, l, jk);
    forall tk | Owned(Next(s, l).tasks, tk, jk)
      ensures !CanStart(Next(s, l), tk)
    {
      assert Owned(s.tasks, tk, jk);
      if CanStart(Next(s, l), tk) {
        StartableBefore(s, l, tk);
      }
    }
    if l.TaskStep? && StartsRun(s, l.task, l.taskMove) {
      assert TaskPcOk(s.tasks, l.task, TaskPcAt(s, l.task), s.clock);
      assert CanStart(s, l.task);
    }
    StepRuns(s, l, jk);
  }

  lemma QuietTerminalRun(s0: Sys, ls: seq<Label>, l: Label, jk: Key)
    requires Initial(s0) && Run(s0, ls) && Enabled(After(s0, ls), l) && Quiet(After(s0, ls), jk)
    ensures Quiet(Next(After(s0, ls), l), jk)
    ensures ActionsRun(Next(After(s0, ls), l).log, jk) == ActionsRun(After(s0, ls).log, jk)
  {
    Ordered.Always(s0, ls);
    QuietTerminalStep(After(s0, ls), l, jk);
  }

  lemma {:induction false} QuietTerminal(s0: Sys, ls: seq<Label>, more: seq<Label>, jk: Key)
    requires Initial(s0) && Run(s0, ls) && Run(s0, ls + more)
    requires Quiet(After(s0, ls), jk)
    ensures Quiet(After(s0, ls + more), jk)
    ensures ActionsRun(After(s0, ls + more).log, jk) == ActionsRun(After(s0, ls).log, jk)
    decreases |more|
  {
    if more == [] {
      assert ls + more == ls;
    } else {
      var front := more[..|more| - 1];
      assert (ls + more)[..|ls + more| - 1] == ls + front;
      QuietTerminal(s0, ls, front, jk);
      QuietTerminalRun(s0, ls + front, more[|more| - 1], jk);
    }
  }

  /** The way to the start of a run. */
  lemma ReachOpened(s: Sys, tk: Key) returns (ls: seq<Label>)
    requires Shapes.Inv(s) && CanStart(s, tk)
    ensures
      && Run(s, ls) && tk in After(s, ls).tasks && After(s, ls).tasks[tk] == s.tasks[tk]
      && TaskPcAt(After(s, ls), tk).TOpened?
        && TaskPcAt(After(s, ls), tk).task.(deleting := s.tasks[tk].deleting) == s.tasks[tk]
  {
    var pc := TaskPcAt(s, tk);
    assert TaskPcOk(s.tasks, tk, pc, s.clock);
    if pc.TFetched? || pc.TOpening? || pc.TOpened? {
      ls := OpenedFrom(s, tk, pc);
    } else {
      var cut: seq<Label> := [];
      if !pc.TIdle? {
        Achievable.One(s, TaskStep(tk, TCut));
        cut := [TaskStep(tk, TCut)];
      }
      var more := Achievable.OpenTask(After(s, cut), tk);
      Achievable.Compose(s, cut, more);
      ls := cut + more;
    }
  }

  lemma OpenedFrom(s: Sys, tk: Key, pc: TaskPc) returns (ls: seq<Label>)
    requires TaskPcAt(s, tk) == pc && (pc.TFetched? || pc.TOpening? || pc.TOpened?)
    ensures Run(s, ls) && Achievable.TaskAt(s, After(s, ls), tk, TOpened(pc.task))
  {
    ls := [];
    if pc.TFetched? {
      ls := Achievable.OpenFetched(s, ls, tk, pc.task);
    }
    if !pc.TOpened? {
      ls := Achievable.OpenConnection(s, ls, tk, pc.task);
    }
  }

  lemma CallLogged(log: seq<Event>, called: Event, rest: seq<Event>, jk: Key)
    requires called.RunCalled? && called.owner == Some(jk) && NoRun(rest)
    ensures |ActionsRun(log + ([called] + rest), jk)| == |ActionsRun(log, jk)| + 1
  {
    ActionsRunAppend(log, [called] + rest, jk);
    ActionsRunAppend([called], rest, jk);
    OthersRun(rest, jk);
    assert [called][..0] == [];
  }

  lemma RunLogged(s: Sys, tk: Key, jk: Key)
    requires TaskPcAt(s, tk).TOpened? && TaskPcAt(s, tk).task.status.startTime.None?
    requires OwnerOf(tk, TaskPcAt(s, tk).task) == Some(jk)
    ensures |ActionsRun(Next(s, TaskStep(tk, TNow(s.clock))).log, jk)| == |ActionsRun(s.log, jk)| + 1
  {
    var t := TaskPcAt(s, tk).task;
    var called := RunCalled(tk, Some(jk), t.action);
    var rest := if Commands(t.action) == [] then [RunReturned(tk)] else [];
    assert TaskOpenedEffect(tk, t, s.clock).events == [called] + rest;
    CallLogged(s.log, called, rest, jk);
  }

  lemma CanRunOn(s0: Sys, ls: seq<Label>, tk: Key, jk: Key) returns (more: seq<Label>)
    requires Initial(s0) && Run(s0, ls) && Owned(After(s0, ls).tasks, tk, jk) && CanStart(After(s0, ls), tk)
    ensures Run(s0, ls + more)
    ensures |ActionsRun(After(s0, ls + more).log, jk)| > |ActionsRun(After(s0, ls).log, jk)|
  {
    Shapes.Always(s0, ls);
    var s := After(s0, ls);
    var way := ReachOpened(s, tk);
    Achievable.Compose(s0, ls, way);
    var s1 := After(s0, ls + way);
    RunLogged(s1, tk, jk);
    RunStep(s0, ls + way, TaskStep(tk, TNow(s1.clock)));
    more := way + [TaskStep(tk, TNow(s1.clock))];
    assert ls + more == ls + way + [TaskStep(tk, TNow(s1.clock))];
    Theorems.StatusesOnlyAdvance(s0, ls, way);
    assert s1.log == s.log + s1.log[|s.log|..];
    ActionsRunAppend(s.log, s1.log[|s.log|..], jk);
  }

  lemma OwnedFreshIsLast(s: Sys, jk: Key, tk: Key)
    requires Order.Inv(s) && jk in s.jobs && Owned(s.tasks, tk, jk) && CanStart(s, tk)
    ensures LastCanStart(s, jk)
  {
    var k: nat :| Prefix(s.tasks, jk, s.jobs[jk].actions, k);
    FreshIsLast(s.tasks, jk, s.jobs[jk].actions, k, tk);
  }

  /** A Job whose terminal status is persisted can still run something if and
      only if its last Task has not started and still can. */
  lemma TerminalJobRuns(s0: Sys, ls: seq<Label>, jk: Key)
    requires Initial(s0) && Run(s0, ls) && jk in After(s0, ls).jobs && Terminal(After(s0, ls).jobs[jk].status)
    ensures StillRuns(s0, ls, jk) <==> LastCanStart(After(s0, ls), jk)
  {
    var s := After(s0, ls);
    Ordered.Always(s0, ls);
    if LastCanStart(s, jk) {
      var k: nat :| k > 0 && Prefix(s.tasks, jk, s.jobs[jk].actions, k) && CanStart(s, TaskKey(jk, k - 1));
      assert Owned(s.tasks, TaskKey(jk, k - 1), jk);
      var more := CanRunOn(s0, ls, TaskKey(jk, k - 1), jk);
      assert StillRuns(s0, ls, jk);
    } else {
      forall tk | Owned(s.tasks, tk, jk)
        ensures !CanStart(s, tk)
      {
        if CanStart(s, tk) {
          OwnedFreshIsLast(s, jk, tk);
        }
      }
      forall more | Run(s0, ls + more)
        ensures ActionsRun(After(s0, ls + more).log, jk) == ActionsRun(s.log, jk)
      {
        QuietTerminal(s0, ls, more, jk);
      }
    }
  }

  /** A Completed Job never runs anything again. */
  lemma CompletedJobIsOver(s0: Sys, ls: seq<Label>, jk: Key)
    requires Initial(s0) && Run(s0, ls) && jk in After(s0, ls).jobs && Is(After(s0, ls).jobs[jk].status, Completed)
    ensures !StillRuns(s0, ls, jk)
  {
    var s := After(s0, ls);
    TerminalJobRuns(s0, ls, jk);
    Theorems.CompletedJobIsSound(s0, ls, jk);
    forall k: nat | k > 0 && Prefix(s.tasks, jk, s.jobs[jk].actions, k)
      ensures !CanStart(s, TaskKey(jk, k - 1))
    {
      assert OwnedDone(s.tasks, jk, k - 1);
    }
  }

  /** The create takes effect, but the reconcile sees an error. */
  lemma CreateUnseen(s: Sys, jk: Key, error: string) returns (s1: Sys)
    requires JobPcAt(s, jk).JCreating? && JobEnabled(s, jk, JCreate(AppliedUnseen, error))
    ensures s1 == Next(s, JobStep(jk, JCreate(AppliedUnseen, error)))
    ensures
      var pc := JobPcAt(s, jk);
      && s1.jobs == s.jobs && s1.tasks ==
        s.tasks[TaskKey(jk, pc.index) := NewTask(jk, pc.job.actions[pc.index], pc.connection)]
      && JobPcAt(s1, jk) == JPatching(pc.job,
        With(pc.current, Failed, Some(CreateFailure(TaskKey(jk, pc.index), error))), Error)
      && ActionsRun(s1.log, jk) == ActionsRun(s.log, jk)
  {
    var pc := JobPcAt(s, jk);
    s1 := Next(s, JobStep(jk, JCreate(AppliedUnseen, error)));
    ActionsRunAppend(s.log, [CreateFailed(jk, pc.index, error)], jk);
    OthersRun([CreateFailed(jk, pc.index, error)], jk);
  }

  lemma PatchFailed(s1: Sys, jk: Key, running: Status, message: string) returns (s2: Sys)
    requires jk in s1.jobs && s1.jobs[jk].status == EMPTY && JobRunning(running) && JobPcAt(s1, jk).JPatching?
    requires JobPcAt(s1, jk).job == s1.jobs[jk] && JobPcAt(s1, jk).current == With(running, Failed, Some(message))
    ensures s2 == Next(s1, JobStep(jk, JPatch(Applied)))
    ensures jk in s2.jobs && Is(s2.jobs[jk].status, Failed) && s2.tasks == s1.tasks && s2.log == s1.log
  {
    s2 := Next(s1, JobStep(jk, JPatch(Applied)));
    assert s1.log + [] == s1.log;
    FirstIs(With(running, Failed, Some(message)).conditions, Failed, 1);
  }

  /** A create that takes effect with its answer lost marks the Job Failed. */
  lemma LoseCreate(s0: Sys, ls: seq<Label>, jk: Key, error: string) returns (more: seq<Label>)
    requires Run(s0, ls) && JobPcAt(After(s0, ls), jk).JCreating? && jk in After(s0, ls).jobs
    requires
      var s, pc := After(s0, ls), JobPcAt(After(s0, ls), jk);
      pc.index < |pc.job.actions| && TaskKey(jk, pc.index) !in s.tasks && pc.job == s.jobs[jk]
        && s.jobs[jk].status == EMPTY
    requires JobRunning(JobPcAt(After(s0, ls), jk).current)
    ensures Run(s0, ls + more) && jk in After(s0, ls + more).jobs && Is(After(s0, ls + more).jobs[jk].status, Failed)
    ensures
      var s, s', pc := After(s0, ls), After(s0, ls + more), JobPcAt(After(s0, ls), jk);
      && s'.tasks == s.tasks[TaskKey(jk, pc.index) := NewTask(jk, pc.job.actions[pc.index], pc.connection)]
      && ActionsRun(s'.log, jk) == ActionsRun(s.log, jk)
  {
    var s, pc := After(s0, ls), JobPcAt(After(s0, ls), jk);
    var s1 := CreateUnseen(s, jk, error);
    RunStep(s0, ls, JobStep(jk, JCreate(AppliedUnseen, error)));
    var s2 := PatchFailed(s1, jk, pc.current, CreateFailure(TaskKey(jk, pc.index), error));
    RunStep(s0, ls + [JobStep(jk, JCreate(AppliedUnseen, error))], JobStep(jk, JPatch(Applied)));
    more := [JobStep(jk, JCreate(AppliedUnseen, error)), JobStep(jk, JPatch(Applied))];
    assert ls + more == ls + [more[0]] + [more[1]];
  }

  /** A terminal Job that still runs something: a create whose answer was lost
      fails the Job, and the Task it created is run afterwards. */
  lemma FailedJobMayRunOn(s0: Sys, jk: Key, action: Action, connection: Connection)
    returns (ls: seq<Label>, more: seq<Label>)
    requires Initial(s0)
    ensures Run(s0, ls) && Run(s0, ls + more) && jk in After(s0, ls).jobs
    ensures Is(After(s0, ls).jobs[jk].status, Failed)
    ensures ActionsRun(After(s0, ls).log, jk) == [] && ActionsRun(After(s0, ls + more).log, jk) != []
  {
    ls := Witnesses.ReachCreate(s0, jk, action, connection);
    Ordered.Always(s0, ls);
    var s := After(s0, ls);
    assert JobPcOk(s.jobs, jk, JobPcAt(s, jk), s.clock);
    NothingRun(s0, ls, jk);
    var lost := LoseCreate(s0, ls, jk, "");
    ls := ls + lost;
    Ordered.Always(s0, ls);
    NewTaskOwner(jk, 0, action, JobPcAt(s, jk).connection);
    more := CanRunOn(s0, ls, TaskKey(jk, 0), jk);
  }

  lemma NothingRun(s0: Sys, ls: seq<Label>, jk: Key)
    requires Initial(s0) && Run(s0, ls) && jk in After(s0, ls).jobs && After(s0, ls).tasks == map[]
    ensures ActionsRun(After(s0, ls).log, jk) == []
  {
    var k := Theorems.TraceRefinement(s0, ls, jk);
    assert !Owned(After(s0, ls).tasks, TaskKey(jk, 0), jk);
  }
}
