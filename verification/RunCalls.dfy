/** The log's calls of runTask, told by the calls a reconcile makes: one for every
    reading of the clock with the connection open and no StartTime. */
module RunCalls {
  import opened Options
  import opened Bmc
  import opened Protocol
  import opened StatusInvariant
  import opened RunLog
  import opened TraceInvariant
  import Shapes = StatusInvariant
  import Stopping
  import TaskStory

  /** The last step of the run calls runTask for the Task: a reconcile of it has
      opened the connection and read the clock, and the Task has no StartTime. */
  ghost predicate CallsRunTask(s0: Sys, ls: seq<Label>, tk: Key)
    requires Run(s0, ls) && ls != []
  {
    var s, l := After(s0, ls[..|ls| - 1]), ls[|ls| - 1];
    && l.TaskStep? && l.task == tk && l.taskMove.TNow?
    && tk in s.tasks && s.tasks[tk].status.startTime.None?
    && TaskStory.LastReconcile(ls, TaskActor(tk)) == TaskStory.Sampling(tk, s.tasks[tk], l.taskMove.now)
  }

  ghost predicate CallsFor(s0: Sys, ls: seq<Label>, jk: Key)
    requires Run(s0, ls) && ls != []
  {
    var s, l := After(s0, ls[..|ls| - 1]), ls[|ls| - 1];
    l.TaskStep? && CallsRunTask(s0, ls, l.task) && OwnerOf(l.task, s.tasks[l.task]) == Some(jk)
  }

  /** The actions runTask was called with for a Job's Tasks, in order. */
  ghost function ActionsCalled(s0: Sys, ls: seq<Label>, jk: Key): seq<Action>
    requires Run(s0, ls)
  {
    if ls == [] then []
    else
      ActionsCalled(s0, ls[..|ls| - 1], jk) +
      if CallsFor(s0, ls, jk) then [After(s0, ls[..|ls| - 1]).tasks[ls[|ls| - 1].task].action] else []
  }

  /** How often runTask was called for a Task. */
  ghost function CallCount(s0: Sys, ls: seq<Label>, tk: Key): nat
    requires Run(s0, ls)
  {
    if ls == [] then 0 else CallCount(s0, ls[..|ls| - 1], tk) + if CallsRunTask(s0, ls, tk) then 1 else 0
  }

  /** A step calls runTask exactly when the protocol's step starts a run. */
  lemma CallIsStart(s0: Sys, ls: seq<Label>, tk: Key)
    requires Initial(s0) && Run(s0, ls) && ls != []
    ensures
      var s, l := After(s0, ls[..|ls| - 1]), ls[|ls| - 1];
      CallsRunTask(s0, ls, tk) <==> l.TaskStep? && l.task == tk && StartsRun(s, tk, l.taskMove)
  {
    var front, l := ls[..|ls| - 1], ls[|ls| - 1];
    var s := After(s0, front);
    if l.TaskStep? && l.task == tk && l.taskMove.TNow? {
      TaskStory.AlwaysAlong(s0, front, tk);
      TaskStory.LastReconcileStep(ls, TaskActor(tk));
      Shapes.Always(s0, front);
      assert TaskPcOk(s.tasks, tk, TaskPcAt(s, tk), s.clock);
    }
  }

  lemma CallRuns(s: Sys, tk: Key, jk: Key, k: Key)
    requires Shapes.Inv(s) && TaskEnabled(s, tk, TNow(s.clock)) && StartsRun(s, tk, TNow(s.clock))
    ensures
      var log := Next(s, TaskStep(tk, TNow(s.clock))).log;
      && tk in s.tasks
      && ActionsRun(log, jk) ==
           ActionsRun(s.log, jk) + (if OwnerOf(tk, s.tasks[tk]) == Some(jk) then [s.tasks[tk].action] else [])
      && Runs(log, k) == Runs(s.log, k) + if k == tk then 1 else 0
  {
    RunStepEvents(s, tk);
    var events := TaskEffectOf(s, tk, TNow(s.clock)).events;
    assert events == [events[0]] + events[1..];
    Stopping.TaskLogs(s, tk, TNow(s.clock));
    LogsCall(s.log, events[0], events[1..], jk, k);
  }

  lemma {:induction false} NoRunNoRuns(events: seq<Event>, k: Key)
    requires NoRun(events)
    ensures Runs(events, k) == 0
  {
    if events != [] {
      assert events[|events| - 1] in events;
      NoRunNoRuns(events[..|events| - 1], k);
    }
  }

  lemma LogsNone(log: seq<Event>, events: seq<Event>, jk: Key, k: Key)
    requires NoRun(events)
    ensures ActionsRun(log + events, jk) == ActionsRun(log, jk) && Runs(log + events, k) == Runs(log, k)
  {
    ActionsRunAppend(log, events, jk);
    Stopping.NoRunRuns(events, jk);
    RunsAppend(log, events, k);
    NoRunNoRuns(events, k);
  }

  lemma LogsCall(log: seq<Event>, called: Event, rest: seq<Event>, jk: Key, k: Key)
    requires called.RunCalled? && NoRun(rest)
    ensures ActionsRun(log + ([called] + rest), jk) ==
      ActionsRun(log, jk) + if called.owner == Some(jk) then [called.action] else []
    ensures Runs(log + ([called] + rest), k) == Runs(log, k) + if called.task == k then 1 else 0
  {
    assert log + ([called] + rest) == (log + [called]) + rest;
    LogsNone(log + [called], rest, jk, k);
    assert (log + [called])[..|log + [called]| - 1] == log;
  }

  lemma QuietRuns(s: Sys, l: Label, jk: Key, k: Key)
    requires Shapes.Inv(s) && Enabled(s, l) && !(l.TaskStep? && StartsRun(s, l.task, l.taskMove))
    ensures ActionsRun(Next(s, l).log, jk) == ActionsRun(s.log, jk) && Runs(Next(s, l).log, k) == Runs(s.log, k)
  {
    match l
    case User(m) =>
    case JobStep(j, m) =>
      Stopping.JobLogs(s, j, m);
      JobEvents(s, j, m);
      LogsNone(s.log, JobEffectOf(s, j, m).events, jk, k);
    case TaskStep(tk, m) =>
      TaskStepQuiet(s, tk, m);
      LogsNone(s.log, TaskEffectOf(s, tk, m).events, jk, k);
  }

  lemma JobEvents(s: Sys, j: Key, m: JobMove)
    requires JobEnabled(s, j, m)
    ensures NoRun(JobEffectOf(s, j, m).events)
  {
  }

  /** In every run, the actions the log says were run for a Job are those runTask
      was called with for its Tasks, and the log counts exactly these calls. */
  lemma {:induction false} LogIsCalls(s0: Sys, ls: seq<Label>, jk: Key, tk: Key)
    requires Initial(s0) && Run(s0, ls)
    ensures ActionsRun(After(s0, ls).log, jk) == ActionsCalled(s0, ls, jk)
    ensures Runs(After(s0, ls).log, tk) == CallCount(s0, ls, tk)
  {
    if ls != [] {
      var front, l := ls[..|ls| - 1], ls[|ls| - 1];
      var s := After(s0, front);
      LogIsCalls(s0, front, jk, tk);
      Shapes.Always(s0, front);
      CallIsStart(s0, ls, tk);
      if l.TaskStep? && StartsRun(s, l.task, l.taskMove) {
        CallIsStart(s0, ls, l.task);
        CallRuns(s, l.task, jk, tk);
      } else {
        if l.TaskStep? {
          CallIsStart(s0, ls, l.task);
        }
        QuietRuns(s, l, jk, tk);
      }
    }
  }
}
