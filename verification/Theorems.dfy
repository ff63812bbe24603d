/** What holds of every run of the controllers: any interleaving, any failed or
    unanswered call, any reconcile cut off, any listing from the past. */
module Theorems {
  import opened Options
  import opened Conditions
  import opened Statuses
  import opened Bmc
  import opened Protocol
  import opened StatusInvariant
  import opened OrderInvariant
  import opened OrderPreserved
  import opened RunLog
  import opened TraceInvariant
  import Trace = TraceInvariant
  import opened WriteBound
  import TaskStory
  import Shapes = StatusInvariant
  import Order = OrderInvariant
  import Ordered = OrderPreserved
  import Logged = LogInvariant

  // ---- The trace of a Job ----

  /** The store knows at least one run of every Task that was started. */
  lemma StartedWasRun(s: Sys, tk: Key)
    requires Logged.Inv(s) && tk in s.tasks && s.tasks[tk].status.startTime.Some?
    ensures Runs(s.log, tk) >= 1
  {
    assert Logged.Accounted(s, tk);
  }

  /** The actions run for a Job are its first k actions in order, each run as
      often as its Task was, and at least once if the Task has completed; all
      but the last of the k have. */
  lemma TraceRefinement(s0: Sys, ls: seq<Label>, jk: Key) returns (k: nat)
    requires Initial(s0) && Run(s0, ls) && jk in After(s0, ls).jobs
    ensures
      var s := After(s0, ls);
      var actions := s.jobs[jk].actions;
      && Prefix(s.tasks, jk, actions, k)
      && ActionsRun(s.log, jk) == Expand(s.log, jk, actions, k)
      && (forall i :: 0 <= i < k && TaskDone(s.tasks[TaskKey(jk, i)].status) ==> Runs(s.log, TaskKey(jk, i)) >= 1)
      && (forall i :: 0 <= i < k - 1 ==> Runs(s.log, TaskKey(jk, i)) >= 1)
  {
    var s := After(s0, ls);
    Trace.Always(s0, ls);
    Logged.Always(s0, ls);
    var n: nat :| Traced(s, jk, s.jobs[jk].actions, n);
    k := n;
    forall i | 0 <= i < k
      ensures TaskDone(s.tasks[TaskKey(jk, i)].status) ==> Runs(s.log, TaskKey(jk, i)) >= 1
      ensures i < k - 1 ==> Runs(s.log, TaskKey(jk, i)) >= 1
    {
      assert Owned(s.tasks, TaskKey(jk, i), jk);
      if i < k - 1 {
        assert OwnedDone(s.tasks, jk, i);
      }
      if TaskDone(s.tasks[TaskKey(jk, i)].status) {
        StartedWasRun(s, TaskKey(jk, i));
      }
    }
  }

  lemma {:induction false} ExpandOnce(log: seq<Event>, jk: Key, actions: seq<Action>, k: nat)
    requires k <= |actions| && forall i :: 0 <= i < k ==> Runs(log, TaskKey(jk, i)) == 1
    ensures Expand(log, jk, actions, k) == actions[..k]
  {
    if k > 0 {
      ExpandOnce(log, jk, actions, k - 1);
      assert actions[..k] == actions[..k - 1] + [actions[k - 1]];
    }
  }

  lemma ExpandAtMostOnce(log: seq<Event>, jk: Key, actions: seq<Action>, k: nat)
    requires k <= |actions|
    requires forall i :: 0 <= i < k ==> Runs(log, TaskKey(jk, i)) <= 1 && (i < k - 1 ==> Runs(log, TaskKey(jk, i)) == 1)
    ensures Expand(log, jk, actions, k) <= actions
  {
    if k > 0 {
      ExpandOnce(log, jk, actions, k - 1);
      assert actions[..k] == actions[..k - 1] + [actions[k - 1]];
    }
  }

  /** How often a Task was run: once for each run that was lost, and once more
      if its StartTime is persisted or its run is still in flight. */
  lemma ExecutionCount(s0: Sys, ls: seq<Label>, tk: Key)
    requires Initial(s0) && Run(s0, ls)
    ensures
      var s := After(s0, ls);
      && Runs(s.log, tk) == Losses(s.log, tk)
           + (if tk in s.tasks && s.tasks[tk].status.startTime.Some? then 1 else 0)
           + (if RunPending(TaskPcAt(s, tk)) then 1 else 0)
      && Runs(s.log, tk) <= Losses(s.log, tk) + 1
  {
    var s := After(s0, ls);
    Logged.Always(s0, ls);
    assert Logged.Accounted(s, tk) && TaskPcOk(s.tasks, tk, TaskPcAt(s, tk), s.clock);
  }

  /** If no run of the Job's Tasks was lost, the actions run are exactly a prefix
      of the Job's actions, each once. */
  lemma ExactlyOnceWithoutLoss(s0: Sys, ls: seq<Label>, jk: Key)
    requires Initial(s0) && Run(s0, ls) && jk in After(s0, ls).jobs
    requires forall i: nat :: Losses(After(s0, ls).log, TaskKey(jk, i)) == 0
    ensures ActionsRun(After(s0, ls).log, jk) <= After(s0, ls).jobs[jk].actions
  {
    var s := After(s0, ls);
    var actions := s.jobs[jk].actions;
    var k := TraceRefinement(s0, ls, jk);
    forall i | 0 <= i < k
      ensures Runs(s.log, TaskKey(jk, i)) <= 1
    {
      ExecutionCount(s0, ls, TaskKey(jk, i));
      assert Losses(s.log, TaskKey(jk, i)) == 0;
    }
    ExpandAtMostOnce(s.log, jk, actions, k);
  }

  // ---- Completed and Failed Jobs ----

  lemma DoneIsAll(v: TaskStore, jk: Key, actions: seq<Action>, k: nat)
    requires Prefix(v, jk, actions, k) && DoneUpTo(v, jk, |actions|)
    ensures k == |actions|
  {
    if k < |actions| {
      assert OwnedDone(v, jk, |actions| - 1);
      var i: nat :| i < k && TaskKey(jk, |actions| - 1) == TaskKey(jk, i);
      TaskKeyInjective(jk, |actions| - 1, jk, i);
    }
  }

  /** A Job is Completed only if every one of its actions has a Task, each of
      them Completed: by the calls that were made for it, its commands were issued
      in order and all succeeded, and after that a reconcile persisted it that had
      sampled the clock within ten minutes of its StartTime and, for a power
      action, had a reading of the wanted state, taken then or later. The log
      agrees. */
  lemma CompletedJobIsSound(s0: Sys, ls: seq<Label>, jk: Key)
    requires Initial(s0) && Run(s0, ls) && jk in After(s0, ls).jobs
    requires Is(After(s0, ls).jobs[jk].status, Completed)
    ensures
      var s := After(s0, ls);
      var actions := s.jobs[jk].actions;
      && Prefix(s.tasks, jk, actions, |actions|)
      && forall i :: 0 <= i < |actions| ==>
           && OwnedDone(s.tasks, jk, i) && s.tasks[TaskKey(jk, i)].action == actions[i]
           && TaskStory.CompletedByCalls(s0, ls, TaskKey(jk, i), s.tasks[TaskKey(jk, i)].status)
           && Confirmed(s.log, TaskKey(jk, i), actions[i], s.tasks[TaskKey(jk, i)].status)
  {
    var s := After(s0, ls);
    var actions := s.jobs[jk].actions;
    CompletedJobIsDone(s0, ls, jk);
    forall i | 0 <= i < |actions|
      ensures OwnedDone(s.tasks, jk, i) && s.tasks[TaskKey(jk, i)].action == actions[i]
      ensures TaskStory.CompletedByCalls(s0, ls, TaskKey(jk, i), s.tasks[TaskKey(jk, i)].status)
      ensures Confirmed(s.log, TaskKey(jk, i), actions[i], s.tasks[TaskKey(jk, i)].status)
    {
      assert OwnedDone(s.tasks, jk, i);
      DoneTaskIsSound(s0, ls, TaskKey(jk, i));
    }
  }

  lemma CompletedJobIsDone(s0: Sys, ls: seq<Label>, jk: Key)
    requires Initial(s0) && Run(s0, ls) && jk in After(s0, ls).jobs
    requires Is(After(s0, ls).jobs[jk].status, Completed)
    ensures
      var s := After(s0, ls);
      var n := |s.jobs[jk].actions|;
      Prefix(s.tasks, jk, s.jobs[jk].actions, n) && DoneUpTo(s.tasks, jk, n)
  {
    var s := After(s0, ls);
    var actions := s.jobs[jk].actions;
    Ordered.Always(s0, ls);
    JobConditions(s.jobs[jk].status, s.clock);
    assert JobStatusCaused(s, jk, |actions|, s.jobs[jk].status);
    var k: nat :| Prefix(s.tasks, jk, actions, k);
    DoneIsAll(s.tasks, jk, actions, k);
  }

  lemma DoneTaskIsSound(s0: Sys, ls: seq<Label>, tk: Key)
    requires Initial(s0) && Run(s0, ls) && tk in After(s0, ls).tasks && TaskDone(After(s0, ls).tasks[tk].status)
    ensures
      var t := After(s0, ls).tasks[tk];
      TaskStory.CompletedByCalls(s0, ls, tk, t.status) && Confirmed(After(s0, ls).log, tk, t.action, t.status)
  {
    var s := After(s0, ls);
    Logged.Always(s0, ls);
    TaskStory.CompletedWasChecked(s0, ls, tk);
    assert Logged.Evident(s.log, tk, s.tasks[tk].action, s.tasks[tk].status);
  }

  lemma {:induction false} ExpandLength(log: seq<Event>, jk: Key, actions: seq<Action>, k: nat)
    requires k <= |actions| && forall i :: 0 <= i < k ==> Runs(log, TaskKey(jk, i)) >= 1
    ensures |Expand(log, jk, actions, k)| >= k
    ensures |Expand(log, jk, actions, k)| == k ==> forall i :: 0 <= i < k ==> Runs(log, TaskKey(jk, i)) == 1
  {
    if k > 0 {
      ExpandLength(log, jk, actions, k - 1);
    }
  }

  lemma DoneCount(s0: Sys, ls: seq<Label>, tk: Key)
    requires Initial(s0) && Run(s0, ls) && tk in After(s0, ls).tasks && TaskDone(After(s0, ls).tasks[tk].status)
    ensures Runs(After(s0, ls).log, tk) == Losses(After(s0, ls).log, tk) + 1
  {
    ExecutionCount(s0, ls, tk);
    Shapes.Always(s0, ls);
    assert TaskPcOk(After(s0, ls).tasks, tk, TaskPcAt(After(s0, ls), tk), After(s0, ls).clock);
  }

  lemma ExpandExact(log: seq<Event>, jk: Key, actions: seq<Action>)
    requires forall i :: 0 <= i < |actions| ==> Runs(log, TaskKey(jk, i)) == Losses(log, TaskKey(jk, i)) + 1
    ensures Expand(log, jk, actions, |actions|) == actions <==>
      forall i :: 0 <= i < |actions| ==> Losses(log, TaskKey(jk, i)) == 0
  {
    ExpandLength(log, jk, actions, |actions|);
    if forall i :: 0 <= i < |actions| ==> Runs(log, TaskKey(jk, i)) == 1 {
      ExpandOnce(log, jk, actions, |actions|);
      assert actions[..|actions|] == actions;
    }
  }

  lemma CompletedTrace(s0: Sys, ls: seq<Label>, jk: Key)
    requires Initial(s0) && Run(s0, ls) && jk in After(s0, ls).jobs
    requires Is(After(s0, ls).jobs[jk].status, Completed)
    ensures
      var log, actions := After(s0, ls).log, After(s0, ls).jobs[jk].actions;
      ActionsRun(log, jk) == Expand(log, jk, actions, |actions|)
  {
    CompletedJobIsSound(s0, ls, jk);
    Trace.Always(s0, ls);
    TracedPrefix(After(s0, ls), jk, After(s0, ls).jobs[jk].actions, |After(s0, ls).jobs[jk].actions|);
  }

  lemma TracedPrefix(s: Sys, jk: Key, actions: seq<Action>, n: nat)
    requires AllTraced(s) && jk in s.jobs && s.jobs[jk].actions == actions && Prefix(s.tasks, jk, actions, n)
    ensures Traced(s, jk, actions, n)
  {
    var k: nat :| Traced(s, jk, actions, k);
    PrefixNotShorter(s.tasks, jk, actions, k, n);
    PrefixNotShorter(s.tasks, jk, actions, n, k);
  }

  lemma CompletedCounts(s0: Sys, ls: seq<Label>, jk: Key, i: nat)
    requires Initial(s0) && Run(s0, ls) && jk in After(s0, ls).jobs
    requires Is(After(s0, ls).jobs[jk].status, Completed) && i < |After(s0, ls).jobs[jk].actions|
    ensures Runs(After(s0, ls).log, TaskKey(jk, i)) == Losses(After(s0, ls).log, TaskKey(jk, i)) + 1
  {
    CompletedJobIsSound(s0, ls, jk);
    assert OwnedDone(After(s0, ls).tasks, jk, i);
    DoneCount(s0, ls, TaskKey(jk, i));
  }

  /** For a Completed Job, the actions run are exactly the Job's actions, in
      order, each once, if and only if no run of any of its Tasks was lost. */
  lemma CompletedJobRanAll(s0: Sys, ls: seq<Label>, jk: Key)
    requires Initial(s0) && Run(s0, ls) && jk in After(s0, ls).jobs
    requires Is(After(s0, ls).jobs[jk].status, Completed)
    ensures
      var log, actions := After(s0, ls).log, After(s0, ls).jobs[jk].actions;
      ActionsRun(log, jk) == actions <==> forall i :: 0 <= i < |actions| ==> Losses(log, TaskKey(jk, i)) == 0
  {
    var log, actions := After(s0, ls).log, After(s0, ls).jobs[jk].actions;
    CompletedTrace(s0, ls, jk);
    forall i | 0 <= i < |actions|
      ensures Runs(log, TaskKey(jk, i)) == Losses(log, TaskKey(jk, i)) + 1
    {
      CompletedCounts(s0, ls, jk, i);
    }
    ExpandExact(log, jk, actions);
  }

  /** Every Completed Task, of a Job or not, rests on the same calls. */
  lemma CompletedTaskIsSound(s0: Sys, ls: seq<Label>, tk: Key)
    requires Initial(s0) && Run(s0, ls) && tk in After(s0, ls).tasks
    requires Is(After(s0, ls).tasks[tk].status, Completed)
    ensures
      var t := After(s0, ls).tasks[tk];
      TaskStory.CompletedByCalls(s0, ls, tk, t.status) && Confirmed(After(s0, ls).log, tk, t.action, t.status)
  {
    Shapes.Always(s0, ls);
    TaskConditions(After(s0, ls).tasks[tk].status, After(s0, ls).clock);
    DoneTaskIsSound(s0, ls, tk);
  }

  /** The Job has k Tasks, of which the last and no other is Failed. */
  ghost predicate LastFailed(v: TaskStore, jk: Key, actions: seq<Action>, k: nat) {
    k > 0 && Prefix(v, jk, actions, k) && forall i: nat :: OwnedFailed(v, jk, i) <==> i == k - 1
  }

  /** The text a Job fails with when one of its Tasks has failed. */
  ghost predicate TellsTask(message: string) {
    exists tk :: message == JobFailure(tk)
  }

  /** A Job is Failed for the reason its message gives: if that is a failed Task,
      it is the last of the Job's Tasks, it and no other is Failed, and the
      message names it; if not, the message is the error a create returned. */
  lemma FailedJobHasCause(s0: Sys, ls: seq<Label>, jk: Key)
    requires Initial(s0) && Run(s0, ls) && jk in After(s0, ls).jobs
    requires Is(After(s0, ls).jobs[jk].status, Failed)
    ensures JobFailed(After(s0, ls).jobs[jk].status)
    ensures
      var s := After(s0, ls);
      var message := s.jobs[jk].status.conditions[1].message;
      if TellsTask(message) then
        exists k: nat :: LastFailed(s.tasks, jk, s.jobs[jk].actions, k) && message == JobFailure(TaskKey(jk, k - 1))
      else exists e :: CreateCause(s.log, jk, message, e)
  {
    Ordered.Always(s0, ls);
    JobConditions(After(s0, ls).jobs[jk].status, After(s0, ls).clock);
    FailedInStore(After(s0, ls), jk);
  }

  lemma FailedInStore(s: Sys, jk: Key)
    requires Order.Inv(s) && jk in s.jobs && JobFailed(s.jobs[jk].status)
    ensures
      var message := s.jobs[jk].status.conditions[1].message;
      if TellsTask(message) then
        exists k: nat :: LastFailed(s.tasks, jk, s.jobs[jk].actions, k) && message == JobFailure(TaskKey(jk, k - 1))
      else exists e :: CreateCause(s.log, jk, message, e)
  {
    var actions, message := s.jobs[jk].actions, s.jobs[jk].status.conditions[1].message;
    assert JobStatusCaused(s, jk, |actions|, s.jobs[jk].status);
    if failed: nat :| failed < |actions| && TaskCause(s.tasks, jk, message, failed) {
      TaskToldIsLast(s, jk, actions, failed);
    } else {
      var e :| CreateCause(s.log, jk, message, e);
      CreateTellsNoTask(TaskKey(jk, e.index), e.error);
    }
  }

  lemma TaskToldIsLast(s: Sys, jk: Key, actions: seq<Action>, failed: nat)
    requires Order.Inv(s) && jk in s.jobs && s.jobs[jk].actions == actions && OwnedFailed(s.tasks, jk, failed)
    ensures LastFailed(s.tasks, jk, actions, failed + 1)
  {
    var k: nat :| Prefix(s.tasks, jk, actions, k);
    OnlyLastFailed(s.tasks, jk, actions, k, failed);
  }

  lemma CreateTellsNoTask(tk: Key, error: string)
    ensures !TellsTask(CreateFailure(tk, error))
  {
    assert CreateFailure(tk, error)[0] == 'f';
    forall other
      ensures CreateFailure(tk, error) != JobFailure(other)
    {
      assert JobFailure(other)[0] == 't';
    }
  }

  lemma OnlyLastFailed(v: TaskStore, jk: Key, actions: seq<Action>, k: nat, failed: nat)
    requires Prefix(v, jk, actions, k) && OwnedFailed(v, jk, failed)
    ensures k > 0 && failed == k - 1 && forall i: nat :: OwnedFailed(v, jk, i) <==> i == k - 1
  {
    FailedIsLast(v, jk, actions, k, failed);
    forall i: nat | OwnedFailed(v, jk, i)
      ensures i == k - 1
    {
      FailedIsLast(v, jk, actions, k, i);
    }
  }

  lemma FailedIsLast(v: TaskStore, jk: Key, actions: seq<Action>, k: nat, i: nat)
    requires Prefix(v, jk, actions, k) && OwnedFailed(v, jk, i)
    ensures i == k - 1
  {
    var n: nat :| n < k && TaskKey(jk, i) == TaskKey(jk, n);
    TaskKeyInjective(jk, i, jk, n);
    assert n < k - 1 ==> OwnedDone(v, jk, n);
  }

  /** No reconcile in flight has fetched a Job that is terminal in the store. */
  lemma TerminalIsIdle(s: Sys, jk: Key)
    requires Shapes.Inv(s) && jk in s.jobs && Terminal(s.jobs[jk].status)
    ensures JobPcAt(s, jk).JIdle?
  {
    JobConditions(s.jobs[jk].status, s.clock);
    assert JobPcOk(s.jobs, jk, JobPcAt(s, jk), s.clock);
  }

  lemma TerminalJobStep(s: Sys, j: Key, m: JobMove, jk: Key)
    requires Shapes.Inv(s) && JobEnabled(s, j, m) && jk in s.jobs && Terminal(s.jobs[jk].status)
    ensures
      var s' := Next(s, JobStep(j, m));
      && jk in s'.jobs && s'.jobs[jk].status == s.jobs[jk].status
      && forall tk :: Owned(s'.tasks, tk, jk) <==> Owned(s.tasks, tk, jk)
  {
    if j == jk {
      TerminalIsIdle(s, jk);
    } else {
      StepIsIsolated(s, j, m, jk);
    }
  }

  lemma TerminalTaskStep(s: Sys, tk: Key, m: TaskMove, jk: Key)
    requires Shapes.Inv(s) && TaskEnabled(s, tk, m)
    ensures Next(s, TaskStep(tk, m)).jobs == s.jobs
    ensures forall k :: Owned(Next(s, TaskStep(tk, m)).tasks, k, jk) <==> Owned(s.tasks, k, jk)
  {
    TaskStepShape(s, tk, m);
  }

  lemma TerminalStep(s: Sys, l: Label, jk: Key)
    requires Shapes.Inv(s) && Enabled(s, l) && jk in s.jobs && Terminal(s.jobs[jk].status)
    ensures jk in Next(s, l).jobs && Next(s, l).jobs[jk].status == s.jobs[jk].status
    ensures forall tk :: Owned(Next(s, l).tasks, tk, jk) <==> Owned(s.tasks, tk, jk)
  {
    match l
    case User(m) => UserStepFrame(s, m);
    case TaskStep(tk, m) => TerminalTaskStep(s, tk, m, jk);
    case JobStep(j, m) => TerminalJobStep(s, j, m, jk);
  }

  /** Once a Job's terminal status is persisted, its status never changes again
      and no Task is ever created for it. */
  lemma {:induction false} TerminalJobStays(s0: Sys, ls: seq<Label>, more: seq<Label>, jk: Key)
    requires Initial(s0) && Run(s0, ls) && Run(s0, ls + more)
    requires jk in After(s0, ls).jobs && Terminal(After(s0, ls).jobs[jk].status)
    ensures
      var s, s' := After(s0, ls), After(s0, ls + more);
      && jk in s'.jobs && s'.jobs[jk].status == s.jobs[jk].status
      && forall tk :: Owned(s'.tasks, tk, jk) <==> Owned(s.tasks, tk, jk)
    decreases |more|
  {
    if more == [] {
      assert ls + more == ls;
    } else {
      var front := more[..|more| - 1];
      assert (ls + more)[..|ls + more| - 1] == ls + front;
      TerminalJobStays(s0, ls, front, jk);
      Shapes.Always(s0, ls + front);
      TerminalStep(After(s0, ls + front), more[|more| - 1], jk);
    }
  }

  // ---- Statuses ----

  /** Conditions and times agree in every reachable store. */
  lemma StatusesCohere(s0: Sys, ls: seq<Label>)
    requires Initial(s0) && Run(s0, ls)
    ensures forall jk :: jk in After(s0, ls).jobs ==>
      var st := After(s0, ls).jobs[jk].status;
      && !(Is(st, Completed) && Is(st, Failed))
      && (Is(st, Running) <==> st.startTime.Some?)
      && (Is(st, Completed) <==> st.completionTime.Some?)
      && (Terminal(st) ==> Is(st, Running))
      && (Is(st, Completed) ==> st.startTime.value <= st.completionTime.value)
    ensures forall tk :: tk in After(s0, ls).tasks ==>
      var st := After(s0, ls).tasks[tk].status;
      && !(Is(st, Completed) && Is(st, Failed))
      && (Is(st, Completed) <==> st.completionTime.Some?)
      && (Is(st, Completed) ==> st.startTime.Some? && st.startTime.value <= st.completionTime.value)
  {
    var s := After(s0, ls);
    Shapes.Always(s0, ls);
    forall jk | jk in s.jobs
      ensures s.jobs[jk].status.startTime.Some? <==> !JobFresh(s.jobs[jk].status)
      ensures s.jobs[jk].status.completionTime.Some? <==> JobCompleted(s.jobs[jk].status)
    {
      assert JobStatusOk(s.jobs[jk].status, s.clock);
    }
    forall jk | jk in s.jobs {
      JobConditions(s.jobs[jk].status, s.clock);
    }
    forall tk | tk in s.tasks {
      TaskConditions(s.tasks[tk].status, s.clock);
    }
  }

  ghost predicate JobTimesKept(s: Sys, s': Sys) {
    forall jk :: jk in s.jobs && s.jobs[jk].status.startTime.Some? ==>
      jk in s'.jobs && s'.jobs[jk].status.startTime == s.jobs[jk].status.startTime
  }

  lemma StepKeepsJobTimes(s: Sys, l: Label)
    requires Shapes.Inv(s) && Enabled(s, l)
    ensures JobTimesKept(s, Next(s, l))
  {
    StepAdvances(s, l);
  }

  /** Over a longer run Tasks stay, terminal Tasks keep their status, and a
      persisted StartTime, of a Task or a Job, is never changed. */
  lemma {:induction false} StatusesOnlyAdvance(s0: Sys, ls: seq<Label>, more: seq<Label>)
    requires Initial(s0) && Run(s0, ls) && Run(s0, ls + more)
    ensures Older(After(s0, ls).tasks, After(s0, ls + more).tasks)
    ensures After(s0, ls).log <= After(s0, ls + more).log
    ensures JobTimesKept(After(s0, ls), After(s0, ls + more))
    decreases |more|
  {
    if more == [] {
      assert ls + more == ls;
    } else {
      var front, l := more[..|more| - 1], more[|more| - 1];
      assert (ls + more)[..|ls + more| - 1] == ls + front;
      StatusesOnlyAdvance(s0, ls, front);
      Shapes.Always(s0, ls + front);
      var s := After(s0, ls + front);
      StepGrows(s, l);
      StepKeepsJobTimes(s, l);
      OlderTransitive(After(s0, ls).tasks, s.tasks, Next(s, l).tasks);
    }
  }

  ghost predicate PatchTookEffect(ls: seq<Label>, jk: Key) {
    exists i :: 0 <= i < |ls| && IsEffectivePatch(ls[i], jk)
  }

  predicate IsEffectivePatch(l: Label, jk: Key) {
    l.JobStep? && l.job == jk && l.jobMove.JPatch? && l.jobMove.patched != Refused
  }

  lemma PatchStep(s: Sys, l: Label, jk: Key)
    requires Shapes.Inv(s) && Enabled(s, l) && jk in Next(s, l).jobs
    ensures
      JobFresh(Next(s, l).jobs[jk].status) <==>
        (jk in s.jobs ==> JobFresh(s.jobs[jk].status)) && !IsEffectivePatch(l, jk)
  {
    match l
    case User(m) => UserStepFrame(s, m);
    case TaskStep(tk, m) =>
    case JobStep(j, m) =>
      JobStepWrites(s, j, m);
      assert JobPcOk(s.jobs, j, JobPcAt(s, j), s.clock);
  }

  lemma PatchNeedsJob(s: Sys, l: Label, jk: Key)
    requires Enabled(s, l) && IsEffectivePatch(l, jk)
    ensures jk in s.jobs
  {
  }

  lemma {:induction false} FreshUntilPatched(s0: Sys, ls: seq<Label>, jk: Key)
    requires Initial(s0) && Run(s0, ls)
    ensures
      if jk in After(s0, ls).jobs then JobFresh(After(s0, ls).jobs[jk].status) <==> !PatchTookEffect(ls, jk)
      else !PatchTookEffect(ls, jk)
  {
    if ls != [] {
      var front, l := ls[..|ls| - 1], ls[|ls| - 1];
      var s := After(s0, front);
      FreshUntilPatched(s0, front, jk);
      Shapes.Always(s0, front);
      assert PatchTookEffect(ls, jk) <==> PatchTookEffect(front, jk) || IsEffectivePatch(l, jk) by {
        if PatchTookEffect(front, jk) {
          var i :| 0 <= i < |front| && IsEffectivePatch(front[i], jk);
          assert ls[i] == front[i];
        }
        if PatchTookEffect(ls, jk) && !IsEffectivePatch(l, jk) {
          var i :| 0 <= i < |ls| && IsEffectivePatch(ls[i], jk);
          assert front[i] == ls[i];
        }
      }
      if IsEffectivePatch(l, jk) {
        PatchNeedsJob(s, l, jk);
      }
      StepGrows(s, l);
      if jk in Next(s, l).jobs {
        PatchStep(s, l, jk);
      }
    }
  }

  /** Running is persisted exactly when some status patch of the Job has taken
      effect, and never before: creating a Task does not do it. */
  lemma RunningOncePatched(s0: Sys, ls: seq<Label>, jk: Key)
    requires Initial(s0) && Run(s0, ls) && jk in After(s0, ls).jobs
    ensures Is(After(s0, ls).jobs[jk].status, Running) <==> PatchTookEffect(ls, jk)
  {
    FreshUntilPatched(s0, ls, jk);
    Shapes.Always(s0, ls);
    JobConditions(After(s0, ls).jobs[jk].status, After(s0, ls).clock);
  }

  // ---- Runs and time ----

  lemma StartedStep(s: Sys, l: Label, tk: Key)
    requires Logged.Inv(s) && Enabled(s, l) && tk in s.tasks && s.tasks[tk].status.startTime.Some?
    ensures Runs(Next(s, l).log, tk) == Runs(s.log, tk)
  {
    assert TaskPcOk(s.tasks, tk, TaskPcAt(s, tk), s.clock) && Logged.Accounted(s, tk);
    match l
    case User(m) =>
    case JobStep(jk, m) =>
      JobStepNoRun(s, jk, m);
      RunsAppend(s.log, JobEffectOf(s, jk, m).events, tk);
      NoRunTrace(JobEffectOf(s, jk, m).events, jk, tk);
    case TaskStep(k, m) =>
      assert TaskPcOk(s.tasks, k, TaskPcAt(s, k), s.clock);
      Logged.TaskStepCounts(s, k, m, tk);
      RunsAppend(s.log, TaskEffectOf(s, k, m).events, tk);
      if k == tk {
        assert !StartsRun(s, tk, m);
        TaskStepQuiet(s, tk, m);
        NoRunTrace(TaskEffectOf(s, tk, m).events, tk, tk);
      }
  }

  lemma JobStepNoRun(s: Sys, jk: Key, m: JobMove)
    requires JobEnabled(s, jk, m)
    ensures NoRun(JobEffectOf(s, jk, m).events)
  {
  }

  /** Once a Task's StartTime is persisted, runTask is never called for it again. */
  lemma {:induction false} NeverRunAgain(s0: Sys, ls: seq<Label>, more: seq<Label>, tk: Key)
    requires Initial(s0) && Run(s0, ls) && Run(s0, ls + more)
    requires tk in After(s0, ls).tasks && After(s0, ls).tasks[tk].status.startTime.Some?
    ensures Runs(After(s0, ls + more).log, tk) == Runs(After(s0, ls).log, tk)
    decreases |more|
  {
    if more == [] {
      assert ls + more == ls;
    } else {
      var front := more[..|more| - 1];
      assert (ls + more)[..|ls + more| - 1] == ls + front;
      NeverRunAgain(s0, ls, front, tk);
      StatusesOnlyAdvance(s0, ls, front);
      Logged.Always(s0, ls + front);
      StartedStep(After(s0, ls + front), more[|more| - 1], tk);
    }
  }

  // ---- Creating Tasks ----

  /** Whatever store the listing came from, the index of the Task to create is in
      range; creating it is refused, or it is the Job's next action. */
  lemma CreateIsNextAction(s0: Sys, ls: seq<Label>, jk: Key)
    requires Initial(s0) && Run(s0, ls) && JobPcAt(After(s0, ls), jk).JCreating?
    ensures
      var s := After(s0, ls);
      var index := JobPcAt(s, jk).index;
      && jk in s.jobs && index < |s.jobs[jk].actions|
      && JobPcAt(s, jk).job.actions == s.jobs[jk].actions
      && DoneUpTo(s.tasks, jk, index)
      && (TaskKey(jk, index) !in s.tasks ==> Prefix(s.tasks, jk, s.jobs[jk].actions, index))
  {
    var s := After(s0, ls);
    Ordered.Always(s0, ls);
    var pc := JobPcAt(s, jk);
    assert JobPcOk(s.jobs, jk, pc, s.clock) && JobPcCaused(s, jk, pc);
    if TaskKey(jk, pc.index) !in s.tasks {
      var k: nat :| Prefix(s.tasks, jk, s.jobs[jk].actions, k);
      NextIsFree(s.tasks, jk, s.jobs[jk].actions, k, pc.index);
    }
  }

  /** The loop over the listed Tasks gives the same answer for every order of the
      list, in the current store and in every earlier one. */
  lemma ScanOrderIndependent(s0: Sys, ls: seq<Label>, jk: Key, view: nat, items: seq<Key>, items': seq<Key>)
    requires Initial(s0) && Run(s0, ls) && jk in After(s0, ls).jobs && view <= |After(s0, ls).past|
    requires ListsOwned(View(After(s0, ls), view), jk, items) && ListsOwned(View(After(s0, ls), view), jk, items')
    ensures Scan(View(After(s0, ls), view), items) == Scan(View(After(s0, ls), view), items')
  {
    var s := After(s0, ls);
    var v := View(s, view);
    Ordered.Always(s0, ls);
    assert ViewOk(v, s) by {
      assert v in s.past || v == s.tasks;
    }
    var k: nat :| Prefix(v, jk, s.jobs[jk].actions, k);
    ScanOfPrefix(v, jk, s.jobs[jk].actions, k, items, s.clock);
    ScanOfPrefix(v, jk, s.jobs[jk].actions, k, items', s.clock);
  }

  // ---- Jobs do not touch each other ----

  /** A step of one Job's reconcile leaves every other Job, its Tasks and what a
      list of them holds as they were. */
  lemma StepIsIsolated(s: Sys, jk: Key, m: JobMove, other: Key)
    requires Shapes.Inv(s) && JobEnabled(s, jk, m) && other != jk
    ensures
      var s' := Next(s, JobStep(jk, m));
      && (other in s.jobs <==> other in s'.jobs) && (other in s.jobs ==> s'.jobs[other] == s.jobs[other])
      && JobPcAt(s', other) == JobPcAt(s, other)
      && (forall tk :: Owned(s'.tasks, tk, other) <==> Owned(s.tasks, tk, other))
      && (forall tk :: Owned(s.tasks, tk, other) ==> s'.tasks[tk] == s.tasks[tk])
  {
    JobStepShape(s, jk, m);
    if m.JCreate? {
      var pc := JobPcAt(s, jk);
      NewTaskOwner(jk, pc.index, pc.job.actions[pc.index], pc.connection);
    }
  }

  /** A Task that stands where one of a Job's Tasks goes is that Job's own, or
      belongs to no Job: other Jobs' Tasks never take the name. */
  lemma NoForeignCollision(s0: Sys, ls: seq<Label>, jk: Key, n: nat)
    requires Initial(s0) && Run(s0, ls) && TaskKey(jk, n) in After(s0, ls).tasks
    ensures
      var owner := OwnerOf(TaskKey(jk, n), After(s0, ls).tasks[TaskKey(jk, n)]);
      owner == None || owner == Some(jk)
  {
    var s := After(s0, ls);
    var tk := TaskKey(jk, n);
    Ordered.Always(s0, ls);
    if OwnerOf(tk, s.tasks[tk]).Some? {
      var other := OwnerOf(tk, s.tasks[tk]).value;
      var k: nat :| Prefix(s.tasks, other, s.jobs[other].actions, k);
      assert Owned(s.tasks, tk, other);
      var i: nat :| i < k && tk == TaskKey(other, i);
      TaskKeyInjective(jk, n, other, i);
    }
  }

  // ---- Tasks without secrets ----

  /** A Task that needs secrets, has this status, and is not past asking for them. */
  ghost predicate Stuck(s: Sys, tk: Key, st: Status) {
    && tk in s.tasks && NeedsSecrets(s.tasks[tk].connection) && s.tasks[tk].status == st
    && (TaskPcAt(s, tk).TIdle? || TaskPcAt(s, tk).TFetched?)
  }

  lemma StuckTaskStep(s: Sys, k: Key, m: TaskMove, tk: Key, st: Status)
    requires Shapes.Inv(s) && Stuck(s, tk, st) && TaskEnabled(s, k, m) && !(k == tk && m == TSecrets(true))
    ensures Stuck(Next(s, TaskStep(k, m)), tk, st)
  {
    assert TaskPcOk(s.tasks, tk, TaskPcAt(s, tk), s.clock);
    TaskStepShape(s, k, m);
  }

  lemma StuckJobStep(s: Sys, jk: Key, m: JobMove, tk: Key, st: Status)
    requires Shapes.Inv(s) && Stuck(s, tk, st) && JobEnabled(s, jk, m)
    ensures Stuck(Next(s, JobStep(jk, m)), tk, st)
  {
    JobStepWrites(s, jk, m);
  }

  lemma StuckUserStep(s: Sys, m: UserMove, tk: Key, st: Status)
    requires Stuck(s, tk, st) && UserEnabled(s, m)
    ensures Stuck(Next(s, User(m)), tk, st)
  {
  }

  lemma StuckStep(s: Sys, l: Label, tk: Key, st: Status)
    requires Shapes.Inv(s) && Stuck(s, tk, st) && Enabled(s, l) && l != TaskStep(tk, TSecrets(true))
    ensures Stuck(Next(s, l), tk, st)
  {
    match l
    case User(m) => StuckUserStep(s, m, tk, st);
    case JobStep(jk, m) => StuckJobStep(s, jk, m, tk, st);
    case TaskStep(k, m) => StuckTaskStep(s, k, m, tk, st);
  }

  lemma StuckRun(s0: Sys, ls: seq<Label>, l: Label, tk: Key, st: Status)
    requires Initial(s0) && Run(s0, ls) && Enabled(After(s0, ls), l)
    requires Stuck(After(s0, ls), tk, st) && l != TaskStep(tk, TSecrets(true))
    ensures Stuck(Next(After(s0, ls), l), tk, st)
  {
    Shapes.Always(s0, ls);
    StuckStep(After(s0, ls), l, tk, st);
  }

  /** The deadline is only looked at once the connection is open: as long as a
      Task's secrets do not resolve, its status does not change. It neither
      starts nor times out, however much time passes. */
  lemma {:induction false} NoTimeoutWithoutSecrets(s0: Sys, ls: seq<Label>, more: seq<Label>, tk: Key)
    requires Initial(s0) && Run(s0, ls) && Run(s0, ls + more)
    requires tk in After(s0, ls).tasks && Stuck(After(s0, ls), tk, After(s0, ls).tasks[tk].status)
    requires TaskStep(tk, TSecrets(true)) !in more
    ensures Stuck(After(s0, ls + more), tk, After(s0, ls).tasks[tk].status)
    decreases |more|
  {
    if more == [] {
      assert ls + more == ls;
    } else {
      var front, st := more[..|more| - 1], After(s0, ls).tasks[tk].status;
      assert (ls + more)[..|ls + more| - 1] == ls + front;
      NoTimeoutWithoutSecrets(s0, ls, front, tk);
      StuckRun(s0, ls + front, more[|more| - 1], tk, st);
    }
  }
}
