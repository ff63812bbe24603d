/** How much the controllers write: every write that changes a Job or one of its
    Tasks moves it along, and there is only so far to go. */
module WriteBound {
  import opened Statuses
  import opened Bmc
  import opened Protocol
  import opened StatusInvariant
  import opened OrderInvariant
  import opened OrderPreserved
  import Ordered = OrderPreserved
  import Shapes = StatusInvariant

  ghost function TaskStage(v: TaskStore, jk: Key, i: nat): nat {
    if !Owned(v, TaskKey(jk, i), jk) then 0
    else
      var st := v[TaskKey(jk, i)].status;
      if TaskFresh(st) then 1 else if TaskStarted(st) then 2 else 3
  }

  ghost function JobStage(st: Status): nat {
    if JobFresh(st) then 0 else if JobRunning(st) then 1 else 2
  }

  ghost function TasksProgress(v: TaskStore, jk: Key, n: nat): nat {
    if n == 0 then 0 else TasksProgress(v, jk, n - 1) + TaskStage(v, jk, n - 1)
  }

  ghost function Progress(s: Sys, jk: Key): nat {
    if jk !in s.jobs then 0
    else JobStage(s.jobs[jk].status) + TasksProgress(s.tasks, jk, |s.jobs[jk].actions|)
  }

  /** A step that changed the Job's status or the existence or status of one of its Tasks. */
  ghost predicate TaskWritten(s: Sys, s': Sys, jk: Key, tk: Key) {
    Owned(s'.tasks, tk, jk) && (tk !in s.tasks || s'.tasks[tk].status != s.tasks[tk].status)
  }

  ghost predicate Wrote(s: Sys, s': Sys, jk: Key) {
    jk in s.jobs && jk in s'.jobs && (s'.jobs[jk].status != s.jobs[jk].status || exists tk ::
      TaskWritten(s, s', jk, tk))
  }

  ghost function Writes(s0: Sys, ls: seq<Label>, jk: Key): nat
    requires Run(s0, ls)
  {
    if ls == [] then 0
    else
      var before := ls[..|ls| - 1];
      Writes(s0, before, jk) + if Wrote(After(s0, before), After(s0, ls), jk) then 1 else 0
  }

  lemma {:induction false} ProgressBound(v: TaskStore, jk: Key, n: nat)
    ensures TasksProgress(v, jk, n) <= 3 * n
  {
    if n > 0 {
      ProgressBound(v, jk, n - 1);
    }
  }

  /** Task stages never go back, and go on when a Task is written. */
  lemma StageKept(s: Sys, s': Sys, jk: Key, i: nat)
    requires Older(s.tasks, s'.tasks)
    requires forall tk :: tk in s.tasks ==> TaskStatusOk(s.tasks[tk].status, s.clock)
    requires forall tk :: tk in s'.tasks ==> TaskStatusOk(s'.tasks[tk].status, s'.clock)
    ensures TaskStage(s'.tasks, jk, i) >= TaskStage(s.tasks, jk, i)
    ensures TaskWritten(s, s', jk, TaskKey(jk, i)) ==> TaskStage(s'.tasks, jk, i) > TaskStage(s.tasks, jk, i)
  {
  }

  lemma {:induction false} ProgressKept(v: TaskStore, w: TaskStore, jk: Key, n: nat)
    requires forall j: nat :: TaskStage(w, jk, j) >= TaskStage(v, jk, j)
    ensures TasksProgress(w, jk, n) >= TasksProgress(v, jk, n)
  {
    if n > 0 {
      ProgressKept(v, w, jk, n - 1);
    }
  }

  lemma {:induction false} ProgressMade(v: TaskStore, w: TaskStore, jk: Key, n: nat, i: nat)
    requires forall j: nat :: TaskStage(w, jk, j) >= TaskStage(v, jk, j)
    requires i < n && TaskStage(w, jk, i) > TaskStage(v, jk, i)
    ensures TasksProgress(w, jk, n) > TasksProgress(v, jk, n)
  {
    if i == n - 1 {
      ProgressKept(v, w, jk, n - 1);
    } else {
      ProgressMade(v, w, jk, n - 1, i);
    }
  }

  /** Jobs' statuses only move along too. */
  ghost predicate JobsAdvance(s: Sys, s': Sys) {
    forall jk :: jk in s.jobs ==>
      jk in s'.jobs && (s'.jobs[jk].status == s.jobs[jk].status || JobAdvance(s.jobs[jk].status, s'.jobs[jk].status))
  }

  lemma JobStepAdvances(s: Sys, jk: Key, m: JobMove)
    requires Shapes.Inv(s) && JobEnabled(s, jk, m)
    ensures JobsAdvance(s, Next(s, JobStep(jk, m)))
  {
    JobStepWrites(s, jk, m);
  }

  lemma StepAdvances(s: Sys, l: Label)
    requires Shapes.Inv(s) && Enabled(s, l)
    ensures JobsAdvance(s, Next(s, l))
  {
    match l
    case User(m) => UserStepFrame(s, m);
    case JobStep(jk, m) => JobStepAdvances(s, jk, m);
    case TaskStep(tk, m) =>
  }

  lemma TasksAdvance(s: Sys, s': Sys, jk: Key, actions: seq<Action>, k: nat)
    requires Older(s.tasks, s'.tasks) && Prefix(s'.tasks, jk, actions, k)
    requires forall tk :: tk in s.tasks ==> TaskStatusOk(s.tasks[tk].status, s.clock)
    requires forall tk :: tk in s'.tasks ==> TaskStatusOk(s'.tasks[tk].status, s'.clock)
    ensures TasksProgress(s'.tasks, jk, |actions|) >= TasksProgress(s.tasks, jk, |actions|)
    ensures forall tk :: TaskWritten(s, s', jk, tk) ==>
      TasksProgress(s'.tasks, jk, |actions|) > TasksProgress(s.tasks, jk, |actions|)
  {
    forall i: nat
      ensures TaskStage(s'.tasks, jk, i) >= TaskStage(s.tasks, jk, i)
    {
      StageKept(s, s', jk, i);
    }
    ProgressKept(s.tasks, s'.tasks, jk, |actions|);
    forall tk | TaskWritten(s, s', jk, tk)
      ensures TasksProgress(s'.tasks, jk, |actions|) > TasksProgress(s.tasks, jk, |actions|)
    {
      var i: nat :| i < k && tk == TaskKey(jk, i);
      StageKept(s, s', jk, i);
      ProgressMade(s.tasks, s'.tasks, jk, |actions|, i);
    }
  }

  /** Every write of a Job or its Tasks is progress, and no step is a step back. */
  lemma StepProgress(s: Sys, s': Sys, jk: Key)
    requires ViewOk(s.tasks, s) && ViewOk(s'.tasks, s') && Grown(s, s') && JobsAdvance(s, s')
    ensures Progress(s', jk) >= Progress(s, jk) + if Wrote(s, s', jk) then 1 else 0
  {
    if jk in s.jobs {
      var k: nat :| Prefix(s'.tasks, jk, s'.jobs[jk].actions, k);
      TasksAdvance(s, s', jk, s.jobs[jk].actions, k);
    }
  }

  lemma {:induction false} WritesAreProgress(s0: Sys, ls: seq<Label>, jk: Key)
    requires Initial(s0) && Run(s0, ls)
    ensures Writes(s0, ls, jk) <= Progress(After(s0, ls), jk)
  {
    if ls != [] {
      var before := ls[..|ls| - 1];
      var s, l := After(s0, before), ls[|ls| - 1];
      WritesAreProgress(s0, before, jk);
      Ordered.Always(s0, before);
      Ordered.Always(s0, ls);
      StepGrows(s, l);
      StepAdvances(s, l);
      StepProgress(s, Next(s, l), jk);
    }
  }

  lemma StepGrows(s: Sys, l: Label)
    requires Shapes.Inv(s) && Enabled(s, l)
    ensures Grown(s, Next(s, l))
  {
    match l
    case User(m) => UserStepGrows(s, m);
    case JobStep(jk, m) => JobStepGrows(s, jk, m);
    case TaskStep(tk, m) => TaskStepGrows(s, tk, m);
  }

  /** In any run, failures included, a Job of n actions causes at most 3n + 2
      writes that change it or its Tasks: n creates, n starts, n Task ends, one
      Running and one terminal status. */
  lemma WritesBounded(s0: Sys, ls: seq<Label>, jk: Key)
    requires Initial(s0) && Run(s0, ls) && jk in After(s0, ls).jobs
    ensures Writes(s0, ls, jk) <= 3 * |After(s0, ls).jobs[jk].actions| + 2
  {
    WritesAreProgress(s0, ls, jk);
    ProgressBound(After(s0, ls).tasks, jk, |After(s0, ls).jobs[jk].actions|);
  }
}
