/** A whole Job ends: within a number of fault-free rounds, each a reconcile of the
    Job and then one of its last Task, that is bounded by its number of actions. */
module JobEnds {
  import opened Options
  import opened Conditions
  import opened Statuses
  import opened Protocol
  import opened OrderInvariant
  import opened RunLog
  import opened Deadline
  import opened WriteBound
  import FaultFreeJob
  import FaultFreeTask
  import Theorems
  import Timeouts
  import Shapes = StatusInvariant
  import Ordered = OrderPreserved

  // ---- Rounds ----

  /** A stretch of a run in which the Job, unless it is terminal, is reconciled
      once without faults. Everybody else does what they like. */
  ghost predicate JobRound(s0: Sys, ls: seq<Label>, more: seq<Label>, jk: Key) {
    && Initial(s0) && Run(s0, ls) && Run(s0, ls + more) && jk in After(s0, ls).jobs
    && (!Terminal(After(s0, ls).jobs[jk].status) ==> FaultFreeJob.Reconciled(s0, ls, more, jk))
  }

  /** A stretch of a run in which the Job's last Task, if it is pending, is
      reconciled once without faults. Everybody else does what they like. */
  ghost predicate TaskRound(s0: Sys, ls: seq<Label>, more: seq<Label>, jk: Key) {
    && Initial(s0) && Run(s0, ls) && Run(s0, ls + more) && jk in After(s0, ls).jobs
    && forall k: nat ::
         LastPending(After(s0, ls), jk, k) ==> FaultFreeTask.Reconciled(s0, ls, more, TaskKey(jk, k - 1))
  }

  ghost predicate LastPending(s: Sys, jk: Key, k: nat)
    requires jk in s.jobs
  {
    k > 0 && Prefix(s.tasks, jk, s.jobs[jk].actions, k) && FaultFreeJob.Pending(s.tasks, jk, k)
  }

  datatype Round = Round(job: seq<Label>, task: seq<Label>)

  function Labels(rounds: seq<Round>): seq<Label> {
    if rounds == [] then []
    else Labels(rounds[..|rounds| - 1]) + rounds[|rounds| - 1].job + rounds[|rounds| - 1].task
  }

  /** One round after the other, from ls on. */
  ghost predicate Rounds(s0: Sys, ls: seq<Label>, rounds: seq<Round>, jk: Key) {
    rounds == [] ||
    (var before, r := ls + Labels(rounds[..|rounds| - 1]), rounds[|rounds| - 1];
     && Rounds(s0, ls, rounds[..|rounds| - 1], jk)
     && JobRound(s0, before, r.job, jk) && TaskRound(s0, before + r.job, r.task, jk))
  }

  // ---- The measure ----

  ghost function Polls(log: seq<Event>, jk: Key, n: nat): nat {
    if n == 0 then 0 else Polls(log, jk, n - 1) + |Requeues(log, TaskKey(jk, n - 1))|
  }

  /** How far a Job has come: the stages of the Job and its Tasks, and the polls of its Tasks. */
  ghost function Measure(s: Sys, jk: Key): nat {
    if jk !in s.jobs then 0 else Progress(s, jk) + Polls(s.log, jk, |s.jobs[jk].actions|)
  }

  lemma RequeuesGrow(log: seq<Event>, later: seq<Event>, tk: Key)
    requires log <= later
    ensures |Requeues(log, tk)| <= |Requeues(later, tk)|
  {
    assert later == log + later[|log|..];
    Timeouts.RequeuesAppend(log, later[|log|..], tk);
  }

  lemma {:induction false} PollsGrow(log: seq<Event>, later: seq<Event>, jk: Key, n: nat)
    requires log <= later
    ensures Polls(log, jk, n) <= Polls(later, jk, n)
  {
    if n > 0 {
      PollsGrow(log, later, jk, n - 1);
      RequeuesGrow(log, later, TaskKey(jk, n - 1));
    }
  }

  lemma {:induction false} PollsMore(log: seq<Event>, later: seq<Event>, jk: Key, n: nat, i: nat)
    requires log <= later && i < n && |Requeues(log, TaskKey(jk, i))| < |Requeues(later, TaskKey(jk, i))|
    ensures Polls(log, jk, n) < Polls(later, jk, n)
  {
    if i == n - 1 {
      PollsGrow(log, later, jk, n - 1);
    } else {
      PollsMore(log, later, jk, n - 1, i);
      RequeuesGrow(log, later, TaskKey(jk, n - 1));
    }
  }

  lemma {:induction false} PollsBound(log: seq<Event>, jk: Key, n: nat)
    requires forall i :: 0 <= i < n ==> |Requeues(log, TaskKey(jk, i))| <= 200
    ensures Polls(log, jk, n) <= 200 * n
  {
    if n > 0 {
      PollsBound(log, jk, n - 1);
      assert |Requeues(log, TaskKey(jk, n - 1))| <= 200;
    }
  }

  // ---- Requeues and checks ----

  function Unmet(checks: seq<Event>): nat {
    if checks == [] then 0
    else Unmet(checks[..|checks| - 1]) + (var e := checks[|checks| - 1]; if e.Checked? && !e.met then 1 else 0)
  }

  lemma UnmetOne(checks: seq<Event>, e: Event)
    ensures Unmet(checks + [e]) == Unmet(checks) + if e.Checked? && !e.met then 1 else 0
  {
    assert (checks + [e])[..|checks|] == checks;
  }

  /** The requeues are the checks that were not met. */
  lemma {:induction false} RequeuesAreUnmet(log: seq<Event>, tk: Key)
    ensures |Requeues(log, tk)| == Unmet(Sightings(log, tk))
  {
    if log != [] {
      var front, e := log[..|log| - 1], log[|log| - 1];
      RequeuesAreUnmet(front, tk);
      UnmetOne(Sightings(front, tk), e);
      assert Sightings(front, tk) + [] == Sightings(front, tk);
    }
  }

  lemma SawUnmet(s: Sys, s': Sys, tk: Key)
    requires tk in s.tasks && FaultFreeTask.SawOnce(s, s', tk, false)
    ensures |Requeues(s'.log, tk)| == |Requeues(s.log, tk)| + 1
  {
    var before, after := Sightings(s.log, tk), Sightings(s'.log, tk);
    RequeuesAreUnmet(s.log, tk);
    RequeuesAreUnmet(s'.log, tk);
    assert after == before + [after[|before|]];
    assert after[|before|] in after;
    UnmetOne(before, after[|before|]);
  }

  // ---- Over a stretch of a run ----

  /** What any stretch of a run does to the Job's measure. */
  ghost predicate Later(s: Sys, s': Sys, jk: Key) {
    && Shapes.Inv(s) && Shapes.Inv(s') && Older(s.tasks, s'.tasks) && s.log <= s'.log
    && jk in s.jobs && jk in s'.jobs && s'.jobs[jk].actions == s.jobs[jk].actions
    && JobStage(s.jobs[jk].status) <= JobStage(s'.jobs[jk].status)
    && exists k: nat :: Prefix(s'.tasks, jk, s.jobs[jk].actions, k)
  }

  ghost predicate StageKeeps(s: Sys, s': Sys, jk: Key)
    requires jk in s.jobs
  {
    && jk in s'.jobs && s'.jobs[jk].actions == s.jobs[jk].actions
    && JobStage(s.jobs[jk].status) <= JobStage(s'.jobs[jk].status)
  }

  lemma StageStep(s: Sys, l: Label, jk: Key)
    requires Shapes.Inv(s) && Enabled(s, l) && jk in s.jobs
    ensures StageKeeps(s, Next(s, l), jk)
  {
    StepAdvances(s, l);
    StepGrows(s, l);
  }

  lemma {:induction false} StagesKeep(s0: Sys, ls: seq<Label>, more: seq<Label>, jk: Key)
    requires Initial(s0) && Run(s0, ls) && Run(s0, ls + more) && jk in After(s0, ls).jobs
    ensures StageKeeps(After(s0, ls), After(s0, ls + more), jk)
    decreases |more|
  {
    if more == [] {
      assert ls + more == ls;
    } else {
      var front := more[..|more| - 1];
      assert (ls + more)[..|ls + more| - 1] == ls + front;
      StagesKeep(s0, ls, front, jk);
      Shapes.Always(s0, ls + front);
      StageStep(After(s0, ls + front), more[|more| - 1], jk);
    }
  }

  lemma RunLater(s0: Sys, ls: seq<Label>, more: seq<Label>, jk: Key)
    requires Initial(s0) && Run(s0, ls) && Run(s0, ls + more) && jk in After(s0, ls).jobs
    ensures Later(After(s0, ls), After(s0, ls + more), jk)
  {
    Shapes.Always(s0, ls);
    Ordered.Always(s0, ls + more);
    Theorems.StatusesOnlyAdvance(s0, ls, more);
    StagesKeep(s0, ls, more, jk);
    assert ViewOk(After(s0, ls + more).tasks, After(s0, ls + more));
  }

  lemma TasksLater(s: Sys, s': Sys, jk: Key)
    requires Later(s, s', jk)
    ensures
      var n := |s.jobs[jk].actions|;
      && TasksProgress(s'.tasks, jk, n) >= TasksProgress(s.tasks, jk, n)
      && forall tk :: TaskWritten(s, s', jk, tk) ==> TasksProgress(s'.tasks, jk, n) > TasksProgress(s.tasks, jk, n)
  {
    var k: nat :| Prefix(s'.tasks, jk, s.jobs[jk].actions, k);
    TasksAdvance(s, s', jk, s.jobs[jk].actions, k);
  }

  lemma MeasureGrows(s: Sys, s': Sys, jk: Key)
    requires Later(s, s', jk)
    ensures Measure(s', jk) >= Measure(s, jk)
    ensures (exists tk :: TaskWritten(s, s', jk, tk)) ==> Measure(s', jk) > Measure(s, jk)
  {
    TasksLater(s, s', jk);
    PollsGrow(s.log, s'.log, jk, |s.jobs[jk].actions|);
  }

  lemma MeasurePolls(s: Sys, s': Sys, jk: Key, i: nat)
    requires Later(s, s', jk) && i < |s.jobs[jk].actions|
    requires |Requeues(s.log, TaskKey(jk, i))| < |Requeues(s'.log, TaskKey(jk, i))|
    ensures Measure(s', jk) > Measure(s, jk)
  {
    TasksLater(s, s', jk);
    PollsMore(s.log, s'.log, jk, |s.jobs[jk].actions|, i);
  }

  // ---- What a round achieves ----

  ghost predicate Ended(s: Sys, jk: Key) {
    jk in s.jobs && Terminal(s.jobs[jk].status)
  }

  /** A Job round ends the Job, writes one of its Tasks, or finds its last Task pending and leaves it so. */
  lemma JobRoundAchieves(s0: Sys, ls: seq<Label>, more: seq<Label>, jk: Key)
    requires JobRound(s0, ls, more, jk) && !Ended(After(s0, ls), jk)
    ensures
      var s, s1 := After(s0, ls), After(s0, ls + more);
      && jk in s1.jobs
      && (Ended(s1, jk) || (exists tk :: TaskWritten(s, s1, jk, tk)) || exists k: nat :: LastPending(s1, jk, k))
  {
    var s, s1 := After(s0, ls), After(s0, ls + more);
    Ordered.Always(s0, ls);
    RunLater(s0, ls, more, jk);
    assert ViewOk(s.tasks, s);
    var k: nat :| Prefix(s.tasks, jk, s.jobs[jk].actions, k);
    var found := FaultFreeJob.JobReconciled(s0, ls, more, jk, k);
    RoundOutcome(s, s1, jk, k, found);
  }

  lemma RoundOutcome(s: Sys, s1: Sys, jk: Key, k: nat, found: Scanned)
    requires Later(s, s1, jk) && !Ended(s, jk) && Prefix(s.tasks, jk, s.jobs[jk].actions, k)
    requires FaultFreeJob.Seen(s, s1, jk, k, found) && JobPcAt(s1, jk).JIdle?
    requires FaultFreeJob.JobOutcome(s, s1, jk, found, s1.jobs[jk].status, JobPcAt(s1, jk).last)
    ensures Ended(s1, jk) || (exists tk :: TaskWritten(s, s1, jk, tk)) || exists k: nat :: LastPending(s1, jk, k)
  {
    match found
    case ScanFailed(tk) => FailingEnds(s, s1, s.jobs[jk], s1.jobs[jk].status, tk);
    case ScanPending => PendingStays(s, s1, jk, k);
    case ScanCompleted(count) =>
      if count < |s.jobs[jk].actions| {
        assert TaskWritten(s, s1, jk, TaskKey(jk, count));
      } else {
        CompletingEnds(s, s1, s.jobs[jk], s1.jobs[jk].status);
      }
  }

  lemma FailingEnds(s: Sys, s1: Sys, j: Job, after: Status, tk: Key)
    requires FaultFreeJob.Failing(s, s1, j, after, tk)
    ensures Terminal(after)
  {
    FirstAfterSet(
      FaultFreeJob.BegunAt(j, after.startTime).conditions, Failed, True, Some(JobFailure(tk)), Failed);
  }

  lemma CompletingEnds(s: Sys, s1: Sys, j: Job, after: Status)
    requires FaultFreeJob.Completing(s, s1, j, after)
    ensures Terminal(after)
  {
    FirstAfterSet(FaultFreeJob.BegunAt(j, after.startTime).conditions, Completed, True, None, Completed);
  }

  /** The last Task was pending: it still is, or it was written. */
  lemma PendingStays(s: Sys, s1: Sys, jk: Key, k: nat)
    requires Later(s, s1, jk) && Prefix(s.tasks, jk, s.jobs[jk].actions, k)
    requires FaultFreeJob.Seen(s, s1, jk, k, ScanPending) && FaultFreeJob.SameTasks(s.tasks, s1.tasks, jk)
    ensures (exists tk :: TaskWritten(s, s1, jk, tk)) || LastPending(s1, jk, k)
  {
    var n: nat :| Prefix(s1.tasks, jk, s.jobs[jk].actions, n);
    FaultFreeJob.SameCount(s.tasks, s1.tasks, jk, s.jobs[jk].actions, k, n);
    var tk := TaskKey(jk, k - 1);
    assert Owned(s1.tasks, tk, jk);
    if !FaultFreeJob.Pending(s1.tasks, jk, k) {
      assert s1.tasks[tk].status != s.tasks[tk].status;
      assert TaskWritten(s, s1, jk, tk);
    }
  }

  /** A Task round writes the pending Task or has one more of its polls ask for another. */
  lemma TaskRoundAchieves(s0: Sys, ls: seq<Label>, more: seq<Label>, jk: Key, k: nat)
    requires TaskRound(s0, ls, more, jk) && LastPending(After(s0, ls), jk, k)
    ensures
      var s, s1, tk := After(s0, ls), After(s0, ls + more), TaskKey(jk, k - 1);
      TaskWritten(s, s1, jk, tk) || |Requeues(s1.log, tk)| == |Requeues(s.log, tk)| + 1
  {
    var s, s1, tk := After(s0, ls), After(s0, ls + more), TaskKey(jk, k - 1);
    FaultFreeTask.TaskReconciled(s0, ls, more, tk);
    OutcomeAchieves(s, s1, tk);
  }

  lemma OutcomeAchieves(s: Sys, s1: Sys, tk: Key)
    requires FaultFreeTask.Fetchable(s, tk) && tk in s1.tasks && TaskPcAt(s1, tk).TIdle?
    requires FaultFreeTask.TaskOutcome(s, s1, tk, s1.tasks[tk].status, TaskPcAt(s1, tk).last)
    ensures s1.tasks[tk].status != s.tasks[tk].status || |Requeues(s1.log, tk)| == |Requeues(s.log, tk)| + 1
  {
    if s.tasks[tk].status.startTime.Some? && TaskPcAt(s1, tk).last.Requeue? {
      SawUnmet(s, s1, tk);
    }
  }

  /** A round that starts and ends with the Job not terminal takes it further. */
  lemma RoundAchieves(s0: Sys, ls: seq<Label>, r: Round, jk: Key)
    requires JobRound(s0, ls, r.job, jk) && TaskRound(s0, ls + r.job, r.task, jk)
    requires !Ended(After(s0, ls + r.job + r.task), jk)
    ensures jk in After(s0, ls).jobs && !Ended(After(s0, ls), jk)
    ensures Measure(After(s0, ls + r.job + r.task), jk) > Measure(After(s0, ls), jk)
  {
    var s, s1, s2 := After(s0, ls), After(s0, ls + r.job), After(s0, ls + r.job + r.task);
    RunLater(s0, ls, r.job, jk);
    RunLater(s0, ls + r.job, r.task, jk);
    EndedStays(s0, ls, r.job, jk);
    EndedStays(s0, ls + r.job, r.task, jk);
    JobRoundAchieves(s0, ls, r.job, jk);
    MeasureGrows(s, s1, jk);
    MeasureGrows(s1, s2, jk);
    if k: nat :| LastPending(s1, jk, k) {
      TaskRoundAchieves(s0, ls + r.job, r.task, jk, k);
      PendingAchieves(s1, s2, jk, k);
    }
  }

  lemma PendingAchieves(s1: Sys, s2: Sys, jk: Key, k: nat)
    requires Later(s1, s2, jk) && LastPending(s1, jk, k)
    requires
      var tk := TaskKey(jk, k - 1);
      TaskWritten(s1, s2, jk, tk) || |Requeues(s2.log, tk)| == |Requeues(s1.log, tk)| + 1
    ensures Measure(s2, jk) > Measure(s1, jk)
  {
    if TaskWritten(s1, s2, jk, TaskKey(jk, k - 1)) {
      MeasureGrows(s1, s2, jk);
    } else {
      MeasurePolls(s1, s2, jk, k - 1);
    }
  }

  lemma EndedStays(s0: Sys, ls: seq<Label>, more: seq<Label>, jk: Key)
    requires Initial(s0) && Run(s0, ls) && Run(s0, ls + more)
    ensures Ended(After(s0, ls), jk) ==> Ended(After(s0, ls + more), jk)
  {
    if Ended(After(s0, ls), jk) {
      Theorems.TerminalJobStays(s0, ls, more, jk);
    }
  }

  // ---- All rounds ----

  lemma Joined<T>(a: seq<T>, b: seq<T>, c: seq<T>, d: seq<T>)
    ensures a + (b + c + d) == a + b + c + d
  {
  }

  lemma LabelsLast(ls: seq<Label>, rounds: seq<Round>)
    requires rounds != []
    ensures
      var r := rounds[|rounds| - 1];
      ls + Labels(rounds) == ls + Labels(rounds[..|rounds| - 1]) + r.job + r.task
  {
    var r := rounds[|rounds| - 1];
    Joined(ls, Labels(rounds[..|rounds| - 1]), r.job, r.task);
  }

  lemma RoundsRun(s0: Sys, ls: seq<Label>, rounds: seq<Round>, jk: Key)
    requires Run(s0, ls) && Rounds(s0, ls, rounds, jk)
    ensures Run(s0, ls + Labels(rounds))
  {
    if rounds == [] {
      assert ls + Labels(rounds) == ls;
    } else {
      LabelsLast(ls, rounds);
    }
  }

  /** As long as the Job is not terminal, every round takes it further. */
  lemma {:induction false} RoundsAchieve(s0: Sys, ls: seq<Label>, rounds: seq<Round>, jk: Key)
    requires Initial(s0) && Run(s0, ls) && Rounds(s0, ls, rounds, jk) && Run(s0, ls + Labels(rounds))
    requires !Ended(After(s0, ls + Labels(rounds)), jk)
    ensures Measure(After(s0, ls + Labels(rounds)), jk) >= |rounds|
  {
    if rounds != [] {
      var front, r := rounds[..|rounds| - 1], rounds[|rounds| - 1];
      RoundsRun(s0, ls, front, jk);
      LabelsLast(ls, rounds);
      RoundAchieves(s0, ls + Labels(front), r, jk);
      RoundsAchieve(s0, ls, front, jk);
    }
  }

  lemma MeasureBound(s0: Sys, ls: seq<Label>, jk: Key)
    requires Initial(s0) && Run(s0, ls) && jk in After(s0, ls).jobs
    requires forall i: nat :: Spaced(Requeues(After(s0, ls).log, TaskKey(jk, i)))
    ensures Measure(After(s0, ls), jk) <= 203 * |After(s0, ls).jobs[jk].actions| + 2
  {
    var s := After(s0, ls);
    var n := |s.jobs[jk].actions|;
    forall i | 0 <= i < n
      ensures |Requeues(s.log, TaskKey(jk, i))| <= 200
    {
      assert Spaced(Requeues(s.log, TaskKey(jk, i)));
      RequeuesBounded(s0, ls, TaskKey(jk, i));
    }
    PollsBound(s.log, jk, n);
    ProgressBound(s.tasks, jk, n);
  }

  /** Every Job ends. Whatever happened before and whatever everybody else does
      meanwhile: after 203n + 3 rounds a Job of n actions is Completed or Failed,
      if polls are at least three seconds apart and the one reconcile of the Job
      and the one of its last Task that a round asks for meet no fault. */
  lemma JobEnds(s0: Sys, ls: seq<Label>, rounds: seq<Round>, jk: Key)
    requires Initial(s0) && Run(s0, ls) && jk in After(s0, ls).jobs && Rounds(s0, ls, rounds, jk)
    requires |rounds| >= 203 * |After(s0, ls).jobs[jk].actions| + 3
    requires Run(s0, ls + Labels(rounds))
    requires forall i: nat :: Spaced(Requeues(After(s0, ls + Labels(rounds)).log, TaskKey(jk, i)))
    ensures jk in After(s0, ls + Labels(rounds)).jobs
    ensures Terminal(After(s0, ls + Labels(rounds)).jobs[jk].status)
  {
    StagesKeep(s0, ls, Labels(rounds), jk);
    MeasureBound(s0, ls + Labels(rounds), jk);
    if !Ended(After(s0, ls + Labels(rounds)), jk) {
      RoundsAchieve(s0, ls, rounds, jk);
    }
  }
}
