/** The trace of a Job: its actions are run in order, each as often as its Task
    was, and none before the one before it completed. */
module TraceInvariant {
  import opened Options
  import opened Bmc
  import opened Protocol
  import opened StatusInvariant
  import opened OrderInvariant
  import opened OrderPreserved
  import opened RunLog
  import Order = OrderInvariant
  import Ordered = OrderPreserved
  import Logged = LogInvariant
  import Shapes = StatusInvariant

  function Repeat(a: Action, n: nat): seq<Action> {
    seq(n, _ => a)
  }

  /** The first k actions in order, the i-th as often as the log has runs of the i-th Task. */
  function Expand(log: seq<Event>, jk: Key, actions: seq<Action>, k: nat): seq<Action>
    requires k <= |actions|
  {
    if k == 0 then []
    else Expand(log, jk, actions, k - 1) + Repeat(actions[k - 1], Runs(log, TaskKey(jk, k - 1)))
  }

  ghost predicate Traced(s: Sys, jk: Key, actions: seq<Action>, k: nat) {
    Prefix(s.tasks, jk, actions, k) && ActionsRun(s.log, jk) == Expand(s.log, jk, actions, k)
  }

  /** Every Job's trace is its actions in order, and nothing is run for a Job that does not exist. */
  ghost predicate AllTraced(s: Sys) {
    && (forall jk :: jk in s.jobs ==> exists k: nat :: Traced(s, jk, s.jobs[jk].actions, k))
    && (forall jk :: jk !in s.jobs ==> ActionsRun(s.log, jk) == [])
  }

  lemma PrefixNotShorter(v: TaskStore, jk: Key, actions: seq<Action>, k1: nat, k2: nat)
    requires Prefix(v, jk, actions, k1) && Prefix(v, jk, actions, k2)
    ensures k1 >= k2
  {
    if k1 < k2 {
      assert Owned(v, TaskKey(jk, k1), jk);
      var i :| 0 <= i < k1 && TaskKey(jk, k1) == TaskKey(jk, i);
      TaskKeyInjective(jk, k1, jk, i);
    }
  }

  lemma {:induction false} ExpandSame(log: seq<Event>, log': seq<Event>, jk: Key, actions: seq<Action>, k: nat)
    requires k <= |actions|
    requires forall i :: 0 <= i < k ==> Runs(log', TaskKey(jk, i)) == Runs(log, TaskKey(jk, i))
    ensures Expand(log', jk, actions, k) == Expand(log, jk, actions, k)
  {
    if k > 0 {
      assert Runs(log', TaskKey(jk, k - 1)) == Runs(log, TaskKey(jk, k - 1));
      ExpandSame(log, log', jk, actions, k - 1);
    }
  }

  // ---- Steps that run nothing ----

  ghost predicate NoRun(events: seq<Event>) {
    forall e :: e in events ==> !e.RunCalled?
  }

  lemma {:induction false} NoRunTrace(events: seq<Event>, jk: Key, tk: Key)
    requires NoRun(events)
    ensures ActionsRun(events, jk) == [] && Runs(events, tk) == 0
  {
    if events != [] {
      assert events[|events| - 1] in events;
      NoRunTrace(events[..|events| - 1], jk, tk);
    }
  }

  lemma QuietLog(log: seq<Event>, events: seq<Event>, jk: Key, actions: seq<Action>, k: nat)
    requires k <= |actions| && NoRun(events)
    ensures ActionsRun(log + events, jk) == ActionsRun(log, jk)
    ensures Expand(log + events, jk, actions, k) == Expand(log, jk, actions, k)
  {
    ActionsRunAppend(log, events, jk);
    NoRunTrace(events, jk, jk);
    forall i | 0 <= i < k
      ensures Runs(log + events, TaskKey(jk, i)) == Runs(log, TaskKey(jk, i))
    {
      RunsAppend(log, events, TaskKey(jk, i));
      NoRunTrace(events, jk, TaskKey(jk, i));
    }
    ExpandSame(log, log + events, jk, actions, k);
  }

  /** The same number of Tasks, and no new run of any of them. */
  lemma TraceKept(s: Sys, s': Sys, events: seq<Event>, jk: Key, actions: seq<Action>, k: nat)
    requires Traced(s, jk, actions, k) && Prefix(s'.tasks, jk, actions, k)
    requires s'.log == s.log + events && NoRun(events)
    ensures Traced(s', jk, actions, k)
  {
    QuietLog(s.log, events, jk, actions, k);
  }

  /** One more Task, which has not been run. */
  lemma TraceNext(s: Sys, s': Sys, events: seq<Event>, jk: Key, actions: seq<Action>, k: nat)
    requires Traced(s, jk, actions, k) && Prefix(s'.tasks, jk, actions, k + 1)
    requires s'.log == s.log + events && NoRun(events) && Runs(s.log, TaskKey(jk, k)) == 0
    ensures Traced(s', jk, actions, k + 1)
  {
    QuietLog(s.log, events, jk, actions, k);
    RunsAppend(s.log, events, TaskKey(jk, k));
    NoRunTrace(events, jk, TaskKey(jk, k));
    assert Repeat(actions[k], 0) == [];
  }

  ghost predicate SameJobs(s: Sys, s': Sys) {
    s'.jobs.Keys == s.jobs.Keys && forall jk :: jk in s.jobs ==> s'.jobs[jk].actions == s.jobs[jk].actions
  }

  /** Steps that run nothing and create no Task. */
  lemma QuietStep(s: Sys, s': Sys, events: seq<Event>)
    requires AllTraced(s) && SameJobs(s, s') && Older(s.tasks, s'.tasks) && s'.tasks.Keys == s.tasks.Keys
    requires s'.log == s.log + events && NoRun(events)
    ensures AllTraced(s')
  {
    forall jk | jk in s'.jobs
      ensures exists k: nat :: Traced(s', jk, s'.jobs[jk].actions, k)
    {
      var k: nat :| Traced(s, jk, s.jobs[jk].actions, k);
      PrefixKept(s.tasks, s'.tasks, jk, s.jobs[jk].actions, k);
      TraceKept(s, s', events, jk, s.jobs[jk].actions, k);
    }
    QuietElsewhere(s, s', events);
  }

  lemma QuietElsewhere(s: Sys, s': Sys, events: seq<Event>)
    requires AllTraced(s) && s.jobs.Keys <= s'.jobs.Keys && s'.log == s.log + events && NoRun(events)
    ensures forall jk :: jk !in s'.jobs ==> ActionsRun(s'.log, jk) == []
  {
    forall jk | jk !in s'.jobs
      ensures ActionsRun(s'.log, jk) == []
    {
      QuietLog(s.log, events, jk, [], 0);
    }
  }

  ghost predicate NextOf(s: Sys, s': Sys, tk: Key, jk: Key, n: nat) {
    && jk in s.jobs && tk == TaskKey(jk, n) && Runs(s.log, tk) == 0
    && Prefix(s.tasks, jk, s.jobs[jk].actions, n) && Prefix(s'.tasks, jk, s.jobs[jk].actions, n + 1)
  }

  lemma CreateTracedOwn(s: Sys, s': Sys, events: seq<Event>, tk: Key, jk: Key, n: nat, k: nat)
    requires NextOf(s, s', tk, jk, n) && Traced(s, jk, s.jobs[jk].actions, k)
    requires s'.log == s.log + events && NoRun(events)
    ensures Traced(s', jk, s.jobs[jk].actions, k + 1)
  {
    PrefixNotShorter(s.tasks, jk, s.jobs[jk].actions, k, n);
    PrefixNotShorter(s.tasks, jk, s.jobs[jk].actions, n, k);
    TraceNext(s, s', events, jk, s.jobs[jk].actions, k);
  }

  /** Steps that create a Task: the next one of a Job, or one that no Job owns. */
  lemma CreateStep(s: Sys, s': Sys, events: seq<Event>, tk: Key, t: Task, owner: Option<Key>, n: nat)
    requires AllTraced(s) && SameJobs(s, s') && tk !in s.tasks && s'.tasks == s.tasks[tk := t]
    requires OwnerOf(tk, t) == owner
    requires s'.log == s.log + events && NoRun(events)
    requires owner.Some? ==> NextOf(s, s', tk, owner.value, n)
    ensures AllTraced(s')
  {
    forall jk | jk in s'.jobs
      ensures exists k: nat :: Traced(s', jk, s'.jobs[jk].actions, k)
    {
      var actions := s.jobs[jk].actions;
      var k: nat :| Traced(s, jk, actions, k);
      if owner == Some(jk) {
        CreateTracedOwn(s, s', events, tk, jk, n, k);
      } else {
        PrefixAside(s.tasks, tk, t, jk, actions, k);
        TraceKept(s, s', events, jk, actions, k);
      }
    }
    QuietElsewhere(s, s', events);
  }

  /** Steps that create a Job: no Task is owned by it yet. */
  lemma NewJobStep(s: Sys, s': Sys, jk: Key)
    requires AllTraced(s) && jk !in s.jobs && s'.jobs.Keys == s.jobs.Keys + {jk}
    requires forall j :: j in s.jobs ==> s'.jobs[j] == s.jobs[j]
    requires s'.tasks == s.tasks && s'.log == s.log
    requires forall tk :: !Owned(s.tasks, tk, jk)
    ensures AllTraced(s')
  {
    assert Traced(s', jk, s'.jobs[jk].actions, 0);
    forall j | j in s.jobs
      ensures exists k: nat :: Traced(s', j, s'.jobs[j].actions, k)
    {
      var k: nat :| Traced(s, j, s.jobs[j].actions, k);
      assert Traced(s', j, s'.jobs[j].actions, k);
    }
  }

  // ---- Steps that run an action ----

  /** Only the last Task of a Job can be one that has not started. */
  lemma FreshIsLast(v: TaskStore, jk: Key, actions: seq<Action>, k: nat, tk: Key)
    requires Prefix(v, jk, actions, k) && Owned(v, tk, jk) && TaskFresh(v[tk].status)
    ensures k > 0 && tk == TaskKey(jk, k - 1) && v[tk].action == actions[k - 1]
  {
    var i: nat :| i < k && tk == TaskKey(jk, i);
    assert i < k - 1 ==> OwnedDone(v, jk, i);
  }

  /** A run of a Job's last Task extends the last block of its trace. */
  lemma LastTaskRun(log: seq<Event>, e: Event, jk: Key, actions: seq<Action>, k: nat)
    requires 0 < k <= |actions| && e == RunCalled(TaskKey(jk, k - 1), Some(jk), actions[k - 1])
    ensures ActionsRun(log + [e], jk) == ActionsRun(log, jk) + [actions[k - 1]]
    ensures Expand(log + [e], jk, actions, k) == Expand(log, jk, actions, k) + [actions[k - 1]]
  {
    assert (log + [e])[..|log|] == log;
    forall i | 0 <= i < k - 1
      ensures Runs(log + [e], TaskKey(jk, i)) == Runs(log, TaskKey(jk, i))
    {
      if TaskKey(jk, i) == TaskKey(jk, k - 1) {
        TaskKeyInjective(jk, i, jk, k - 1);
      }
    }
    ExpandSame(log, log + [e], jk, actions, k - 1);
    var n := Runs(log, TaskKey(jk, k - 1));
    assert Repeat(actions[k - 1], n + 1) == Repeat(actions[k - 1], n) + [actions[k - 1]];
  }

  /** A run of a Task that is not the Job's leaves its trace alone. */
  lemma RunLogAside(log: seq<Event>, e: Event, jk: Key, actions: seq<Action>, k: nat)
    requires k <= |actions| && e.RunCalled? && e.owner != Some(jk)
    requires forall i :: 0 <= i < k ==> TaskKey(jk, i) != e.task
    ensures ActionsRun(log + [e], jk) == ActionsRun(log, jk)
    ensures Expand(log + [e], jk, actions, k) == Expand(log, jk, actions, k)
  {
    assert (log + [e])[..|log|] == log;
    ExpandSame(log, log + [e], jk, actions, k);
  }

  lemma RunTraced(s: Sys, tk: Key, e: Event, rest: seq<Event>, jk: Key, actions: seq<Action>, k: nat)
    requires Traced(s, jk, actions, k) && tk in s.tasks && TaskFresh(s.tasks[tk].status)
    requires e == RunCalled(tk, OwnerOf(tk, s.tasks[tk]), s.tasks[tk].action) && NoRun(rest)
    ensures ActionsRun(s.log + [e] + rest, jk) == Expand(s.log + [e] + rest, jk, actions, k)
  {
    if Owned(s.tasks, tk, jk) {
      FreshIsLast(s.tasks, jk, actions, k, tk);
      LastTaskRun(s.log, e, jk, actions, k);
    } else {
      forall i | 0 <= i < k
        ensures TaskKey(jk, i) != tk
      {
        assert Owned(s.tasks, TaskKey(jk, i), jk);
      }
      RunLogAside(s.log, e, jk, actions, k);
    }
    QuietLog(s.log + [e], rest, jk, actions, k);
  }

  lemma RunningStep(s: Sys, s': Sys, tk: Key, e: Event, rest: seq<Event>)
    requires AllTraced(s) && s'.jobs == s.jobs && s'.tasks == s.tasks && s'.log == s.log + [e] + rest
    requires tk in s.tasks && TaskFresh(s.tasks[tk].status)
    requires e == RunCalled(tk, OwnerOf(tk, s.tasks[tk]), s.tasks[tk].action) && NoRun(rest)
    requires e.owner.Some? ==> e.owner.value in s.jobs
    ensures AllTraced(s')
  {
    forall jk | jk in s'.jobs
      ensures exists k: nat :: Traced(s', jk, s'.jobs[jk].actions, k)
    {
      var k: nat :| Traced(s, jk, s.jobs[jk].actions, k);
      RunTraced(s, tk, e, rest, jk, s.jobs[jk].actions, k);
      assert Traced(s', jk, s'.jobs[jk].actions, k);
    }
    forall jk | jk !in s'.jobs
      ensures ActionsRun(s'.log, jk) == []
    {
      RunLogAside(s.log, e, jk, [], 0);
      QuietLog(s.log + [e], rest, jk, [], 0);
    }
  }

  // ---- All steps ----

  lemma CreateJobTraced(s: Sys, jk: Key, machine: Key, actions: seq<Action>)
    requires AllTraced(s) && UserEnabled(s, CreateJob(jk, machine, actions))
    requires forall tk :: tk in s.tasks && OwnerOf(tk, s.tasks[tk]).Some? ==> OwnerOf(tk, s.tasks[tk]).value in s.jobs
    ensures AllTraced(Next(s, User(CreateJob(jk, machine, actions))))
  {
    NewJobStep(s, Next(s, User(CreateJob(jk, machine, actions))), jk);
  }

  lemma CreateTaskTraced(s: Sys, tk: Key, owners: seq<OwnerRef>, action: Action, connection: Connection)
    requires AllTraced(s) && UserEnabled(s, CreateTask(tk, owners, action, connection))
    ensures AllTraced(Next(s, User(CreateTask(tk, owners, action, connection))))
  {
    var s' := Next(s, User(CreateTask(tk, owners, action, connection)));
    assert s'.log == s.log + [];
    CreateStep(s, s', [], tk, s'.tasks[tk], None, 0);
  }

  /** A deletion or the passing of time. */
  lemma MarkTraced(s: Sys, m: UserMove)
    requires AllTraced(s) && UserEnabled(s, m) && !m.CreateJob? && !m.CreateTask?
    ensures AllTraced(Next(s, User(m)))
  {
    MarkFrame(s, m);
    UserStepGrows(s, m);
    QuietStep(s, Next(s, User(m)), []);
  }

  lemma MarkFrame(s: Sys, m: UserMove)
    requires UserEnabled(s, m) && !m.CreateJob? && !m.CreateTask?
    ensures
      var s' := Next(s, User(m));
      s'.log == s.log + [] && s'.tasks.Keys == s.tasks.Keys && SameJobs(s, s')
  {
  }

  lemma UserStepTraced(s: Sys, m: UserMove)
    requires AllTraced(s) && UserEnabled(s, m)
    requires forall tk :: tk in s.tasks && OwnerOf(tk, s.tasks[tk]).Some? ==> OwnerOf(tk, s.tasks[tk]).value in s.jobs
    ensures AllTraced(Next(s, User(m)))
  {
    match m
    case CreateJob(jk, machine, actions) => CreateJobTraced(s, jk, machine, actions);
    case CreateTask(tk, owners, action, connection) => CreateTaskTraced(s, tk, owners, action, connection);
    case _ => MarkTraced(s, m);
  }

  /** What a create step adds. */
  lemma CreateIsNext(s: Sys, jk: Key, o: WriteOutcome, error: string)
    requires Order.Inv(s) && JobEnabled(s, jk, JCreate(o, error)) && o != Refused
    requires Logged.Accounted(s, TaskKey(jk, JobPcAt(s, jk).index))
    ensures
      var s', e := Next(s, JobStep(jk, JCreate(o, error))), JobEffectOf(s, jk, JCreate(o, error));
      && e.create.Some? && NextOf(s, s', e.create.value.0, jk, JobPcAt(s, jk).index)
      && OwnerOf(e.create.value.0, e.create.value.1) == Some(jk)
  {
    var pc := JobPcAt(s, jk);
    CreateExtends(s, jk, o, error);
    NewTaskOwner(jk, pc.index, pc.job.actions[pc.index], pc.connection);
  }

  lemma CreateFrame(s: Sys, jk: Key, o: WriteOutcome, error: string)
    requires JobEnabled(s, jk, JCreate(o, error)) && o != Refused
    ensures
      var s', e := Next(s, JobStep(jk, JCreate(o, error))), JobEffectOf(s, jk, JCreate(o, error));
      && e.create.Some? && e.create.value.0 !in s.tasks && s'.tasks == s.tasks[e.create.value.0 := e.create.value.1]
      && SameJobs(s, s') && s'.log == s.log + e.events && NoRun(e.events)
  {
  }

  lemma CreateTraced(s: Sys, jk: Key, o: WriteOutcome, error: string)
    requires AllTraced(s) && Order.Inv(s) && JobEnabled(s, jk, JCreate(o, error)) && o != Refused
    requires Logged.Accounted(s, TaskKey(jk, JobPcAt(s, jk).index))
    ensures AllTraced(Next(s, JobStep(jk, JCreate(o, error))))
  {
    var s', e := Next(s, JobStep(jk, JCreate(o, error))), JobEffectOf(s, jk, JCreate(o, error));
    CreateIsNext(s, jk, o, error);
    CreateFrame(s, jk, o, error);
    CreateStep(s, s', e.events, e.create.value.0, e.create.value.1, Some(jk), JobPcAt(s, jk).index);
  }

  lemma JobStepQuiet(s: Sys, jk: Key, m: JobMove)
    requires Shapes.Inv(s) && JobEnabled(s, jk, m) && !(m.JCreate? && m.created != Refused)
    ensures
      var s', e := Next(s, JobStep(jk, m)), JobEffectOf(s, jk, m);
      s'.log == s.log + e.events && NoRun(e.events) && s'.tasks == s.tasks && SameJobs(s, s')
  {
    JobStepShape(s, jk, m);
  }

  lemma JobStepTraced(s: Sys, jk: Key, m: JobMove)
    requires AllTraced(s) && Order.Inv(s) && Logged.Inv(s) && JobEnabled(s, jk, m)
    ensures AllTraced(Next(s, JobStep(jk, m)))
  {
    if m.JCreate? && m.created != Refused {
      CreateTraced(s, jk, m.created, m.error);
    } else {
      JobStepQuiet(s, jk, m);
      QuietStep(s, Next(s, JobStep(jk, m)), JobEffectOf(s, jk, m).events);
    }
  }

  predicate StartsRun(s: Sys, tk: Key, m: TaskMove) {
    m.TNow? && TaskPcAt(s, tk).TOpened? && TaskPcAt(s, tk).task.status.startTime.None?
  }

  /** What the step into runTask logs first. */
  lemma RunStepEvents(s: Sys, tk: Key)
    requires Shapes.Inv(s) && TaskEnabled(s, tk, TNow(s.clock)) && StartsRun(s, tk, TNow(s.clock))
    ensures
      var e := TaskEffectOf(s, tk, TNow(s.clock));
      && tk in s.tasks && TaskFresh(s.tasks[tk].status) && e.write.None?
      && |e.events| > 0 && NoRun(e.events[1..])
      && e.events[0] == RunCalled(tk, OwnerOf(tk, s.tasks[tk]), s.tasks[tk].action)
  {
    assert TaskPcOk(s.tasks, tk, TaskPcAt(s, tk), s.clock);
  }

  lemma TaskStepQuiet(s: Sys, tk: Key, m: TaskMove)
    requires Shapes.Inv(s) && TaskEnabled(s, tk, m) && !StartsRun(s, tk, m)
    ensures
      var s', e := Next(s, TaskStep(tk, m)), TaskEffectOf(s, tk, m);
      s'.log == s.log + e.events && NoRun(e.events) && s'.tasks.Keys == s.tasks.Keys && s'.jobs == s.jobs
  {
    TaskStepShape(s, tk, m);
  }

  lemma TaskStepTraced(s: Sys, tk: Key, m: TaskMove)
    requires AllTraced(s) && Order.Inv(s) && TaskEnabled(s, tk, m)
    ensures AllTraced(Next(s, TaskStep(tk, m)))
  {
    var s', e := Next(s, TaskStep(tk, m)), TaskEffectOf(s, tk, m);
    if StartsRun(s, tk, m) {
      RunStepEvents(s, tk);
      assert s'.log == s.log + [e.events[0]] + e.events[1..];
      RunningStep(s, s', tk, e.events[0], e.events[1..]);
    } else {
      TaskStepGrows(s, tk, m);
      TaskStepQuiet(s, tk, m);
      QuietStep(s, s', e.events);
    }
  }

  /** Every Job's trace is its actions in order, in every state of every run. */
  lemma {:induction false} Always(s0: Sys, ls: seq<Label>)
    requires Initial(s0) && Run(s0, ls)
    ensures AllTraced(After(s0, ls))
  {
    if ls != [] {
      var s, l := After(s0, ls[..|ls| - 1]), ls[|ls| - 1];
      Always(s0, ls[..|ls| - 1]);
      Ordered.Always(s0, ls[..|ls| - 1]);
      Logged.Always(s0, ls[..|ls| - 1]);
      match l
      case User(m) => UserStepTraced(s, m);
      case JobStep(jk, m) => JobStepTraced(s, jk, m);
      case TaskStep(tk, m) => TaskStepTraced(s, tk, m);
    }
  }
}
