/** Every step keeps the order invariant. */
module OrderPreserved {
  import opened Options
  import opened Statuses
  import opened Bmc
  import opened Protocol
  import opened StatusInvariant
  import opened OrderInvariant
  import Order = OrderInvariant
  import Shapes = StatusInvariant

  /** What any step does to the store: objects stay, terminal statuses stay, and
      every store that was is remembered. */
  ghost predicate Grown(s: Sys, s': Sys) {
    && s.clock <= s'.clock
    && s.log <= s'.log
    && Older(s.tasks, s'.tasks)
    && (s'.past == s.past + [s.tasks] || (s'.past == s.past && s'.tasks == s.tasks))
    && (forall jk :: jk in s.jobs ==> jk in s'.jobs && s'.jobs[jk].actions == s.jobs[jk].actions)
  }

  lemma AdvanceIsLater(v: TaskStore, tk: Key, st: Status, now: Time)
    requires tk in v && TaskAdvance(v[tk].status, st) && TaskStatusOk(v[tk].status, now)
    ensures Older(v, v[tk := v[tk].(status := st)])
  {
  }

  lemma TaskStepGrows(s: Sys, tk: Key, m: TaskMove)
    requires Shapes.Inv(s) && TaskEnabled(s, tk, m)
    ensures Grown(s, Next(s, TaskStep(tk, m)))
  {
    TaskStepShape(s, tk, m);
    var e := TaskEffectOf(s, tk, m);
    if e.write.Some? {
      AdvanceIsLater(s.tasks, tk, e.write.value, s.clock);
    }
  }

  lemma JobStepGrows(s: Sys, jk: Key, m: JobMove)
    requires Shapes.Inv(s) && JobEnabled(s, jk, m)
    ensures Grown(s, Next(s, JobStep(jk, m)))
  {
    JobStepShape(s, jk, m);
  }

  lemma UserStepGrows(s: Sys, m: UserMove)
    requires UserEnabled(s, m)
    ensures Grown(s, Next(s, User(m)))
  {
  }

  // ---- What growth keeps ----

  lemma DoneKept(v: TaskStore, w: TaskStore, jk: Key, n: nat)
    requires DoneUpTo(v, jk, n) && Older(v, w)
    ensures DoneUpTo(w, jk, n)
  {
    forall i | 0 <= i < n
      ensures OwnedDone(w, jk, i)
    {
      assert OwnedDone(v, jk, i);
    }
  }

  lemma FailCauseKept(s: Sys, s': Sys, jk: Key, n: nat, message: string)
    requires Grown(s, s') && FailCause(s, jk, n, message)
    ensures FailCause(s', jk, n, message)
  {
    if i: nat :| i < n && TaskCause(s.tasks, jk, message, i) {
      assert TaskCause(s'.tasks, jk, message, i);
    } else {
      var e :| CreateCause(s.log, jk, message, e);
      assert CreateCause(s'.log, jk, message, e);
    }
  }

  lemma CausedKept(s: Sys, s': Sys, jk: Key, n: nat, st: Status)
    requires Grown(s, s') && JobStatusCaused(s, jk, n, st)
    ensures JobStatusCaused(s', jk, n, st)
  {
    if JobCompleted(st) {
      DoneKept(s.tasks, s'.tasks, jk, n);
    }
    if JobFailed(st) {
      FailCauseKept(s, s', jk, n, st.conditions[1].message);
    }
  }

  lemma PcCausedKept(s: Sys, s': Sys, jk: Key, pc: JobPc)
    requires Grown(s, s') && JobPcCaused(s, jk, pc)
    ensures JobPcCaused(s', jk, pc)
  {
    match pc
    case JCreating(_, _, _, index) => DoneKept(s.tasks, s'.tasks, jk, index);
    case JFinishing(j, _) => DoneKept(s.tasks, s'.tasks, jk, |j.actions|);
    case JPatching(j, current, _) => CausedKept(s, s', jk, |j.actions|, current);
    case _ =>
  }

  /** An earlier view stays a prefix of every Job, new Jobs included: no Task of
      a Job can be older than the Job. */
  lemma ViewKept(v: TaskStore, s: Sys, s': Sys)
    requires ViewOk(v, s) && Grown(s, s')
    requires forall tk :: tk in s.tasks && OwnerOf(tk, s.tasks[tk]).Some? ==> OwnerOf(tk, s.tasks[tk]).value in s.jobs
    ensures ViewOk(v, s')
  {
    OlderTransitive(v, s.tasks, s'.tasks);
    forall jk | jk in s'.jobs
      ensures exists k: nat :: Prefix(v, jk, s'.jobs[jk].actions, k)
    {
      if jk in s.jobs {
        var k: nat :| Prefix(v, jk, s.jobs[jk].actions, k);
        assert Prefix(v, jk, s'.jobs[jk].actions, k);
      } else {
        NoneOwned(v, s.tasks, s.jobs.Keys, jk);
        assert Prefix(v, jk, s'.jobs[jk].actions, 0);
      }
    }
  }

  lemma NoneOwned(v: TaskStore, w: TaskStore, jobs: set<Key>, jk: Key)
    requires Older(v, w) && jk !in jobs
    requires forall tk :: tk in w && OwnerOf(tk, w[tk]).Some? ==> OwnerOf(tk, w[tk]).value in jobs
    ensures forall tk :: !Owned(v, tk, jk)
  {
    forall tk | tk in v
      ensures OwnerOf(tk, v[tk]) == OwnerOf(tk, w[tk])
    {
    }
  }

  /** A step keeps the invariant if it grows the store, keeps every Job's Tasks
      a prefix, and has a cause for what the moving Job knows and persists. */
  lemma Kept(s: Sys, s': Sys)
    requires Order.Inv(s) && Shapes.Inv(s') && Grown(s, s')
    requires forall jk :: jk in s'.jobs ==> exists k: nat :: Prefix(s'.tasks, jk, s'.jobs[jk].actions, k)
    requires forall tk :: tk in s'.tasks && OwnerOf(tk, s'.tasks[tk]).Some? ==>
      OwnerOf(tk, s'.tasks[tk]).value in s'.jobs
    requires forall jk :: JobPcAt(s', jk) == JobPcAt(s, jk) || JobPcCaused(s', jk, JobPcAt(s', jk))
    requires forall jk :: jk in s'.jobs ==>
      (jk in s.jobs && s'.jobs[jk].status == s.jobs[jk].status)
        || JobStatusCaused(s', jk, |s'.jobs[jk].actions|, s'.jobs[jk].status)
    ensures Order.Inv(s')
  {
    assert ViewOk(s'.tasks, s');
    forall v | v in s'.past
      ensures ViewOk(v, s')
    {
      ViewKept(v, s, s');
    }
    forall jk | jk in s'.jobs
      ensures JobStatusCaused(s', jk, |s'.jobs[jk].actions|, s'.jobs[jk].status)
    {
      if jk in s.jobs && s'.jobs[jk].status == s.jobs[jk].status {
        CausedKept(s, s', jk, |s.jobs[jk].actions|, s.jobs[jk].status);
      }
    }
    forall jk
      ensures JobPcCaused(s', jk, JobPcAt(s', jk))
    {
      if JobPcAt(s', jk) == JobPcAt(s, jk) {
        PcCausedKept(s, s', jk, JobPcAt(s, jk));
      }
    }
  }

  /** Steps that only move statuses along. */
  lemma SamePrefixes(s: Sys, s': Sys)
    requires Order.Inv(s) && Grown(s, s') && s'.tasks.Keys == s.tasks.Keys
    requires s'.jobs.Keys == s.jobs.Keys
    ensures forall jk :: jk in s'.jobs ==> exists k: nat :: Prefix(s'.tasks, jk, s'.jobs[jk].actions, k)
  {
    forall jk | jk in s'.jobs
      ensures exists k: nat :: Prefix(s'.tasks, jk, s'.jobs[jk].actions, k)
    {
      var k: nat :| Prefix(s.tasks, jk, s.jobs[jk].actions, k);
      PrefixKept(s.tasks, s'.tasks, jk, s.jobs[jk].actions, k);
    }
  }

  lemma TaskStepOrdered(s: Sys, tk: Key, m: TaskMove)
    requires Order.Inv(s) && TaskEnabled(s, tk, m)
    ensures Order.Inv(Next(s, TaskStep(tk, m)))
  {
    var s' := Next(s, TaskStep(tk, m));
    TaskStepKeeps(s, tk, m);
    TaskStepGrows(s, tk, m);
    TaskStepSides(s, tk, m);
    SamePrefixes(s, s');
    Kept(s, s');
  }

  /** A Task step leaves Jobs and their reconciles alone. */
  lemma TaskStepSides(s: Sys, tk: Key, m: TaskMove)
    requires TaskEnabled(s, tk, m)
    ensures
      var s' := Next(s, TaskStep(tk, m));
      s'.jobs == s.jobs && s'.jobPcs == s.jobPcs && s'.tasks.Keys == s.tasks.Keys && s'.clock == s.clock
  {
  }

  lemma CreateTaskKeepsPrefixes(s: Sys, w: TaskStore, tk: Key, t: Task)
    requires ViewOk(s.tasks, s) && tk !in s.tasks && OwnerOf(tk, t) == None && w == s.tasks[tk := t]
    ensures forall jk :: jk in s.jobs ==> exists k: nat :: Prefix(w, jk, s.jobs[jk].actions, k)
  {
    forall jk | jk in s.jobs
      ensures exists k: nat :: Prefix(w, jk, s.jobs[jk].actions, k)
    {
      var k: nat :| Prefix(s.tasks, jk, s.jobs[jk].actions, k);
      PrefixAside(s.tasks, tk, t, jk, s.jobs[jk].actions, k);
    }
  }

  lemma UserStepKeepsPrefixes(s: Sys, m: UserMove)
    requires Order.Inv(s) && UserEnabled(s, m)
    ensures
      var s' := Next(s, User(m));
      forall jk :: jk in s'.jobs ==> exists k: nat :: Prefix(s'.tasks, jk, s'.jobs[jk].actions, k)
  {
    var s' := Next(s, User(m));
    UserStepGrows(s, m);
    match m
    case CreateJob(_, _, _) => ViewKept(s.tasks, s, s');
    case CreateTask(tk, _, _, _) => CreateTaskKeepsPrefixes(s, s'.tasks, tk, s'.tasks[tk]);
    case _ => SamePrefixes(s, s');
  }

  /** No user step touches a status or a reconcile. */
  lemma UserStepFrame(s: Sys, m: UserMove)
    requires UserEnabled(s, m)
    ensures
      var s' := Next(s, User(m));
      && (forall jk :: JobPcAt(s', jk) == JobPcAt(s, jk))
      && (forall jk :: jk in s'.jobs ==>
            if jk in s.jobs then s'.jobs[jk].status == s.jobs[jk].status else JobFresh(s'.jobs[jk].status))
      && s.jobs.Keys <= s'.jobs.Keys
      && (forall tk :: tk in s'.tasks && OwnerOf(tk, s'.tasks[tk]).Some? ==>
            tk in s.tasks && OwnerOf(tk, s'.tasks[tk]) == OwnerOf(tk, s.tasks[tk]))
  {
  }

  lemma UserStepOrdered(s: Sys, m: UserMove)
    requires Order.Inv(s) && UserEnabled(s, m)
    ensures Order.Inv(Next(s, User(m)))
  {
    UserStepKeeps(s, m);
    UserStepGrows(s, m);
    UserStepFrame(s, m);
    UserStepKeepsPrefixes(s, m);
    Kept(s, Next(s, User(m)));
  }

  /** What a scan finds in an earlier store still holds. */
  lemma OutcomeCaused(v: TaskStore, s: Sys, jk: Key, actions: seq<Action>, k: nat)
    requires ViewOk(v, s) && Prefix(v, jk, actions, k)
    ensures k > 0 ==> TaskKey(jk, k - 1) in v
    ensures Outcome(v, jk, k).ScanCompleted? ==> DoneUpTo(s.tasks, jk, k)
    ensures Outcome(v, jk, k).ScanFailed? ==> 0 < k <= |actions| && OwnedFailed(s.tasks, jk, k - 1)
  {
    assert k > 0 ==> Owned(v, TaskKey(jk, k - 1), jk);
    if Outcome(v, jk, k).ScanCompleted? {
      forall i | 0 <= i < k
        ensures OwnedDone(v, jk, i)
      {
        assert i < k - 1 ==> OwnedDone(v, jk, i);
      }
      DoneKept(v, s.tasks, jk, k);
    }
  }

  lemma AfterScanCaused(s: Sys, jk: Key, pc: JobPc, found: Scanned, k: nat)
    requires pc.JConnected? && JobRunning(pc.current) && NotAfter(pc.current.startTime, s.clock)
    requires k <= |pc.job.actions|
    requires found.ScanCompleted? ==> found.count == k && DoneUpTo(s.tasks, jk, k)
    requires found.ScanFailed? ==> k > 0 && found.task == TaskKey(jk, k - 1) && OwnedFailed(s.tasks, jk, k - 1)
    ensures JobPcCaused(s, jk, AfterScan(pc, found))
  {
    if found.ScanFailed? {
      JobChanges(pc.current, s.clock, JobFailure(found.task));
      assert TaskCause(s.tasks, jk, JobFailure(found.task), k - 1);
    }
  }

  /** What a listing, current or stale, tells a Job reconcile still holds. */
  lemma ListCaused(s: Sys, jk: Key, l: Listing)
    requires Order.Inv(s) && JobEnabled(s, jk, JList(Some(l)))
    ensures JobPcCaused(s, jk, JobEffectOf(s, jk, JList(Some(l))).pc)
  {
    var pc, v := JobPcAt(s, jk), View(s, l.view);
    assert JobPcOk(s.jobs, jk, pc, s.clock);
    assert ViewOk(v, s) by {
      assert v in s.past || v == s.tasks;
    }
    ScanCaused(v, s, jk, pc, l.items);
  }

  lemma ScanCaused(v: TaskStore, s: Sys, jk: Key, pc: JobPc, items: seq<Key>)
    requires pc.JConnected? && JobPcOk(s.jobs, jk, pc, s.clock) && ViewOk(v, s) && ListsOwned(v, jk, items)
    ensures JobPcCaused(s, jk, AfterScan(pc, Scan(v, items)))
  {
    var actions := s.jobs[jk].actions;
    var k: nat :| Prefix(v, jk, actions, k);
    ScanOfPrefix(v, jk, actions, k, items, s.clock);
    OutcomeCaused(v, s, jk, actions, k);
    AfterScanCaused(s, jk, pc, Scan(v, items), k);
  }

  lemma CreatePcCaused(s: Sys, jk: Key, o: WriteOutcome, error: string)
    requires Order.Inv(s) && JobEnabled(s, jk, JCreate(o, error))
    ensures
      var s' := Next(s, JobStep(jk, JCreate(o, error)));
      JobPcCaused(s', jk, JobPcAt(s', jk))
  {
    var pc := JobPcAt(s, jk);
    var s' := Next(s, JobStep(jk, JCreate(o, error)));
    assert JobPcOk(s.jobs, jk, pc, s.clock);
    JobChanges(pc.current, s.clock, CreateFailure(TaskKey(jk, pc.index), error));
    if o != Applied {
      assert CreateCause(s'.log, jk, CreateFailure(TaskKey(jk, pc.index), error), CreateFailed(jk, pc.index, error));
    }
  }

  /** What the moving Job's reconcile knows after its step. */
  lemma JobStepPcCaused(s: Sys, jk: Key, m: JobMove)
    requires Order.Inv(s) && JobEnabled(s, jk, m)
    ensures
      var s' := Next(s, JobStep(jk, m));
      JobPcCaused(s', jk, JobPcAt(s', jk))
  {
    var pc := JobPcAt(s, jk);
    var s' := Next(s, JobStep(jk, m));
    assert JobPcOk(s.jobs, jk, pc, s.clock) && JobPcCaused(s, jk, pc);
    match m
    case JList(Some(l)) =>
      ListCaused(s, jk, l);
      JobStepGrows(s, jk, m);
      PcCausedKept(s, s', jk, JobEffectOf(s, jk, m).pc);
    case JNow(_) =>
      if pc.JFinishing? {
        JobChanges(pc.current, s.clock, "");
      }
    case JCreate(o, error) => CreatePcCaused(s, jk, o, error);
    case _ =>
  }

  lemma JobStepStatusCaused(s: Sys, jk: Key, m: JobMove)
    requires Order.Inv(s) && JobEnabled(s, jk, m)
    ensures
      var s' := Next(s, JobStep(jk, m));
      jk in s'.jobs ==> JobStatusCaused(s', jk, |s'.jobs[jk].actions|, s'.jobs[jk].status)
  {
    var pc := JobPcAt(s, jk);
    var s' := Next(s, JobStep(jk, m));
    JobStepGrows(s, jk, m);
    JobStepShape(s, jk, m);
    if jk in s.jobs {
      CausedKept(s, s', jk, |s.jobs[jk].actions|, s.jobs[jk].status);
    }
    if m.JPatch? {
      assert JobPcOk(s.jobs, jk, pc, s.clock) && JobPcCaused(s, jk, pc);
      CausedKept(s, s', jk, |pc.job.actions|, pc.current);
    }
  }

  /** Creating a Task adds the next one, whatever listing its index came from. */
  lemma CreateExtends(s: Sys, jk: Key, o: WriteOutcome, error: string)
    requires Order.Inv(s) && JobEnabled(s, jk, JCreate(o, error)) && o != Refused
    ensures
      var s' := Next(s, JobStep(jk, JCreate(o, error)));
      && jk in s.jobs
      && Prefix(s.tasks, jk, s.jobs[jk].actions, JobPcAt(s, jk).index)
      && Prefix(s'.tasks, jk, s.jobs[jk].actions, JobPcAt(s, jk).index + 1)
  {
    var pc := JobPcAt(s, jk);
    assert JobPcOk(s.jobs, jk, pc, s.clock) && JobPcCaused(s, jk, pc);
    var actions := s.jobs[jk].actions;
    assert ViewOk(s.tasks, s);
    var k: nat :| Prefix(s.tasks, jk, actions, k);
    NextIsFree(s.tasks, jk, actions, k, pc.index);
    PrefixNext(s.tasks, jk, actions, k, pc.connection);
  }

  lemma CreateKeepsPrefixes(s: Sys, jk: Key, o: WriteOutcome, error: string)
    requires Order.Inv(s) && JobEnabled(s, jk, JCreate(o, error)) && o != Refused
    ensures
      var s' := Next(s, JobStep(jk, JCreate(o, error)));
      && (forall j :: j in s'.jobs ==> exists k: nat :: Prefix(s'.tasks, j, s'.jobs[j].actions, k))
      && (forall tk :: tk in s'.tasks && OwnerOf(tk, s'.tasks[tk]).Some? ==> OwnerOf(tk, s'.tasks[tk]).value in s'.jobs)
  {
    var s' := Next(s, JobStep(jk, JCreate(o, error)));
    var pc := JobPcAt(s, jk);
    var tk, t := TaskKey(jk, pc.index), NewTask(jk, pc.job.actions[pc.index], pc.connection);
    NewTaskOwner(jk, pc.index, pc.job.actions[pc.index], pc.connection);
    CreateExtends(s, jk, o, error);
    forall j | j in s'.jobs
      ensures exists k: nat :: Prefix(s'.tasks, j, s'.jobs[j].actions, k)
    {
      if j != jk {
        var k: nat :| Prefix(s.tasks, j, s.jobs[j].actions, k);
        PrefixAside(s.tasks, tk, t, j, s.jobs[j].actions, k);
      }
    }
  }

  lemma JobStepKeepsPrefixes(s: Sys, jk: Key, m: JobMove)
    requires Order.Inv(s) && JobEnabled(s, jk, m)
    ensures
      var s' := Next(s, JobStep(jk, m));
      && (forall j :: j in s'.jobs ==> exists k: nat :: Prefix(s'.tasks, j, s'.jobs[j].actions, k))
      && (forall tk :: tk in s'.tasks && OwnerOf(tk, s'.tasks[tk]).Some? ==> OwnerOf(tk, s'.tasks[tk]).value in s'.jobs)
  {
    if m.JCreate? && m.created != Refused {
      CreateKeepsPrefixes(s, jk, m.created, m.error);
    } else {
      JobStepShape(s, jk, m);
      JobStepGrows(s, jk, m);
      SamePrefixes(s, Next(s, JobStep(jk, m)));
    }
  }

  /** Only the moving Job's status and reconcile change. */
  lemma JobStepFrame(s: Sys, jk: Key, m: JobMove)
    requires Shapes.Inv(s) && JobEnabled(s, jk, m)
    ensures
      var s' := Next(s, JobStep(jk, m));
      && s'.jobs.Keys == s.jobs.Keys
      && (forall j :: j != jk ==> JobPcAt(s', j) == JobPcAt(s, j))
      && (forall j :: j != jk && j in s.jobs ==> s'.jobs[j] == s.jobs[j])
  {
    JobStepShape(s, jk, m);
  }

  lemma JobStepOrdered(s: Sys, jk: Key, m: JobMove)
    requires Order.Inv(s) && JobEnabled(s, jk, m)
    ensures Order.Inv(Next(s, JobStep(jk, m)))
  {
    var s' := Next(s, JobStep(jk, m));
    JobStepKeeps(s, jk, m);
    JobStepGrows(s, jk, m);
    JobStepPcCaused(s, jk, m);
    JobStepStatusCaused(s, jk, m);
    JobStepFrame(s, jk, m);
    JobStepKeepsPrefixes(s, jk, m);
    Kept(s, s');
  }

  /** The invariant holds in every state of every run. */
  lemma {:induction false} Always(s0: Sys, ls: seq<Label>)
    requires Initial(s0) && Run(s0, ls)
    ensures Order.Inv(After(s0, ls))
  {
    if ls != [] {
      var s, l := After(s0, ls[..|ls| - 1]), ls[|ls| - 1];
      Always(s0, ls[..|ls| - 1]);
      match l
      case User(m) => UserStepOrdered(s, m);
      case JobStep(jk, m) => JobStepOrdered(s, jk, m);
      case TaskStep(tk, m) => TaskStepOrdered(s, tk, m);
    }
  }
}
