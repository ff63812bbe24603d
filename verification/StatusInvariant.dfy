/** The statuses a store can hold, the transitions between them, and what a
    reconcile in flight knows about the object it fetched. */
module StatusInvariant {
  import opened Options
  import opened Conditions
  import opened Statuses
  import opened Bmc
  import opened Protocol

  // ---- Task statuses ----

  predicate TaskFresh(st: Status) {
    st == EMPTY
  }

  predicate TaskStarted(st: Status) {
    st.conditions == [] && st.startTime.Some? && st.completionTime.None?
  }

  predicate TaskFailed(st: Status) {
    |st.conditions| == 1 && st.conditions[0].ctype == Failed && st.conditions[0].status == True
      && st.completionTime.None?
  }

  predicate TaskDone(st: Status) {
    && st.conditions == [Condition(Completed, True, "")]
    && st.startTime.Some? && st.completionTime.Some? && st.startTime.value <= st.completionTime.value
  }

  predicate NotAfter(t: Option<Time>, now: Time) {
    t.Some? ==> t.value <= now
  }

  predicate TaskStatusOk(st: Status, now: Time) {
    && (TaskFresh(st) || TaskStarted(st) || TaskFailed(st) || TaskDone(st))
    && NotAfter(st.startTime, now) && NotAfter(st.completionTime, now)
  }

  /** The only ways a Task's status changes. */
  predicate TaskAdvance(before: Status, after: Status) {
    || (TaskFresh(before) && TaskStarted(after))
    || (TaskFresh(before) && TaskFailed(after))
    || (TaskStarted(before) && TaskFailed(after) && after.startTime == before.startTime)
    || (TaskStarted(before) && TaskDone(after) && after.startTime == before.startTime)
  }

  /** The deadline has been checked: the clock was read in [start, start + 10 minutes). */
  predicate InTime(st: Status, sampled: Time) {
    st.startTime.Some? && st.startTime.value <= sampled < st.startTime.value + 600_000_000_000
  }

  predicate TaskPcOk(tasks: TaskStore, tk: Key, pc: TaskPc, now: Time) {
    pc.TIdle? || (
      && tk in tasks
      && pc.task == tasks[tk].(deleting := pc.task.deleting)
      && TaskStatusOk(pc.task.status, now)
      && match pc
         case TPolling(t, at) => TaskStarted(t.status) && InTime(t.status, at) && at <= now && t.action.power.Some?
         case TConfirmed(t, at) => TaskStarted(t.status) && InTime(t.status, at) && at <= now
         case TRunning(t, current, i) =>
           TaskFresh(t.status) && TaskStarted(current) && NotAfter(current.startTime, now) && i < |Commands(t.action)|
         case TPatching(t, current, _) => TaskAdvance(t.status, current) && TaskStatusOk(current, now)
         case _ => TaskFresh(pc.task.status) || TaskStarted(pc.task.status))
  }

  // ---- Job statuses ----

  const RUNNING := Condition(Running, True, "")

  predicate JobFresh(st: Status) {
    st == EMPTY
  }

  predicate JobRunning(st: Status) {
    st.conditions == [RUNNING] && st.startTime.Some? && st.completionTime.None?
  }

  predicate JobFailed(st: Status) {
    && |st.conditions| == 2 && st.conditions[0] == RUNNING
    && st.conditions[1].ctype == Failed && st.conditions[1].status == True
    && st.startTime.Some? && st.completionTime.None?
  }

  predicate JobCompleted(st: Status) {
    && st.conditions == [RUNNING, Condition(Completed, True, "")]
    && st.startTime.Some? && st.completionTime.Some? && st.startTime.value <= st.completionTime.value
  }

  predicate JobStatusOk(st: Status, now: Time) {
    && (JobFresh(st) || JobRunning(st) || JobFailed(st) || JobCompleted(st))
    && NotAfter(st.startTime, now) && NotAfter(st.completionTime, now)
  }

  /** The only ways a Job's status changes: to Running, or to a terminal status
      that keeps the StartTime if there is one. */
  predicate JobAdvance(before: Status, after: Status) {
    || (JobFresh(before) && (JobRunning(after) || JobFailed(after) || JobCompleted(after)))
    || (JobRunning(before) && (JobFailed(after) || JobCompleted(after)) && after.startTime == before.startTime)
  }

  predicate JobBegun(before: Status, current: Status, now: Time) {
    JobRunning(current) && NotAfter(current.startTime, now) && (JobFresh(before) || before == current)
  }

  predicate SameJob(jobs: map<Key, Job>, jk: Key, j: Job) {
    jk in jobs && j == jobs[jk].(deleting := j.deleting)
  }

  predicate JobPcOk(jobs: map<Key, Job>, jk: Key, pc: JobPc, now: Time) {
    match pc
    case JIdle(_) => true
    case JFetched(j) => SameJob(jobs, jk, j) && JobFresh(j.status)
    case JStarted(j, current) => SameJob(jobs, jk, j) && JobBegun(j.status, current, now)
    case JConnected(j, current, _) => SameJob(jobs, jk, j) && JobBegun(j.status, current, now)
    case JFinishing(j, current) => SameJob(jobs, jk, j) && JobBegun(j.status, current, now)
    case JCreating(j, current, _, _) => SameJob(jobs, jk, j) && JobBegun(j.status, current, now)
    case JPatching(j, current, _) =>
      && SameJob(jobs, jk, j)
      && JobStatusOk(current, now)
      && (JobAdvance(j.status, current) || (JobRunning(current) && j.status == current))
  }

  /** What HasCondition answers on the statuses that occur. */
  lemma JobConditions(st: Status, now: Time)
    requires JobStatusOk(st, now)
    ensures Is(st, Running) <==> !JobFresh(st)
    ensures Is(st, Failed) <==> JobFailed(st)
    ensures Is(st, Completed) <==> JobCompleted(st)
  {
    if JobFailed(st) {
      FirstIs(st.conditions, Failed, 1);
    } else if JobCompleted(st) {
      FirstIs(st.conditions, Completed, 1);
    }
  }

  lemma TaskConditions(st: Status, now: Time)
    requires TaskStatusOk(st, now)
    ensures Is(st, Failed) <==> TaskFailed(st)
    ensures Is(st, Completed) <==> TaskDone(st)
  {
  }

  // ---- The invariant ----

  ghost predicate Inv(s: Sys) {
    && (forall jk :: jk in s.jobs ==> JobStatusOk(s.jobs[jk].status, s.clock))
    && (forall tk :: tk in s.tasks ==> TaskStatusOk(s.tasks[tk].status, s.clock))
    && (forall jk :: JobPcOk(s.jobs, jk, JobPcAt(s, jk), s.clock))
    && (forall tk :: TaskPcOk(s.tasks, tk, TaskPcAt(s, tk), s.clock))
  }

  /** What one Task step does to the Task and its reconcile: a write is an advance
      to the status in hand, from the one the reconcile fetched. */
  predicate TaskEffectOk(s: Sys, tk: Key, m: TaskMove, e: TaskEffect) {
    && (e.write.Some? ==>
          && m.TPatch? && e.pc.TIdle? && TaskPcAt(s, tk).TPatching? && e.write.value == TaskPcAt(s, tk).current
          && tk in s.tasks && s.tasks[tk].status == TaskPcAt(s, tk).task.status
          && TaskAdvance(s.tasks[tk].status, e.write.value) && TaskStatusOk(e.write.value, s.clock))
    && TaskPcOk(s.tasks, tk, e.pc, s.clock)
  }

  /** The reading of the clock once the connection is open. */
  lemma OpenedShape(s: Sys, tk: Key, t: Task)
    requires TaskPcOk(s.tasks, tk, TOpened(t), s.clock)
    ensures
      var e := TaskOpenedEffect(tk, t, s.clock);
      e.write.None? && TaskPcOk(s.tasks, tk, e.pc, s.clock)
  {
  }

  lemma NowShape(s: Sys, tk: Key)
    requires TaskPcOk(s.tasks, tk, TaskPcAt(s, tk), s.clock) && TaskEnabled(s, tk, TNow(s.clock))
    ensures TaskEffectOk(s, tk, TNow(s.clock), TaskEffectOf(s, tk, TNow(s.clock)))
  {
    if TaskPcAt(s, tk).TOpened? {
      OpenedShape(s, tk, TaskPcAt(s, tk).task);
    }
  }

  lemma CommandShape(s: Sys, tk: Key, command: Command, error: Option<string>)
    requires TaskPcOk(s.tasks, tk, TaskPcAt(s, tk), s.clock) && TaskEnabled(s, tk, TCommand(command, error))
    ensures TaskEffectOk(s, tk, TCommand(command, error), TaskEffectOf(s, tk, TCommand(command, error)))
  {
  }

  lemma PatchShape(s: Sys, tk: Key, o: WriteOutcome)
    requires TaskPcOk(s.tasks, tk, TaskPcAt(s, tk), s.clock) && TaskEnabled(s, tk, TPatch(o))
    ensures TaskEffectOk(s, tk, TPatch(o), TaskEffectOf(s, tk, TPatch(o)))
  {
  }

  lemma TaskStepShape(s: Sys, tk: Key, m: TaskMove)
    requires Inv(s) && TaskEnabled(s, tk, m)
    ensures TaskEffectOk(s, tk, m, TaskEffectOf(s, tk, m))
  {
    assert TaskPcOk(s.tasks, tk, TaskPcAt(s, tk), s.clock);
    if m.TNow? {
      NowShape(s, tk);
    } else if m.TCommand? {
      CommandShape(s, tk, m.command, m.error);
    } else if m.TPatch? {
      PatchShape(s, tk, m.patched);
    } else if m.TGet? {
      GetShape(s, tk, m.found);
    }
  }

  lemma GetShape(s: Sys, tk: Key, found: bool)
    requires Inv(s) && TaskEnabled(s, tk, TGet(found))
    ensures TaskEffectOk(s, tk, TGet(found), TaskEffectOf(s, tk, TGet(found)))
  {
    if tk in s.tasks {
      assert TaskStatusOk(s.tasks[tk].status, s.clock);
    }
  }

  /** The three status changes a Job reconcile makes before it patches. */
  lemma JobChanges(st: Status, now: Time, message: string)
    requires JobStatusOk(st, now)
    ensures JobFresh(st) ==> JobBegun(st, With(st.(startTime := Some(now)), Running, None), now)
    ensures JobRunning(st) ==>
      var failed := With(st, Failed, Some(message));
      JobStatusOk(failed, now) && JobAdvance(st, failed)
    ensures JobRunning(st) ==>
      var done := With(st, Completed, None).(completionTime := Some(now));
      JobStatusOk(done, now) && JobAdvance(st, done)
  {
  }

  /** What one Job step writes to the store: the status in hand, which is an
      advance or no change, or a new Task. */
  predicate JobWriteOk(s: Sys, jk: Key, m: JobMove, e: JobEffect) {
    && (e.write.Some? ==>
          && jk in s.jobs && JobStatusOk(e.write.value, s.clock) && m.JPatch? && e.pc.JIdle?
          && (e.write.value == s.jobs[jk].status || JobAdvance(s.jobs[jk].status, e.write.value))
          && JobPcAt(s, jk).JPatching? && e.write.value == JobPcAt(s, jk).current
          && s.jobs[jk].status == JobPcAt(s, jk).job.status)
    && (e.create.Some? ==> e.create.value.0 !in s.tasks && TaskFresh(e.create.value.1.status))
  }

  lemma JobStepWrites(s: Sys, jk: Key, m: JobMove)
    requires Inv(s) && JobEnabled(s, jk, m)
    ensures JobWriteOk(s, jk, m, JobEffectOf(s, jk, m))
  {
    assert JobPcOk(s.jobs, jk, JobPcAt(s, jk), s.clock);
  }

  lemma JobStepShape(s: Sys, jk: Key, m: JobMove)
    requires Inv(s) && JobEnabled(s, jk, m)
    ensures
      var e := JobEffectOf(s, jk, m);
      JobWriteOk(s, jk, m, e) && JobPcOk(s.jobs, jk, e.pc, s.clock)
  {
    JobStepWrites(s, jk, m);
    JobStepPc(s, jk, m);
  }

  /** What one Job step leaves its reconcile knowing. */
  lemma JobStepPc(s: Sys, jk: Key, m: JobMove)
    requires Inv(s) && JobEnabled(s, jk, m)
    ensures JobPcOk(s.jobs, jk, JobEffectOf(s, jk, m).pc, s.clock)
  {
    var pc := JobPcAt(s, jk);
    assert JobPcOk(s.jobs, jk, pc, s.clock);
    match m
    case JGet(_) =>
      if jk in s.jobs {
        JobConditions(s.jobs[jk].status, s.clock);
      }
    case JNow(_) =>
      JobChanges(if pc.JFetched? then pc.job.status else pc.current, s.clock, "");
    case JList(Some(l)) =>
      AfterScanPc(s, jk, pc, Scan(View(s, l.view), l.items));
    case JCreate(_, error) =>
      JobChanges(pc.current, s.clock, CreateFailure(TaskKey(jk, pc.index), error));
    case _ =>
  }

  lemma AfterScanPc(s: Sys, jk: Key, pc: JobPc, found: Scanned)
    requires pc.JConnected? && JobPcOk(s.jobs, jk, pc, s.clock)
    ensures JobPcOk(s.jobs, jk, AfterScan(pc, found), s.clock)
  {
    if found.ScanFailed? {
      JobChanges(pc.current, s.clock, JobFailure(found.task));
    }
  }

  lemma TaskStepKeeps(s: Sys, tk: Key, m: TaskMove)
    requires Inv(s) && TaskEnabled(s, tk, m)
    ensures Inv(Next(s, TaskStep(tk, m)))
  {
    TaskStepShape(s, tk, m);
    var s' := Next(s, TaskStep(tk, m));
    forall k
      ensures TaskPcOk(s'.tasks, k, TaskPcAt(s', k), s'.clock)
    {
      assert TaskPcOk(s.tasks, k, TaskPcAt(s, k), s.clock);
    }
    forall k
      ensures JobPcOk(s'.jobs, k, JobPcAt(s', k), s'.clock)
    {
      assert JobPcOk(s.jobs, k, JobPcAt(s, k), s.clock);
    }
  }

  lemma JobStepKeeps(s: Sys, jk: Key, m: JobMove)
    requires Inv(s) && JobEnabled(s, jk, m)
    ensures Inv(Next(s, JobStep(jk, m)))
  {
    JobStepShape(s, jk, m);
    var s' := Next(s, JobStep(jk, m));
    forall k
      ensures TaskPcOk(s'.tasks, k, TaskPcAt(s', k), s'.clock)
    {
      assert TaskPcOk(s.tasks, k, TaskPcAt(s, k), s.clock);
    }
    forall k
      ensures JobPcOk(s'.jobs, k, JobPcAt(s', k), s'.clock)
    {
      assert JobPcOk(s.jobs, k, JobPcAt(s, k), s.clock);
    }
  }

  lemma UserStepKeeps(s: Sys, m: UserMove)
    requires Inv(s) && UserEnabled(s, m)
    ensures Inv(Next(s, User(m)))
  {
    var s' := Next(s, User(m));
    forall k
      ensures TaskPcOk(s'.tasks, k, TaskPcAt(s', k), s'.clock)
    {
      assert TaskPcOk(s.tasks, k, TaskPcAt(s, k), s.clock);
    }
    forall k
      ensures JobPcOk(s'.jobs, k, JobPcAt(s', k), s'.clock)
    {
      assert JobPcOk(s.jobs, k, JobPcAt(s, k), s.clock);
    }
  }

  /** The invariant holds in every state of every run. */
  lemma {:induction false} Always(s0: Sys, ls: seq<Label>)
    requires Initial(s0) && Run(s0, ls)
    ensures Inv(After(s0, ls))
  {
    if ls != [] {
      var s, l := After(s0, ls[..|ls| - 1]), ls[|ls| - 1];
      Always(s0, ls[..|ls| - 1]);
      match l
      case User(m) => UserStepKeeps(s, m);
      case JobStep(jk, m) => JobStepKeeps(s, jk, m);
      case TaskStep(tk, m) => TaskStepKeeps(s, tk, m);
    }
  }
}
