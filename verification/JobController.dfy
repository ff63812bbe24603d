/** The Job controller: Reconcile and doReconcile, against everybody else's steps. */
module JobController {
  import opened Options
  import opened Conditions
  import opened Statuses
  import opened StatusObject
  import opened Protocol
  import opened Cluster
  import Theorems
  import JobStory

  ghost function Prepend(count: nat, found: Scanned): Scanned {
    if found.ScanCompleted? then ScanCompleted(count + found.count) else found
  }

  /** The early-returning loop over the listed Tasks. */
  method ScanTasks(tasks: seq<ListedTask>, ghost view: TaskStore, ghost keys: seq<Key>) returns (found: Scanned)
    requires Listed(tasks, view, keys)
    ensures found == Scan(view, keys)
  {
    var completedTasksCount := 0;
    for i := 0 to |tasks|
      invariant Scan(view, keys) == Prepend(completedTasksCount, Scan(view, keys[i..]))
    {
      assert keys[i..][1..] == keys[i + 1..];
      var st := tasks[i].status;
      if Has(st.conditions, Completed, True) {
        completedTasksCount := completedTasksCount + 1;
        continue;
      }
      if Has(st.conditions, Failed, True) {
        return ScanFailed(tasks[i].key);
      }
      return ScanPending;
    }
    return ScanCompleted(completedTasksCount);
  }

  /** createTaskWithOwner: the Task of the action at taskIndex, owned by the Job. */
  method CreateTaskWithOwner(c: Client, jk: Key, job: FetchedJob, taskIndex: nat, connection: Connection)
    returns (error: Option<string>)
    requires c.Valid() && taskIndex < |job.actions|
    requires
      var pc := JobPcAt(c.sys, jk);
      pc.JCreating? && pc.index == taskIndex && pc.job.actions == job.actions && pc.connection == connection
    modifies c
    ensures c.Valid() && old(c.trace) <= c.trace && c.Moved(JobActor(jk))
    ensures Continues(old(Own(c.trace, JobActor(jk))), Own(c.trace, JobActor(jk)))
    ensures
      var pc := old(JobPcAt(c.sys, jk));
      JobPcAt(c.sys, jk) ==
        if error.None? then JPatching(pc.job, pc.current, Done)
        else JPatching(pc.job, With(pc.current, Failed, error), Error)
    ensures
      var key := JobStory.TaskName(jk, taskIndex);
      error.None? ==>
        key in c.sys.tasks && c.sys.tasks[key] == JobStory.TaskMade(jk, job.actions[taskIndex], connection)
  {
    var owner := OwnerRef(GROUP_VERSION, "Job", jk.name, true);
    var task := Task([owner], job.actions[taskIndex], connection, false, EMPTY);
    error := c.CreateTask(jk, TaskKey(jk, taskIndex), task);
    if error.Some? {
      error := Some(CreateFailure(TaskKey(jk, taskIndex), error.value));
    }
  }

  ghost predicate InHand(job: FetchedJob, base: ResourceStatus)
    reads job.status, base
  {
    && job.status.Valid() && base.Valid()
    && job.status != base && job.status.backing != base.backing
  }

  /** The fetched object as the patch base remembers it. */
  ghost function Original(job: FetchedJob, base: ResourceStatus): Job
    reads base, base.backing, base.startTime, base.completionTime
    requires base.Valid()
  {
    Job(job.machine, job.actions, job.deleting, base.View())
  }

  /** The start of doReconcile: a Job that is not Running yet gets its StartTime and Running condition. */
  method Begin(c: Client, jk: Key, job: FetchedJob, base: ResourceStatus)
    requires c.Valid() && c.Moved(JobActor(jk)) && InHand(job, base) && job.status.View() == base.View()
    requires !job.deleting && !Is(base.View(), Completed) && !Is(base.View(), Failed)
    requires JobPcAt(c.sys, jk) == AfterJobGet(Original(job, base))
    modifies c, job.status, job.status.backing
    ensures c.Valid() && old(c.trace) <= c.trace && InHand(job, base)
    ensures job.status.backing == old(job.status.backing) || fresh(job.status.backing)
    ensures JobPcAt(c.sys, jk) == JStarted(Original(job, base), job.status.View())
    ensures Continues(old(Own(c.trace, JobActor(jk))), Own(c.trace, JobActor(jk)))
  {
    var running := job.status.HasCondition(Running, True);
    if !running {
      var now := c.JobNow(jk);
      job.status.StampStart(now);
      job.status.SetCondition(Running, True, None);
    }
  }

  method DoReconcile(c: Client, jk: Key, job: FetchedJob, base: ResourceStatus) returns (answer: Answer)
    requires c.Valid() && c.Moved(JobActor(jk)) && InHand(job, base) && job.status.View() == base.View()
    requires !job.deleting && !Is(base.View(), Completed) && !Is(base.View(), Failed)
    requires JobPcAt(c.sys, jk) == AfterJobGet(Original(job, base))
    modifies c, job.status, job.status.backing
    ensures c.Valid() && old(c.trace) <= c.trace
    ensures JobStory.JustEnded(c.start, c.trace, jk)
    ensures JobPcAt(c.sys, jk) == JIdle(answer) && answer in {Done, Error}
    ensures Continues(old(Own(c.trace, JobActor(jk))), Own(c.trace, JobActor(jk)))
  {
    Begin(c, jk, job, base);
    answer := Advance(c, jk, job, base);
  }

  /** A reconcile that its last call ended is one of those there are. */
  lemma JustEnded(c: Client, jk: Key)
    requires c.Valid() && c.Moved(JobActor(jk)) && JobPcAt(c.sys, jk).JIdle?
    ensures JobStory.JustEnded(c.start, c.trace, jk)
  {
    JobStory.EveryReconcile(c.start, c.trace, jk);
  }

  /** doReconcile of a Running Job: its Machine, its Tasks, and what follows from them. */
  method Advance(c: Client, jk: Key, job: FetchedJob, base: ResourceStatus) returns (answer: Answer)
    requires c.Valid() && InHand(job, base)
    requires JobPcAt(c.sys, jk) == JStarted(Original(job, base), job.status.View())
    modifies c, job.status, job.status.backing
    ensures c.Valid() && old(c.trace) <= c.trace
    ensures JobStory.JustEnded(c.start, c.trace, jk)
    ensures JobPcAt(c.sys, jk) == JIdle(answer) && answer in {Done, Error}
    ensures Continues(old(Own(c.trace, JobActor(jk))), Own(c.trace, JobActor(jk)))
  {
    var connection := c.GetMachine(jk, job.machine);
    if connection.None? {
      answer := Error;
    } else {
      answer := Decide(c, jk, job, base, connection.value);
    }
    JustEnded(c, jk);
  }

  /** doReconcile from the list on. */
  method Decide(c: Client, jk: Key, job: FetchedJob, base: ResourceStatus, connection: Connection)
    returns (answer: Answer)
    requires c.Valid() && InHand(job, base)
    requires JobPcAt(c.sys, jk) == JConnected(Original(job, base), job.status.View(), connection)
    modifies c, job.status, job.status.backing
    ensures c.Valid() && old(c.trace) <= c.trace && c.Moved(JobActor(jk))
    ensures JobPcAt(c.sys, jk) == JIdle(answer) && answer in {Done, Error}
    ensures Continues(old(Own(c.trace, JobActor(jk))), Own(c.trace, JobActor(jk)))
  {
    var tasks, view, keys := c.ListTasks(jk);
    if tasks.None? {
      return Error;
    }
    var found := ScanTasks(tasks.value, view, keys);
    answer := Conclude(c, jk, job, base, found, connection);
  }

  /** doReconcile after the loop: fail, wait, complete or create. */
  method Conclude(c: Client, jk: Key, job: FetchedJob, base: ResourceStatus, found: Scanned, connection: Connection)
    returns (answer: Answer)
    requires c.Valid() && c.Moved(JobActor(jk)) && InHand(job, base)
    requires JobPcAt(c.sys, jk) == AfterScan(JConnected(Original(job, base), job.status.View(), connection), found)
    modifies c, job.status, job.status.backing
    ensures c.Valid() && old(c.trace) <= c.trace && c.Moved(JobActor(jk))
    ensures JobPcAt(c.sys, jk) == JIdle(answer) && answer in {Done, Error}
    ensures Continues(old(Own(c.trace, JobActor(jk))), Own(c.trace, JobActor(jk)))
  {
    match found {
      case ScanFailed(task) =>
        job.status.SetCondition(Failed, True, Some(JobFailure(task)));
        var _ := c.PatchJobStatus(jk, job.status, base);
        return Error;
      case ScanPending =>
        return Done;
      case ScanCompleted(completedTasksCount) =>
        if completedTasksCount == |job.actions| {
          answer := CompleteJob(c, jk, job, base);
        } else {
          answer := CreateNext(c, jk, job, base, completedTasksCount, connection);
        }
    }
  }

  /** Sets the Completed condition and the CompletionTime. */
  method MarkCompleted(c: Client, jk: Key, job: FetchedJob, base: ResourceStatus)
    requires c.Valid() && InHand(job, base)
    requires JobPcAt(c.sys, jk) == JFinishing(Original(job, base), job.status.View())
    modifies c, job.status, job.status.backing
    ensures c.Valid() && old(c.trace) <= c.trace && c.Moved(JobActor(jk)) && InHand(job, base)
    ensures job.status.backing == old(job.status.backing) || fresh(job.status.backing)
    ensures JobPcAt(c.sys, jk) == JPatching(Original(job, base), job.status.View(), Done)
    ensures Continues(old(Own(c.trace, JobActor(jk))), Own(c.trace, JobActor(jk)))
  {
    job.status.SetCondition(Completed, True, None);
    var now := c.JobNow(jk);
    job.status.StampCompletion(now);
  }

  /** Marks the Job Completed and persists it. */
  method CompleteJob(c: Client, jk: Key, job: FetchedJob, base: ResourceStatus) returns (answer: Answer)
    requires c.Valid() && InHand(job, base)
    requires JobPcAt(c.sys, jk) == JFinishing(Original(job, base), job.status.View())
    modifies c, job.status, job.status.backing
    ensures c.Valid() && old(c.trace) <= c.trace && c.Moved(JobActor(jk))
    ensures JobPcAt(c.sys, jk) == JIdle(answer) && answer in {Done, Error}
    ensures Continues(old(Own(c.trace, JobActor(jk))), Own(c.trace, JobActor(jk)))
  {
    MarkCompleted(c, jk, job, base);
    var ok := c.PatchJobStatus(jk, job.status, base);
    return if ok then Done else Error;
  }

  /** The end of doReconcile: create the next Task and persist the status. */
  method CreateNext(c: Client, jk: Key, job: FetchedJob, base: ResourceStatus, taskIndex: nat, connection: Connection)
    returns (answer: Answer)
    requires c.Valid() && InHand(job, base)
    requires JobPcAt(c.sys, jk) == JCreating(Original(job, base), job.status.View(), connection, taskIndex)
    modifies c, job.status, job.status.backing
    ensures c.Valid() && old(c.trace) <= c.trace && c.Moved(JobActor(jk))
    ensures JobPcAt(c.sys, jk) == JIdle(answer) && answer in {Done, Error}
    ensures Continues(old(Own(c.trace, JobActor(jk))), Own(c.trace, JobActor(jk)))
  {
    // The index is in range in every run.
    Theorems.CreateIsNextAction(c.start, c.trace, jk);
    var error := CreateTaskWithOwner(c, jk, job, taskIndex, connection);
    if error.Some? {
      job.status.SetCondition(Failed, True, error);
      var _ := c.PatchJobStatus(jk, job.status, base);
      return Error;
    }
    var ok := c.PatchJobStatus(jk, job.status, base);
    return if ok then Done else Error;
  }

  /** Whatever the others do meanwhile, a call of Reconcile is one complete
      reconcile of the transition system, and returns the answer it ends with. */
  method Reconcile(c: Client, jk: Key) returns (answer: Answer)
    requires c.Valid() && JobPcAt(c.sys, jk).JIdle?
    modifies c
    ensures c.Valid() && old(c.trace) <= c.trace
    ensures JobStory.JustEnded(c.start, c.trace, jk)
    ensures JobPcAt(c.sys, jk) == JIdle(answer) && answer in {Done, Error}
    ensures OneReconcile(old(Own(c.trace, JobActor(jk))), Own(c.trace, JobActor(jk)))
  {
    var got := c.GetJob(jk);
    if JobPcAt(c.sys, jk).JIdle? {
      JustEnded(c, jk);
    }
    match got {
      case GetFailed => return Error;
      case NotFound => return Done;
      case Found(job) =>
        if job.deleting {
          return Done;
        }
        var completed := job.status.HasCondition(Completed, True);
        var failed := job.status.HasCondition(Failed, True);
        if completed || failed {
          return Done;
        }
        var base := job.status.DeepCopy();
        answer := DoReconcile(c, jk, job, base);
    }
  }
}
