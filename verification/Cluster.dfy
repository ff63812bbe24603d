/** The cluster and the BMC as the controllers see them: each method is one call,
    taken at some point of a run in which everybody else goes on meanwhile. */
module Cluster {
  import opened Options
  import opened Conditions
  import opened Statuses
  import opened StatusObject
  import opened Bmc
  import opened Protocol

  ghost predicate SamePc(s: Sys, s': Sys, a: Actor) {
    match a
    case JobActor(jk) => JobPcAt(s', jk) == JobPcAt(s, jk)
    case TaskActor(tk) => TaskPcAt(s', tk) == TaskPcAt(s, tk)
  }

  datatype Fetched<T> = Found(value: T) | NotFound | GetFailed

  /** A fetched Job: its status is an object of its own, to be changed in place. */
  datatype FetchedJob = FetchedJob(machine: Key, actions: seq<Action>, deleting: bool, status: ResourceStatus)

  datatype FetchedTask = FetchedTask(owners: seq<OwnerRef>, action: Action, connection: Connection, deleting: bool,
    status: ResourceStatus)

  datatype ListedTask = ListedTask(key: Key, status: Status)

  class Client {
    var sys: Sys
    ghost var trace: seq<Label>
    ghost const start: Sys

    ghost predicate Valid()
      reads this
    {
      Initial(start) && Run(start, trace) && sys == After(start, trace)
    }

    /** The last step of the run is this reconciler's. */
    ghost predicate Moved(me: Actor)
      reads this
    {
      trace != [] && ActorOf(trace[|trace| - 1]) == Some(me)
    }

    constructor (clock: Time)
      ensures Valid() && trace == []
    {
      sys := Sys(clock, map[], map[], [], map[], map[], []);
      start := Sys(clock, map[], map[], [], map[], map[], []);
      trace := [];
    }

    method Take(l: Label)
      requires Valid() && Enabled(sys, l)
      modifies this
      ensures Valid() && sys == Next(old(sys), l) && trace == old(trace) + [l]
    {
      RunStep(start, trace, l);
      trace := trace + [l];
      sys := Next(sys, l);
    }

    /** Any number of steps of anybody else. */
    method Interfere(me: Actor)
      requires Valid()
      modifies this
      ensures Valid() && old(trace) <= trace
      ensures SamePc(old(sys), sys, me) && Own(trace, me) == old(Own(trace, me))
    {
      var n: nat := *;
      while n > 0
        invariant Valid() && old(trace) <= trace
        invariant SamePc(old(sys), sys, me) && Own(trace, me) == old(Own(trace, me))
      {
        var l: Label := *;
        if ActorOf(l) != Some(me) && Enabled(sys, l) {
          ghost var before := trace;
          Take(l);
          assert trace[..|trace| - 1] == before;
        }
        n := n - 1;
      }
    }

    /** One call of a reconciler, after whatever the others did. */
    method Step(me: Actor, l: Label)
      requires Valid() && Enabled(sys, l) && ActorOf(l) == Some(me)
      modifies this
      ensures Valid() && sys == Next(old(sys), l) && old(trace) <= trace && Moved(me)
      ensures Own(trace, me) == old(Own(trace, me)) + [l]
    {
      ghost var before := trace;
      Take(l);
      assert trace[..|trace| - 1] == before;
    }

    // ---- Calls of the Job controller ----

    method GetJob(jk: Key) returns (r: Fetched<FetchedJob>)
      requires Valid() && JobPcAt(sys, jk).JIdle?
      modifies this
      ensures Valid() && old(trace) <= trace && Moved(JobActor(jk))
      ensures Own(trace, JobActor(jk)) == old(Own(trace, JobActor(jk))) + [JobStep(jk, JGet(!r.GetFailed?))]
      ensures match r
        case GetFailed => JobPcAt(sys, jk) == JIdle(Error)
        case NotFound => JobPcAt(sys, jk) == JIdle(Done)
        case Found(j) =>
          && fresh(j.status) && fresh(j.status.backing) && j.status.Valid()
          && JobPcAt(sys, jk) == AfterJobGet(Job(j.machine, j.actions, j.deleting, j.status.View()))
    {
      Interfere(JobActor(jk));
      var reached: bool := *;
      var before := sys;
      Step(JobActor(jk), JobStep(jk, JGet(reached)));
      if !reached {
        return GetFailed;
      }
      if jk !in before.jobs {
        return NotFound;
      }
      var j := before.jobs[jk];
      var status := new ResourceStatus.Decode(j.status);
      return Found(FetchedJob(j.machine, j.actions, j.deleting, status));
    }

    method JobNow(jk: Key) returns (now: Time)
      requires Valid() && (JobPcAt(sys, jk).JFetched? || JobPcAt(sys, jk).JFinishing?)
      modifies this
      ensures Valid() && old(trace) <= trace && Moved(JobActor(jk))
      ensures Own(trace, JobActor(jk)) == old(Own(trace, JobActor(jk))) + [JobStep(jk, JNow(now))]
      ensures
        var pc := old(JobPcAt(sys, jk));
        JobPcAt(sys, jk) ==
          if pc.JFetched? then JStarted(pc.job, With(pc.job.status.(startTime := Some(now)), Running, None))
          else JPatching(pc.job, With(pc.current, Completed, None).(completionTime := Some(now)), Done)
    {
      Interfere(JobActor(jk));
      now := sys.clock;
      Step(JobActor(jk), JobStep(jk, JNow(now)));
    }

    method GetMachine(jk: Key, machine: Key) returns (connection: Option<Connection>)
      requires Valid() && JobPcAt(sys, jk).JStarted? && JobPcAt(sys, jk).job.machine == machine
      modifies this
      ensures Valid() && old(trace) <= trace && Moved(JobActor(jk))
      ensures Own(trace, JobActor(jk)) == old(Own(trace, JobActor(jk))) + [JobStep(jk, JMachine(machine, connection))]
      ensures
        var pc := old(JobPcAt(sys, jk));
        JobPcAt(sys, jk) == if connection.None? then JIdle(Error) else JConnected(pc.job, pc.current, connection.value)
    {
      Interfere(JobActor(jk));
      connection := *;
      Step(JobActor(jk), JobStep(jk, JMachine(machine, connection)));
    }

    /** The Tasks owned by the Job, in any order, now or at any earlier time. */
    method ListTasks(jk: Key) returns (tasks: Option<seq<ListedTask>>, ghost view: TaskStore, ghost keys: seq<Key>)
      requires Valid() && JobPcAt(sys, jk).JConnected?
      modifies this
      ensures Valid() && old(trace) <= trace && Moved(JobActor(jk))
      ensures Continues(old(Own(trace, JobActor(jk))), Own(trace, JobActor(jk)))
      ensures tasks.None? ==> JobPcAt(sys, jk) == JIdle(Error)
      ensures tasks.Some? ==>
        && Listed(tasks.value, view, keys)
        && JobPcAt(sys, jk) == AfterScan(old(JobPcAt(sys, jk)), Scan(view, keys))
    {
      Interfere(JobActor(jk));
      var at: nat := *;
      var items: seq<Key> := *;
      view, keys := map[], [];
      if at <= |sys.past| && ListsOwned(View(sys, at), jk, items) {
        var v := View(sys, at);
        view, keys := v, items;
        tasks := Some(seq(|items|, i requires 0 <= i < |items| => ListedTask(items[i], v[items[i]].status)));
        Step(JobActor(jk), JobStep(jk, JList(Some(Listing(at, items)))));
      } else {
        tasks := None;
        Step(JobActor(jk), JobStep(jk, JList(None)));
      }
    }

    method CreateTask(jk: Key, key: Key, task: Task) returns (error: Option<string>)
      requires Valid() && JobPcAt(sys, jk).JCreating? && JobPcAt(sys, jk).index < |JobPcAt(sys, jk).job.actions|
      requires
        var pc := JobPcAt(sys, jk);
        key == TaskKey(jk, pc.index) && task == NewTask(jk, pc.job.actions[pc.index], pc.connection)
      modifies this
      ensures Valid() && old(trace) <= trace && Moved(JobActor(jk))
      ensures Continues(old(Own(trace, JobActor(jk))), Own(trace, JobActor(jk)))
      ensures
        var pc := old(JobPcAt(sys, jk));
        JobPcAt(sys, jk) ==
          if error.None? then JPatching(pc.job, pc.current, Done)
          else JPatching(pc.job, With(pc.current, Failed, Some(CreateFailure(key, error.value))), Error)
      ensures error.None? ==> key in sys.tasks && sys.tasks[key] == task
    {
      Interfere(JobActor(jk));
      var outcome: WriteOutcome := *;
      var message: string := *;
      if key in sys.tasks {
        outcome := Refused;
      }
      Step(JobActor(jk), JobStep(jk, JCreate(outcome, message)));
      return if outcome == Applied then None else Some(message);
    }

    /** Sends the difference between the patch base and the changed status. */
    method PatchJobStatus(jk: Key, status: ResourceStatus, base: ResourceStatus) returns (ok: bool)
      requires Valid() && status.Valid() && base.Valid()
      requires
        var pc := JobPcAt(sys, jk);
        pc.JPatching? && pc.current == status.View() && pc.job.status == base.View()
      modifies this
      ensures Valid() && old(trace) <= trace && Moved(JobActor(jk))
      ensures Continues(old(Own(trace, JobActor(jk))), Own(trace, JobActor(jk)))
      ensures JobPcAt(sys, jk) == JIdle(if ok then old(JobPcAt(sys, jk)).answer else Error)
    {
      Interfere(JobActor(jk));
      var outcome: WriteOutcome := *;
      if jk !in sys.jobs {
        outcome := Refused;
      }
      Step(JobActor(jk), JobStep(jk, JPatch(outcome)));
      return outcome == Applied;
    }

    // ---- Calls of the Task controller ----

    method GetTask(tk: Key) returns (r: Fetched<FetchedTask>)
      requires Valid() && TaskPcAt(sys, tk).TIdle?
      modifies this
      ensures Valid() && old(trace) <= trace && Moved(TaskActor(tk))
      ensures Own(trace, TaskActor(tk)) == old(Own(trace, TaskActor(tk))) + [TaskStep(tk, TGet(!r.GetFailed?))]
      ensures match r
        case GetFailed => TaskPcAt(sys, tk) == TIdle(Error)
        case NotFound => TaskPcAt(sys, tk) == TIdle(Done)
        case Found(t) =>
          && fresh(t.status) && fresh(t.status.backing) && t.status.Valid()
          && TaskPcAt(sys, tk) == AfterTaskGet(Task(t.owners, t.action, t.connection, t.deleting, t.status.View()))
    {
      Interfere(TaskActor(tk));
      var reached: bool := *;
      var before := sys;
      Step(TaskActor(tk), TaskStep(tk, TGet(reached)));
      if !reached {
        return GetFailed;
      }
      if tk !in before.tasks {
        return NotFound;
      }
      var t := before.tasks[tk];
      var status := new ResourceStatus.Decode(t.status);
      return Found(FetchedTask(t.owners, t.action, t.connection, t.deleting, status));
    }

    method ResolveSecrets(tk: Key) returns (resolved: bool)
      requires Valid() && TaskPcAt(sys, tk).TFetched?
      modifies this
      ensures Valid() && old(trace) <= trace && Moved(TaskActor(tk))
      ensures Own(trace, TaskActor(tk)) == old(Own(trace, TaskActor(tk))) + [TaskStep(tk, TSecrets(resolved))]
      ensures TaskPcAt(sys, tk) == if resolved then TOpening(old(TaskPcAt(sys, tk)).task) else TIdle(Error)
    {
      Interfere(TaskActor(tk));
      resolved := *;
      Step(TaskActor(tk), TaskStep(tk, TSecrets(resolved)));
    }

    method OpenBmc(tk: Key) returns (failure: Option<string>)
      requires Valid() && TaskPcAt(sys, tk).TOpening?
      modifies this
      ensures Valid() && old(trace) <= trace && Moved(TaskActor(tk))
      ensures Own(trace, TaskActor(tk)) == old(Own(trace, TaskActor(tk))) + [TaskStep(tk, TOpen(failure))]
      ensures
        var t := old(TaskPcAt(sys, tk)).task;
        TaskPcAt(sys, tk) == if failure.None? then TOpened(t)
          else Fail(t, t.status, "Failed to connect to BMC: " + failure.value)
    {
      Interfere(TaskActor(tk));
      failure := *;
      Step(TaskActor(tk), TaskStep(tk, TOpen(failure)));
    }

    method TaskNow(tk: Key) returns (now: Time)
      requires Valid() && (TaskPcAt(sys, tk).TOpened? || TaskPcAt(sys, tk).TConfirmed?)
      modifies this
      ensures Valid() && old(trace) <= trace && Moved(TaskActor(tk))
      ensures Own(trace, TaskActor(tk)) == old(Own(trace, TaskActor(tk))) + [TaskStep(tk, TNow(now))]
      ensures
        var pc := old(TaskPcAt(sys, tk));
        TaskPcAt(sys, tk) ==
          if pc.TOpened? then TaskOpenedEffect(tk, pc.task, now).pc
          else TPatching(pc.task, With(pc.task.status.(completionTime := Some(now)), Completed, None), Done)
    {
      Interfere(TaskActor(tk));
      now := sys.clock;
      Step(TaskActor(tk), TaskStep(tk, TNow(now)));
    }

    /** Issues one command to the BMC; the error it returns comes wrapped for the Task's condition. */
    method Issue(tk: Key, command: Command) returns (error: Option<string>)
      requires Valid() && command != NoDevice
      requires
        var pc := TaskPcAt(sys, tk);
        pc.TRunning? && pc.issued < |Commands(pc.task.action)| && Commands(pc.task.action)[pc.issued] == command
      modifies this
      ensures Valid() && old(trace) <= trace && Moved(TaskActor(tk))
      ensures Own(trace, TaskActor(tk)) == old(Own(trace, TaskActor(tk))) + [TaskStep(tk, TCommand(command, error))]
      ensures TaskPcAt(sys, tk) == TaskCommandEffect(tk, old(TaskPcAt(sys, tk)), error).pc
    {
      Interfere(TaskActor(tk));
      error := *;
      Step(TaskActor(tk), TaskStep(tk, TCommand(command, error)));
    }

    /** Indexing an empty device list: the reconcile ends here. */
    method PanicNoDevice(tk: Key)
      requires Valid()
      requires
        var pc := TaskPcAt(sys, tk);
        pc.TRunning? && pc.issued < |Commands(pc.task.action)| && Commands(pc.task.action)[pc.issued] == NoDevice
      modifies this
      ensures Valid() && old(trace) <= trace && Moved(TaskActor(tk))
      ensures Own(trace, TaskActor(tk)) == old(Own(trace, TaskActor(tk))) + [TaskStep(tk, TPanic)]
      ensures TaskPcAt(sys, tk) == TIdle(Panicked)
    {
      Interfere(TaskActor(tk));
      Step(TaskActor(tk), TaskStep(tk, TPanic));
    }

    method GetPowerState(tk: Key) returns (reading: Option<string>)
      requires Valid() && TaskPcAt(sys, tk).TPolling? && TaskPcAt(sys, tk).task.action.power.Some?
      modifies this
      ensures Valid() && old(trace) <= trace && Moved(TaskActor(tk))
      ensures Own(trace, TaskActor(tk)) == old(Own(trace, TaskActor(tk))) + [TaskStep(tk, TPower(reading))]
      ensures
        var pc := old(TaskPcAt(sys, tk));
        TaskPcAt(sys, tk) ==
          if reading.None? then TIdle(Error)
          else if Meets(pc.task.action.power.value, reading.value) then TConfirmed(pc.task, pc.sampled)
          else TIdle(Requeue(REQUEUE_AFTER))
    {
      Interfere(TaskActor(tk));
      reading := *;
      Step(TaskActor(tk), TaskStep(tk, TPower(reading)));
    }

    method PatchTaskStatus(tk: Key, status: ResourceStatus, base: ResourceStatus) returns (ok: bool)
      requires Valid() && status.Valid() && base.Valid()
      requires
        var pc := TaskPcAt(sys, tk);
        pc.TPatching? && pc.current == status.View() && pc.task.status == base.View()
      modifies this
      ensures Valid() && old(trace) <= trace && Moved(TaskActor(tk))
      ensures Continues(old(Own(trace, TaskActor(tk))), Own(trace, TaskActor(tk)))
      ensures TaskPcAt(sys, tk) == TIdle(if ok then old(TaskPcAt(sys, tk)).answer else Error)
    {
      Interfere(TaskActor(tk));
      var outcome: WriteOutcome := *;
      if tk !in sys.tasks {
        outcome := Refused;
      }
      Step(TaskActor(tk), TaskStep(tk, TPatch(outcome)));
      return outcome == Applied;
    }
  }

  /** tasks are the entries of a store under the listed keys. */
  ghost predicate Listed(tasks: seq<ListedTask>, view: TaskStore, keys: seq<Key>) {
    && |tasks| == |keys|
    && forall i :: 0 <= i < |keys| ==> keys[i] in view && tasks[i] == ListedTask(keys[i], view[keys[i]].status)
  }
}
