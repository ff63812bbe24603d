/** Runs that show what the controllers do not guarantee. */
module Witnesses {
  import opened Options
  import opened Conditions
  import opened Statuses
  import opened Bmc
  import opened Protocol
  import opened StatusInvariant
  import opened RunLog
  import Achievable

  /** A Task that has not started, with nothing in the way of running it. */
  predicate Ready(s: Sys, tk: Key) {
    && tk in s.tasks && s.tasks[tk].status == EMPTY && !s.tasks[tk].deleting
    && !NeedsSecrets(s.tasks[tk].connection) && Commands(s.tasks[tk].action) != []
    && TaskPcAt(s, tk).TIdle?
  }

  lemma CutOpens(s: Sys, tk: Key) returns (s1: Sys)
    requires Ready(s, tk)
    ensures Enabled(s, TaskStep(tk, TGet(true)))
    ensures Enabled(Next(s, TaskStep(tk, TGet(true))), TaskStep(tk, TOpen(None)))
    ensures s1 == Next(Next(s, TaskStep(tk, TGet(true))), TaskStep(tk, TOpen(None)))
    ensures s1.tasks == s.tasks && s1.log == s.log && TaskPcAt(s1, tk) == TOpened(s.tasks[tk])
  {
    var s' := Next(s, TaskStep(tk, TGet(true)));
    assert s.log + [] == s.log && TaskPcAt(s', tk) == TOpening(s.tasks[tk]);
    s1 := Next(s', TaskStep(tk, TOpen(None)));
  }

  lemma CutRuns(s: Sys, tk: Key, t: Task) returns (s1: Sys)
    requires TaskPcAt(s, tk) == TOpened(t) && t.status == EMPTY && Commands(t.action) != []
    ensures s1 == Next(s, TaskStep(tk, TNow(s.clock))) && s1.tasks == s.tasks && TaskPcAt(s1, tk).TRunning?
    ensures Runs(s1.log, tk) == Runs(s.log, tk) + 1
  {
    s1 := Next(s, TaskStep(tk, TNow(s.clock)));
    var called := RunCalled(tk, OwnerOf(tk, t), t.action);
    assert s1.log == s.log + [called];
    RunsAppend(s.log, [called], tk);
    RunsOfOne(called, tk);
  }

  lemma CutOff(s: Sys, tk: Key) returns (s1: Sys)
    requires TaskPcAt(s, tk).TRunning?
    ensures s1 == Next(s, TaskStep(tk, TCut)) && s1.tasks == s.tasks && TaskPcAt(s1, tk).TIdle?
    ensures Runs(s1.log, tk) == Runs(s.log, tk)
  {
    s1 := Next(s, TaskStep(tk, TCut));
    assert s1.log == s.log + [RunLost(tk)];
    RunsAppend(s.log, [RunLost(tk)], tk);
    RunsOfOne(RunLost(tk), tk);
  }

  /** A reconcile that is cut off after it called runTask runs the action and leaves no trace of it. */
  lemma CutRun(s0: Sys, ls: seq<Label>, tk: Key) returns (more: seq<Label>)
    requires Run(s0, ls) && Ready(After(s0, ls), tk)
    ensures Run(s0, more) && Ready(After(s0, more), tk)
    ensures Runs(After(s0, more).log, tk) == Runs(After(s0, ls).log, tk) + 1
  {
    var s := After(s0, ls);
    var l1, l2 := TaskStep(tk, TGet(true)), TaskStep(tk, TOpen(None));
    var l3, l4 := TaskStep(tk, TNow(s.clock)), TaskStep(tk, TCut);
    var s1 := CutOpens(s, tk);
    RunStep(s0, ls, l1);
    RunStep(s0, ls + [l1], l2);
    var s2 := CutRuns(s1, tk, s.tasks[tk]);
    RunStep(s0, ls + [l1] + [l2], l3);
    var s3 := CutOff(s2, tk);
    RunStep(s0, ls + [l1] + [l2] + [l3], l4);
    more := ls + [l1] + [l2] + [l3] + [l4];
  }

  /** Actions are run at least once, not at most once: for every n there is a run
      in which one Task's action is run n times. */
  lemma {:induction false} RunAnyNumberOfTimes(s0: Sys, tk: Key, action: Action, n: nat) returns (ls: seq<Label>)
    requires Initial(s0) && Commands(action) != []
    ensures Run(s0, ls) && Ready(After(s0, ls), tk) && Runs(After(s0, ls).log, tk) == n
  {
    if n == 0 {
      var l := User(CreateTask(tk, [], action, Connection("bmc", RpcSecrets(map[]))));
      RunStep(s0, [], l);
      ls := [] + [l];
    } else {
      var before := RunAnyNumberOfTimes(s0, tk, action, n - 1);
      ls := CutRun(s0, before, tk);
    }
  }

  /** A reconcile that creates a Task and then loses its patch leaves the Job's status as it was. */
  lemma CreateThenLose(s0: Sys, ls: seq<Label>, jk: Key) returns (more: seq<Label>)
    requires Run(s0, ls) && JobPcAt(After(s0, ls), jk).JCreating?
    requires
      var pc := JobPcAt(After(s0, ls), jk);
      pc.index < |pc.job.actions| && TaskKey(jk, pc.index) !in After(s0, ls).tasks
    ensures Run(s0, more) && After(s0, more).jobs == After(s0, ls).jobs
    ensures
      var pc, tasks := JobPcAt(After(s0, ls), jk), After(s0, more).tasks;
      TaskKey(jk, pc.index) in tasks && OwnerOf(TaskKey(jk, pc.index), tasks[TaskKey(jk, pc.index)]) == Some(jk)
  {
    var s, l1, l2 := After(s0, ls), JobStep(jk, JCreate(Applied, "")), JobStep(jk, JPatch(Refused));
    RunStep(s0, ls, l1);
    assert JobPcAt(Next(s, l1), jk).JPatching?;
    RunStep(s0, ls + [l1], l2);
    more := ls + [l1] + [l2];
  }

  /** A first reconcile of a new Job: fetched, marked Running, connected. */
  lemma ReachConnected(s0: Sys, jk: Key, action: Action, connection: Connection) returns (ls: seq<Label>)
    requires Initial(s0)
    ensures Run(s0, ls)
    ensures
      var s := After(s0, ls);
      && s.jobs == map[jk := Job(jk, [action], false, EMPTY)] && s.tasks == map[] && s.past == []
      && JobPcAt(s, jk).JConnected? && JobPcAt(s, jk).job == s.jobs[jk]
  {
    var l1, l2 := User(CreateJob(jk, jk, [action])), JobStep(jk, JGet(true));
    var l3, l4 := JobStep(jk, JNow(s0.clock)), JobStep(jk, JMachine(jk, Some(connection)));
    RunStep(s0, [], l1);
    var s1 := Next(s0, l1);
    RunStep(s0, [] + [l1], l2);
    var s2 := Next(s1, l2);
    assert JobPcAt(s2, jk) == JFetched(s1.jobs[jk]);
    RunStep(s0, [] + [l1] + [l2], l3);
    var s3 := Next(s2, l3);
    assert JobPcAt(s3, jk).JStarted? && JobPcAt(s3, jk).job == s1.jobs[jk];
    RunStep(s0, [] + [l1] + [l2] + [l3], l4);
    ls := [] + [l1] + [l2] + [l3] + [l4];
  }

  /** It finds no Tasks and goes on to create the first. */
  lemma ReachCreate(s0: Sys, jk: Key, action: Action, connection: Connection) returns (ls: seq<Label>)
    requires Initial(s0)
    ensures Run(s0, ls)
    ensures
      var s := After(s0, ls);
      && s.jobs == map[jk := Job(jk, [action], false, EMPTY)] && s.tasks == map[]
      && JobPcAt(s, jk).JCreating? && JobPcAt(s, jk).index == 0 && JobPcAt(s, jk).job == s.jobs[jk]
  {
    ls := ReachConnected(s0, jk, action, connection);
    var l := JobStep(jk, JList(Some(Listing(0, []))));
    RunStep(s0, ls, l);
    ls := ls + [l];
  }

  /** A Job's Running condition may lag behind its Tasks: when the patch after the
      first create is lost, the Job has a Task while its status is still empty. */
  lemma RunningMayLag(s0: Sys, jk: Key, action: Action, connection: Connection) returns (ls: seq<Label>)
    requires Initial(s0)
    ensures Run(s0, ls)
    ensures
      var s := After(s0, ls);
      && jk in s.jobs && s.jobs[jk].status == EMPTY && !Is(s.jobs[jk].status, Running)
      && TaskKey(jk, 0) in s.tasks && OwnerOf(TaskKey(jk, 0), s.tasks[TaskKey(jk, 0)]) == Some(jk)
  {
    ls := ReachCreate(s0, jk, action, connection);
    ls := CreateThenLose(s0, ls, jk);
  }

  // ---- Stale status reads ----

  /** A reconcile's status in hand: the base, or the base marked Running. */
  ghost predicate FromBase(base: Status, current: Status) {
    current.conditions == base.conditions || current.conditions == With(base, Running, None).conditions
  }

  lemma AddedTo(st: Status, t: ConditionType, message: Option<string>, other: ConditionType)
    requires !Is(st, t) && other != t
    ensures Is(With(st, t, message), t) && (Is(With(st, t, message), other) <==> Is(st, other))
    ensures With(st, t, message).conditions != st.conditions
  {
    FirstAfterSet(st.conditions, t, True, message, t);
    FirstAfterSet(st.conditions, t, True, message, other);
  }

  /** Terminal stability rests on current status reads. A reconcile goes on from a
      base that is not terminal and marks it Completed or Failed: whatever terminal
      condition is stored by then, of a Job or a Task, survives the patch if and
      only if it is of the same kind. */
  lemma StaleBaseOverwrites(stored: Status, base: Status, begun: Status, t: ConditionType, mark: ConditionType,
    message: Option<string>)
    requires t in {Completed, Failed} && mark in {Completed, Failed} && Is(stored, t)
    requires !Terminal(base) && FromBase(base, begun)
    ensures
      var after := Patched(stored, base, With(begun, mark, message));
      Is(after, mark) && (Is(after, t) <==> t == mark)
  {
    var other := if mark == Completed then Failed else Completed;
    FirstAfterSet(base.conditions, Running, True, None, Completed);
    FirstAfterSet(base.conditions, Running, True, None, Failed);
    assert !Is(begun, mark) && !Is(begun, other);
    AddedTo(begun, mark, message, other);
  }

  /** And a patch that only marks a Job Running leaves no terminal condition at all. */
  lemma StaleRunningOverwrites(stored: Status, base: Status, t: ConditionType)
    requires t in {Completed, Failed} && Is(stored, t) && !Terminal(base) && !Is(base, Running)
    ensures !Is(Patched(stored, base, With(base, Running, None)), t)
  {
    AddedTo(base, Running, None, t);
  }

  /** The Task's reconcile has fetched this earlier version of it. */
  function WithStaleGet(s: Sys, tk: Key, earlier: Task): Sys {
    s.(taskPcs := s.taskPcs[tk := AfterTaskGet(earlier)])
  }

  lemma FailOpen(s: Sys, tk: Key, t: Task) returns (s1: Sys)
    requires tk in s.tasks && TaskPcAt(s, tk) == TOpening(t)
    ensures Enabled(s, TaskStep(tk, TOpen(Some("")))) && s1 == Next(s, TaskStep(tk, TOpen(Some(""))))
    ensures s1.tasks == s.tasks
    ensures TaskPcAt(s1, tk) == TPatching(t, With(t.status, Failed, Some("Failed to connect to BMC: ")), Error)
  {
    s1 := Next(s, TaskStep(tk, TOpen(Some(""))));
    assert "Failed to connect to BMC: " + "" == "Failed to connect to BMC: ";
  }

  /** A connection that fails, and the patch that persists it. */
  lemma FailFromStale(s: Sys, tk: Key, earlier: Task) returns (more: seq<Label>)
    requires tk in s.tasks && TaskDone(s.tasks[tk].status) && TaskStarted(earlier.status)
    requires AfterTaskGet(earlier) == TOpening(earlier)
    ensures Run(WithStaleGet(s, tk, earlier), more) && tk in After(WithStaleGet(s, tk, earlier), more).tasks
    ensures
      var st := After(WithStaleGet(s, tk, earlier), more).tasks[tk].status;
      Is(st, Failed) && !Is(st, Completed)
  {
    var stale, l1, l2 := WithStaleGet(s, tk, earlier), TaskStep(tk, TOpen(Some(""))), TaskStep(tk, TPatch(Applied));
    var s1 := FailOpen(stale, tk, earlier);
    RunStep(stale, [], l1);
    RunStep(stale, [] + [l1], l2);
    more := [] + [l1] + [l2];
    StaleBaseOverwrites(s.tasks[tk].status, earlier.status, earlier.status, Completed, Failed,
      Some("Failed to connect to BMC: "));
  }

  /** A run in which a Task is Completed, and what happens if its next reconcile
      fetches it as it was earlier in that run: the Task ends Failed and no longer Completed. */
  lemma StaleReadUndoes(tk: Key, action: Action, raw: string)
    returns (s0: Sys, ls: seq<Label>, n: nat, more: seq<Label>)
    requires NoDevice !in Commands(action) && Achievable.Accepts(action, raw)
    ensures Run(s0, ls) && n <= |ls| && Run(s0, ls[..n]) && tk in After(s0, ls[..n]).tasks && tk in After(s0, ls).tasks
    ensures Initial(s0) && Is(After(s0, ls).tasks[tk].status, Completed)
    ensures
      var stale := WithStaleGet(After(s0, ls), tk, After(s0, ls[..n]).tasks[tk]);
      && Run(stale, more) && tk in After(stale, more).tasks
      && Is(After(stale, more).tasks[tk].status, Failed) && !Is(After(stale, more).tasks[tk].status, Completed)
  {
    s0 := Sys(0, map[], map[], [], map[], map[], []);
    var l := User(CreateTask(tk, [], action, Connection("bmc", RpcSecrets(map[]))));
    Achievable.One(s0, l);
    var run := Achievable.CanRun(After(s0, [l]), tk);
    Achievable.Compose(s0, [l], run);
    var confirm := Achievable.CanConfirm(After(s0, [l] + run), tk, raw);
    Achievable.Compose(s0, [l] + run, confirm);
    n := |[l] + run|;
    ls := [l] + run + confirm;
    assert ls[..n] == [l] + run;
    more := FailFromStale(After(s0, ls), tk, After(s0, [l] + run).tasks[tk]);
  }

  /** The worst of it: a Completed Task that is fetched as it was when it was new
      is run again, although its StartTime is persisted and no run was lost. It
      stays Completed, with a StartTime after its CompletionTime. */
  lemma StaleReadRunsAgain(tk: Key, action: Action, raw: string, d: nat)
    returns (s0: Sys, ls: seq<Label>, n: nat, more: seq<Label>)
    requires NoDevice !in Commands(action) && Achievable.Accepts(action, raw) && d > 0
    ensures Initial(s0) && Run(s0, ls) && n <= |ls| && Run(s0, ls[..n]) && tk in After(s0, ls[..n]).tasks
    ensures tk in After(s0, ls).tasks && TaskDone(After(s0, ls).tasks[tk].status)
    ensures
      var s := After(s0, ls);
      var stale := WithStaleGet(s, tk, After(s0, ls[..n]).tasks[tk]);
      && Run(stale, more) && tk in After(stale, more).tasks && RunAgain(s, After(stale, more), tk)
  {
    s0 := Sys(0, map[], map[], [], map[], map[], []);
    var l := User(CreateTask(tk, [], action, Connection("bmc", RpcSecrets(map[]))));
    Achievable.One(s0, l);
    var whole := Achievable.RunAndConfirm(After(s0, [l]), tk, raw);
    Achievable.Compose(s0, [l], whole);
    var wait := User(Wait(d));
    RunStep(s0, [l] + whole, wait);
    n := 1;
    ls := [l] + whole + [wait];
    assert ls[..n] == [l];
    more := RunFromStale(After(s0, ls), tk, After(s0, [l]).tasks[tk]);
  }

  /** The Task was run once more without a loss, and its status no longer coheres. */
  ghost predicate RunAgain(s: Sys, s': Sys, tk: Key)
    requires tk in s'.tasks
  {
    var st := s'.tasks[tk].status;
    && Runs(s'.log, tk) == Runs(s.log, tk) + 1 && Losses(s'.log, tk) == Losses(s.log, tk)
    && Is(st, Completed) && st.startTime.Some? && st.completionTime.Some?
      && st.startTime.value > st.completionTime.value
  }

  function NextCommand(s: Sys, tk: Key): Command
    requires TaskPcAt(s, tk).TRunning? && TaskPcAt(s, tk).issued < |Commands(TaskPcAt(s, tk).task.action)|
  {
    Commands(TaskPcAt(s, tk).task.action)[TaskPcAt(s, tk).issued]
  }

  lemma {:induction false} IssueRest(s: Sys, tk: Key) returns (ls: seq<Label>, s': Sys)
    requires TaskPcAt(s, tk).TRunning? && TaskPcAt(s, tk).issued < |Commands(TaskPcAt(s, tk).task.action)|
    requires NoDevice !in Commands(TaskPcAt(s, tk).task.action)
    ensures Run(s, ls) && s' == After(s, ls) && s'.tasks == s.tasks && s'.clock == s.clock
    ensures TaskPcAt(s', tk) == TPatching(TaskPcAt(s, tk).task, TaskPcAt(s, tk).current, Done)
    ensures Runs(s'.log, tk) == Runs(s.log, tk) && Losses(s'.log, tk) == Losses(s.log, tk)
    decreases |Commands(TaskPcAt(s, tk).task.action)| - TaskPcAt(s, tk).issued
  {
    var l := TaskStep(tk, TCommand(NextCommand(s, tk), None));
    var s1 := CommandStep(s, tk);
    Achievable.One(s, l);
    ls, s' := [l], s1;
    if s1.taskPcs[tk].TRunning? {
      var more, last := IssueRest(s1, tk);
      Achievable.Compose(s, [l], more);
      ls, s' := [l] + more, last;
    }
  }

  lemma CommandStep(s: Sys, tk: Key) returns (s1: Sys)
    requires TaskPcAt(s, tk).TRunning? && TaskPcAt(s, tk).issued < |Commands(TaskPcAt(s, tk).task.action)|
    requires NextCommand(s, tk) != NoDevice
    ensures s1 == Next(s, TaskStep(tk, TCommand(NextCommand(s, tk), None)))
    ensures s1.tasks == s.tasks && s1.clock == s.clock
    ensures tk in s1.taskPcs
    ensures s1.taskPcs[tk] == TaskCommandEffect(tk, TaskPcAt(s, tk), None).pc
    ensures Runs(s1.log, tk) == Runs(s.log, tk) && Losses(s1.log, tk) == Losses(s.log, tk)
  {
    s1 := Next(s, TaskStep(tk, TCommand(NextCommand(s, tk), None)));
    NotRunLogged(s.log, TaskCommandEffect(tk, TaskPcAt(s, tk), None).events, tk);
  }

  lemma {:induction false} NotRunLogged(log: seq<Event>, events: seq<Event>, tk: Key)
    requires forall e :: e in events ==> !e.RunCalled? && !e.RunLost?
    ensures Runs(log + events, tk) == Runs(log, tk) && Losses(log + events, tk) == Losses(log, tk)
    decreases |events|
  {
    if events == [] {
      assert log + events == log;
    } else {
      var front := events[..|events| - 1];
      assert events[|events| - 1] in events;
      NotRunLogged(log, front, tk);
      assert (log + events)[..|log + events| - 1] == log + front;
    }
  }

  /** The clock is read for a Task that looks new: runTask is called. */
  lemma StartStep(s: Sys, tk: Key, t: Task) returns (s1: Sys)
    requires TaskPcAt(s, tk) == TOpened(t) && t.status == EMPTY
    ensures s1 == Next(s, TaskStep(tk, TNow(s.clock))) && s1.tasks == s.tasks && s1.clock == s.clock
    ensures TaskPcAt(s1, tk) == TaskOpenedEffect(tk, t, s.clock).pc
    ensures Runs(s1.log, tk) == Runs(s.log, tk) + 1 && Losses(s1.log, tk) == Losses(s.log, tk)
  {
    s1 := Next(s, TaskStep(tk, TNow(s.clock)));
    var called := RunCalled(tk, OwnerOf(tk, t), t.action);
    var rest := if Commands(t.action) == [] then [RunReturned(tk)] else [];
    assert s1.log == s.log + [called] + rest;
    RunsAppend(s.log, [called], tk);
    RunsOfOne(called, tk);
    NotRunLogged(s.log + [called], rest, tk);
  }

  lemma OpenStep(s: Sys, tk: Key, t: Task) returns (s1: Sys)
    requires TaskPcAt(s, tk) == TOpening(t)
    ensures s1 == Next(s, TaskStep(tk, TOpen(None))) && s1.tasks == s.tasks && s1.clock == s.clock && s1.log == s.log
    ensures TaskPcAt(s1, tk) == TOpened(t)
  {
    s1 := Next(s, TaskStep(tk, TOpen(None)));
    assert s.log + [] == s.log;
  }

  /** The patch against the empty base touches the StartTime alone. */
  lemma PatchStep(s: Sys, tk: Key, earlier: Task, now: Time) returns (s1: Sys)
    requires tk in s.tasks && earlier.status == EMPTY
    requires TaskPcAt(s, tk) == TPatching(earlier, Status([], Some(now), None), Done)
    ensures s1 == Next(s, TaskStep(tk, TPatch(Applied))) && s1.log == s.log && tk in s1.tasks
    ensures s1.tasks[tk].status == s.tasks[tk].status.(startTime := Some(now))
  {
    s1 := Next(s, TaskStep(tk, TPatch(Applied)));
    assert s.log + [] == s.log;
  }

  /** From the open connection to the patch. */
  lemma RunFromOpened(s: Sys, tk: Key, t: Task) returns (ls: seq<Label>, s': Sys)
    requires TaskPcAt(s, tk) == TOpened(t) && t.status == EMPTY && NoDevice !in Commands(t.action)
    ensures Run(s, ls) && s' == After(s, ls) && s'.tasks == s.tasks && s'.clock == s.clock
    ensures TaskPcAt(s', tk) == TPatching(t, Status([], Some(s.clock), None), Done)
    ensures Runs(s'.log, tk) == Runs(s.log, tk) + 1 && Losses(s'.log, tk) == Losses(s.log, tk)
  {
    var s1 := StartStep(s, tk, t);
    Achievable.One(s, TaskStep(tk, TNow(s.clock)));
    ls, s' := [TaskStep(tk, TNow(s.clock))], s1;
    if Commands(t.action) != [] {
      var rest, last := IssueRest(s1, tk);
      Achievable.Compose(s, ls, rest);
      ls, s' := ls + rest, last;
    }
  }

  lemma RunFromStale(s: Sys, tk: Key, earlier: Task) returns (more: seq<Label>)
    requires tk in s.tasks && TaskDone(s.tasks[tk].status) && s.tasks[tk].status.completionTime.value < s.clock
    requires earlier.status == EMPTY && AfterTaskGet(earlier) == TOpening(earlier)
    requires NoDevice !in Commands(earlier.action)
    ensures
      var stale := WithStaleGet(s, tk, earlier);
      Run(stale, more) && tk in After(stale, more).tasks && RunAgain(s, After(stale, more), tk)
  {
    var stale, open, patch := WithStaleGet(s, tk, earlier), TaskStep(tk, TOpen(None)), TaskStep(tk, TPatch(Applied));
    var s1 := OpenStep(stale, tk, earlier);
    Achievable.One(stale, open);
    var run, s2 := RunFromOpened(s1, tk, earlier);
    Achievable.Compose(stale, [open], run);
    var s3 := PatchStep(s2, tk, earlier, s.clock);
    RunStep(stale, [open] + run, patch);
    more := [open] + run + [patch];
  }

  // ---- A late reading ----

  /** The run up to the poll of a Task that has just started. */
  lemma ReachPoll(tk: Key, action: Action) returns (s0: Sys, ls: seq<Label>)
    requires NoDevice !in Commands(action) && action.power.Some?
    ensures Initial(s0) && Run(s0, ls) && s0.clock == 0 && After(s0, ls).clock == 0 && tk in After(s0, ls).tasks
    ensures
      var s := After(s0, ls);
      && s.tasks[tk].action == action && TaskStarted(s.tasks[tk].status) && s.tasks[tk].status.startTime == Some(0)
      && TaskPcAt(s, tk) == TPolling(s.tasks[tk], 0)
  {
    s0 := Sys(0, map[], map[], [], map[], map[], []);
    var l := User(CreateTask(tk, [], action, Connection("bmc", RpcSecrets(map[]))));
    Achievable.One(s0, l);
    var run := Achievable.CanRun(After(s0, [l]), tk);
    Achievable.Compose(s0, [l], run);
    var s := After(s0, [l] + run);
    var open := Achievable.OpenTask(s, tk);
    var poll := Achievable.ReadClock(s, open, tk, s.tasks[tk]);
    Achievable.Compose(s0, [l] + run, poll);
    ls := [l] + run + poll;
  }

  /** Ten minutes bound the reading of the clock, not the reading of the BMC: for
      every d there is a run in which a Task is Completed on a reading taken d
      after its StartTime. */
  lemma CompletesLate(tk: Key, action: Action, raw: string, d: nat) returns (s0: Sys, ls: seq<Label>, more: seq<Label>)
    requires NoDevice !in Commands(action) && action.power.Some? && Achievable.Accepts(action, raw)
    ensures Initial(s0) && Run(s0, ls) && Run(s0, ls + [TaskStep(tk, TPower(Some(raw)))] + more)
    ensures tk in After(s0, ls).tasks && TaskStarted(After(s0, ls).tasks[tk].status)
    ensures After(s0, ls).clock == After(s0, ls).tasks[tk].status.startTime.value + d
    ensures
      var s, s' := After(s0, ls), After(s0, ls + [TaskStep(tk, TPower(Some(raw)))] + more);
      && tk in s'.tasks && Is(s'.tasks[tk].status, Completed)
      && s'.tasks[tk].status.startTime == s.tasks[tk].status.startTime
        && s'.tasks[tk].status.completionTime == Some(s.clock)
  {
    var way: seq<Label>;
    s0, way := ReachPoll(tk, action);
    RunStep(s0, way, User(Wait(d)));
    ls := way + [User(Wait(d))];
    var s := After(s0, ls);
    var t := s.tasks[tk];
    var power := Achievable.PollTask(s, [], tk, t, 0, raw);
    var finish := Achievable.FinishTask(s, power, tk, t, 0);
    Achievable.Compose(s0, ls, finish);
    more := [TaskStep(tk, TNow(s.clock))] + [TaskStep(tk, TPatch(Applied))];
    assert ls + finish == ls + [TaskStep(tk, TPower(Some(raw)))] + more;
  }
}
