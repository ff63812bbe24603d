/** Reading the log of a run: how often an action was run, how often a run was
    forgotten, and what a Task's status is evidence of. */
module RunLog {
  import opened Options
  import opened Statuses
  import opened Bmc
  import opened Protocol
  import opened StatusInvariant
  import TaskStory

  /** Calls of runTask for a Task. */
  function Runs(log: seq<Event>, tk: Key): nat {
    if log == [] then 0
    else
      var e := log[|log| - 1];
      Runs(log[..|log| - 1], tk) + if e.RunCalled? && e.task == tk then 1 else 0
  }

  /** Runs of a Task whose status patch was refused or never sent. */
  function Losses(log: seq<Event>, tk: Key): nat {
    if log == [] then 0
    else
      var e := log[|log| - 1];
      Losses(log[..|log| - 1], tk) + if e.RunLost? && e.task == tk then 1 else 0
  }

  /** The actions run for a Job, in order. */
  function ActionsRun(log: seq<Event>, jk: Key): seq<Action> {
    if log == [] then []
    else
      var e := log[|log| - 1];
      ActionsRun(log[..|log| - 1], jk) + if e.RunCalled? && e.owner == Some(jk) then [e.action] else []
  }

  /** The commands that succeeded since runTask was last called for a Task. */
  function CommandsSince(log: seq<Event>, tk: Key): seq<Command> {
    if log == [] then []
    else
      var e, before := log[|log| - 1], log[..|log| - 1];
      if e.RunCalled? && e.task == tk then []
      else CommandsSince(before, tk) + if e.Commanded? && e.task == tk && e.ok then [e.command] else []
  }

  /** The status checks made of a Task, in order. */
  function Sightings(log: seq<Event>, tk: Key): (r: seq<Event>)
    ensures forall e :: e in r ==> e.Checked? && e.task == tk
  {
    if log == [] then []
    else
      var e := log[|log| - 1];
      Sightings(log[..|log| - 1], tk) + if e.Checked? && e.task == tk then [e] else []
  }

  /** At position i a run of the Task returned without error, having issued
      every command of its action, in order. */
  ghost predicate ReturnedAt(log: seq<Event>, tk: Key, action: Action, i: nat) {
    i < |log| && log[i] == RunReturned(tk) && CommandsSince(log[..i], tk) == Commands(action)
  }

  ghost predicate Returned(log: seq<Event>, tk: Key, action: Action) {
    exists i: nat :: ReturnedAt(log, tk, action, i)
  }

  /** At position j a status check passed: its sample of the clock was within ten
      minutes of the StartTime, and for a power action its reading, taken then or
      later, shows the state it asked for. */
  ghost predicate ConfirmedAt(log: seq<Event>, tk: Key, action: Action, st: Status, j: nat) {
    && j < |log| && log[j].Checked? && log[j].task == tk && log[j].met
    && InTime(st, log[j].sampled)
    && (action.power.Some? ==> log[j].reading.Some? && TaskStory.Shows(action.power.value, log[j].reading.value))
  }

  ghost predicate Confirmed(log: seq<Event>, tk: Key, action: Action, st: Status) {
    exists i: nat, j: nat :: i < j && ReturnedAt(log, tk, action, i) && ConfirmedAt(log, tk, action, st, j)
  }

  // ---- Appending ----

  lemma {:induction false} RunsAppend(log: seq<Event>, events: seq<Event>, tk: Key)
    ensures Runs(log + events, tk) == Runs(log, tk) + Runs(events, tk)
    ensures Losses(log + events, tk) == Losses(log, tk) + Losses(events, tk)
  {
    if events == [] {
      assert log + events == log;
    } else {
      assert (log + events)[..|log + events| - 1] == log + events[..|events| - 1];
      RunsAppend(log, events[..|events| - 1], tk);
    }
  }

  lemma {:induction false} SightingsAppend(log: seq<Event>, events: seq<Event>, tk: Key)
    ensures Sightings(log + events, tk) == Sightings(log, tk) + Sightings(events, tk)
  {
    if events == [] {
      assert log + events == log;
    } else {
      assert (log + events)[..|log + events| - 1] == log + events[..|events| - 1];
      SightingsAppend(log, events[..|events| - 1], tk);
    }
  }

  lemma {:induction false} NoSightings(events: seq<Event>, tk: Key)
    requires forall e :: e in events ==> !e.Checked? || e.task != tk
    ensures Sightings(events, tk) == []
  {
    if events != [] {
      assert events[|events| - 1] in events;
      NoSightings(events[..|events| - 1], tk);
    }
  }

  lemma RunsOfOne(e: Event, tk: Key)
    ensures Runs([e], tk) == (if e.RunCalled? && e.task == tk then 1 else 0)
    ensures Losses([e], tk) == (if e.RunLost? && e.task == tk then 1 else 0)
  {
    assert [e][..0] == [];
  }

  lemma {:induction false} ActionsRunAppend(log: seq<Event>, events: seq<Event>, jk: Key)
    ensures ActionsRun(log + events, jk) == ActionsRun(log, jk) + ActionsRun(events, jk)
  {
    if events == [] {
      assert log + events == log;
    } else {
      assert (log + events)[..|log + events| - 1] == log + events[..|events| - 1];
      ActionsRunAppend(log, events[..|events| - 1], jk);
    }
  }

  lemma CommandsSinceStep(log: seq<Event>, e: Event, tk: Key)
    ensures CommandsSince(log + [e], tk) ==
      if e.RunCalled? && e.task == tk then []
      else if e.Commanded? && e.task == tk && e.ok then CommandsSince(log, tk) + [e.command]
      else CommandsSince(log, tk)
  {
    assert (log + [e])[..|log|] == log;
  }

  lemma {:induction false} CommandsSinceAside(log: seq<Event>, events: seq<Event>, tk: Key)
    requires forall e :: e in events ==> e.CreateFailed? || e.task != tk
    ensures CommandsSince(log + events, tk) == CommandsSince(log, tk)
    decreases |events|
  {
    if events == [] {
      assert log + events == log;
    } else {
      var front := events[..|events| - 1];
      assert log + events == (log + front) + [events[|events| - 1]];
      CommandsSinceStep(log + front, events[|events| - 1], tk);
      CommandsSinceAside(log, front, tk);
    }
  }

  /** Evidence does not go away as the log grows. */
  lemma EvidenceKept(log: seq<Event>, later: seq<Event>, tk: Key, action: Action, st: Status)
    requires log <= later
    ensures Returned(log, tk, action) ==> Returned(later, tk, action)
    ensures Confirmed(log, tk, action, st) ==> Confirmed(later, tk, action, st)
  {
    forall i: nat | ReturnedAt(log, tk, action, i)
      ensures ReturnedAt(later, tk, action, i)
    {
      assert later[..i] == log[..i];
    }
    if Confirmed(log, tk, action, st) {
      var i: nat, j: nat :| i < j && ReturnedAt(log, tk, action, i) && ConfirmedAt(log, tk, action, st, j);
      assert ReturnedAt(later, tk, action, i) && ConfirmedAt(later, tk, action, st, j);
    }
  }

  lemma ReturnedNow(log: seq<Event>, tk: Key, action: Action)
    requires CommandsSince(log, tk) == Commands(action)
    ensures Returned(log + [RunReturned(tk)], tk, action)
  {
    assert (log + [RunReturned(tk)])[..|log|] == log;
    assert ReturnedAt(log + [RunReturned(tk)], tk, action, |log|);
  }

  lemma ConfirmedNow(log: seq<Event>, tk: Key, action: Action, st: Status, e: Event)
    requires Returned(log, tk, action) && ConfirmedAt([e], tk, action, st, 0)
    ensures Confirmed(log + [e], tk, action, st)
  {
    var i: nat :| ReturnedAt(log, tk, action, i);
    assert (log + [e])[..i] == log[..i];
    assert ReturnedAt(log + [e], tk, action, i) && ConfirmedAt(log + [e], tk, action, st, |log|);
  }
}

/** What the log and the store agree on in every reachable state. */
module LogInvariant {
  import opened Options
  import opened Statuses
  import opened Bmc
  import opened Protocol
  import Shapes = StatusInvariant
  import opened StatusInvariant
  import opened RunLog
  import TaskStory

  /** Every run is accounted for: it was lost, or its StartTime is persisted, or
      its reconcile is still in flight. */
  ghost predicate Accounted(s: Sys, tk: Key) {
    && Runs(s.log, tk) == Losses(s.log, tk)
         + (if tk in s.tasks && s.tasks[tk].status.startTime.Some? then 1 else 0)
         + (if RunPending(TaskPcAt(s, tk)) then 1 else 0)
    && (tk !in s.tasks ==> Runs(s.log, tk) == 0)
  }

  ghost predicate Evident(log: seq<Event>, tk: Key, action: Action, st: Status) {
    && (TaskStarted(st) ==> Returned(log, tk, action))
    && (TaskDone(st) ==> Confirmed(log, tk, action, st))
  }

  ghost predicate PcEvident(log: seq<Event>, tk: Key, pc: TaskPc) {
    match pc
    case TConfirmed(t, _) => Confirmed(log, tk, t.action, t.status)
    case TRunning(t, _, i) => i <= |Commands(t.action)| && CommandsSince(log, tk) == Commands(t.action)[..i]
    case TPatching(t, current, _) => Evident(log, tk, t.action, current)
    case _ => true
  }

  ghost predicate Inv(s: Sys) {
    && Shapes.Inv(s)
    && (forall tk :: Accounted(s, tk))
    && (forall tk :: tk in s.tasks ==> Evident(s.log, tk, s.tasks[tk].action, s.tasks[tk].status))
    && (forall tk :: PcEvident(s.log, tk, TaskPcAt(s, tk)))
  }

  // ---- Task steps ----

  /** The runs and losses that one or two events stand for. */
  lemma CountsOfFew(events: seq<Event>, k: Key)
    requires |events| <= 2
    ensures Runs(events, k) == (if |events| > 0 && events[0].RunCalled? && events[0].task == k then 1 else 0)
      + (if |events| > 1 && events[1].RunCalled? && events[1].task == k then 1 else 0)
    ensures Losses(events, k) == (if |events| > 0 && events[0].RunLost? && events[0].task == k then 1 else 0)
      + (if |events| > 1 && events[1].RunLost? && events[1].task == k then 1 else 0)
  {
    if |events| > 0 {
      RunsOfOne(events[0], k);
      if |events| == 1 {
        assert events == [events[0]];
      } else {
        RunsOfOne(events[1], k);
        RunsAppend([events[0]], [events[1]], k);
        assert events == [events[0]] + [events[1]];
      }
    }
  }

  /** The runs and losses a step logs for its own Task and for any other. */
  lemma TaskStepCounts(s: Sys, tk: Key, m: TaskMove, k: Key)
    requires TaskEnabled(s, tk, m) && TaskPcOk(s.tasks, tk, TaskPcAt(s, tk), s.clock)
    ensures
      var e := TaskEffectOf(s, tk, m);
      if k != tk then Runs(e.events, k) == 0 && Losses(e.events, k) == 0
      else
        var before := if RunPending(TaskPcAt(s, tk)) then 1 else 0;
        var after := if RunPending(e.pc) then 1 else 0;
        var persisted := if e.write.Some? then before else 0;
        Runs(e.events, k) + before == Losses(e.events, k) + after + persisted
  {
    CountsOfFew(TaskEffectOf(s, tk, m).events, k);
  }

  lemma TaskStepAccounted(s: Sys, tk: Key, m: TaskMove, k: Key)
    requires Inv(s) && TaskEnabled(s, tk, m)
    ensures Accounted(Next(s, TaskStep(tk, m)), k)
  {
    var e := TaskEffectOf(s, tk, m);
    var pc := TaskPcAt(s, tk);
    assert Accounted(s, k) && TaskPcOk(s.tasks, tk, pc, s.clock);
    TaskStepShape(s, tk, m);
    TaskStepCounts(s, tk, m, k);
    RunsAppend(s.log, e.events, k);
  }

  lemma ConfirmedSameStart(log: seq<Event>, tk: Key, action: Action, st: Status, st': Status)
    requires Confirmed(log, tk, action, st) && st'.startTime == st.startTime
    ensures Confirmed(log, tk, action, st')
  {
    var i: nat, j: nat :| i < j && ReturnedAt(log, tk, action, i) && ConfirmedAt(log, tk, action, st, j);
    assert ConfirmedAt(log, tk, action, st', j);
  }

  /** Starting a run: the log restarts the Task's command list. */
  lemma OpenedEvident(s: Sys, tk: Key, t: Task)
    requires Evident(s.log, tk, t.action, t.status) && TaskStatusOk(t.status, s.clock)
    requires TaskFresh(t.status) || TaskStarted(t.status)
    ensures
      var e := TaskOpenedEffect(tk, t, s.clock);
      PcEvident(s.log + e.events, tk, e.pc)
  {
    var e := TaskOpenedEffect(tk, t, s.clock);
    if t.status.startTime.None? {
      var called := e.events[0];
      CommandsSinceStep(s.log, called, tk);
      if Commands(t.action) == [] {
        ReturnedNow(s.log + [called], tk, t.action);
        assert s.log + e.events == (s.log + [called]) + [RunReturned(tk)];
      } else {
        assert s.log + e.events == s.log + [called];
      }
    } else if e.pc.TConfirmed? {
      ConfirmedNow(s.log, tk, t.action, t.status, e.events[0]);
      assert s.log + e.events == s.log + [e.events[0]];
    }
  }

  lemma OneMore(commands: seq<Command>, i: nat)
    requires i < |commands|
    ensures commands[..i + 1] == commands[..i] + [commands[i]]
    ensures i + 1 == |commands| ==> commands[..i + 1] == commands
  {
  }

  /** One more command of a run, in the log. */
  lemma CommandLogged(log: seq<Event>, tk: Key, action: Action, issued: nat)
    requires issued < |Commands(action)| && CommandsSince(log, tk) == Commands(action)[..issued]
    ensures
      var event := Commanded(tk, Commands(action)[issued], true);
      && CommandsSince(log + [event], tk) == Commands(action)[..issued + 1]
      && (issued + 1 == |Commands(action)| ==> Returned(log + [event, RunReturned(tk)], tk, action))
  {
    var event := Commanded(tk, Commands(action)[issued], true);
    CommandsSinceStep(log, event, tk);
    OneMore(Commands(action), issued);
    if issued + 1 == |Commands(action)| {
      ReturnedNow(log + [event], tk, action);
      assert log + [event, RunReturned(tk)] == (log + [event]) + [RunReturned(tk)];
    }
  }

  lemma CommandEvident(log: seq<Event>, tk: Key, pc: TaskPc, error: Option<string>)
    requires pc.TRunning? && pc.issued < |Commands(pc.task.action)| && TaskStarted(pc.current)
    requires PcEvident(log, tk, pc)
    ensures
      var e := TaskCommandEffect(tk, pc, error);
      PcEvident(log + e.events, tk, e.pc)
  {
    if error.None? {
      CommandLogged(log, tk, pc.task.action, pc.issued);
    }
  }

  lemma TaskStepPcEvident(s: Sys, tk: Key, m: TaskMove)
    requires Inv(s) && TaskEnabled(s, tk, m)
    ensures
      var e := TaskEffectOf(s, tk, m);
      PcEvident(s.log + e.events, tk, e.pc)
  {
    var pc := TaskPcAt(s, tk);
    assert TaskPcOk(s.tasks, tk, pc, s.clock) && PcEvident(s.log, tk, pc);
    assert !pc.TIdle? ==> Evident(s.log, tk, pc.task.action, pc.task.status);
    match m
    case TNow(_) =>
      if pc.TOpened? {
        OpenedEvident(s, tk, pc.task);
      } else {
        var e := TaskEffectOf(s, tk, m);
        assert s.log + e.events == s.log;
        ConfirmedSameStart(s.log, tk, pc.task.action, pc.task.status, e.pc.current);
      }
    case TCommand(_, error) =>
      CommandEvident(s.log, tk, pc, error);
    case TPower(Some(raw)) =>
      var e := TaskEffectOf(s, tk, m);
      TaskStory.ShowsIsMeets(pc.task.action.power.value, raw);
      if e.pc.TConfirmed? {
        assert s.log + e.events == s.log + [e.events[0]];
        ConfirmedNow(s.log, tk, pc.task.action, pc.task.status, e.events[0]);
      }
    case _ =>
  }

  lemma PcEvidentKept(log: seq<Event>, events: seq<Event>, tk: Key, pc: TaskPc)
    requires PcEvident(log, tk, pc)
    requires forall e :: e in events ==> e.CreateFailed? || e.task != tk
    ensures PcEvident(log + events, tk, pc)
  {
    match pc
    case TConfirmed(t, _) => EvidenceKept(log, log + events, tk, t.action, t.status);
    case TRunning(_, _, _) => CommandsSinceAside(log, events, tk);
    case TPatching(t, current, _) => EvidenceKept(log, log + events, tk, t.action, current);
    case _ =>
  }

  lemma TaskStepLogged(s: Sys, tk: Key, m: TaskMove)
    requires Inv(s) && TaskEnabled(s, tk, m)
    ensures Inv(Next(s, TaskStep(tk, m)))
  {
    var s' := Next(s, TaskStep(tk, m));
    var e := TaskEffectOf(s, tk, m);
    TaskStepKeeps(s, tk, m);
    TaskStepShape(s, tk, m);
    assert TaskPcOk(s.tasks, tk, TaskPcAt(s, tk), s.clock) && PcEvident(s.log, tk, TaskPcAt(s, tk));
    forall k {
      TaskStepAccounted(s, tk, m, k);
    }
    forall k | k in s'.tasks
      ensures Evident(s'.log, k, s'.tasks[k].action, s'.tasks[k].status)
    {
      EvidenceKept(s.log, s'.log, k, s'.tasks[k].action, s'.tasks[k].status);
    }
    forall k
      ensures PcEvident(s'.log, k, TaskPcAt(s', k))
    {
      if k == tk {
        TaskStepPcEvident(s, tk, m);
      } else {
        TaskEventsAbout(s, tk, m);
        PcEvidentKept(s.log, e.events, k, TaskPcAt(s, k));
      }
    }
  }

  lemma TaskEventsAbout(s: Sys, tk: Key, m: TaskMove)
    requires TaskEnabled(s, tk, m)
    ensures forall e :: e in TaskEffectOf(s, tk, m).events ==> !e.CreateFailed? && e.task == tk
  {
  }

  // ---- Other steps ----

  /** Steps that touch no started Task and log no Task event. */
  lemma OtherStepLogged(s: Sys, s': Sys, events: seq<Event>)
    requires Inv(s) && Shapes.Inv(s') && s'.taskPcs == s.taskPcs && s'.log == s.log + events
    requires forall e :: e in events ==> e.CreateFailed?
    requires forall tk :: tk in s.tasks ==>
      tk in s'.tasks && s'.tasks[tk].action == s.tasks[tk].action && s'.tasks[tk].status == s.tasks[tk].status
    requires forall tk :: tk in s'.tasks && tk !in s.tasks ==> TaskFresh(s'.tasks[tk].status)
    ensures Inv(s')
  {
    forall k
      ensures Accounted(s', k)
    {
      assert Accounted(s, k) && TaskPcOk(s.tasks, k, TaskPcAt(s, k), s.clock);
      NoRuns(events, k);
      RunsAppend(s.log, events, k);
    }
    forall k | k in s'.tasks
      ensures Evident(s'.log, k, s'.tasks[k].action, s'.tasks[k].status)
    {
      EvidenceKept(s.log, s'.log, k, s'.tasks[k].action, s'.tasks[k].status);
    }
    forall k
      ensures PcEvident(s'.log, k, TaskPcAt(s', k))
    {
      PcEvidentKept(s.log, events, k, TaskPcAt(s, k));
    }
  }

  lemma {:induction false} NoRuns(events: seq<Event>, k: Key)
    requires forall e :: e in events ==> e.CreateFailed?
    ensures Runs(events, k) == 0 && Losses(events, k) == 0
  {
    if events != [] {
      assert events[|events| - 1] in events;
      NoRuns(events[..|events| - 1], k);
    }
  }

  lemma UserStepLogged(s: Sys, m: UserMove)
    requires Inv(s) && UserEnabled(s, m)
    ensures Inv(Next(s, User(m)))
  {
    UserStepKeeps(s, m);
    assert s.log + [] == s.log;
    OtherStepLogged(s, Next(s, User(m)), []);
  }

  lemma JobStepLogged(s: Sys, jk: Key, m: JobMove)
    requires Inv(s) && JobEnabled(s, jk, m)
    ensures Inv(Next(s, JobStep(jk, m)))
  {
    JobStepKeeps(s, jk, m);
    JobStepShape(s, jk, m);
    OtherStepLogged(s, Next(s, JobStep(jk, m)), JobEffectOf(s, jk, m).events);
  }

  /** The invariant holds in every state of every run. */
  lemma {:induction false} Always(s0: Sys, ls: seq<Label>)
    requires Initial(s0) && Run(s0, ls)
    ensures Inv(After(s0, ls))
  {
    if ls != [] {
      var s, l := After(s0, ls[..|ls| - 1]), ls[|ls| - 1];
      Always(s0, ls[..|ls| - 1]);
      match l {
        case User(m) => UserStepLogged(s, m);
        case JobStep(jk, m) => JobStepLogged(s, jk, m);
        case TaskStep(tk, m) => TaskStepLogged(s, tk, m);
      }
    }
  }
}
