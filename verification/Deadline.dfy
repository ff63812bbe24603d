/** The ten-minute deadline of a Task and the polls it allows. */
module Deadline {
  import opened Options
  import opened Statuses
  import opened Bmc
  import opened Protocol
  import opened StatusInvariant
  import opened OrderInvariant
  import opened OrderPreserved
  import Shapes = StatusInvariant
  import Achievable
  import TaskStory

  /** Every status check sampled the clock in [StartTime, StartTime + 10 minutes). */
  ghost predicate ChecksInTime(log: seq<Event>, tasks: TaskStore) {
    forall i :: 0 <= i < |log| && log[i].Checked? ==>
      log[i].task in tasks && InTime(tasks[log[i].task].status, log[i].sampled)
  }

  lemma TaskEventsInTime(s: Sys, tk: Key, m: TaskMove)
    requires Shapes.Inv(s) && TaskEnabled(s, tk, m)
    ensures ChecksInTime(TaskEffectOf(s, tk, m).events, s.tasks)
  {
    assert TaskPcOk(s.tasks, tk, TaskPcAt(s, tk), s.clock);
  }

  lemma ChecksKept(s: Sys, s': Sys, events: seq<Event>)
    requires ChecksInTime(s.log, s.tasks) && ChecksInTime(events, s.tasks) && s'.log == s.log + events
    requires Older(s.tasks, s'.tasks)
    ensures ChecksInTime(s'.log, s'.tasks)
  {
    forall i | 0 <= i < |s'.log| && s'.log[i].Checked?
      ensures s'.log[i].task in s'.tasks && InTime(s'.tasks[s'.log[i].task].status, s'.log[i].sampled)
    {
      if i >= |s.log| {
        assert events[i - |s.log|] == s'.log[i];
      }
    }
  }

  lemma {:induction false} Always(s0: Sys, ls: seq<Label>)
    requires Initial(s0) && Run(s0, ls)
    ensures ChecksInTime(After(s0, ls).log, After(s0, ls).tasks)
  {
    if ls != [] {
      var s, l := After(s0, ls[..|ls| - 1]), ls[|ls| - 1];
      Always(s0, ls[..|ls| - 1]);
      Shapes.Always(s0, ls[..|ls| - 1]);
      match l {
        case User(m) =>
          UserStepGrows(s, m);
          ChecksKept(s, Next(s, l), []);
        case JobStep(jk, m) =>
          JobStepGrows(s, jk, m);
          ChecksKept(s, Next(s, l), JobEffectOf(s, jk, m).events);
        case TaskStep(tk, m) =>
          TaskStepGrows(s, tk, m);
          TaskEventsInTime(s, tk, m);
          ChecksKept(s, Next(s, l), TaskEffectOf(s, tk, m).events);
      }
    }
  }

  // ---- Polls ----

  /** When the polls that asked to be requeued sampled the clock. */
  function Requeues(log: seq<Event>, tk: Key): seq<Time> {
    if log == [] then []
    else
      var e := log[|log| - 1];
      Requeues(log[..|log| - 1], tk) + if e.Checked? && e.task == tk && !e.met then [e.sampled] else []
  }

  ghost predicate Spaced(polls: seq<Time>) {
    forall i :: 0 <= i < |polls| - 1 ==> polls[i] + 3_000_000_000 <= polls[i + 1]
  }

  lemma {:induction false} RequeuesInTime(log: seq<Event>, tasks: TaskStore, tk: Key)
    requires ChecksInTime(log, tasks)
    ensures forall t :: t in Requeues(log, tk) ==> tk in tasks && InTime(tasks[tk].status, t)
  {
    if log != [] {
      var front := log[..|log| - 1];
      forall i | 0 <= i < |front| && front[i].Checked?
        ensures front[i].task in tasks && InTime(tasks[front[i].task].status, front[i].sampled)
      {
        assert front[i] == log[i];
      }
      RequeuesInTime(front, tasks, tk);
    }
  }

  lemma {:induction false} SpacedSpan(polls: seq<Time>)
    requires Spaced(polls) && polls != []
    ensures polls[0] + (|polls| - 1) * 3_000_000_000 <= polls[|polls| - 1]
  {
    if |polls| > 1 {
      var front := polls[..|polls| - 1];
      SpacedSpan(front);
      assert front[|front| - 1] + 3_000_000_000 <= polls[|polls| - 1];
    }
  }

  lemma SpacedCount(polls: seq<Time>, start: Time)
    requires Spaced(polls) && forall t :: t in polls ==> start <= t < start + 600_000_000_000
    ensures |polls| <= 200
  {
    if polls != [] {
      SpacedSpan(polls);
      assert polls[0] in polls && polls[|polls| - 1] in polls;
    }
  }

  // ---- Polls, by the calls ----

  /** The last time the clock was read for a Task. */
  ghost function LastNow(ls: seq<Label>, tk: Key): Time {
    if ls == [] then 0
    else
      var l := ls[|ls| - 1];
      if l.TaskStep? && l.task == tk && l.taskMove.TNow? then l.taskMove.now else LastNow(ls[..|ls| - 1], tk)
  }

  /** The last step got a power reading, and its reconcile asked to be requeued after three seconds. */
  ghost predicate AsksAgain(s0: Sys, ls: seq<Label>, tk: Key)
    requires Run(s0, ls) && ls != []
  {
    var l := ls[|ls| - 1];
    && l.TaskStep? && l.task == tk && l.taskMove.TPower? && l.taskMove.reading.Some?
    && TaskPcAt(After(s0, ls), tk) == TIdle(Requeue(3_000_000_000))
  }

  /** When the polls that asked for another read the clock. */
  ghost function PollTimes(s0: Sys, ls: seq<Label>, tk: Key): seq<Time>
    requires Run(s0, ls)
  {
    if ls == [] then []
    else PollTimes(s0, ls[..|ls| - 1], tk) + if AsksAgain(s0, ls, tk) then [LastNow(ls[..|ls| - 1], tk)] else []
  }

  lemma {:induction false} LastNowIs(ls: seq<Label>, tk: Key, now: Time)
    requires Own(ls, TaskActor(tk)) != []
    requires
      var own := Own(ls, TaskActor(tk));
      own[|own| - 1] == TaskStep(tk, TNow(now))
    ensures LastNow(ls, tk) == now
  {
    var front, l := ls[..|ls| - 1], ls[|ls| - 1];
    if ActorOf(l) == Some(TaskActor(tk)) {
      assert Own(ls, TaskActor(tk)) == Own(front, TaskActor(tk)) + [l];
    } else {
      assert Own(ls, TaskActor(tk)) == Own(front, TaskActor(tk)) + [];
      LastNowIs(front, tk, now);
    }
  }

  lemma SegmentEnds(own: seq<Label>)
    requires own != []
    ensures TaskStory.Segment(own) != []
    ensures TaskStory.Segment(own)[|TaskStory.Segment(own)| - 1] == own[|own| - 1]
  {
  }

  lemma PollSampled(s0: Sys, ls: seq<Label>, tk: Key)
    requires Initial(s0) && Run(s0, ls) && TaskPcAt(After(s0, ls), tk).TPolling?
    ensures LastNow(ls, tk) == TaskPcAt(After(s0, ls), tk).sampled
  {
    var pc, own := TaskPcAt(After(s0, ls), tk), Own(ls, TaskActor(tk));
    TaskStory.AlwaysAlong(s0, ls, tk);
    var seg := TaskStory.LastReconcile(ls, TaskActor(tk));
    assert seg[|seg| - 1] == TaskStep(tk, TNow(pc.sampled));
    SegmentEnds(own);
    LastNowIs(ls, tk, pc.sampled);
  }

  predicate AsksEvent(e: Event, tk: Key) {
    e.Checked? && e.task == tk && !e.met
  }

  lemma {:induction false} NoRequeues(log: seq<Event>, events: seq<Event>, tk: Key)
    requires forall e :: e in events ==> !AsksEvent(e, tk)
    ensures Requeues(log + events, tk) == Requeues(log, tk)
    decreases |events|
  {
    if events == [] {
      assert log + events == log;
    } else {
      assert (log + events)[..|log + events| - 1] == log + events[..|events| - 1];
      assert !AsksEvent(events[|events| - 1], tk);
      NoRequeues(log, events[..|events| - 1], tk);
    }
  }

  predicate Polled(s: Sys, l: Label, tk: Key)
    requires Enabled(s, l)
  {
    l.TaskStep? && l.task == tk && l.taskMove.TPower? && l.taskMove.reading.Some? && TaskPcAt(Next(s, l), tk).TIdle?
  }

  /** Only a poll that asks for another logs that it did. */
  lemma StepAsks(s: Sys, k: Key, m: TaskMove, tk: Key)
    requires TaskEnabled(s, k, m)
    ensures
      var events := TaskEffectOf(s, k, m).events;
      if Polled(s, TaskStep(k, m), tk) then
        events == [Checked(tk, TaskPcAt(s, tk).sampled, m.reading, false)]
      else forall e :: e in events ==> !AsksEvent(e, tk)
  {
  }

  lemma JobStepAsks(s: Sys, jk: Key, m: JobMove, tk: Key)
    requires JobEnabled(s, jk, m)
    ensures forall e :: e in JobEffectOf(s, jk, m).events ==> !AsksEvent(e, tk)
  {
  }

  lemma OneRequeue(log: seq<Event>, e: Event, tk: Key)
    requires AsksEvent(e, tk)
    ensures Requeues(log + [e], tk) == Requeues(log, tk) + [e.sampled]
  {
    assert (log + [e])[..|log + [e]| - 1] == log;
  }

  lemma RequeueStep(s: Sys, l: Label, tk: Key)
    requires Enabled(s, l)
    ensures Requeues(Next(s, l).log, tk) ==
      Requeues(s.log, tk) + if Polled(s, l, tk) then [TaskPcAt(s, tk).sampled] else []
  {
    match l
    case User(m) =>
    case JobStep(jk, m) =>
      JobStepAsks(s, jk, m, tk);
      NoRequeues(s.log, JobEffectOf(s, jk, m).events, tk);
    case TaskStep(k, m) =>
      StepAsks(s, k, m, tk);
      if Polled(s, l, tk) {
        OneRequeue(s.log, TaskEffectOf(s, k, m).events[0], tk);
      } else {
        NoRequeues(s.log, TaskEffectOf(s, k, m).events, tk);
      }
  }

  lemma PowerAnswer(s: Sys, tk: Key, reading: Option<string>)
    requires TaskEnabled(s, tk, TPower(reading)) && reading.Some?
    ensures
      var pc := TaskPcAt(Next(s, TaskStep(tk, TPower(reading))), tk);
      pc.TIdle? ==> pc == TIdle(Requeue(3_000_000_000))
  {
  }

  /** What the log says of requeues is what the calls say. */
  lemma {:induction false} RequeuesArePolls(s0: Sys, ls: seq<Label>, tk: Key)
    requires Initial(s0) && Run(s0, ls)
    ensures Requeues(After(s0, ls).log, tk) == PollTimes(s0, ls, tk)
  {
    if ls != [] {
      var front, l := ls[..|ls| - 1], ls[|ls| - 1];
      var s := After(s0, front);
      RequeuesArePolls(s0, front, tk);
      RequeueStep(s, l, tk);
      if l.TaskStep? && l.task == tk && l.taskMove.TPower? && l.taskMove.reading.Some? {
        PollSampled(s0, front, tk);
        PowerAnswer(s, tk, l.taskMove.reading);
      }
    }
  }

  lemma RequeuesBounded(s0: Sys, ls: seq<Label>, tk: Key)
    requires Initial(s0) && Run(s0, ls) && Spaced(Requeues(After(s0, ls).log, tk))
    ensures |Requeues(After(s0, ls).log, tk)| <= 200
  {
    var s := After(s0, ls);
    var polls := Requeues(s.log, tk);
    Always(s0, ls);
    RequeuesInTime(s.log, s.tasks, tk);
    if polls != [] {
      assert polls[0] in polls;
      SpacedCount(polls, s.tasks[tk].status.startTime.value);
    }
  }

  /** In any run, if the polls of a Task that asked for another are at least three
      seconds apart, there are at most 200 of them. */
  lemma PollsBounded(s0: Sys, ls: seq<Label>, tk: Key)
    requires Initial(s0) && Run(s0, ls) && Spaced(PollTimes(s0, ls, tk))
    ensures |PollTimes(s0, ls, tk)| <= 200
  {
    RequeuesArePolls(s0, ls, tk);
    RequeuesBounded(s0, ls, tk);
  }

  // ---- Two hundred polls ----

  ghost function EveryThreeSeconds(n: nat): seq<Time> {
    seq(n, i requires 0 <= i < n => i * 3_000_000_000)
  }

  /** A "power on" Task that started at time 0 and is not being reconciled. */
  ghost predicate Waiting(s: Sys, tk: Key) {
    && tk in s.tasks && s.tasks[tk].status == Status([], Some(0), None) && !s.tasks[tk].deleting
    && s.tasks[tk].connection.credentials == RpcSecrets(map[]) && s.tasks[tk].action.power == Some(PowerOn)
    && TaskPcAt(s, tk).TIdle?
  }

  /** One more step of a run, as far as polls are concerned. */
  lemma Extend(s0: Sys, ls: seq<Label>, l: Label, tk: Key)
    requires Run(s0, ls) && Enabled(After(s0, ls), l)
    ensures Run(s0, ls + [l]) && After(s0, ls + [l]) == Next(After(s0, ls), l)
    ensures PollTimes(s0, ls + [l], tk) ==
      PollTimes(s0, ls, tk) + if AsksAgain(s0, ls + [l], tk) then [LastNow(ls, tk)] else []
    ensures LastNow(ls + [l], tk) ==
      if l.TaskStep? && l.task == tk && l.taskMove.TNow? then l.taskMove.now else LastNow(ls, tk)
  {
    RunStep(s0, ls, l);
    assert (ls + [l])[..|ls + [l]| - 1] == ls;
  }

  lemma OpenTask(s0: Sys, ls: seq<Label>, tk: Key, t: Task) returns (more: seq<Label>)
    requires Run(s0, ls) && tk in After(s0, ls).tasks && After(s0, ls).tasks[tk] == t
    requires TaskPcAt(After(s0, ls), tk).TIdle?
    requires !t.deleting && t.status.conditions == [] && t.connection.credentials == RpcSecrets(map[])
    ensures Run(s0, more) && After(s0, more).tasks == After(s0, ls).tasks
    ensures After(s0, more).clock == After(s0, ls).clock && TaskPcAt(After(s0, more), tk) == TOpened(t)
    ensures PollTimes(s0, more, tk) == PollTimes(s0, ls, tk)
  {
    Extend(s0, ls, TaskStep(tk, TGet(true)), tk);
    more := ls + [TaskStep(tk, TGet(true))];
    assert TaskPcAt(After(s0, more), tk) == TOpening(t);
    Extend(s0, more, TaskStep(tk, TOpen(None)), tk);
    more := more + [TaskStep(tk, TOpen(None))];
  }

  lemma OffIsNotOn()
    ensures !Meets(PowerOn, "off")
  {
    Achievable.PlainReadings();
  }

  lemma Sample(s0: Sys, ls: seq<Label>, tk: Key, t: Task) returns (more: seq<Label>)
    requires Run(s0, ls) && TaskPcAt(After(s0, ls), tk) == TOpened(t) && t.action.power == Some(PowerOn)
    requires t.status.startTime == Some(0) && After(s0, ls).clock < 600_000_000_000
    ensures Run(s0, more) && After(s0, more).tasks == After(s0, ls).tasks
    ensures After(s0, more).clock == After(s0, ls).clock
    ensures TaskPcAt(After(s0, more), tk) == TPolling(t, After(s0, ls).clock)
    ensures LastNow(more, tk) == After(s0, ls).clock && PollTimes(s0, more, tk) == PollTimes(s0, ls, tk)
  {
    var s := After(s0, ls);
    Extend(s0, ls, TaskStep(tk, TNow(s.clock)), tk);
    more := ls + [TaskStep(tk, TNow(s.clock))];
  }

  lemma PollOff(s0: Sys, ls: seq<Label>, tk: Key) returns (more: seq<Label>)
    requires Run(s0, ls) && TaskPcAt(After(s0, ls), tk).TPolling?
    requires TaskPcAt(After(s0, ls), tk).task.action.power == Some(PowerOn)
    ensures Run(s0, more) && After(s0, more).tasks == After(s0, ls).tasks
    ensures After(s0, more).clock == After(s0, ls).clock
    ensures TaskPcAt(After(s0, more), tk) == TIdle(Requeue(3_000_000_000))
    ensures PollTimes(s0, more, tk) == PollTimes(s0, ls, tk) + [LastNow(ls, tk)]
  {
    OffIsNotOn();
    Extend(s0, ls, TaskStep(tk, TPower(Some("off"))), tk);
    more := ls + [TaskStep(tk, TPower(Some("off")))];
  }

  lemma PollOnce(s0: Sys, ls: seq<Label>, tk: Key) returns (more: seq<Label>)
    requires Run(s0, ls) && Waiting(After(s0, ls), tk) && After(s0, ls).clock < 600_000_000_000
    ensures Run(s0, more) && Waiting(After(s0, more), tk)
    ensures After(s0, more).clock == After(s0, ls).clock + 3_000_000_000
    ensures PollTimes(s0, more, tk) == PollTimes(s0, ls, tk) + [After(s0, ls).clock]
  {
    more := OpenTask(s0, ls, tk, After(s0, ls).tasks[tk]);
    more := Sample(s0, more, tk, After(s0, ls).tasks[tk]);
    more := PollOff(s0, more, tk);
    Extend(s0, more, User(Wait(3_000_000_000)), tk);
    more := more + [User(Wait(3_000_000_000))];
  }

  lemma StartIdle(s0: Sys, tk: Key) returns (ls: seq<Label>, t: Task)
    requires Initial(s0) && s0.clock == 0
    ensures Run(s0, ls) && After(s0, ls).clock == 0 && PollTimes(s0, ls, tk) == []
    ensures tk in After(s0, ls).tasks && After(s0, ls).tasks[tk] == t && TaskPcAt(After(s0, ls), tk).TIdle?
    ensures t.status == EMPTY && !t.deleting && t.action == Action(Some(PowerOn), None, None)
    ensures t.connection.credentials == RpcSecrets(map[])
  {
    var create :=
      User(CreateTask(tk, [], Action(Some(PowerOn), None, None), Connection("bmc", RpcSecrets(map[]))));
    Extend(s0, [], create, tk);
    ls := [] + [create];
    t := After(s0, ls).tasks[tk];
  }

  lemma StartWaiting(s0: Sys, tk: Key) returns (ls: seq<Label>)
    requires Initial(s0) && s0.clock == 0
    ensures Run(s0, ls) && Waiting(After(s0, ls), tk) && After(s0, ls).clock == 0 && PollTimes(s0, ls, tk) == []
  {
    var t: Task;
    ls, t := StartIdle(s0, tk);
    ls := OpenTask(s0, ls, tk, t);
    assert Commands(t.action) == [SetPower(PowerOn)];
    Extend(s0, ls, TaskStep(tk, TNow(0)), tk);
    ls := ls + [TaskStep(tk, TNow(0))];
    Extend(s0, ls, TaskStep(tk, TCommand(SetPower(PowerOn), None)), tk);
    ls := ls + [TaskStep(tk, TCommand(SetPower(PowerOn), None))];
    assert TaskPcAt(After(s0, ls), tk) == TPatching(t, Status([], Some(0), None), Done);
    Extend(s0, ls, TaskStep(tk, TPatch(Applied)), tk);
    ls := ls + [TaskStep(tk, TPatch(Applied))];
  }

  lemma {:induction false} PollMany(s0: Sys, tk: Key, n: nat) returns (ls: seq<Label>)
    requires Initial(s0) && s0.clock == 0 && n <= 200
    ensures Run(s0, ls) && Waiting(After(s0, ls), tk) && After(s0, ls).clock == n * 3_000_000_000
    ensures PollTimes(s0, ls, tk) == EveryThreeSeconds(n)
  {
    if n == 0 {
      ls := StartWaiting(s0, tk);
    } else {
      var before := PollMany(s0, tk, n - 1);
      ls := PollOnce(s0, before, tk);
    }
  }

  /** And there can be that many: a run in which a started Task is polled every
      three seconds from its StartTime on, and asks for another each of 200 times. */
  lemma PollsSharp(s0: Sys, tk: Key) returns (ls: seq<Label>)
    requires Initial(s0) && s0.clock == 0
    ensures Run(s0, ls) && |PollTimes(s0, ls, tk)| == 200 && Spaced(PollTimes(s0, ls, tk))
    ensures forall i :: 0 <= i < 200 ==> PollTimes(s0, ls, tk)[i] == i * 3_000_000_000
  {
    ls := PollMany(s0, tk, 200);
  }
}
