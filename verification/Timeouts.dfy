/** When the ten-minute deadline takes effect: the poll loop ends, and exactly
    what it takes for a Task past its deadline to be persisted as timed out. */
module Timeouts {
  import opened Options
  import opened Conditions
  import opened Statuses
  import opened Bmc
  import opened Protocol
  import opened TaskNames
  import opened StatusInvariant
  import opened OrderPreserved
  import opened RunLog
  import opened Deadline
  import opened FaultFreeTask
  import Achievable
  import Shapes = StatusInvariant

  // ---- The poll loop ends ----

  /** How often a reconcile of the Task began. */
  ghost function Gets(ls: seq<Label>, tk: Key): nat {
    if ls == [] then 0
    else Gets(ls[..|ls| - 1], tk) + if ls[|ls| - 1] == TaskStep(tk, TGet(true)) then 1 else 0
  }

  lemma {:induction false} RequeuesAppend(log: seq<Event>, events: seq<Event>, tk: Key)
    ensures Requeues(log + events, tk) == Requeues(log, tk) + Requeues(events, tk)
  {
    if events == [] {
      assert log + events == log;
    } else {
      assert (log + events)[..|log + events| - 1] == log + events[..|events| - 1];
      RequeuesAppend(log, events[..|events| - 1], tk);
    }
  }

  lemma RequeueLogged(log: seq<Event>, e: Event, tk: Key)
    requires e.Checked? && e.task == tk && !e.met
    ensures |Requeues(log + [e], tk)| == |Requeues(log, tk)| + 1
  {
    assert (log + [e])[..|log + [e]| - 1] == log;
  }

  /** The Task is not being deleted, and is terminal or has as many requeues
      behind it as reconciles begun, not counting the one in flight. */
  ghost predicate Polled(s: Sys, tk: Key, gets: nat) {
    && tk in s.tasks && !s.tasks[tk].deleting
    && var st := s.tasks[tk].status;
       || TaskDone(st) || TaskFailed(st)
       || (TaskStarted(st) && gets <= |Requeues(s.log, tk)| + if TaskPcAt(s, tk).TIdle? then 0 else 1)
  }

  lemma PolledAside(s: Sys, s': Sys, tk: Key, gets: nat, events: seq<Event>)
    requires Polled(s, tk, gets) && Aside(s, s', tk) && s'.log == s.log + events
    ensures Polled(s', tk, gets)
  {
    RequeuesAppend(s.log, events, tk);
  }

  lemma PolledTerminal(s: Sys, tk: Key, m: TaskMove, gets: nat)
    requires Shapes.Inv(s) && TaskEnabled(s, tk, m) && Polled(s, tk, gets) && !TaskStarted(s.tasks[tk].status)
    ensures Polled(Next(s, TaskStep(tk, m)), tk, gets + 1) && Polled(Next(s, TaskStep(tk, m)), tk, gets)
  {
    TaskStepGrows(s, tk, m);
    TaskStepShape(s, tk, m);
  }

  /** A step of a started Task's reconcile that does not end it. */
  lemma PolledInside(s: Sys, s': Sys, tk: Key, gets: nat, events: seq<Event>)
    requires Polled(s, tk, gets) && TaskStarted(s.tasks[tk].status) && !TaskPcAt(s, tk).TIdle?
    requires !TaskPcAt(s', tk).TIdle?
    requires s'.tasks == s.tasks && s'.log == s.log + events
    ensures Polled(s', tk, gets)
  {
    RequeuesAppend(s.log, events, tk);
  }

  /** The poll: met, the reconcile goes on; not met, it asks to be requeued. */
  lemma PolledPower(s: Sys, tk: Key, raw: string, gets: nat)
    requires Polled(s, tk, gets) && TaskStarted(s.tasks[tk].status) && TaskEnabled(s, tk, TPower(Some(raw)))
    ensures Polled(Next(s, TaskStep(tk, TPower(Some(raw)))), tk, gets)
  {
    var pc, s' := TaskPcAt(s, tk), Next(s, TaskStep(tk, TPower(Some(raw))));
    if Meets(pc.task.action.power.value, raw) {
      PolledInside(s, s', tk, gets, [Checked(tk, pc.sampled, Some(raw), true)]);
    } else {
      RequeueLogged(s.log, Checked(tk, pc.sampled, Some(raw), false), tk);
    }
  }

  lemma PolledOwn(s: Sys, tk: Key, m: TaskMove, gets: nat)
    requires Shapes.Inv(s) && TaskEnabled(s, tk, m) && !MoveFaulty(m) && Polled(s, tk, gets)
    requires TaskStarted(s.tasks[tk].status)
    ensures Polled(Next(s, TaskStep(tk, m)), tk, if m == TGet(true) then gets + 1 else gets)
  {
    var s' := Next(s, TaskStep(tk, m));
    assert TaskPcOk(s.tasks, tk, TaskPcAt(s, tk), s.clock);
    if m.TGet? {
      RequeuesAppend(s.log, [], tk);
    } else if m.TPower? {
      PolledPower(s, tk, m.reading.value, gets);
    } else if m.TPatch? {
      TaskStepShape(s, tk, m);
    } else {
      LogGrows(s, TaskStep(tk, m));
      PolledInside(s, s', tk, gets, s'.log[|s.log|..]);
    }
  }

  lemma PolledStep(s: Sys, l: Label, tk: Key, gets: nat)
    requires Shapes.Inv(s) && Enabled(s, l) && !Faulty(l, tk) && Polled(s, tk, gets)
    ensures Polled(Next(s, l), tk, if l == TaskStep(tk, TGet(true)) then gets + 1 else gets)
  {
    if ActorOf(l) == Some(TaskActor(tk)) {
      if TaskStarted(s.tasks[tk].status) {
        PolledOwn(s, tk, l.taskMove, gets);
      } else {
        PolledTerminal(s, tk, l.taskMove, gets);
      }
    } else {
      OtherAside(s, l, tk);
      LogGrows(s, l);
      PolledAside(s, Next(s, l), tk, gets, Next(s, l).log[|s.log|..]);
    }
  }

  lemma LogGrows(s: Sys, l: Label)
    requires Enabled(s, l)
    ensures |s.log| <= |Next(s, l).log| && Next(s, l).log == s.log + Next(s, l).log[|s.log|..]
  {
  }

  lemma {:induction false} AlwaysPolled(s0: Sys, ls: seq<Label>, more: seq<Label>, tk: Key)
    requires Initial(s0) && Run(s0, ls) && Run(s0, ls + more) && FaultFree(more, tk)
    requires Polled(After(s0, ls), tk, 0)
    ensures Polled(After(s0, ls + more), tk, Gets(more, tk))
    decreases |more|
  {
    if more == [] {
      assert ls + more == ls;
    } else {
      var front, l := more[..|more| - 1], more[|more| - 1];
      assert (ls + more)[..|ls + more| - 1] == ls + front;
      assert l in more;
      AlwaysPolled(s0, ls, front, tk);
      Shapes.Always(s0, ls + front);
      PolledStep(After(s0, ls + front), l, tk, Gets(front, tk));
    }
  }

  /** The poll loop ends: when secrets resolve, connections open, readings
      succeed and patches take effect, and polls are at least three seconds apart,
      a started Task is Completed or Failed before its 202nd reconcile is over. */
  lemma PollLoopEnds(s0: Sys, ls: seq<Label>, more: seq<Label>, tk: Key)
    requires Initial(s0) && Run(s0, ls) && Run(s0, ls + more) && FaultFree(more, tk)
    requires tk in After(s0, ls).tasks && !After(s0, ls).tasks[tk].deleting
    requires TaskStarted(After(s0, ls).tasks[tk].status)
    requires Spaced(Requeues(After(s0, ls + more).log, tk)) && Gets(more, tk) >= 202
    ensures
      var s' := After(s0, ls + more);
      tk in s'.tasks && (TaskDone(s'.tasks[tk].status) || TaskFailed(s'.tasks[tk].status))
  {
    AlwaysPolled(s0, ls, more, tk);
    RequeuesBounded(s0, ls + more, tk);
  }

  // ---- Past the deadline ----

  /** The Task has started and its deadline has passed. */
  ghost predicate Overdue(s: Sys, tk: Key) {
    tk in s.tasks && TaskStarted(s.tasks[tk].status) && s.clock >= s.tasks[tk].status.startTime.value + 600_000_000_000
  }

  /** A reconcile that read the clock in time: the deadline does not concern it any more. */
  predicate PastCheck(pc: TaskPc) {
    pc.TPolling? || pc.TConfirmed? || (pc.TPatching? && TaskDone(pc.current))
  }

  ghost predicate EndsOpen(own: seq<Label>, tk: Key) {
    own != [] && own[|own| - 1] == TaskStep(tk, TOpen(None))
  }

  /** The reconciler's last two steps: the connection opened, the clock read. */
  predicate ReadsClock(l: Label, tk: Key) {
    l.TaskStep? && l.task == tk && l.taskMove.TNow?
  }

  ghost predicate EndsClock(own: seq<Label>, tk: Key) {
    |own| >= 2 && own[|own| - 2] == TaskStep(tk, TOpen(None)) && ReadsClock(own[|own| - 1], tk)
  }

  predicate TakesEffect(l: Label, tk: Key) {
    l.TaskStep? && l.task == tk && l.taskMove.TPatch? && l.taskMove.patched != Refused
  }

  ghost predicate PersistedAt(own: seq<Label>, tk: Key, i: nat) {
    i < |own| && EndsClock(own[..i], tk) && TakesEffect(own[i], tk)
  }

  /** From its since-th step on, the reconciler had a patch take effect that it
      sent right after it opened the connection and read the clock. */
  ghost predicate Persisted(own: seq<Label>, tk: Key, since: nat) {
    exists i: nat :: since <= i && PersistedAt(own, tk, i)
  }

  lemma OneMore(own: seq<Label>, l: Label, tk: Key, since: nat)
    requires since <= |own|
    ensures Persisted(own + [l], tk, since) <==>
      Persisted(own, tk, since) || (EndsClock(own, tk) && TakesEffect(l, tk))
  {
    assert (own + [l])[..|own|] == own;
    if i: nat :| since <= i && PersistedAt(own, tk, i) {
      assert (own + [l])[..i] == own[..i];
      assert PersistedAt(own + [l], tk, i);
    }
    if EndsClock(own, tk) && TakesEffect(l, tk) {
      assert PersistedAt(own + [l], tk, |own|);
    }
    if i: nat :| since <= i && PersistedAt(own + [l], tk, i) {
      assert i == |own| || ((own + [l])[..i] == own[..i] && PersistedAt(own, tk, i));
    }
  }

  lemma NothingSince(own: seq<Label>, tk: Key)
    ensures !Persisted(own, tk, |own|)
  {
  }

  ghost predicate OverranBy(st: Status, after: Status, now: Time, elapsed: nat) {
    && st.startTime.Some? && elapsed >= 600_000_000_000 && st.startTime.value + elapsed <= now
    && after == With(st, Failed, Some("bmc task timeout: " + Decimal(elapsed)))
  }

  /** Failed for the deadline, by a reading of the clock no later than now. */
  ghost predicate Overran(st: Status, after: Status, now: Time) {
    exists elapsed: nat :: OverranBy(st, after, now, elapsed)
  }

  ghost predicate NotConnected(st: Status, after: Status) {
    exists error: string :: after == With(st, Failed, Some("Failed to connect to BMC: " + error))
  }

  /** The outcomes are told apart by what is stored. */
  lemma Outcomes(st: Status, after: Status, now: Time)
    requires TaskStarted(st)
    ensures Overran(st, after, now) ==> !NotConnected(st, after) && after != st && TaskFailed(after) && !TaskDone(after)
    ensures NotConnected(st, after) ==> after != st && TaskFailed(after) && !TaskDone(after)
  {
    if elapsed: nat :| OverranBy(st, after, now, elapsed) {
      assert after.conditions == [Condition(Failed, True, "bmc task timeout: " + Decimal(elapsed))];
      assert ("bmc task timeout: " + Decimal(elapsed))[0] == 'b';
      forall error: string
        ensures after != With(st, Failed, Some("Failed to connect to BMC: " + error))
      {
        assert With(st, Failed, Some("Failed to connect to BMC: " + error)).conditions[0].message[0] == 'F';
      }
    }
  }

  lemma OverranLater(st: Status, after: Status, now: Time, later: Time)
    requires Overran(st, after, now) && now <= later
    ensures Overran(st, after, later)
  {
    var elapsed: nat :| OverranBy(st, after, now, elapsed);
    assert OverranBy(st, after, later, elapsed);
  }

  /** What the reconciler's own steps say about where its reconcile of a started Task stands. */
  ghost predicate Told(s: Sys, st: Status, tk: Key, own: seq<Label>) {
    match TaskPcAt(s, tk)
    case TOpened(_) => EndsOpen(own, tk)
    case TPolling(_, _) => own != [] && !EndsOpen(own, tk)
    case TConfirmed(_, _) => own != [] && !EndsOpen(own, tk)
    case TPatching(_, current, _) =>
      if EndsClock(own, tk) then Overran(st, current, s.clock) else NotConnected(st, current) || TaskDone(current)
    case _ => true
  }

  lemma ToldLater(s: Sys, s': Sys, st: Status, tk: Key, own: seq<Label>)
    requires Told(s, st, tk, own) && TaskPcAt(s', tk) == TaskPcAt(s, tk) && s.clock <= s'.clock
    ensures Told(s', st, tk, own)
  {
    if TaskPcAt(s, tk).TPatching? && EndsClock(own, tk) {
      OverranLater(st, TaskPcAt(s, tk).current, s.clock, s'.clock);
    }
  }

  lemma ToldOpen(s: Sys, st: Status, tk: Key, own: seq<Label>, failure: Option<string>)
    requires TaskEnabled(s, tk, TOpen(failure)) && TaskPcAt(s, tk).task.status == st
    ensures Told(Next(s, TaskStep(tk, TOpen(failure))), st, tk, own + [TaskStep(tk, TOpen(failure))])
  {
  }

  lemma ToldNow(s: Sys, st: Status, tk: Key, own: seq<Label>)
    requires TaskStarted(st) && TaskEnabled(s, tk, TNow(s.clock)) && Told(s, st, tk, own)
    requires TaskPcAt(s, tk).task.status == st && st.startTime.value <= s.clock
    ensures Told(Next(s, TaskStep(tk, TNow(s.clock))), st, tk, own + [TaskStep(tk, TNow(s.clock))])
  {
    var s' := Next(s, TaskStep(tk, TNow(s.clock)));
    if TaskPcAt(s, tk).TOpened? && s.clock - st.startTime.value >= 600_000_000_000 {
      assert OverranBy(st, TaskPcAt(s', tk).current, s'.clock, s.clock - st.startTime.value);
    }
  }

  /** A reconcile of a started Task goes on. */
  lemma ToldOwn(s: Sys, st: Status, tk: Key, own: seq<Label>, m: TaskMove)
    requires Shapes.Inv(s) && TaskStarted(st) && TaskEnabled(s, tk, m) && Told(s, st, tk, own)
    requires tk in s.tasks && s.tasks[tk].status == st
    ensures Told(Next(s, TaskStep(tk, m)), st, tk, own + [TaskStep(tk, m)])
  {
    assert TaskPcOk(s.tasks, tk, TaskPcAt(s, tk), s.clock) && TaskStatusOk(st, s.clock);
    if m.TNow? {
      ToldNow(s, st, tk, own);
    } else if m.TOpen? {
      ToldOpen(s, st, tk, own, m.failure);
    }
  }

  lemma OwnStep(ls: seq<Label>, a: Actor)
    requires ls != []
    ensures
      var own, l := Own(ls[..|ls| - 1], a), ls[|ls| - 1];
      Own(ls, a) == if ActorOf(l) == Some(a) then own + [l] else own
  {
  }

  /** Whoever steps, what is told of a started Task stays true. */
  lemma ToldStep(s: Sys, l: Label, tk: Key, own: seq<Label>)
    requires Shapes.Inv(s) && Enabled(s, l) && tk in Next(s, l).tasks && TaskStarted(Next(s, l).tasks[tk].status)
    requires tk in s.tasks && TaskStarted(s.tasks[tk].status) ==> Told(s, s.tasks[tk].status, tk, own)
    ensures
      Told(Next(s, l), Next(s, l).tasks[tk].status, tk, if ActorOf(l) == Some(TaskActor(tk)) then own + [l] else own)
  {
    if l == User(DeleteTask(tk)) {
      ToldLater(s, Next(s, l), s.tasks[tk].status, tk, own);
    } else if ActorOf(l) == Some(TaskActor(tk)) {
      ToldOwnStep(s, l.taskMove, tk, own);
    } else {
      OtherAside(s, l, tk);
      ToldOther(s, Next(s, l), tk, own);
    }
  }

  lemma ToldOther(s: Sys, s': Sys, tk: Key, own: seq<Label>)
    requires Shapes.Inv(s) && Aside(s, s', tk) && tk in s'.tasks && TaskStarted(s'.tasks[tk].status)
    requires tk in s.tasks && TaskStarted(s.tasks[tk].status) ==> Told(s, s.tasks[tk].status, tk, own)
    ensures Told(s', s'.tasks[tk].status, tk, own)
  {
    if tk in s.tasks {
      ToldLater(s, s', s.tasks[tk].status, tk, own);
    } else {
      assert TaskPcOk(s.tasks, tk, TaskPcAt(s, tk), s.clock);
    }
  }

  lemma ToldOwnStep(s: Sys, m: TaskMove, tk: Key, own: seq<Label>)
    requires Shapes.Inv(s) && TaskEnabled(s, tk, m)
    requires tk in Next(s, TaskStep(tk, m)).tasks && TaskStarted(Next(s, TaskStep(tk, m)).tasks[tk].status)
    requires tk in s.tasks && TaskStarted(s.tasks[tk].status) ==> Told(s, s.tasks[tk].status, tk, own)
    ensures
      var s' := Next(s, TaskStep(tk, m));
      Told(s', s'.tasks[tk].status, tk, own + [TaskStep(tk, m)])
  {
    TaskStepShape(s, tk, m);
    if TaskEffectOf(s, tk, m).write.None? {
      ToldOwn(s, s.tasks[tk].status, tk, own, m);
    }
  }

  lemma {:induction false} AlwaysTold(s0: Sys, ls: seq<Label>, tk: Key)
    requires Initial(s0) && Run(s0, ls) && tk in After(s0, ls).tasks && TaskStarted(After(s0, ls).tasks[tk].status)
    ensures Told(After(s0, ls), After(s0, ls).tasks[tk].status, tk, Own(ls, TaskActor(tk)))
  {
    var front, l := ls[..|ls| - 1], ls[|ls| - 1];
    var s := After(s0, front);
    Shapes.Always(s0, front);
    if tk in s.tasks && TaskStarted(s.tasks[tk].status) {
      AlwaysTold(s0, front, tk);
    }
    OwnStep(ls, TaskActor(tk));
    ToldStep(s, l, tk, Own(front, TaskActor(tk)));
  }

  // ---- What becomes of an overdue Task ----

  /** What is stored for the Task since s, given its reconciler's steps, since-th and later. */
  ghost predicate Stored(s: Sys, s': Sys, tk: Key, own: seq<Label>, since: nat)
    requires tk in s.tasks && tk in s'.tasks
  {
    var st, after := s.tasks[tk].status, s'.tasks[tk].status;
    if Persisted(own, tk, since) then Overran(st, after, s'.clock)
    else after == st || NotConnected(st, after) || (TaskDone(after) && PastCheck(TaskPcAt(s, tk)))
  }

  /** Where the reconciler of a Task that was overdue at s stands. */
  ghost predicate Expiring(s: Sys, s': Sys, tk: Key, own: seq<Label>, since: nat)
    requires tk in s.tasks
  {
    && tk in s'.tasks && s.clock <= s'.clock && since <= |own|
    && (!PastCheck(TaskPcAt(s, tk)) ==> Unseen(s, s', tk))
    && if TaskPcAt(s', tk).TIdle? then Stored(s, s', tk, own, since)
       else
         && s'.tasks[tk].status == s.tasks[tk].status && !Persisted(own, tk, since)
         && Told(s', s.tasks[tk].status, tk, own)
         && (PastCheck(TaskPcAt(s', tk)) ==> PastCheck(TaskPcAt(s, tk)))
  }

  lemma StoredLater(s: Sys, s1: Sys, s2: Sys, tk: Key, own: seq<Label>, since: nat)
    requires tk in s.tasks && tk in s1.tasks && tk in s2.tasks && Stored(s, s1, tk, own, since)
    requires s2.tasks[tk].status == s1.tasks[tk].status && s1.clock <= s2.clock
    ensures Stored(s, s2, tk, own, since)
  {
    if Persisted(own, tk, since) {
      OverranLater(s.tasks[tk].status, s1.tasks[tk].status, s1.clock, s2.clock);
    }
  }

  /** Time passes. */
  lemma ExpiringLater(s: Sys, s1: Sys, s2: Sys, tk: Key, own: seq<Label>, since: nat)
    requires tk in s.tasks && Expiring(s, s1, tk, own, since) && s1.clock <= s2.clock
    requires tk in s2.tasks && s2.tasks[tk].status == s1.tasks[tk].status && TaskPcAt(s2, tk) == TaskPcAt(s1, tk)
    requires Sightings(s2.log, tk) == Sightings(s1.log, tk)
    ensures Expiring(s, s2, tk, own, since)
  {
    if TaskPcAt(s1, tk).TIdle? {
      StoredLater(s, s1, s2, tk, own, since);
    } else {
      ToldLater(s1, s2, s.tasks[tk].status, tk, own);
    }
  }

  /** A step of its own that checks nothing leaves the log of checks alone. */
  lemma UncheckedStep(s: Sys, tk: Key, m: TaskMove)
    requires TaskEnabled(s, tk, m) && forall e :: e in TaskEffectOf(s, tk, m).events ==> !e.Checked?
    ensures Sightings(Next(s, TaskStep(tk, m)).log, tk) == Sightings(s.log, tk)
  {
    SightingsAppend(s.log, TaskEffectOf(s, tk, m).events, tk);
    NoSightings(TaskEffectOf(s, tk, m).events, tk);
  }

  /** Only a reconcile that read the clock in time checks anything. */
  lemma OverdueChecksNothing(s: Sys, s1: Sys, tk: Key, m: TaskMove)
    requires Shapes.Inv(s1) && TaskEnabled(s1, tk, m) && Overdue(s, tk) && s.clock <= s1.clock
    requires tk in s1.tasks && !TaskPcAt(s1, tk).TIdle? ==> s1.tasks[tk].status == s.tasks[tk].status
    requires !TaskPcAt(s1, tk).TPolling?
    ensures forall e :: e in TaskEffectOf(s1, tk, m).events ==> !e.Checked?
  {
    assert TaskPcOk(s1.tasks, tk, TaskPcAt(s1, tk), s1.clock);
  }

  lemma ExpiringGet(s: Sys, s1: Sys, tk: Key, own: seq<Label>, since: nat, found: bool)
    requires TaskEnabled(s1, tk, TGet(found)) && Overdue(s, tk) && Expiring(s, s1, tk, own, since)
    ensures Expiring(s, Next(s1, TaskStep(tk, TGet(found))), tk, own + [TaskStep(tk, TGet(found))], since)
  {
    var l := TaskStep(tk, TGet(found));
    UncheckedStep(s1, tk, TGet(found));
    OneMore(own, l, tk, since);
    Outcomes(s.tasks[tk].status, s1.tasks[tk].status, s1.clock);
    StoredLater(s, s1, Next(s1, l), tk, own, since);
  }

  lemma ExpiringPatch(s: Sys, s1: Sys, tk: Key, own: seq<Label>, since: nat, o: WriteOutcome)
    requires Shapes.Inv(s1) && TaskEnabled(s1, tk, TPatch(o)) && Overdue(s, tk) && Expiring(s, s1, tk, own, since)
    ensures Expiring(s, Next(s1, TaskStep(tk, TPatch(o))), tk, own + [TaskStep(tk, TPatch(o))], since)
  {
    OneMore(own, TaskStep(tk, TPatch(o)), tk, since);
    UncheckedStep(s1, tk, TPatch(o));
    TaskStepShape(s1, tk, TPatch(o));
  }

  /** Any other step of its own writes nothing. */
  lemma ExpiringOn(s: Sys, s1: Sys, tk: Key, own: seq<Label>, since: nat, m: TaskMove)
    requires Shapes.Inv(s1) && TaskEnabled(s1, tk, m) && Overdue(s, tk) && Expiring(s, s1, tk, own, since)
    requires !m.TGet? && !m.TPatch?
    ensures Expiring(s, Next(s1, TaskStep(tk, m)), tk, own + [TaskStep(tk, m)], since)
  {
    OneMore(own, TaskStep(tk, m), tk, since);
    ToldOwn(s1, s.tasks[tk].status, tk, own, m);
    TaskStepShape(s1, tk, m);
    if !PastCheck(TaskPcAt(s, tk)) {
      OverdueChecksNothing(s, s1, tk, m);
      UncheckedStep(s1, tk, m);
    }
    if !PastCheck(TaskPcAt(s1, tk)) {
      OverdueStays(s, s1, tk, m);
    }
  }

  /** No reconcile gets past the check once the deadline has passed. */
  lemma OverdueStays(s: Sys, s1: Sys, tk: Key, m: TaskMove)
    requires Shapes.Inv(s1) && TaskEnabled(s1, tk, m) && Overdue(s, tk) && s.clock <= s1.clock
    requires tk in s1.tasks && s1.tasks[tk].status == s.tasks[tk].status && !TaskPcAt(s1, tk).TIdle?
    requires !PastCheck(TaskPcAt(s1, tk))
    ensures !PastCheck(TaskPcAt(Next(s1, TaskStep(tk, m)), tk))
  {
    assert TaskPcOk(s1.tasks, tk, TaskPcAt(s1, tk), s1.clock);
  }

  lemma ExpiringStep(s: Sys, s1: Sys, l: Label, tk: Key, own: seq<Label>, since: nat)
    requires Shapes.Inv(s1) && Enabled(s1, l) && Overdue(s, tk) && Expiring(s, s1, tk, own, since)
    ensures Expiring(s, Next(s1, l), tk, if ActorOf(l) == Some(TaskActor(tk)) then own + [l] else own, since)
  {
    if ActorOf(l) == Some(TaskActor(tk)) {
      match l.taskMove
      case TGet(found) => ExpiringGet(s, s1, tk, own, since, found);
      case TPatch(o) => ExpiringPatch(s, s1, tk, own, since, o);
      case _ => ExpiringOn(s, s1, tk, own, since, l.taskMove);
    } else if l == User(DeleteTask(tk)) {
      ExpiringLater(s, s1, Next(s1, l), tk, own, since);
    } else {
      OtherAside(s1, l, tk);
      ExpiringLater(s, s1, Next(s1, l), tk, own, since);
    }
  }

  /** The steps of the Task's reconciler over both parts of a run. */
  ghost function OwnSteps(ls: seq<Label>, more: seq<Label>, tk: Key): seq<Label> {
    Own(ls, TaskActor(tk)) + Own(more, TaskActor(tk))
  }

  lemma OwnStepsOn(ls: seq<Label>, more: seq<Label>, tk: Key)
    requires more != []
    ensures
      var own, l := OwnSteps(ls, more[..|more| - 1], tk), more[|more| - 1];
      OwnSteps(ls, more, tk) == if ActorOf(l) == Some(TaskActor(tk)) then own + [l] else own
  {
    OwnStep(more, TaskActor(tk));
  }

  lemma ExpiringFrom(s0: Sys, ls: seq<Label>, tk: Key)
    requires Initial(s0) && Run(s0, ls) && Overdue(After(s0, ls), tk)
    ensures
      Expiring(After(s0, ls), After(s0, ls), tk, OwnSteps(ls, [], tk), |Own(ls, TaskActor(tk))|)
  {
    assert OwnSteps(ls, [], tk) == Own(ls, TaskActor(tk));
    AlwaysTold(s0, ls, tk);
    NothingSince(Own(ls, TaskActor(tk)), tk);
  }

  lemma {:induction false} AlwaysExpiring(s0: Sys, ls: seq<Label>, more: seq<Label>, tk: Key)
    requires Initial(s0) && Run(s0, ls) && Run(s0, ls + more) && Overdue(After(s0, ls), tk)
    ensures
      Expiring(After(s0, ls), After(s0, ls + more), tk, OwnSteps(ls, more, tk), |Own(ls, TaskActor(tk))|)
    decreases |more|
  {
    if more == [] {
      assert ls + more == ls;
      ExpiringFrom(s0, ls, tk);
    } else {
      var front, l := more[..|more| - 1], more[|more| - 1];
      assert (ls + more)[..|ls + more| - 1] == ls + front;
      AlwaysExpiring(s0, ls, front, tk);
      Shapes.Always(s0, ls + front);
      OwnStepsOn(ls, more, tk);
      ExpiringStep(
        After(s0, ls), After(s0, ls + front), l, tk, OwnSteps(ls, front, tk), |Own(ls, TaskActor(tk))|);
    }
  }

  /** Exactly when an overdue Task times out, in every continuation of every run
      and wherever a reconcile of it stands: if and only if, from then on, a patch
      takes effect that its reconciler sent right after it opened the connection
      and read the clock. That needs its secrets to have resolved, no deletion
      before it was fetched, and no cut between. Otherwise its status is as it
      was, or Failed for want of a connection, or Completed by a reconcile that
      had read the clock before the deadline. No other reconcile reads the BMC. */
  lemma TimesOutExactly(s0: Sys, ls: seq<Label>, more: seq<Label>, tk: Key)
    requires Initial(s0) && Run(s0, ls) && Run(s0, ls + more) && Overdue(After(s0, ls), tk)
    ensures
      var s, s' := After(s0, ls), After(s0, ls + more);
      var own, since, st := OwnSteps(ls, more, tk), |Own(ls, TaskActor(tk))|, s.tasks[tk].status;
      && tk in s'.tasks
      && (Overran(st, s'.tasks[tk].status, s'.clock) <==> Persisted(own, tk, since))
      && (!Persisted(own, tk, since) ==>
            || s'.tasks[tk].status == st || NotConnected(st, s'.tasks[tk].status)
            || (TaskDone(s'.tasks[tk].status) && PastCheck(TaskPcAt(s, tk))))
      && (!PastCheck(TaskPcAt(s, tk)) ==> Unseen(s, s', tk))
  {
    AlwaysExpiring(s0, ls, more, tk);
    var s, s' := After(s0, ls), After(s0, ls + more);
    Outcomes(s.tasks[tk].status, s'.tasks[tk].status, s'.clock);
  }

  // ---- What an overdue Task can still become ----

  /** A reconcile past its check, on its way to a patch that completes the Task. */
  lemma ConfirmFrom(s: Sys, tk: Key) returns (ls: seq<Label>)
    requires Shapes.Inv(s) && tk in s.tasks && TaskStarted(s.tasks[tk].status) && PastCheck(TaskPcAt(s, tk))
    ensures Run(s, ls) && tk in After(s, ls).tasks && TaskDone(After(s, ls).tasks[tk].status)
  {
    var pc := TaskPcAt(s, tk);
    assert TaskPcOk(s.tasks, tk, pc, s.clock);
    ls := [];
    if pc.TPolling? {
      Achievable.AcceptsSome(pc.task.action);
      ls := Achievable.PollTask(s, ls, tk, pc.task, pc.sampled, Achievable.SomeReading(pc.task.action));
    }
    if !pc.TPatching? {
      ls := DoneFrom(s, ls, tk, pc.task, pc.sampled);
    } else {
      ls := PatchDone(s, ls, tk, pc.task, pc.current, pc.answer);
    }
  }

  lemma DoneFrom(s: Sys, ls: seq<Label>, tk: Key, t: Task, sampled: Time) returns (more: seq<Label>)
    requires tk in s.tasks && TaskStarted(t.status) && t.status.startTime.value <= s.clock
    requires t.status == s.tasks[tk].status
    requires Run(s, ls) && Achievable.TaskAt(s, After(s, ls), tk, TConfirmed(t, sampled))
    ensures Run(s, more) && tk in After(s, more).tasks && TaskDone(After(s, more).tasks[tk].status)
  {
    var done := With(t.status.(completionTime := Some(s.clock)), Completed, None);
    more := Achievable.LocalTaskStep(s, ls, tk, TConfirmed(t, sampled), TNow(s.clock), TPatching(t, done, Done));
    more := PatchDone(s, more, tk, t, done, Done);
  }

  lemma PatchDone(s: Sys, ls: seq<Label>, tk: Key, t: Task, done: Status, answer: Answer) returns (more: seq<Label>)
    requires tk in s.tasks && t.status == s.tasks[tk].status && TaskDone(done)
    requires Run(s, ls) && Achievable.TaskAt(s, After(s, ls), tk, TPatching(t, done, answer))
    ensures Run(s, more) && tk in After(s, more).tasks && TaskDone(After(s, more).tasks[tk].status)
  {
    RunStep(s, ls, TaskStep(tk, TPatch(Applied)));
    more := ls + [TaskStep(tk, TPatch(Applied))];
    assert Patched(t.status, t.status, done) == done;
  }

  /** Some continuation completes the Task. */
  ghost predicate CanComplete(s0: Sys, ls: seq<Label>, tk: Key) {
    exists more :: Run(s0, ls + more) && tk in After(s0, ls + more).tasks
      && TaskDone(After(s0, ls + more).tasks[tk].status)
  }

  /** Exactly when an overdue Task can still be Completed: if and only if a
      reconcile of it read the clock before the deadline and is still in flight,
      polling, about to read the clock again or about to persist the Completed
      status. */
  lemma OverdueCompletes(s0: Sys, ls: seq<Label>, tk: Key)
    requires Initial(s0) && Run(s0, ls) && Overdue(After(s0, ls), tk)
    ensures CanComplete(s0, ls, tk) <==> PastCheck(TaskPcAt(After(s0, ls), tk))
  {
    var s := After(s0, ls);
    if PastCheck(TaskPcAt(s, tk)) {
      Shapes.Always(s0, ls);
      var more := ConfirmFrom(s, tk);
      Achievable.Compose(s0, ls, more);
      assert CanComplete(s0, ls, tk);
    } else {
      forall more | Run(s0, ls + more) && tk in After(s0, ls + more).tasks
        ensures !TaskDone(After(s0, ls + more).tasks[tk].status)
      {
        TimesOutExactly(s0, ls, more, tk);
        var s' := After(s0, ls + more);
        Outcomes(s.tasks[tk].status, s'.tasks[tk].status, s'.clock);
      }
    }
  }

  // ---- Without faults ----

  /** No reconcile of the Task since s has ended without timing out. */
  ghost predicate Decided(s: Sys, s': Sys, tk: Key, gets: nat)
    requires tk in s.tasks
  {
    && tk in s'.tasks && !s'.tasks[tk].deleting
    && (TaskPcAt(s', tk).TIdle? && gets > 0 ==> s'.tasks[tk].status != s.tasks[tk].status)
    && !NotConnected(s.tasks[tk].status, s'.tasks[tk].status)
    && (TaskPcAt(s', tk).TPatching? ==> !NotConnected(s.tasks[tk].status, TaskPcAt(s', tk).current))
  }

  ghost predicate Expired(s: Sys, tk: Key) {
    Overdue(s, tk) && TaskPcAt(s, tk).TIdle? && !s.tasks[tk].deleting
  }

  lemma DecidedNow(s: Sys, s1: Sys, tk: Key, own: seq<Label>, since: nat, gets: nat)
    requires Shapes.Inv(s1) && TaskEnabled(s1, tk, TNow(s1.clock)) && Expired(s, tk)
    requires Expiring(s, s1, tk, own, since) && Decided(s, s1, tk, gets)
    ensures Decided(s, Next(s1, TaskStep(tk, TNow(s1.clock))), tk, gets)
  {
    var st, s2 := s.tasks[tk].status, Next(s1, TaskStep(tk, TNow(s1.clock)));
    assert TaskPcOk(s1.tasks, tk, TaskPcAt(s1, tk), s1.clock);
    NowOverruns(s1, tk, st);
    Outcomes(st, TaskPcAt(s2, tk).current, s2.clock);
  }

  lemma NowOverruns(s1: Sys, tk: Key, st: Status)
    requires TaskPcAt(s1, tk).TOpened? && TaskPcAt(s1, tk).task.status == st && st.startTime.Some?
    requires s1.clock >= st.startTime.value + 600_000_000_000
    ensures
      var s2 := Next(s1, TaskStep(tk, TNow(s1.clock)));
      s2.tasks == s1.tasks && TaskPcAt(s2, tk).TPatching? && Overran(st, TaskPcAt(s2, tk).current, s2.clock)
  {
    var s2 := Next(s1, TaskStep(tk, TNow(s1.clock)));
    assert OverranBy(st, TaskPcAt(s2, tk).current, s2.clock, s1.clock - st.startTime.value);
  }

  lemma DecidedOwn(s: Sys, s1: Sys, m: TaskMove, tk: Key, own: seq<Label>, since: nat, gets: nat)
    requires Shapes.Inv(s1) && TaskEnabled(s1, tk, m) && !MoveFaulty(m) && Expired(s, tk)
    requires Expiring(s, s1, tk, own, since) && Decided(s, s1, tk, gets)
    ensures Decided(s, Next(s1, TaskStep(tk, m)), tk, if m == TGet(true) then gets + 1 else gets)
  {
    assert TaskPcOk(s1.tasks, tk, TaskPcAt(s1, tk), s1.clock);
    if m.TNow? {
      DecidedNow(s, s1, tk, own, since, gets);
    } else {
      TaskStepShape(s1, tk, m);
    }
  }

  lemma DecidedStep(s: Sys, s1: Sys, l: Label, tk: Key, own: seq<Label>, since: nat, gets: nat)
    requires Shapes.Inv(s1) && Enabled(s1, l) && !Faulty(l, tk) && Expired(s, tk)
    requires Expiring(s, s1, tk, own, since) && Decided(s, s1, tk, gets)
    ensures Decided(s, Next(s1, l), tk, if l == TaskStep(tk, TGet(true)) then gets + 1 else gets)
  {
    if ActorOf(l) == Some(TaskActor(tk)) {
      DecidedOwn(s, s1, l.taskMove, tk, own, since, gets);
    } else {
      OtherAside(s1, l, tk);
    }
  }

  lemma {:induction false} AlwaysDecided(s0: Sys, ls: seq<Label>, more: seq<Label>, tk: Key)
    requires Initial(s0) && Run(s0, ls) && Run(s0, ls + more) && Expired(After(s0, ls), tk) && FaultFree(more, tk)
    ensures Decided(After(s0, ls), After(s0, ls + more), tk, Gets(more, tk))
    decreases |more|
  {
    var s := After(s0, ls);
    if more == [] {
      assert ls + more == ls;
      Outcomes(s.tasks[tk].status, s.tasks[tk].status, s.clock);
    } else {
      var front, l := more[..|more| - 1], more[|more| - 1];
      assert (ls + more)[..|ls + more| - 1] == ls + front;
      assert l in more;
      AlwaysDecided(s0, ls, front, tk);
      AlwaysExpiring(s0, ls, front, tk);
      Shapes.Always(s0, ls + front);
      DecidedStep(
        s, After(s0, ls + front), l, tk, OwnSteps(ls, front, tk), |Own(ls, TaskActor(tk))|, Gets(front, tk));
    }
  }

  /** Without faults, one reconcile is enough: once one has begun for an overdue
      Task that was idle, the Task has timed out or that reconcile is still in flight. */
  lemma TimesOutWithoutFaults(s0: Sys, ls: seq<Label>, more: seq<Label>, tk: Key)
    requires Initial(s0) && Run(s0, ls) && Run(s0, ls + more) && Expired(After(s0, ls), tk)
    requires FaultFree(more, tk) && Gets(more, tk) >= 1
    ensures
      var s, s' := After(s0, ls), After(s0, ls + more);
      && tk in s'.tasks
      && (Overran(s.tasks[tk].status, s'.tasks[tk].status, s'.clock) || !TaskPcAt(s', tk).TIdle?)
  {
    AlwaysDecided(s0, ls, more, tk);
    AlwaysExpiring(s0, ls, more, tk);
  }
}
