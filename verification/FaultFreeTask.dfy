/** What every reconcile of a Task achieves when none of its own calls fails,
    whatever everybody else does between them. */
module FaultFreeTask {
  import opened Options
  import opened Conditions
  import opened Statuses
  import opened Bmc
  import opened Protocol
  import opened TaskNames
  import opened StatusInvariant
  import opened RunLog
  import Shapes = StatusInvariant
  import Logged = LogInvariant
  import TaskStory
  import Theorems

  // ---- Faults ----

  /** A step of the Task's reconcile that fails or cuts it off, or the Task's deletion. */
  predicate Faulty(l: Label, tk: Key) {
    match l
    case User(DeleteTask(k)) => k == tk
    case TaskStep(k, m) => k == tk && MoveFaulty(m)
    case _ => false
  }

  predicate MoveFaulty(m: TaskMove) {
    match m
    case TGet(found) => !found
    case TSecrets(resolved) => !resolved
    case TOpen(failure) => failure.Some?
    case TNow(_) => false
    case TCommand(_, error) => error.Some?
    case TPanic => true
    case TPower(reading) => reading.None?
    case TPatch(o) => o != Applied
    case TCut => true
  }

  ghost predicate FaultFree(ls: seq<Label>, tk: Key) {
    forall l :: l in ls ==> !Faulty(l, tk)
  }

  // ---- Steps of everybody else ----

  /** Nothing about the Task happened but time passing. */
  ghost predicate Aside(s: Sys, s': Sys, tk: Key) {
    && s.clock <= s'.clock
    && TaskPcAt(s', tk) == TaskPcAt(s, tk)
    && (tk in s.tasks ==> tk in s'.tasks && s'.tasks[tk] == s.tasks[tk])
    && Sightings(s'.log, tk) == Sightings(s.log, tk)
    && Losses(s'.log, tk) == Losses(s.log, tk)
  }

  lemma QuietAside(log: seq<Event>, events: seq<Event>, tk: Key)
    requires forall e :: e in events ==> e.CreateFailed? || e.task != tk
    ensures Sightings(log + events, tk) == Sightings(log, tk) && Losses(log + events, tk) == Losses(log, tk)
  {
    SightingsAppend(log, events, tk);
    NoSightings(events, tk);
    RunsAppend(log, events, tk);
    NoLosses(events, tk);
  }

  lemma {:induction false} NoLosses(events: seq<Event>, tk: Key)
    requires forall e :: e in events ==> !e.RunLost? || e.task != tk
    ensures Losses(events, tk) == 0
  {
    if events != [] {
      assert events[|events| - 1] in events;
      NoLosses(events[..|events| - 1], tk);
    }
  }

  lemma OtherTaskAside(s: Sys, k: Key, m: TaskMove, tk: Key)
    requires TaskEnabled(s, k, m) && k != tk
    ensures Aside(s, Next(s, TaskStep(k, m)), tk)
  {
    Logged.TaskEventsAbout(s, k, m);
    QuietAside(s.log, TaskEffectOf(s, k, m).events, tk);
  }

  lemma JobAside(s: Sys, jk: Key, m: JobMove, tk: Key)
    requires Shapes.Inv(s) && JobEnabled(s, jk, m)
    ensures Aside(s, Next(s, JobStep(jk, m)), tk)
  {
    JobStepWrites(s, jk, m);
    QuietAside(s.log, JobEffectOf(s, jk, m).events, tk);
  }

  lemma UserAside(s: Sys, m: UserMove, tk: Key)
    requires UserEnabled(s, m) && m != DeleteTask(tk)
    ensures Aside(s, Next(s, User(m)), tk)
  {
  }

  lemma OtherAside(s: Sys, l: Label, tk: Key)
    requires Shapes.Inv(s) && Enabled(s, l) && ActorOf(l) != Some(TaskActor(tk)) && l != User(DeleteTask(tk))
    ensures Aside(s, Next(s, l), tk)
  {
    match l
    case User(m) => UserAside(s, m, tk);
    case JobStep(jk, m) => JobAside(s, jk, m, tk);
    case TaskStep(k, m) => OtherTaskAside(s, k, m, tk);
  }

  // ---- What a reconcile amounts to ----

  ghost predicate Unseen(s: Sys, s': Sys, tk: Key) {
    Sightings(s'.log, tk) == Sightings(s.log, tk)
  }

  /** What a check of an action answers: for a power action by a reading, for any other without one. */
  predicate Answers(a: Action, reading: Option<string>, met: bool) {
    match a.power
    case None => reading.None? && met
    case Some(p) => reading.Some? && (met <==> TaskStory.Shows(p, reading.value))
  }

  /** Exactly one check of the Task was made meanwhile, within its deadline, and answered met. */
  ghost predicate SawOnce(s: Sys, s': Sys, tk: Key, met: bool)
    requires tk in s.tasks
  {
    var before, after := Sightings(s.log, tk), Sightings(s'.log, tk);
    && |after| == |before| + 1 && after[..|before|] == before
    && var e := after[|before|];
       && Meanwhile(s, s', e.sampled) && InTime(s.tasks[tk].status, e.sampled)
       && e.met == met && Answers(s.tasks[tk].action, e.reading, met)
  }

  ghost predicate Began(s: Sys, s': Sys, current: Status) {
    current.startTime.Some? && current == Status([], current.startTime, None)
      && Meanwhile(s, s', current.startTime.value)
  }

  ghost predicate TimedOut(s: Sys, s': Sys, before: Status, after: Status, elapsed: nat) {
    && before.startTime.Some? && elapsed >= 600_000_000_000 && Meanwhile(s, s', before.startTime.value + elapsed)
    && after == With(before, Failed, Some("bmc task timeout: " + Decimal(elapsed)))
  }

  ghost predicate Finished(s: Sys, s': Sys, before: Status, after: Status) {
    && after.completionTime.Some? && Meanwhile(s, s', after.completionTime.value)
    && after == With(before.(completionTime := after.completionTime), Completed, None)
  }

  /** All that a fault-free reconcile of a Task can come to, between s and s'. */
  ghost predicate TaskOutcome(s: Sys, s': Sys, tk: Key, current: Status, answer: Answer)
    requires tk in s.tasks
  {
    var st := s.tasks[tk].status;
    if st.startTime.None? then answer == Done && Unseen(s, s', tk) && Began(s, s', current)
    else match answer
      case Error => Unseen(s, s', tk) && exists elapsed: nat :: TimedOut(s, s', st, current, elapsed)
      case Done => SawOnce(s, s', tk, true) && Finished(s, s', st, current)
      case Requeue(after) => after == 3_000_000_000 && SawOnce(s, s', tk, false) && current == st
      case _ => false
  }

  /** Where such a reconcile of the Task stands at s', given its own steps since s. */
  ghost predicate Phase(s: Sys, s': Sys, tk: Key, own: seq<Label>)
    requires tk in s.tasks
  {
    var t, pc := s.tasks[tk], TaskPcAt(s', tk);
    && tk in s'.tasks && s.clock <= s'.clock && Losses(s'.log, tk) == Losses(s.log, tk)
    && if own == [] then pc.TIdle? && s'.tasks[tk] == t && Unseen(s, s', tk)
       else if pc.TIdle? then
         s'.tasks[tk] == t.(status := s'.tasks[tk].status) && TaskOutcome(s, s', tk, s'.tasks[tk].status, pc.last)
       else
         && s'.tasks[tk] == t && pc.task == t
         && match pc
            case TPolling(_, at) => Unseen(s, s', tk) && Meanwhile(s, s', at) && InTime(t.status, at)
              && t.action.power.Some?
            case TConfirmed(_, at) => t.status.startTime.Some? && SawOnce(s, s', tk, true)
            case TRunning(_, current, _) => t.status.startTime.None? && Unseen(s, s', tk) && Began(s, s', current)
            case TPatching(_, current, answer) => TaskOutcome(s, s', tk, current, answer)
            case _ => Unseen(s, s', tk)
  }

  lemma OutcomeKept(s: Sys, s1: Sys, s2: Sys, tk: Key, current: Status, answer: Answer)
    requires tk in s.tasks && TaskOutcome(s, s1, tk, current, answer)
    requires s1.clock <= s2.clock && Sightings(s2.log, tk) == Sightings(s1.log, tk)
    ensures TaskOutcome(s, s2, tk, current, answer)
  {
    if s.tasks[tk].status.startTime.Some? && answer == Error {
      var elapsed: nat :| TimedOut(s, s1, s.tasks[tk].status, current, elapsed);
      assert TimedOut(s, s2, s.tasks[tk].status, current, elapsed);
    }
  }

  lemma PhaseKept(s: Sys, s1: Sys, s2: Sys, tk: Key, own: seq<Label>)
    requires tk in s.tasks && Phase(s, s1, tk, own) && Aside(s1, s2, tk)
    ensures Phase(s, s2, tk, own)
  {
    var pc := TaskPcAt(s1, tk);
    if own != [] && pc.TIdle? {
      OutcomeKept(s, s1, s2, tk, s1.tasks[tk].status, pc.last);
    } else if pc.TPatching? {
      OutcomeKept(s, s1, s2, tk, pc.current, pc.answer);
    }
  }

  ghost predicate Fetchable(s: Sys, tk: Key) {
    && tk in s.tasks && TaskPcAt(s, tk).TIdle? && !s.tasks[tk].deleting
    && (TaskFresh(s.tasks[tk].status) || TaskStarted(s.tasks[tk].status))
  }

  /** A step that writes nothing: the reconcile moves to pc and logs events. */
  ghost predicate Moved(s1: Sys, s2: Sys, tk: Key, pc: TaskPc, events: seq<Event>) {
    s2.clock == s1.clock && s2.tasks == s1.tasks && s2.log == s1.log + events && TaskPcAt(s2, tk) == pc
  }

  lemma UncheckedLogged(log: seq<Event>, events: seq<Event>, tk: Key)
    requires forall e :: e in events ==> !e.RunLost? && !e.Checked?
    ensures Losses(log + events, tk) == Losses(log, tk) && Sightings(log + events, tk) == Sightings(log, tk)
  {
    SightingsAppend(log, events, tk);
    NoSightings(events, tk);
    RunsAppend(log, events, tk);
    NoLosses(events, tk);
  }

  lemma CheckLogged(log: seq<Event>, e: Event, tk: Key)
    requires e.Checked? && e.task == tk
    ensures Losses(log + [e], tk) == Losses(log, tk) && Sightings(log + [e], tk) == Sightings(log, tk) + [e]
  {
    assert (log + [e])[..|log + [e]| - 1] == log;
  }

  /** The connection is open and there is no StartTime. */
  lemma PhaseBegins(s: Sys, s1: Sys, s2: Sys, tk: Key, own: seq<Label>, own': seq<Label>)
    requires Fetchable(s, tk) && own != [] && own' != [] && Phase(s, s1, tk, own) && TaskPcAt(s1, tk).TOpened?
    requires s.tasks[tk].status.startTime.None?
    requires var e := TaskOpenedEffect(tk, s.tasks[tk], s1.clock); Moved(s1, s2, tk, e.pc, e.events)
    ensures Phase(s, s2, tk, own')
  {
    UncheckedLogged(s1.log, TaskOpenedEffect(tk, s.tasks[tk], s1.clock).events, tk);
  }

  /** The connection is open and the Task past its deadline. */
  lemma PhaseExpires(s: Sys, s1: Sys, s2: Sys, tk: Key, own: seq<Label>, own': seq<Label>)
    requires Fetchable(s, tk) && own != [] && own' != [] && Phase(s, s1, tk, own) && TaskPcAt(s1, tk).TOpened?
    requires s.tasks[tk].status.startTime.Some? && s1.clock - s.tasks[tk].status.startTime.value >= 600_000_000_000
    requires var e := TaskOpenedEffect(tk, s.tasks[tk], s1.clock); Moved(s1, s2, tk, e.pc, e.events)
    ensures Phase(s, s2, tk, own')
  {
    UncheckedLogged(s1.log, [], tk);
    var st := s.tasks[tk].status;
    assert TimedOut(s, s2, st, TaskPcAt(s2, tk).current, s1.clock - st.startTime.value);
  }

  lemma SeenOnce(s: Sys, s1: Sys, s2: Sys, tk: Key, e: Event)
    requires tk in s.tasks && Unseen(s, s1, tk) && s2.log == s1.log + [e] && s1.clock <= s2.clock
    requires e.Checked? && e.task == tk && Meanwhile(s, s1, e.sampled) && InTime(s.tasks[tk].status, e.sampled)
    requires Answers(s.tasks[tk].action, e.reading, e.met)
    ensures SawOnce(s, s2, tk, e.met) && Losses(s2.log, tk) == Losses(s1.log, tk)
  {
    CheckLogged(s1.log, e, tk);
  }

  /** The connection is open and the Task within its deadline. */
  lemma PhaseOngoing(s: Sys, s1: Sys, s2: Sys, tk: Key, own: seq<Label>, own': seq<Label>)
    requires Fetchable(s, tk) && own != [] && own' != [] && Phase(s, s1, tk, own) && TaskPcAt(s1, tk).TOpened?
    requires s.tasks[tk].status.startTime.Some? && s1.clock - s.tasks[tk].status.startTime.value < 600_000_000_000
    requires s.tasks[tk].status.startTime.value <= s1.clock
    requires var e := TaskOpenedEffect(tk, s.tasks[tk], s1.clock); Moved(s1, s2, tk, e.pc, e.events)
    ensures Phase(s, s2, tk, own')
  {
    if s.tasks[tk].action.power.Some? {
      UncheckedLogged(s1.log, [], tk);
    } else {
      SeenOnce(s, s1, s2, tk, Checked(tk, s1.clock, None, true));
    }
  }

  /** The reading of the clock that makes the CompletionTime. */
  lemma PhaseConfirmed(s: Sys, s1: Sys, s2: Sys, tk: Key, own: seq<Label>, own': seq<Label>)
    requires Fetchable(s, tk) && own != [] && own' != [] && Phase(s, s1, tk, own) && TaskPcAt(s1, tk).TConfirmed?
    requires
      var t := s.tasks[tk];
      Moved(s1, s2, tk, TPatching(t, With(t.status.(completionTime := Some(s1.clock)), Completed, None), Done), [])
    ensures Phase(s, s2, tk, own')
  {
    assert s2.log == s1.log;
  }

  lemma PhasePatched(s: Sys, s1: Sys, s2: Sys, tk: Key, own: seq<Label>, own': seq<Label>)
    requires Fetchable(s, tk) && own != [] && own' != [] && Phase(s, s1, tk, own) && TaskPcAt(s1, tk).TPatching?
    requires
      var pc := TaskPcAt(s1, tk);
      && s2.clock == s1.clock && s2.log == s1.log && TaskPcAt(s2, tk) == TIdle(pc.answer)
      && s2.tasks == s1.tasks[tk := s1.tasks[tk].(status := pc.current)]
    ensures Phase(s, s2, tk, own')
  {
    var pc := TaskPcAt(s1, tk);
    OutcomeKept(s, s1, s2, tk, pc.current, pc.answer);
  }

  lemma PhasePower(s: Sys, s1: Sys, s2: Sys, tk: Key, own: seq<Label>, own': seq<Label>, raw: string)
    requires Fetchable(s, tk) && own != [] && own' != [] && Phase(s, s1, tk, own) && TaskPcAt(s1, tk).TPolling?
    requires
      var pc := TaskPcAt(s1, tk);
      var met := Meets(s.tasks[tk].action.power.value, raw);
      Moved(s1, s2, tk, if met then TConfirmed(pc.task, pc.sampled)
        else TIdle(Requeue(3_000_000_000)), [Checked(tk, pc.sampled, Some(raw), met)])
    ensures Phase(s, s2, tk, own')
  {
    TaskStory.ShowsIsMeets(s.tasks[tk].action.power.value, raw);
    SeenOnce(s, s1, s2, tk, Checked(tk, TaskPcAt(s1, tk).sampled, Some(raw),
      Meets(s.tasks[tk].action.power.value, raw)));
  }

  lemma PhaseCommand(s: Sys, s1: Sys, s2: Sys, tk: Key, own: seq<Label>, own': seq<Label>)
    requires Fetchable(s, tk) && own != [] && own' != [] && Phase(s, s1, tk, own) && TaskPcAt(s1, tk).TRunning?
    requires TaskPcAt(s1, tk).issued < |Commands(s.tasks[tk].action)|
    requires var e := TaskCommandEffect(tk, TaskPcAt(s1, tk), None); Moved(s1, s2, tk, e.pc, e.events)
    ensures Phase(s, s2, tk, own')
  {
    UncheckedLogged(s1.log, TaskCommandEffect(tk, TaskPcAt(s1, tk), None).events, tk);
  }

  lemma PhaseNow(s: Sys, s1: Sys, tk: Key, own: seq<Label>, own': seq<Label>)
    requires Fetchable(s, tk) && own != [] && own' != [] && Phase(s, s1, tk, own) && TaskEnabled(s1, tk, TNow(s1.clock))
    requires NotAfter(s.tasks[tk].status.startTime, s.clock)
    ensures Phase(s, Next(s1, TaskStep(tk, TNow(s1.clock))), tk, own')
  {
    var st, s2 := s.tasks[tk].status, Next(s1, TaskStep(tk, TNow(s1.clock)));
    if TaskPcAt(s1, tk).TConfirmed? {
      PhaseConfirmed(s, s1, s2, tk, own, own');
    } else if st.startTime.None? {
      PhaseBegins(s, s1, s2, tk, own, own');
    } else if s1.clock - st.startTime.value >= 600_000_000_000 {
      PhaseExpires(s, s1, s2, tk, own, own');
    } else {
      PhaseOngoing(s, s1, s2, tk, own, own');
    }
  }

  /** The steps before the connection is open. */
  lemma PhaseEarly(s: Sys, s1: Sys, tk: Key, own: seq<Label>, own': seq<Label>, m: TaskMove)
    requires Fetchable(s, tk) && own' != [] && Phase(s, s1, tk, own) && TaskEnabled(s1, tk, m) && !MoveFaulty(m)
    requires (m.TGet? && own == []) || ((m.TSecrets? || m.TOpen?) && own != [])
    ensures Phase(s, Next(s1, TaskStep(tk, m)), tk, own')
  {
    assert s1.log + [] == s1.log;
  }

  lemma PatchApplied(s1: Sys, tk: Key)
    requires TaskEnabled(s1, tk, TPatch(Applied)) && s1.tasks[tk].status == TaskPcAt(s1, tk).task.status
    ensures
      var pc, s2 := TaskPcAt(s1, tk), Next(s1, TaskStep(tk, TPatch(Applied)));
      && s2.clock == s1.clock && s2.log == s1.log && TaskPcAt(s2, tk) == TIdle(pc.answer)
      && s2.tasks == s1.tasks[tk := s1.tasks[tk].(status := pc.current)]
  {
    var pc := TaskPcAt(s1, tk);
    assert Patched(pc.task.status, pc.task.status, pc.current) == pc.current;
    assert s1.log + [] == s1.log;
  }

  lemma PhasePatch(s: Sys, s1: Sys, tk: Key, own: seq<Label>, own': seq<Label>)
    requires Fetchable(s, tk) && own != [] && own' != [] && Phase(s, s1, tk, own)
    requires TaskEnabled(s1, tk, TPatch(Applied))
    ensures Phase(s, Next(s1, TaskStep(tk, TPatch(Applied))), tk, own')
  {
    PatchApplied(s1, tk);
    PhasePatched(s, s1, Next(s1, TaskStep(tk, TPatch(Applied))), tk, own, own');
  }

  lemma PhaseStep(s: Sys, s1: Sys, tk: Key, own: seq<Label>, own': seq<Label>, m: TaskMove)
    requires Fetchable(s, tk) && Phase(s, s1, tk, own) && TaskEnabled(s1, tk, m) && !MoveFaulty(m)
    requires own' != [] && (m.TGet? <==> own == []) && NotAfter(s.tasks[tk].status.startTime, s.clock)
    ensures Phase(s, Next(s1, TaskStep(tk, m)), tk, own')
  {
    var s2 := Next(s1, TaskStep(tk, m));
    match m
    case TNow(_) => PhaseNow(s, s1, tk, own, own');
    case TPatch(_) => PhasePatch(s, s1, tk, own, own');
    case TPower(reading) => PhasePower(s, s1, s2, tk, own, own', reading.value);
    case TCommand(_, _) => PhaseCommand(s, s1, s2, tk, own, own');
    case _ => PhaseEarly(s, s1, tk, own, own', m);
  }

  /** In every run, a fault-free reconcile is always somewhere along the way. */
  lemma {:induction false} AlwaysPhase(s0: Sys, ls: seq<Label>, more: seq<Label>, tk: Key)
    requires Initial(s0) && Run(s0, ls) && Run(s0, ls + more)
    requires Fetchable(After(s0, ls), tk) && FaultFree(more, tk) && AtMostOne(Own(more, TaskActor(tk)))
    ensures Phase(After(s0, ls), After(s0, ls + more), tk, Own(more, TaskActor(tk)))
    decreases |more|
  {
    if more == [] {
      assert ls + more == ls;
    } else {
      var front, l := more[..|more| - 1], more[|more| - 1];
      assert (ls + more)[..|ls + more| - 1] == ls + front;
      var s, s1, own := After(s0, ls), After(s0, ls + front), Own(front, TaskActor(tk));
      Shapes.Always(s0, ls + front);
      assert l in more;
      OwnFront(more, TaskActor(tk));
      AlwaysPhase(s0, ls, front, tk);
      if ActorOf(l) == Some(TaskActor(tk)) {
        Shapes.Always(s0, ls);
        PhaseStep(s, s1, tk, own, own + [l], l.taskMove);
      } else {
        OtherAside(s1, l, tk);
        PhaseKept(s, s1, Next(s1, l), tk, own);
      }
    }
  }

  // ---- Every fault-free reconcile ----

  /** From s to s' a Task that can be fetched was reconciled once, from the first
      call to the last, and no call of that reconcile failed. */
  ghost predicate Reconciled(s0: Sys, ls: seq<Label>, more: seq<Label>, tk: Key) {
    && Initial(s0) && Run(s0, ls) && Run(s0, ls + more)
    && Fetchable(After(s0, ls), tk) && FaultFree(more, tk)
    && OneReconcile([], Own(more, TaskActor(tk))) && TaskPcAt(After(s0, ls + more), tk).TIdle?
  }

  /** Whatever the others do meanwhile, it comes to one of the outcomes, and that is what is stored. */
  lemma TaskReconciled(s0: Sys, ls: seq<Label>, more: seq<Label>, tk: Key)
    requires Reconciled(s0, ls, more, tk)
    ensures
      var s, s' := After(s0, ls), After(s0, ls + more);
      && tk in s'.tasks && s'.tasks[tk] == s.tasks[tk].(status := s'.tasks[tk].status)
      && TaskOutcome(s, s', tk, s'.tasks[tk].status, TaskPcAt(s', tk).last)
      && Losses(s'.log, tk) == Losses(s.log, tk)
  {
    AlwaysPhase(s0, ls, more, tk);
  }

  /** Every fault-free reconcile of a new Task runs its action once, all commands
      in order without error, and persists exactly the StartTime. */
  lemma ReconcileRuns(s0: Sys, ls: seq<Label>, more: seq<Label>, tk: Key)
    requires Reconciled(s0, ls, more, tk) && TaskFresh(After(s0, ls).tasks[tk].status)
    ensures
      var s, s' := After(s0, ls), After(s0, ls + more);
      && tk in s'.tasks && Began(s, s', s'.tasks[tk].status) && TaskPcAt(s', tk) == TIdle(Done)
      && Runs(s'.log, tk) == Runs(s.log, tk) + 1 && Returned(s'.log, tk, s.tasks[tk].action)
  {
    TaskReconciled(s0, ls, more, tk);
    Theorems.ExecutionCount(s0, ls, tk);
    Theorems.ExecutionCount(s0, ls + more, tk);
    Logged.Always(s0, ls + more);
  }

  /** Every fault-free reconcile of a started Task that ends within the deadline
      makes one check. It persists the Task as Completed if and only if the check
      is met, and otherwise changes nothing and asks to come back. */
  lemma ReconcileChecks(s0: Sys, ls: seq<Label>, more: seq<Label>, tk: Key)
    requires Reconciled(s0, ls, more, tk) && TaskStarted(After(s0, ls).tasks[tk].status)
    requires After(s0, ls + more).clock < After(s0, ls).tasks[tk].status.startTime.value + 600_000_000_000
    ensures
      var s, s' := After(s0, ls), After(s0, ls + more);
      var met := TaskPcAt(s', tk) == TIdle(Done);
      && tk in s'.tasks && SawOnce(s, s', tk, met)
      && if met then Finished(s, s', s.tasks[tk].status, s'.tasks[tk].status)
         else s'.tasks[tk].status == s.tasks[tk].status && TaskPcAt(s', tk) == TIdle(Requeue(3_000_000_000))
  {
    TaskReconciled(s0, ls, more, tk);
  }

  /** Every fault-free reconcile of a Task past its deadline persists it as
      Failed, with the time elapsed, without reading the BMC. */
  lemma ReconcileTimesOut(s0: Sys, ls: seq<Label>, more: seq<Label>, tk: Key)
    requires Reconciled(s0, ls, more, tk) && TaskStarted(After(s0, ls).tasks[tk].status)
    requires After(s0, ls).clock >= After(s0, ls).tasks[tk].status.startTime.value + 600_000_000_000
    ensures
      var s, s' := After(s0, ls), After(s0, ls + more);
      && tk in s'.tasks && Unseen(s, s', tk) && TaskPcAt(s', tk) == TIdle(Error)
      && exists elapsed: nat :: TimedOut(s, s', s.tasks[tk].status, s'.tasks[tk].status, elapsed)
  {
    TaskReconciled(s0, ls, more, tk);
  }
}
