/** What a reconcile of a Task is, told by its own calls: every one that ends, with
    whatever outcomes and whatever others do meanwhile, is one of a few sequences of
    calls, each with the effect it has on the store and the answer it gives. */
module TaskStory {
  import opened Options
  import opened Conditions
  import opened Statuses
  import opened Bmc
  import opened TaskNames
  import opened Protocol
  import opened StatusInvariant
  import Shapes = StatusInvariant

  // ---- Segments ----

  /** The steps of the last reconcile, from its Get on. */
  ghost function Segment(own: seq<Label>): seq<Label> {
    if own == [] then []
    else
      var l := own[|own| - 1];
      if Begins(l) then [l] else Segment(own[..|own| - 1]) + [l]
  }

  /** The steps of an actor's last reconcile in a run. */
  ghost function LastReconcile(ls: seq<Label>, a: Actor): seq<Label> {
    Segment(Own(ls, a))
  }

  lemma LastReconcileStep(ls: seq<Label>, a: Actor)
    requires ls != []
    ensures
      var before, l := LastReconcile(ls[..|ls| - 1], a), ls[|ls| - 1];
      LastReconcile(ls, a) ==
        if ActorOf(l) != Some(a) then before else if Begins(l) then [l] else before + [l]
  {
    var own, l := Own(ls[..|ls| - 1], a), ls[|ls| - 1];
    if ActorOf(l) == Some(a) {
      assert Own(ls, a) == own + [l];
      assert (own + [l])[..|own + [l]| - 1] == own;
    } else {
      assert Own(ls, a) == own + [] == own;
    }
  }

  // ---- Sequences of calls ----

  /** From the Get to the connection: with the secret for the user and password,
      or with the HMAC secrets if there are any to resolve. */
  function Connecting(tk: Key, t: Task): seq<Label> {
    match t.connection.credentials
    case AuthSecret(_) => [TaskStep(tk, TGet(true)), TaskStep(tk, TSecrets(true))]
    case RpcSecrets(hmac) =>
      if hmac == map[] then [TaskStep(tk, TGet(true))]
      else [TaskStep(tk, TGet(true)), TaskStep(tk, TSecrets(true))]
  }

  function Opening(tk: Key, t: Task): seq<Label> {
    Connecting(tk, t) + [TaskStep(tk, TOpen(None))]
  }

  /** The connection open, the clock read. */
  function Sampling(tk: Key, t: Task, now: Time): seq<Label> {
    Opening(tk, t) + [TaskStep(tk, TNow(now))]
  }

  /** What runTask has to issue: the power state, then the first boot device for
      the next boot only, then the virtual media. */
  function Plan(a: Action): seq<Command> {
    (match a.power case None => [] case Some(p) => [SetPower(p)])
    + (match a.boot
       case None => []
       case Some(b) => if |b.devices| == 0 then [NoDevice] else [SetBootDevice(b.devices[0], false, b.efiBoot)])
    + (match a.media case None => [] case Some(m) => [SetVirtualMedia(m.kind, m.url)])
  }

  /** These commands, all of them succeeding. */
  function Issued(tk: Key, cs: seq<Command>): seq<Label> {
    seq(|cs|, i requires 0 <= i < |cs| => TaskStep(tk, TCommand(cs[i], None)))
  }

  /** Whether a reading lets a power action's Task complete: "on" waits for On, "off"
      and "soft" wait for Off, and the others for nothing. */
  predicate Shows(p: PowerAction, raw: string) {
    && (p == PowerOn ==> ReadsOn(raw))
    && (p == PowerHardOff || p == PowerSoftOff ==> !ReadsOn(raw) && ReadsOff(raw))
  }

  lemma ShowsIsMeets(p: PowerAction, raw: string)
    ensures Shows(p, raw) <==> Meets(p, raw)
  {
    PowerStateIs(raw);
  }

  /** Less than ten minutes since the StartTime. */
  predicate Within(st: Status, at: Time) {
    st.startTime.Some? && at as int - st.startTime.value as int < 600_000_000_000
  }

  /** The check made: a reading for a power action, nothing for any other. */
  ghost predicate Checking(tk: Key, t: Task, at: Time, seg: seq<Label>) {
    match t.action.power
    case None => seg == Sampling(tk, t, at)
    case Some(p) =>
      && |seg| == |Sampling(tk, t, at)| + 1 && seg[..|seg| - 1] == Sampling(tk, t, at)
      && seg[|seg| - 1].TaskStep? && seg[|seg| - 1].taskMove.TPower? && seg[|seg| - 1].task == tk
      && seg[|seg| - 1].taskMove.reading.Some? && Shows(p, seg[|seg| - 1].taskMove.reading.value)
  }

  predicate FailedWith(start: Option<Time>, after: Status, message: string) {
    after == Status([Condition(Failed, True, message)], start, None)
  }

  // ---- The five ways to a patch ----

  ghost predicate Started(tk: Key, t: Task, seg: seq<Label>, current: Status, answer: Answer) {
    && t.status.startTime.None? && current.startTime.Some? && NoDevice !in Plan(t.action)
    && seg == Sampling(tk, t, current.startTime.value) + Issued(tk, Plan(t.action))
    && current == Status([], current.startTime, None) && answer == Done
  }

  function CommandMessage(c: Command, error: string): string {
    (match c
     case SetPower(_) => "failed to perform PowerAction: "
     case SetBootDevice(_, _, _) => "failed to perform OneTimeBootDeviceAction: "
     case SetVirtualMedia(_, _) => "failed to perform SetVirtualMedia: "
     case NoDevice => "") + error
  }

  /** The k-th command returned this error. */
  ghost predicate CommandFailedAt(tk: Key, t: Task, seg: seq<Label>, current: Status, k: nat, error: string) {
    && t.status.startTime.None? && current.startTime.Some?
    && k < |Plan(t.action)| && NoDevice !in Plan(t.action)[..k + 1]
    && seg == Sampling(tk, t, current.startTime.value) + Issued(tk, Plan(t.action)[..k])
         + [TaskStep(tk, TCommand(Plan(t.action)[k], Some(error)))]
    && FailedWith(current.startTime, current, CommandMessage(Plan(t.action)[k], error))
  }

  ghost predicate CommandFailed(tk: Key, t: Task, seg: seq<Label>, current: Status, answer: Answer) {
    answer == Error && exists k: nat, error: string :: CommandFailedAt(tk, t, seg, current, k, error)
  }

  ghost predicate NoConnectionBy(tk: Key, t: Task, seg: seq<Label>, current: Status, error: string) {
    && seg == Connecting(tk, t) + [TaskStep(tk, TOpen(Some(error)))]
    && FailedWith(t.status.startTime, current, "Failed to connect to BMC: " + error)
  }

  ghost predicate NoConnection(tk: Key, t: Task, seg: seq<Label>, current: Status, answer: Answer) {
    answer == Error && exists error: string :: NoConnectionBy(tk, t, seg, current, error)
  }

  ghost predicate TimedOutAt(tk: Key, t: Task, seg: seq<Label>, current: Status, now: Time) {
    && t.status.startTime.Some? && now as int - t.status.startTime.value as int >= 600_000_000_000
    && seg == Sampling(tk, t, now)
    && FailedWith(t.status.startTime, current, "bmc task timeout: " + Decimal(now - t.status.startTime.value))
  }

  ghost predicate TimedOut(tk: Key, t: Task, seg: seq<Label>, current: Status, answer: Answer) {
    answer == Error && exists now: Time :: TimedOutAt(tk, t, seg, current, now)
  }

  ghost predicate CompletedAt(tk: Key, t: Task, seg: seq<Label>, current: Status, at: Time) {
    && Within(t.status, at) && current.completionTime.Some?
    && seg != [] && seg[|seg| - 1] == TaskStep(tk, TNow(current.completionTime.value))
    && Checking(tk, t, at, seg[..|seg| - 1])
    && current == Status([Condition(Completed, True, "")], t.status.startTime, current.completionTime)
  }

  ghost predicate CompletedBy(tk: Key, t: Task, seg: seq<Label>, current: Status, answer: Answer) {
    answer == Done && exists at: Time :: CompletedAt(tk, t, seg, current, at)
  }

  /** What led to the status to be patched, and the answer if the patch succeeds. */
  ghost predicate Verdict(tk: Key, t: Task, seg: seq<Label>, current: Status, answer: Answer) {
    || Started(tk, t, seg, current, answer)
    || CommandFailed(tk, t, seg, current, answer)
    || NoConnection(tk, t, seg, current, answer)
    || TimedOut(tk, t, seg, current, answer)
    || CompletedBy(tk, t, seg, current, answer)
  }

  // ---- Along the way ----

  /** Whether the connection asks for secrets: for a user and password, or for HMAC secrets. */
  predicate NeedsAny(t: Task) {
    match t.connection.credentials
    case AuthSecret(_) => true
    case RpcSecrets(hmac) => hmac != map[]
  }

  /** Where a reconcile stands, by the calls it has made. */
  ghost predicate Along(tk: Key, pc: TaskPc, seg: seq<Label>) {
    match pc
    case TIdle(_) => true
    case TFetched(t) => seg == [TaskStep(tk, TGet(true))] && NeedsAny(t)
    case TOpening(t) => seg == Connecting(tk, t)
    case TOpened(t) => seg == Opening(tk, t)
    case TPolling(t, at) => seg == Sampling(tk, t, at) && Within(t.status, at) && t.action.power.Some?
    case TConfirmed(t, at) => Checking(tk, t, at, seg) && Within(t.status, at)
    case TRunning(t, current, i) =>
      && t.status.startTime.None? && current.startTime.Some? && i < |Plan(t.action)| && NoDevice !in Plan(t.action)[..i]
      && current == Status([], current.startTime, None)
      && seg == Sampling(tk, t, current.startTime.value) + Issued(tk, Plan(t.action)[..i])
    case TPatching(t, current, answer) => Verdict(tk, t, seg, current, answer)
  }

  lemma PlanIsCommands(a: Action)
    ensures Plan(a) == Commands(a)
  {
    CommandsAre(a);
  }

  /** A status that is neither Completed nor Failed, as far as it can be fetched. */
  predicate Unfinished(st: Status) {
    st.conditions == [] && st.completionTime.None?
  }

  lemma AlongNow(tk: Key, t: Task, seg: seq<Label>, now: Time)
    requires seg == Opening(tk, t) && Unfinished(t.status)
    requires t.status.startTime.Some? ==> t.status.startTime.value <= now
    ensures Along(tk, TaskOpenedEffect(tk, t, now).pc, seg + [TaskStep(tk, TNow(now))])
  {
    var seg' := seg + [TaskStep(tk, TNow(now))];
    PlanIsCommands(t.action);
    match t.status.startTime
    case Some(start) =>
      if now - start >= 600_000_000_000 {
        assert TimedOutAt(tk, t, seg', TaskOpenedEffect(tk, t, now).pc.current, now);
      }
    case None =>
      assert seg' == Sampling(tk, t, now) + Issued(tk, []);
      assert Plan(t.action)[..0] == [];
  }

  lemma AlongConfirmed(tk: Key, t: Task, at: Time, seg: seq<Label>, now: Time)
    requires Checking(tk, t, at, seg) && Within(t.status, at) && Unfinished(t.status)
    ensures
      var current := With(t.status.(completionTime := Some(now)), Completed, None);
      Along(tk, TPatching(t, current, Done), seg + [TaskStep(tk, TNow(now))])
  {
    var seg' := seg + [TaskStep(tk, TNow(now))];
    assert seg'[..|seg'| - 1] == seg;
    assert CompletedAt(tk, t, seg', With(t.status.(completionTime := Some(now)), Completed, None), at);
  }

  lemma AlongOpen(tk: Key, t: Task, seg: seq<Label>, failure: Option<string>)
    requires seg == Connecting(tk, t) && Unfinished(t.status)
    ensures
      var pc := match failure
        case None => TOpened(t)
        case Some(e) => Fail(t, t.status, "Failed to connect to BMC: " + e);
      Along(tk, pc, seg + [TaskStep(tk, TOpen(failure))])
  {
    if failure.Some? {
      var current := With(t.status, Failed, Some("Failed to connect to BMC: " + failure.value));
      assert NoConnectionBy(tk, t, seg + [TaskStep(tk, TOpen(failure))], current, failure.value);
    }
  }

  lemma OneMoreIssued(tk: Key, cs: seq<Command>, i: nat)
    requires i < |cs|
    ensures Issued(tk, cs[..i + 1]) == Issued(tk, cs[..i]) + [TaskStep(tk, TCommand(cs[i], None))]
    ensures i + 1 == |cs| ==> cs[..i + 1] == cs
  {
  }

  lemma AlongError(tk: Key, pc: TaskPc, seg: seq<Label>, error: string)
    requires pc.TRunning? && Along(tk, pc, seg) && Commands(pc.task.action) == Plan(pc.task.action)
    requires Plan(pc.task.action)[pc.issued] != NoDevice
    ensures
      var command := Plan(pc.task.action)[pc.issued];
      Along(tk, TaskCommandEffect(tk, pc, Some(error)).pc, seg + [TaskStep(tk, TCommand(command, Some(error)))])
  {
    var plan, i := Plan(pc.task.action), pc.issued;
    var seg' := seg + [TaskStep(tk, TCommand(plan[i], Some(error)))];
    assert plan[..i + 1] == plan[..i] + [plan[i]];
    assert CommandFailedAt(tk, pc.task, seg', TaskCommandEffect(tk, pc, Some(error)).pc.current, i, error);
  }

  lemma AlongIssued(tk: Key, pc: TaskPc, seg: seq<Label>)
    requires pc.TRunning? && Along(tk, pc, seg) && Commands(pc.task.action) == Plan(pc.task.action)
    requires Plan(pc.task.action)[pc.issued] != NoDevice
    ensures
      var command := Plan(pc.task.action)[pc.issued];
      Along(tk, TaskCommandEffect(tk, pc, None).pc, seg + [TaskStep(tk, TCommand(command, None))])
  {
    var plan, i := Plan(pc.task.action), pc.issued;
    assert plan[..i + 1] == plan[..i] + [plan[i]];
    assert i + 1 == |plan| ==> plan[..i + 1] == plan;
    IssuedAfter(tk, Sampling(tk, pc.task, pc.current.startTime.value), plan, i);
  }

  lemma IssuedAfter(tk: Key, calls: seq<Label>, cs: seq<Command>, i: nat)
    requires i < |cs|
    ensures calls + Issued(tk, cs[..i]) + [TaskStep(tk, TCommand(cs[i], None))] == calls + Issued(tk, cs[..i + 1])
  {
    OneMoreIssued(tk, cs, i);
    var issued, l := Issued(tk, cs[..i]), TaskStep(tk, TCommand(cs[i], None));
    assert calls + issued + [l] == calls + (issued + [l]);
  }

  lemma AlongPower(tk: Key, t: Task, at: Time, seg: seq<Label>, raw: string)
    requires seg == Sampling(tk, t, at) && t.action.power.Some? && Meets(t.action.power.value, raw)
    ensures Checking(tk, t, at, seg + [TaskStep(tk, TPower(Some(raw)))])
  {
    ShowsIsMeets(t.action.power.value, raw);
    var seg' := seg + [TaskStep(tk, TPower(Some(raw)))];
    assert seg'[..|seg'| - 1] == seg;
  }

  /** A reconcile goes on, or begins. */
  lemma AlongStep(s: Sys, tk: Key, m: TaskMove, seg: seq<Label>)
    requires Shapes.Inv(s) && TaskEnabled(s, tk, m) && Along(tk, TaskPcAt(s, tk), seg)
    ensures
      var l := TaskStep(tk, m);
      Along(tk, TaskPcAt(Next(s, l), tk), if Begins(l) then [l] else seg + [l])
  {
    var pc := TaskPcAt(s, tk);
    assert TaskPcOk(s.tasks, tk, pc, s.clock);
    match m
    case TGet(_) =>
    case TSecrets(_) =>
    case TOpen(failure) => AlongOpen(tk, pc.task, seg, failure);
    case TNow(now) =>
      if pc.TOpened? {
        AlongNow(tk, pc.task, seg, now);
      } else {
        AlongConfirmed(tk, pc.task, pc.sampled, seg, now);
      }
    case TCommand(_, error) =>
      PlanIsCommands(pc.task.action);
      if error.Some? {
        AlongError(tk, pc, seg, error.value);
      } else {
        AlongIssued(tk, pc, seg);
      }
    case TPower(reading) =>
      if reading.Some? && Meets(pc.task.action.power.value, reading.value) {
        AlongPower(tk, pc.task, pc.sampled, seg, reading.value);
      }
    case TPanic =>
    case TPatch(_) =>
    case TCut =>
  }

  lemma OtherPcs(s: Sys, l: Label, tk: Key)
    requires Enabled(s, l) && ActorOf(l) != Some(TaskActor(tk))
    ensures TaskPcAt(Next(s, l), tk) == TaskPcAt(s, tk)
  {
  }

  /** In every state of every run, a reconcile in flight has made the calls that lead to where it stands. */
  lemma {:induction false} AlwaysAlong(s0: Sys, ls: seq<Label>, tk: Key)
    requires Initial(s0) && Run(s0, ls)
    ensures Along(tk, TaskPcAt(After(s0, ls), tk), LastReconcile(ls, TaskActor(tk)))
  {
    if ls != [] {
      var front, l := ls[..|ls| - 1], ls[|ls| - 1];
      AlwaysAlong(s0, front, tk);
      Shapes.Always(s0, front);
      LastReconcileStep(ls, TaskActor(tk));
      if ActorOf(l) == Some(TaskActor(tk)) {
        AlongStep(After(s0, front), tk, l.taskMove, LastReconcile(front, TaskActor(tk)));
      } else {
        OtherPcs(After(s0, front), l, tk);
      }
    }
  }

  // ---- How a reconcile ends ----

  /** A reconcile that ended with its Get: the Task could not be fetched, or it is
      gone, being deleted, Failed or Completed. */
  ghost predicate EndsAtGet(s: Sys, tk: Key, found: bool, answer: Answer) {
    if !found then answer == Error
    else
      && answer == Done
      && (tk in s.tasks ==> s.tasks[tk].deleting || Is(s.tasks[tk].status, Failed) || Is(s.tasks[tk].status, Completed))
  }

  /** A patch: what it persists if it takes effect, and the answer. */
  ghost predicate EndsAtPatch(
      s: Sys, s': Sys, tk: Key, seg: seq<Label>, o: WriteOutcome, current: Status, answer: Answer) {
    && tk in s.tasks && Verdict(tk, s.tasks[tk], seg, current, answer)
    && s'.tasks == (if o == Refused then s.tasks else s.tasks[tk := s.tasks[tk].(status := current)])
    && TaskPcAt(s', tk) == TIdle(if o == Applied then answer else Error)
  }

  /** The commands before the boot device were issued, and it has none. */
  ghost predicate PanickedAt(tk: Key, t: Task, seg: seq<Label>, now: Time, k: nat) {
    && k < |Plan(t.action)| && Plan(t.action)[k] == NoDevice
    && seg == Sampling(tk, t, now) + Issued(tk, Plan(t.action)[..k])
  }

  /** The reconcile whose calls are seg + [TaskStep(tk, m)] ended with this step, from s to s'. */
  ghost predicate Ended(s: Sys, s': Sys, tk: Key, seg: seq<Label>, m: TaskMove) {
    && TaskPcAt(s', tk).TIdle? && (!m.TPatch? ==> s'.tasks == s.tasks)
    && match m
       case TGet(found) => EndsAtGet(s, tk, found, TaskPcAt(s', tk).last)
       case TSecrets(resolved) =>
         && !resolved && tk in s.tasks && NeedsAny(s.tasks[tk]) && seg == [TaskStep(tk, TGet(true))]
         && TaskPcAt(s', tk) == TIdle(Error)
       case TPower(None) =>
         && tk in s.tasks && TaskPcAt(s', tk) == TIdle(Error)
         && exists at: Time :: seg == Sampling(tk, s.tasks[tk], at) && Within(s.tasks[tk].status, at)
       case TPower(Some(raw)) =>
         && tk in s.tasks && TaskPcAt(s', tk) == TIdle(Requeue(3_000_000_000))
         && s.tasks[tk].action.power.Some? && !Shows(s.tasks[tk].action.power.value, raw)
         && exists at: Time :: seg == Sampling(tk, s.tasks[tk], at) && Within(s.tasks[tk].status, at)
       case TPanic =>
         && tk in s.tasks && TaskPcAt(s', tk) == TIdle(Panicked) && s.tasks[tk].status.startTime.None?
         && s.tasks[tk].action.boot.Some? && s.tasks[tk].action.boot.value.devices == []
         && exists now: Time, k: nat :: PanickedAt(tk, s.tasks[tk], seg, now, k)
       case TPatch(o) => exists current, answer :: EndsAtPatch(s, s', tk, seg, o, current, answer)
       case TCut => TaskPcAt(s', tk) == TIdle(Cut)
       case _ => false
  }

  /** The calls depend on the Task's spec and status, which no one changes while it is reconciled. */
  lemma VerdictSame(tk: Key, t: Task, t': Task, seg: seq<Label>, current: Status, answer: Answer)
    requires Verdict(tk, t, seg, current, answer) && t'.(deleting := t.deleting) == t
    ensures Verdict(tk, t', seg, current, answer)
  {
    if CommandFailed(tk, t, seg, current, answer) {
      var k: nat, error: string :| CommandFailedAt(tk, t, seg, current, k, error);
      assert CommandFailedAt(tk, t', seg, current, k, error);
    } else if NoConnection(tk, t, seg, current, answer) {
      var error: string :| NoConnectionBy(tk, t, seg, current, error);
      assert NoConnectionBy(tk, t', seg, current, error);
    } else if TimedOut(tk, t, seg, current, answer) {
      var now: Time :| TimedOutAt(tk, t, seg, current, now);
      assert TimedOutAt(tk, t', seg, current, now);
    } else if CompletedBy(tk, t, seg, current, answer) {
      var at: Time :| CompletedAt(tk, t, seg, current, at);
      assert CompletedAt(tk, t', seg, current, at);
    }
  }

  lemma EndsAtPatchStep(s: Sys, tk: Key, o: WriteOutcome, seg: seq<Label>)
    requires Shapes.Inv(s) && TaskEnabled(s, tk, TPatch(o)) && Along(tk, TaskPcAt(s, tk), seg)
    ensures
      var pc := TaskPcAt(s, tk);
      EndsAtPatch(s, Next(s, TaskStep(tk, TPatch(o))), tk, seg, o, pc.current, pc.answer)
  {
    var pc := TaskPcAt(s, tk);
    assert TaskPcOk(s.tasks, tk, pc, s.clock);
    VerdictSame(tk, pc.task, s.tasks[tk], seg, pc.current, pc.answer);
    assert Patched(pc.task.status, pc.task.status, pc.current) == pc.current;
  }

  lemma EndsAtPower(s: Sys, tk: Key, reading: Option<string>, seg: seq<Label>)
    requires Shapes.Inv(s) && TaskEnabled(s, tk, TPower(reading)) && Along(tk, TaskPcAt(s, tk), seg)
    requires TaskPcAt(Next(s, TaskStep(tk, TPower(reading))), tk).TIdle?
    ensures Ended(s, Next(s, TaskStep(tk, TPower(reading))), tk, seg, TPower(reading))
  {
    var pc := TaskPcAt(s, tk);
    assert TaskPcOk(s.tasks, tk, pc, s.clock);
    assert seg == Sampling(tk, s.tasks[tk], pc.sampled) && Within(s.tasks[tk].status, pc.sampled);
    if reading.Some? {
      ShowsIsMeets(pc.task.action.power.value, reading.value);
    }
  }

  lemma PanicsAre(a: Action)
    requires NoDevice in Plan(a)
    ensures a.boot.Some? && a.boot.value.devices == []
  {
  }

  lemma EndsAtPanic(s: Sys, tk: Key, seg: seq<Label>)
    requires Shapes.Inv(s) && TaskEnabled(s, tk, TPanic) && Along(tk, TaskPcAt(s, tk), seg)
    ensures Ended(s, Next(s, TaskStep(tk, TPanic)), tk, seg, TPanic)
  {
    var pc := TaskPcAt(s, tk);
    assert TaskPcOk(s.tasks, tk, pc, s.clock);
    PlanIsCommands(s.tasks[tk].action);
    PanicsAre(s.tasks[tk].action);
    assert PanickedAt(tk, s.tasks[tk], seg, pc.current.startTime.value, pc.issued);
  }

  lemma EndedStep(s: Sys, tk: Key, m: TaskMove, seg: seq<Label>)
    requires Shapes.Inv(s) && TaskEnabled(s, tk, m) && Along(tk, TaskPcAt(s, tk), seg)
    requires TaskPcAt(Next(s, TaskStep(tk, m)), tk).TIdle?
    ensures Ended(s, Next(s, TaskStep(tk, m)), tk, seg, m)
  {
    assert TaskPcOk(s.tasks, tk, TaskPcAt(s, tk), s.clock);
    if m.TPatch? {
      EndsAtPatchStep(s, tk, m.patched, seg);
    } else if m.TPower? {
      EndsAtPower(s, tk, m.reading, seg);
    } else if m.TPanic? {
      EndsAtPanic(s, tk, seg);
    }
  }

  /** The last step of a run ended a reconcile of the Task, and that is how. */
  ghost predicate JustEnded(s0: Sys, ls: seq<Label>, tk: Key) {
    && Run(s0, ls) && ls != [] && ActorOf(ls[|ls| - 1]) == Some(TaskActor(tk))
    && var front := ls[..|ls| - 1];
       Ended(After(s0, front), After(s0, ls), tk, LastReconcile(front, TaskActor(tk)), ls[|ls| - 1].taskMove)
  }

  /** Every reconcile of a Task that ends, in any run, ends in one of these ways. */
  lemma EveryReconcile(s0: Sys, ls: seq<Label>, tk: Key)
    requires Initial(s0) && Run(s0, ls) && ls != [] && ActorOf(ls[|ls| - 1]) == Some(TaskActor(tk))
    requires TaskPcAt(After(s0, ls), tk).TIdle?
    ensures JustEnded(s0, ls, tk)
  {
    var front, l := ls[..|ls| - 1], ls[|ls| - 1];
    AlwaysAlong(s0, front, tk);
    Shapes.Always(s0, front);
    EndedStep(After(s0, front), tk, l.taskMove, LastReconcile(front, TaskActor(tk)));
  }

  // ---- How a stored status came about ----

  /** The i-th step is a patch that took effect and wrote this status, for this reason. */
  ghost predicate WrittenAt(s0: Sys, ls: seq<Label>, tk: Key, st: Status, i: nat, answer: Answer) {
    && i < |ls| && Run(s0, ls[..i])
    && ls[i].TaskStep? && ls[i].task == tk && ls[i].taskMove.TPatch? && ls[i].taskMove.patched != Refused
    && tk in After(s0, ls[..i]).tasks
    && Verdict(tk, After(s0, ls[..i]).tasks[tk], LastReconcile(ls[..i], TaskActor(tk)), st, answer)
  }

  ghost predicate Written(s0: Sys, ls: seq<Label>, tk: Key, st: Status) {
    exists i: nat, answer :: WrittenAt(s0, ls, tk, st, i, answer)
  }

  lemma WrittenBefore(s0: Sys, ls: seq<Label>, tk: Key, st: Status)
    requires ls != [] && Written(s0, ls[..|ls| - 1], tk, st)
    ensures Written(s0, ls, tk, st)
  {
    var front := ls[..|ls| - 1];
    var i: nat, answer :| WrittenAt(s0, front, tk, st, i, answer);
    assert front[..i] == ls[..i];
    assert WrittenAt(s0, ls, tk, st, i, answer);
  }

  /** A step changes a Task's status only by a patch of its own reconcile that takes effect. */
  lemma StatusChanges(s: Sys, l: Label, tk: Key)
    requires Shapes.Inv(s) && Enabled(s, l) && tk in Next(s, l).tasks
    ensures
      || (tk in s.tasks && Next(s, l).tasks[tk].status == s.tasks[tk].status)
      || (tk !in s.tasks && Next(s, l).tasks[tk].status == EMPTY)
      || (l.TaskStep? && l.task == tk && l.taskMove.TPatch? && l.taskMove.patched != Refused)
  {
    match l
    case User(m) => UserStatusChanges(s, m, tk);
    case JobStep(jk, m) => JobStatusChanges(s, jk, m, tk);
    case TaskStep(k, m) => TaskStatusChanges(s, k, m, tk);
  }

  lemma UserStatusChanges(s: Sys, m: UserMove, tk: Key)
    requires UserEnabled(s, m) && tk in Next(s, User(m)).tasks
    ensures
      if tk in s.tasks then Next(s, User(m)).tasks[tk].status == s.tasks[tk].status
      else Next(s, User(m)).tasks[tk].status == EMPTY
  {
  }

  lemma JobStatusChanges(s: Sys, jk: Key, m: JobMove, tk: Key)
    requires Shapes.Inv(s) && JobEnabled(s, jk, m) && tk in Next(s, JobStep(jk, m)).tasks
    ensures
      if tk in s.tasks then Next(s, JobStep(jk, m)).tasks[tk].status == s.tasks[tk].status
      else Next(s, JobStep(jk, m)).tasks[tk].status == EMPTY
  {
    JobStepWrites(s, jk, m);
  }

  lemma TaskStatusChanges(s: Sys, k: Key, m: TaskMove, tk: Key)
    requires Shapes.Inv(s) && TaskEnabled(s, k, m) && tk in Next(s, TaskStep(k, m)).tasks
    ensures
      || (tk in s.tasks && Next(s, TaskStep(k, m)).tasks[tk].status == s.tasks[tk].status)
      || (k == tk && m.TPatch? && m.patched != Refused)
  {
    TaskStepShape(s, k, m);
  }

  lemma WrittenNow(s0: Sys, ls: seq<Label>, tk: Key)
    requires Initial(s0) && Run(s0, ls) && ls != [] && tk in After(s0, ls).tasks
    requires ls[|ls| - 1].TaskStep? && ls[|ls| - 1].task == tk && ls[|ls| - 1].taskMove.TPatch?
    requires ls[|ls| - 1].taskMove.patched != Refused
    ensures Written(s0, ls, tk, After(s0, ls).tasks[tk].status)
  {
    var front, o := ls[..|ls| - 1], ls[|ls| - 1].taskMove.patched;
    var s := After(s0, front);
    AlwaysAlong(s0, front, tk);
    Shapes.Always(s0, front);
    EndsAtPatchStep(s, tk, o, LastReconcile(front, TaskActor(tk)));
    assert WrittenAt(s0, ls, tk, After(s0, ls).tasks[tk].status, |ls| - 1, TaskPcAt(s, tk).answer);
  }

  /** Every status a Task ever has is the empty one it was created with, or was
      written by a reconcile for one of the five reasons. */
  lemma {:induction false} EveryStatus(s0: Sys, ls: seq<Label>, tk: Key)
    requires Initial(s0) && Run(s0, ls) && tk in After(s0, ls).tasks
    ensures After(s0, ls).tasks[tk].status == EMPTY || Written(s0, ls, tk, After(s0, ls).tasks[tk].status)
  {
    var front, l := ls[..|ls| - 1], ls[|ls| - 1];
    var s := After(s0, front);
    Shapes.Always(s0, front);
    StatusChanges(s, l, tk);
    if l.TaskStep? && l.task == tk && l.taskMove.TPatch? && l.taskMove.patched != Refused {
      WrittenNow(s0, ls, tk);
    } else if tk in s.tasks {
      EveryStatus(s0, front, tk);
      if s.tasks[tk].status != EMPTY {
        WrittenBefore(s0, ls, tk, s.tasks[tk].status);
      }
    }
  }

  // ---- Commands and their errors ----

  /** After an error of a command nothing more is issued: the reconcile's next step
      is its patch, or it is cut off, and if the patch takes effect the Task is
      Failed with that error, and has a StartTime. */
  lemma CommandErrorStops(
      s0: Sys, ls: seq<Label>, tk: Key, command: Command, error: string, more: seq<Label>, l: Label)
    requires Initial(s0) && Run(s0, ls + [TaskStep(tk, TCommand(command, Some(error)))] + more + [l])
    requires forall other :: other in more ==> ActorOf(other) != Some(TaskActor(tk))
    requires ActorOf(l) == Some(TaskActor(tk))
    ensures l.taskMove.TPatch? || l.taskMove.TCut?
    ensures l.taskMove.TPatch? && l.taskMove.patched != Refused ==>
      var s := After(s0, ls + [TaskStep(tk, TCommand(command, Some(error)))] + more + [l]);
      && tk in s.tasks && s.tasks[tk].status.startTime.Some?
      && FailedWith(s.tasks[tk].status.startTime, s.tasks[tk].status, CommandMessage(command, error))
  {
    var called := ls + [TaskStep(tk, TCommand(command, Some(error)))];
    Front(called + more, l);
    RunsOn(s0, called, more);
    ErrorInHand(s0, ls, tk, command, error);
    PcStays(s0, called, more, tk);
    Shapes.Always(s0, called + more);
    if l.taskMove.TPatch? {
      PatchWrites(After(s0, called + more), tk, l.taskMove.patched);
    }
  }

  lemma ErrorInHand(s0: Sys, ls: seq<Label>, tk: Key, command: Command, error: string)
    requires Initial(s0) && Run(s0, ls + [TaskStep(tk, TCommand(command, Some(error)))])
    ensures
      var pc := TaskPcAt(After(s0, ls + [TaskStep(tk, TCommand(command, Some(error)))]), tk);
      && pc.TPatching? && pc.current.startTime.Some?
      && FailedWith(pc.current.startTime, pc.current, CommandMessage(command, error))
  {
    Front(ls, TaskStep(tk, TCommand(command, Some(error))));
    Shapes.Always(s0, ls);
    CommandErrorPatches(After(s0, ls), tk, command, error);
  }

  lemma Front(ls: seq<Label>, l: Label)
    ensures (ls + [l])[..|ls + [l]| - 1] == ls
  {
  }

  lemma {:induction false} RunsOn(s0: Sys, ls: seq<Label>, more: seq<Label>)
    requires Run(s0, ls + more)
    ensures Run(s0, ls)
    decreases |more|
  {
    if more == [] {
      assert ls + more == ls;
    } else {
      var front := more[..|more| - 1];
      assert (ls + more)[..|ls + more| - 1] == ls + front;
      RunsOn(s0, ls, front);
    }
  }

  lemma CommandErrorPatches(s: Sys, tk: Key, command: Command, error: string)
    requires Shapes.Inv(s) && TaskEnabled(s, tk, TCommand(command, Some(error)))
    ensures
      var pc := TaskPcAt(Next(s, TaskStep(tk, TCommand(command, Some(error)))), tk);
      && pc.TPatching? && pc.current.startTime.Some?
      && FailedWith(pc.current.startTime, pc.current, CommandMessage(command, error))
  {
    assert TaskPcOk(s.tasks, tk, TaskPcAt(s, tk), s.clock);
  }

  lemma {:induction false} PcStays(s0: Sys, ls: seq<Label>, more: seq<Label>, tk: Key)
    requires Run(s0, ls) && Run(s0, ls + more)
    requires forall other :: other in more ==> ActorOf(other) != Some(TaskActor(tk))
    ensures TaskPcAt(After(s0, ls + more), tk) == TaskPcAt(After(s0, ls), tk)
    decreases |more|
  {
    if more == [] {
      assert ls + more == ls;
    } else {
      var front, l := more[..|more| - 1], more[|more| - 1];
      assert (ls + more)[..|ls + more| - 1] == ls + front;
      assert l in more;
      PcStays(s0, ls, front, tk);
      OtherPcs(After(s0, ls + front), l, tk);
    }
  }

  lemma PatchWrites(s: Sys, tk: Key, o: WriteOutcome)
    requires Shapes.Inv(s) && TaskEnabled(s, tk, TPatch(o))
    ensures o != Refused ==>
      var s' := Next(s, TaskStep(tk, TPatch(o)));
      tk in s'.tasks && s'.tasks[tk].status == TaskPcAt(s, tk).current
  {
    TaskStepShape(s, tk, TPatch(o));
  }

  // ---- What a started and a Completed Task rest on ----

  /** The i-th step persisted this StartTime, by a reconcile that issued every
      command of the action, in order, each of them successfully, and nothing else. */
  ghost predicate StartedAt(s0: Sys, ls: seq<Label>, tk: Key, start: Time, i: nat) {
    && i < |ls| && Run(s0, ls[..i]) && tk in After(s0, ls[..i]).tasks
    && ls[i].TaskStep? && ls[i].task == tk && ls[i].taskMove.TPatch? && ls[i].taskMove.patched != Refused
    && var t, seg := After(s0, ls[..i]).tasks[tk], LastReconcile(ls[..i], TaskActor(tk));
       seg == Sampling(tk, t, start) + Issued(tk, Plan(t.action)) && NoDevice !in Plan(t.action)
  }

  ghost predicate RunBy(s0: Sys, ls: seq<Label>, tk: Key, start: Time) {
    exists i: nat :: StartedAt(s0, ls, tk, start, i)
  }

  lemma StartedVerdict(tk: Key, t: Task, seg: seq<Label>, st: Status, answer: Answer)
    requires Verdict(tk, t, seg, st, answer) && TaskStarted(st)
    ensures Started(tk, t, seg, st, answer)
  {
  }

  /** A Task that has started, and neither failed nor completed, was run in full. */
  lemma StartedWasRun(s0: Sys, ls: seq<Label>, tk: Key)
    requires Initial(s0) && Run(s0, ls) && tk in After(s0, ls).tasks && TaskStarted(After(s0, ls).tasks[tk].status)
    ensures RunBy(s0, ls, tk, After(s0, ls).tasks[tk].status.startTime.value)
  {
    var st := After(s0, ls).tasks[tk].status;
    EveryStatus(s0, ls, tk);
    var i: nat, answer :| WrittenAt(s0, ls, tk, st, i, answer);
    StartedVerdict(tk, After(s0, ls[..i]).tasks[tk], LastReconcile(ls[..i], TaskActor(tk)), st, answer);
    assert StartedAt(s0, ls, tk, st.startTime.value, i);
  }

  /** The j-th step persisted this Completed status, by a reconcile that sampled
      the clock in time and whose reading, for a power action, shows the state the
      action is for; and a reconcile before it ran the action in full. */
  ghost predicate CompletedByCallsAt(s0: Sys, ls: seq<Label>, tk: Key, st: Status, j: nat, at: Time) {
    && j < |ls| && Run(s0, ls[..j]) && tk in After(s0, ls[..j]).tasks && st.startTime.Some?
    && ls[j].TaskStep? && ls[j].task == tk && ls[j].taskMove.TPatch? && ls[j].taskMove.patched != Refused
    && CompletedAt(tk, After(s0, ls[..j]).tasks[tk], LastReconcile(ls[..j], TaskActor(tk)), st, at)
    && RunBy(s0, ls[..j], tk, st.startTime.value)
  }

  ghost predicate CompletedByCalls(s0: Sys, ls: seq<Label>, tk: Key, st: Status) {
    exists j: nat, at: Time :: CompletedByCallsAt(s0, ls, tk, st, j, at)
  }

  lemma DoneVerdict(tk: Key, t: Task, seg: seq<Label>, st: Status, answer: Answer)
    requires Verdict(tk, t, seg, st, answer) && TaskDone(st)
    ensures CompletedBy(tk, t, seg, st, answer)
  {
  }

  /** What a Task being patched as Completed was before. */
  lemma DoneFromStarted(s0: Sys, ls: seq<Label>, tk: Key, st: Status, j: nat, at: Time)
    requires Initial(s0) && j < |ls| && Run(s0, ls) && Run(s0, ls[..j]) && tk in After(s0, ls[..j]).tasks
    requires CompletedAt(tk, After(s0, ls[..j]).tasks[tk], LastReconcile(ls[..j], TaskActor(tk)), st, at)
    requires TaskPcAt(After(s0, ls[..j]), tk).TPatching?
    ensures RunBy(s0, ls[..j], tk, st.startTime.value)
  {
    var s := After(s0, ls[..j]);
    Shapes.Always(s0, ls[..j]);
    assert TaskPcOk(s.tasks, tk, TaskPcAt(s, tk), s.clock);
    StartedWasRun(s0, ls[..j], tk);
  }

  lemma {:induction false} StepEnabled(s0: Sys, ls: seq<Label>, i: nat)
    requires Run(s0, ls) && i < |ls|
    ensures Run(s0, ls[..i]) && Enabled(After(s0, ls[..i]), ls[i])
    decreases |ls|
  {
    if i < |ls| - 1 {
      StepEnabled(s0, ls[..|ls| - 1], i);
      assert ls[..|ls| - 1][..i] == ls[..i];
    }
  }

  lemma CompletionAt(s0: Sys, ls: seq<Label>, tk: Key, st: Status, j: nat, answer: Answer) returns (at: Time)
    requires WrittenAt(s0, ls, tk, st, j, answer) && TaskDone(st)
    ensures CompletedAt(tk, After(s0, ls[..j]).tasks[tk], LastReconcile(ls[..j], TaskActor(tk)), st, at)
  {
    var t, seg := After(s0, ls[..j]).tasks[tk], LastReconcile(ls[..j], TaskActor(tk));
    DoneVerdict(tk, t, seg, st, answer);
    at :| CompletedAt(tk, t, seg, st, at);
  }

  lemma PatchingAt(s0: Sys, ls: seq<Label>, tk: Key, j: nat)
    requires Run(s0, ls) && j < |ls| && ls[j].TaskStep? && ls[j].task == tk && ls[j].taskMove.TPatch?
    ensures Run(s0, ls[..j]) && TaskPcAt(After(s0, ls[..j]), tk).TPatching?
  {
    StepEnabled(s0, ls, j);
  }

  lemma CheckedAt(s0: Sys, ls: seq<Label>, tk: Key, st: Status, j: nat, answer: Answer)
    requires Initial(s0) && Run(s0, ls) && WrittenAt(s0, ls, tk, st, j, answer) && TaskDone(st)
    ensures CompletedByCalls(s0, ls, tk, st)
  {
    var at := CompletionAt(s0, ls, tk, st, j, answer);
    PatchingAt(s0, ls, tk, j);
    DoneFromStarted(s0, ls, tk, st, j, at);
    assert CompletedByCallsAt(s0, ls, tk, st, j, at);
  }

  /** A Completed Task was run in full and after that checked in time, by the calls
      that were made for it. */
  lemma CompletedWasChecked(s0: Sys, ls: seq<Label>, tk: Key)
    requires Initial(s0) && Run(s0, ls) && tk in After(s0, ls).tasks && TaskDone(After(s0, ls).tasks[tk].status)
    ensures CompletedByCalls(s0, ls, tk, After(s0, ls).tasks[tk].status)
  {
    var st := After(s0, ls).tasks[tk].status;
    EveryStatus(s0, ls, tk);
    var j: nat, answer :| WrittenAt(s0, ls, tk, st, j, answer);
    CheckedAt(s0, ls, tk, st, j, answer);
  }
}
