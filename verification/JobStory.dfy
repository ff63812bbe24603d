/** What a reconcile of a Job is, told by its own calls, and which call created
    each of its Tasks. */
module JobStory {
  import opened Options
  import opened Conditions
  import opened Statuses
  import opened Bmc
  import opened TaskNames
  import opened Protocol
  import opened StatusInvariant
  import opened OrderPreserved
  import TaskStory
  import WriteBound
  import Shapes = StatusInvariant

  // ---- What a list shows ----

  ghost predicate AllCompleted(v: TaskStore, items: seq<Key>) {
    forall i :: 0 <= i < |items| ==> items[i] in v && Is(v[items[i]].status, Completed)
  }

  /** The first of the listed Tasks that is not Completed. */
  ghost predicate FirstOpen(v: TaskStore, items: seq<Key>, i: nat) {
    && i < |items| && AllCompleted(v, items[..i]) && items[i] in v && !Is(v[items[i]].status, Completed)
  }

  lemma FirstOpenLater(v: TaskStore, items: seq<Key>, i: nat)
    requires items != [] && items[0] in v && Is(v[items[0]].status, Completed) && FirstOpen(v, items[1..], i)
    ensures FirstOpen(v, items, i + 1)
  {
    assert items[..i + 1] == [items[0]] + items[1..][..i];
  }

  lemma {:induction false} ScanShows(v: TaskStore, items: seq<Key>)
    requires forall i :: 0 <= i < |items| ==> items[i] in v
    ensures match Scan(v, items)
      case ScanFailed(tk) => exists i: nat :: FirstOpen(v, items, i) && items[i] == tk && Is(v[tk].status, Failed)
      case ScanPending => exists i: nat :: FirstOpen(v, items, i) && !Is(v[items[i]].status, Failed)
      case ScanCompleted(count) => AllCompleted(v, items) && count == |items|
  {
    if items == [] {
    } else if Is(v[items[0]].status, Completed) {
      ScanShows(v, items[1..]);
      forall i: nat | FirstOpen(v, items[1..], i)
        ensures FirstOpen(v, items, i + 1) && items[i + 1] == items[1..][i]
      {
        FirstOpenLater(v, items, i);
      }
    } else {
      assert FirstOpen(v, items, 0);
    }
  }

  // ---- Sequences of calls ----

  /** The Running status a reconcile goes on from: as fetched, or new, with the time it read. */
  predicate Begun(j: Job, current: Status) {
    if Is(j.status, Running) then current == j.status
    else current.startTime.Some? && current == Status([Condition(Running, True, "")], current.startTime, None)
  }

  function Beginning(jk: Key, j: Job, start: Option<Time>): seq<Label> {
    if Is(j.status, Running) || start.None? then [JobStep(jk, JGet(true))]
    else [JobStep(jk, JGet(true)), JobStep(jk, JNow(start.value))]
  }

  /** The Job's own Machine fetched, with this connection. */
  function Connecting(jk: Key, j: Job, start: Option<Time>, c: Connection): seq<Label> {
    Beginning(jk, j, start) + [JobStep(jk, JMachine(j.machine, Some(c)))]
  }

  function Listing(jk: Key, j: Job, start: Option<Time>, c: Connection, l: Protocol.Listing): seq<Label> {
    Connecting(jk, j, start, c) + [JobStep(jk, JList(Some(l)))]
  }

  /** The first open Task listed is Failed. */
  ghost predicate ListsFailed(s: Sys, l: Protocol.Listing, tk: Key) {
    && l.view <= |s.past|
    && exists i: nat ::
         FirstOpen(View(s, l.view), l.items, i) && l.items[i] == tk && Is(View(s, l.view)[tk].status, Failed)
  }

  /** The first open Task listed is not Failed. */
  ghost predicate ListsPending(s: Sys, l: Protocol.Listing) {
    && l.view <= |s.past|
    && exists i: nat :: FirstOpen(View(s, l.view), l.items, i) && !Is(View(s, l.view)[l.items[i]].status, Failed)
  }

  ghost predicate ListsDone(s: Sys, l: Protocol.Listing) {
    l.view <= |s.past| && AllCompleted(View(s, l.view), l.items)
  }

  /** The Task of the action at the index the list gives: its name, its owner, its
      action and the connection of the Job's Machine. */
  function TaskName(jk: Key, index: nat): Key {
    Key(jk.namespace, jk.name + "-task-" + Decimal(index))
  }

  function TaskMade(jk: Key, action: Action, c: Connection): Task {
    Task([OwnerRef("bmc.tinkerbell.org/v1alpha1", "Job", jk.name, true)], action, c, false, Status([], None, None))
  }

  predicate FailedWith(start: Option<Time>, after: Status, message: string) {
    after == Status([Condition(Running, True, ""), Condition(Failed, True, message)], start, None)
  }

  // ---- The four ways to a patch ----

  ghost predicate TaskFailedBy(
      s: Sys, jk: Key, j: Job, seg: seq<Label>, current: Status, c: Connection, l: Protocol.Listing, tk: Key) {
    && seg == Listing(jk, j, current.startTime, c, l) && ListsFailed(s, l, tk)
    && FailedWith(current.startTime, current, "task " + tk.namespace + "/" + tk.name + " failed")
  }

  ghost predicate CompletedBy(
      s: Sys, jk: Key, j: Job, seg: seq<Label>, current: Status, c: Connection, l: Protocol.Listing) {
    && current.completionTime.Some? && ListsDone(s, l) && |l.items| == |j.actions|
    && seg == Listing(jk, j, current.startTime, c, l) + [JobStep(jk, JNow(current.completionTime.value))]
    && current == Status([Condition(Running, True, ""), Condition(Completed, True, "")], current.startTime,
         current.completionTime)
  }

  ghost predicate CreatedBy(
      s: Sys, jk: Key, j: Job, seg: seq<Label>, current: Status, c: Connection, l: Protocol.Listing, e: string) {
    && ListsDone(s, l) && |l.items| != |j.actions| && Begun(j, current)
    && seg == Listing(jk, j, current.startTime, c, l) + [JobStep(jk, JCreate(Applied, e))]
  }

  ghost predicate NotCreatedBy(
      s: Sys, jk: Key, j: Job, seg: seq<Label>, current: Status, c: Connection, l: Protocol.Listing,
      o: WriteOutcome, e: string) {
    && ListsDone(s, l) && |l.items| != |j.actions| && o != Applied
    && seg == Listing(jk, j, current.startTime, c, l) + [JobStep(jk, JCreate(o, e))]
    && FailedWith(current.startTime, current, "failed to create Task " + jk.namespace + "/"
         + TaskName(jk, |l.items|).name + ": " + e)
  }

  /** What led to the status to be patched, and the answer if the patch succeeds. */
  ghost predicate Verdict(s: Sys, jk: Key, j: Job, seg: seq<Label>, current: Status, answer: Answer) {
    || (answer == Error && exists c, l, tk :: TaskFailedBy(s, jk, j, seg, current, c, l, tk))
    || (answer == Done && exists c, l :: CompletedBy(s, jk, j, seg, current, c, l))
    || (answer == Done && exists c, l, e :: CreatedBy(s, jk, j, seg, current, c, l, e))
    || (answer == Error && exists c, l, o, e :: NotCreatedBy(s, jk, j, seg, current, c, l, o, e))
  }

  // ---- Along the way ----

  ghost predicate DoneListed(
      s: Sys, jk: Key, j: Job, current: Status, seg: seq<Label>, c: Connection, l: Protocol.Listing) {
    seg == Listing(jk, j, current.startTime, c, l) && ListsDone(s, l)
  }

  /** Where a reconcile stands, by the calls it has made. */
  ghost predicate Along(s: Sys, jk: Key, pc: JobPc, seg: seq<Label>) {
    match pc
    case JIdle(_) => true
    case JFetched(j) => seg == [JobStep(jk, JGet(true))] && !Is(j.status, Running)
    case JStarted(j, current) => seg == Beginning(jk, j, current.startTime) && Begun(j, current)
    case JConnected(j, current, c) => seg == Connecting(jk, j, current.startTime, c) && Begun(j, current)
    case JFinishing(j, current) =>
      && Begun(j, current)
      && exists c, l :: DoneListed(s, jk, j, current, seg, c, l) && |l.items| == |j.actions|
    case JCreating(j, current, c, index) =>
      && Begun(j, current)
      && exists l :: DoneListed(s, jk, j, current, seg, c, l) && |l.items| == index && index != |j.actions|
    case JPatching(j, current, answer) => Verdict(s, jk, j, seg, current, answer)
  }

  // ---- Views stay ----

  /** Every store that can be listed now can be listed later. */
  ghost predicate Remembers(s: Sys, s': Sys) {
    |s.past| <= |s'.past| && forall i: nat :: i <= |s.past| ==> View(s', i) == View(s, i)
  }

  lemma GrownRemembers(s: Sys, s': Sys)
    requires Grown(s, s')
    ensures Remembers(s, s')
  {
  }

  lemma VerdictLater(s: Sys, s': Sys, jk: Key, j: Job, seg: seq<Label>, current: Status, answer: Answer)
    requires Remembers(s, s') && Verdict(s, jk, j, seg, current, answer)
    ensures Verdict(s', jk, j, seg, current, answer)
  {
    if answer == Error {
      if c, l, tk :| TaskFailedBy(s, jk, j, seg, current, c, l, tk) {
        assert View(s', l.view) == View(s, l.view);
        assert TaskFailedBy(s', jk, j, seg, current, c, l, tk);
      } else {
        var c, l, o, e :| NotCreatedBy(s, jk, j, seg, current, c, l, o, e);
        assert NotCreatedBy(s', jk, j, seg, current, c, l, o, e);
      }
    } else {
      if c, l :| CompletedBy(s, jk, j, seg, current, c, l) {
        assert CompletedBy(s', jk, j, seg, current, c, l);
      } else {
        var c, l, e :| CreatedBy(s, jk, j, seg, current, c, l, e);
        assert CreatedBy(s', jk, j, seg, current, c, l, e);
      }
    }
  }

  lemma AlongLater(s: Sys, s': Sys, jk: Key, pc: JobPc, seg: seq<Label>)
    requires Remembers(s, s') && Along(s, jk, pc, seg)
    ensures Along(s', jk, pc, seg)
  {
    match pc
    case JFinishing(j, current) =>
      var c, l :| DoneListed(s, jk, j, current, seg, c, l) && |l.items| == |j.actions|;
      assert DoneListed(s', jk, j, current, seg, c, l);
    case JCreating(j, current, c, index) =>
      var l :| DoneListed(s, jk, j, current, seg, c, l) && |l.items| == index && index != |j.actions|;
      assert DoneListed(s', jk, j, current, seg, c, l);
    case JPatching(j, current, answer) => VerdictLater(s, s', jk, j, seg, current, answer);
    case _ =>
  }

  // ---- One step ----

  /** What is known of a reconcile's status in hand. */
  predicate InHand(pc: JobPc)
    requires !pc.JIdle? && !pc.JFetched?
  {
    JobRunning(pc.current)
  }

  lemma AlongScanned(s: Sys, jk: Key, pc: JobPc, seg: seq<Label>, l: Protocol.Listing)
    requires pc.JConnected? && InHand(pc) && Along(s, jk, pc, seg)
    requires l.view <= |s.past| && ListsOwned(View(s, l.view), jk, l.items)
    ensures Along(s, jk, AfterScan(pc, Scan(View(s, l.view), l.items)), seg + [JobStep(jk, JList(Some(l)))])
  {
    var v, seg', found := View(s, l.view), seg + [JobStep(jk, JList(Some(l)))], Scan(View(s, l.view), l.items);
    ScanShows(v, l.items);
    match found
    case ScanFailed(tk) =>
      var current := AfterScan(pc, found).current;
      assert TaskFailedBy(s, jk, pc.job, seg', current, pc.connection, l, tk);
    case ScanPending =>
    case ScanCompleted(count) =>
      assert DoneListed(s, jk, pc.job, pc.current, seg', pc.connection, l);
  }

  lemma AlongFinishing(s: Sys, jk: Key, pc: JobPc, seg: seq<Label>, now: Time)
    requires pc.JFinishing? && InHand(pc) && Along(s, jk, pc, seg)
    ensures
      var current := With(pc.current, Completed, None).(completionTime := Some(now));
      Along(s, jk, JPatching(pc.job, current, Done), seg + [JobStep(jk, JNow(now))])
  {
    var current := With(pc.current, Completed, None).(completionTime := Some(now));
    var c, l :| DoneListed(s, jk, pc.job, pc.current, seg, c, l) && |l.items| == |pc.job.actions|;
    assert CompletedBy(s, jk, pc.job, seg + [JobStep(jk, JNow(now))], current, c, l);
  }

  lemma AlongCreated(s: Sys, jk: Key, pc: JobPc, seg: seq<Label>, error: string)
    requires pc.JCreating? && Along(s, jk, pc, seg)
    ensures Along(s, jk, JPatching(pc.job, pc.current, Done), seg + [JobStep(jk, JCreate(Applied, error))])
  {
    var l :| DoneListed(s, jk, pc.job, pc.current, seg, pc.connection, l) && |l.items| == pc.index;
    assert CreatedBy(s, jk, pc.job, seg + [JobStep(jk, JCreate(Applied, error))], pc.current, pc.connection, l, error);
  }

  lemma AlongNotCreated(s: Sys, jk: Key, pc: JobPc, seg: seq<Label>, o: WriteOutcome, error: string)
    requires pc.JCreating? && InHand(pc) && Along(s, jk, pc, seg) && o != Applied
    ensures
      var current := With(pc.current, Failed, Some(CreateFailure(TaskKey(jk, pc.index), error)));
      Along(s, jk, JPatching(pc.job, current, Error), seg + [JobStep(jk, JCreate(o, error))])
  {
    var current := With(pc.current, Failed, Some(CreateFailure(TaskKey(jk, pc.index), error)));
    var l :| DoneListed(s, jk, pc.job, pc.current, seg, pc.connection, l) && |l.items| == pc.index;
    assert TaskKey(jk, pc.index) == TaskName(jk, pc.index);
    assert NotCreatedBy(s, jk, pc.job, seg + [JobStep(jk, JCreate(o, error))], current, pc.connection, l, o, error);
  }

  lemma AlongStart(s: Sys, jk: Key, pc: JobPc, seg: seq<Label>, now: Time)
    requires pc.JFetched? && JobFresh(pc.job.status) && Along(s, jk, pc, seg)
    ensures
      var current := With(pc.job.status.(startTime := Some(now)), Running, None);
      Along(s, jk, JStarted(pc.job, current), seg + [JobStep(jk, JNow(now))])
  {
  }

  lemma AlongGet(s: Sys, jk: Key, found: bool)
    requires Shapes.Inv(s) && JobEnabled(s, jk, JGet(found))
    ensures Along(s, jk, JobEffectOf(s, jk, JGet(found)).pc, [JobStep(jk, JGet(found))])
  {
  }

  /** What the step makes of where the reconcile stands, with the store as it was. */
  lemma AlongEffect(s: Sys, jk: Key, m: JobMove, seg: seq<Label>)
    requires Shapes.Inv(s) && JobEnabled(s, jk, m) && Along(s, jk, JobPcAt(s, jk), seg)
    ensures
      var l := JobStep(jk, m);
      Along(s, jk, JobEffectOf(s, jk, m).pc, if Begins(l) then [l] else seg + [l])
  {
    var pc := JobPcAt(s, jk);
    assert JobPcOk(s.jobs, jk, pc, s.clock);
    match m
    case JGet(found) => AlongGet(s, jk, found);
    case JNow(now) =>
      if pc.JFetched? {
        AlongStart(s, jk, pc, seg, now);
      } else {
        AlongFinishing(s, jk, pc, seg, now);
      }
    case JMachine(_, _) =>
    case JList(None) =>
    case JList(Some(l)) => AlongScanned(s, jk, pc, seg, l);
    case JCreate(o, error) =>
      if o == Applied {
        AlongCreated(s, jk, pc, seg, error);
      } else {
        AlongNotCreated(s, jk, pc, seg, o, error);
      }
    case JPatch(_) =>
    case JCut =>
  }

  lemma OtherPcs(s: Sys, l: Label, jk: Key)
    requires Enabled(s, l) && ActorOf(l) != Some(JobActor(jk))
    ensures JobPcAt(Next(s, l), jk) == JobPcAt(s, jk)
  {
  }

  lemma OwnPc(s: Sys, jk: Key, m: JobMove)
    requires JobEnabled(s, jk, m)
    ensures JobPcAt(Next(s, JobStep(jk, m)), jk) == JobEffectOf(s, jk, m).pc
  {
  }

  /** In every state of every run, a reconcile in flight has made the calls that lead to where it stands. */
  lemma {:induction false} AlwaysAlong(s0: Sys, ls: seq<Label>, jk: Key)
    requires Initial(s0) && Run(s0, ls)
    ensures Along(After(s0, ls), jk, JobPcAt(After(s0, ls), jk), TaskStory.LastReconcile(ls, JobActor(jk)))
  {
    if ls != [] {
      var front, l := ls[..|ls| - 1], ls[|ls| - 1];
      var s, seg := After(s0, front), TaskStory.LastReconcile(front, JobActor(jk));
      AlwaysAlong(s0, front, jk);
      Shapes.Always(s0, front);
      TaskStory.LastReconcileStep(ls, JobActor(jk));
      WriteBound.StepGrows(s, l);
      GrownRemembers(s, Next(s, l));
      if ActorOf(l) == Some(JobActor(jk)) {
        AlongEffect(s, jk, l.jobMove, seg);
        OwnPc(s, jk, l.jobMove);
      } else {
        OtherPcs(s, l, jk);
      }
      AlongLater(s, Next(s, l), jk, JobPcAt(Next(s, l), jk), TaskStory.LastReconcile(ls, JobActor(jk)));
    }
  }

  // ---- How a reconcile ends ----

  /** A patch: what it persists if it takes effect, and the answer. */
  ghost predicate EndsAtPatch(
      s: Sys, s': Sys, jk: Key, seg: seq<Label>, o: WriteOutcome, current: Status, answer: Answer) {
    && jk in s.jobs && Verdict(s, jk, s.jobs[jk], seg, current, answer)
    && s'.jobs == (if o == Refused then s.jobs else s.jobs[jk := s.jobs[jk].(status := current)])
    && JobPcAt(s', jk) == JIdle(if o == Applied then answer else Error)
  }

  /** The reconcile whose calls are seg + [JobStep(jk, m)] ended with this step, from s to s'. */
  ghost predicate Ended(s: Sys, s': Sys, jk: Key, seg: seq<Label>, m: JobMove) {
    && JobPcAt(s', jk).JIdle? && s'.tasks == s.tasks && (!m.JPatch? ==> s'.jobs == s.jobs)
    && match m
       case JGet(found) =>
         if !found then JobPcAt(s', jk) == JIdle(Error)
         else
           && JobPcAt(s', jk) == JIdle(Done)
           && (jk in s.jobs ==>
                 s.jobs[jk].deleting || Is(s.jobs[jk].status, Completed) || Is(s.jobs[jk].status, Failed))
       case JMachine(machine, connection) =>
         && connection.None? && jk in s.jobs && machine == s.jobs[jk].machine && JobPcAt(s', jk) == JIdle(Error)
         && exists start :: seg == Beginning(jk, s.jobs[jk], start)
       case JList(None) =>
         && jk in s.jobs && JobPcAt(s', jk) == JIdle(Error)
         && exists start, c :: seg == Connecting(jk, s.jobs[jk], start, c)
       case JList(Some(l)) =>
         && jk in s.jobs && JobPcAt(s', jk) == JIdle(Done) && ListsPending(s, l)
         && exists start, c :: seg == Connecting(jk, s.jobs[jk], start, c)
       case JPatch(o) => exists current, answer :: EndsAtPatch(s, s', jk, seg, o, current, answer)
       case JCut => JobPcAt(s', jk) == JIdle(Cut)
       case _ => false
  }

  lemma VerdictSame(s: Sys, jk: Key, j: Job, j': Job, seg: seq<Label>, current: Status, answer: Answer)
    requires Verdict(s, jk, j, seg, current, answer) && j'.(deleting := j.deleting) == j
    ensures Verdict(s, jk, j', seg, current, answer)
  {
    if answer == Error {
      if c, l, tk :| TaskFailedBy(s, jk, j, seg, current, c, l, tk) {
        assert TaskFailedBy(s, jk, j', seg, current, c, l, tk);
      } else {
        var c, l, o, e :| NotCreatedBy(s, jk, j, seg, current, c, l, o, e);
        assert NotCreatedBy(s, jk, j', seg, current, c, l, o, e);
      }
    } else {
      if c, l :| CompletedBy(s, jk, j, seg, current, c, l) {
        assert CompletedBy(s, jk, j', seg, current, c, l);
      } else {
        var c, l, e :| CreatedBy(s, jk, j, seg, current, c, l, e);
        assert CreatedBy(s, jk, j', seg, current, c, l, e);
      }
    }
  }

  lemma EndsAtPatchStep(s: Sys, jk: Key, o: WriteOutcome, seg: seq<Label>)
    requires Shapes.Inv(s) && JobEnabled(s, jk, JPatch(o)) && Along(s, jk, JobPcAt(s, jk), seg)
    ensures
      var pc := JobPcAt(s, jk);
      EndsAtPatch(s, Next(s, JobStep(jk, JPatch(o))), jk, seg, o, pc.current, pc.answer)
  {
    var pc := JobPcAt(s, jk);
    assert JobPcOk(s.jobs, jk, pc, s.clock);
    VerdictSame(s, jk, pc.job, s.jobs[jk], seg, pc.current, pc.answer);
    assert Patched(pc.job.status, pc.job.status, pc.current) == pc.current;
  }

  lemma EndsAtList(s: Sys, jk: Key, l: Protocol.Listing, seg: seq<Label>)
    requires Shapes.Inv(s) && JobEnabled(s, jk, JList(Some(l))) && Along(s, jk, JobPcAt(s, jk), seg)
    requires JobEffectOf(s, jk, JList(Some(l))).pc.JIdle?
    ensures Ended(s, Next(s, JobStep(jk, JList(Some(l)))), jk, seg, JList(Some(l)))
  {
    var pc := JobPcAt(s, jk);
    assert JobPcOk(s.jobs, jk, pc, s.clock);
    ScanShows(View(s, l.view), l.items);
    assert seg == Connecting(jk, s.jobs[jk], pc.current.startTime, pc.connection);
  }

  lemma EndsEarly(s: Sys, jk: Key, m: JobMove, seg: seq<Label>)
    requires Shapes.Inv(s) && JobEnabled(s, jk, m) && Along(s, jk, JobPcAt(s, jk), seg)
    requires JobEffectOf(s, jk, m).pc.JIdle? && (m.JGet? || m.JMachine? || m == JList(None) || m.JCut?)
    ensures Ended(s, Next(s, JobStep(jk, m)), jk, seg, m)
  {
    var pc := JobPcAt(s, jk);
    assert JobPcOk(s.jobs, jk, pc, s.clock);
    if m.JMachine? {
      assert seg == Beginning(jk, s.jobs[jk], pc.current.startTime);
    }
    if m.JList? {
      assert seg == Connecting(jk, s.jobs[jk], pc.current.startTime, pc.connection);
    }
  }

  lemma EndedStep(s: Sys, jk: Key, m: JobMove, seg: seq<Label>)
    requires Shapes.Inv(s) && JobEnabled(s, jk, m) && Along(s, jk, JobPcAt(s, jk), seg)
    requires JobEffectOf(s, jk, m).pc.JIdle?
    ensures Ended(s, Next(s, JobStep(jk, m)), jk, seg, m)
  {
    if m.JPatch? {
      EndsAtPatchStep(s, jk, m.patched, seg);
    } else if m.JList? && m.listing.Some? {
      EndsAtList(s, jk, m.listing.value, seg);
    } else {
      EndsEarly(s, jk, m, seg);
    }
  }

  /** The last step of a run ended a reconcile of the Job, and that is how. */
  ghost predicate JustEnded(s0: Sys, ls: seq<Label>, jk: Key) {
    && Run(s0, ls) && ls != [] && ActorOf(ls[|ls| - 1]) == Some(JobActor(jk))
    && var front := ls[..|ls| - 1];
       Ended(After(s0, front), After(s0, ls), jk, TaskStory.LastReconcile(front, JobActor(jk)), ls[|ls| - 1].jobMove)
  }

  /** Every reconcile of a Job that ends, in any run, ends in one of these ways. */
  lemma EveryReconcile(s0: Sys, ls: seq<Label>, jk: Key)
    requires Initial(s0) && Run(s0, ls) && ls != [] && ActorOf(ls[|ls| - 1]) == Some(JobActor(jk))
    requires JobPcAt(After(s0, ls), jk).JIdle?
    ensures JustEnded(s0, ls, jk)
  {
    var front, l := ls[..|ls| - 1], ls[|ls| - 1];
    AlwaysAlong(s0, front, jk);
    Shapes.Always(s0, front);
    OwnPc(After(s0, front), jk, l.jobMove);
    EndedStep(After(s0, front), jk, l.jobMove, TaskStory.LastReconcile(front, JobActor(jk)));
  }

  // ---- Who created a Task ----

  /** The i-th step created the Task: all Tasks listed were Completed, its name
      carries their number, its action is the Job's at that number, its connection
      is the one of the Job's Machine, fetched by the same reconcile. */
  ghost predicate MadeAt(
      s0: Sys, ls: seq<Label>, jk: Key, tk: Key, t: Task, i: nat, c: Connection, l: Protocol.Listing,
      start: Option<Time>) {
    && i < |ls| && Run(s0, ls[..i]) && jk in After(s0, ls[..i]).jobs
    && ls[i].JobStep? && ls[i].job == jk && ls[i].jobMove.JCreate? && ls[i].jobMove.created != Refused
    && tk !in After(s0, ls[..i]).tasks && Run(s0, ls[..i + 1]) && tk in After(s0, ls[..i + 1]).tasks
    && var s, j := After(s0, ls[..i]), After(s0, ls[..i]).jobs[jk];
       && TaskStory.LastReconcile(ls[..i], JobActor(jk)) == Listing(jk, j, start, c, l) && ListsDone(s, l)
       && |l.items| < |j.actions| && tk == TaskName(jk, |l.items|)
       && var made := TaskMade(jk, j.actions[|l.items|], c);
          t.owners == made.owners && t.action == made.action && t.connection == made.connection
  }

  ghost predicate Made(s0: Sys, ls: seq<Label>, jk: Key, tk: Key, t: Task) {
    exists i: nat, c, l, start :: MadeAt(s0, ls, jk, tk, t, i, c, l, start)
  }

  lemma MadeBefore(s0: Sys, ls: seq<Label>, jk: Key, tk: Key, t: Task, t': Task)
    requires ls != [] && Made(s0, ls[..|ls| - 1], jk, tk, t)
    requires t'.owners == t.owners && t'.action == t.action && t'.connection == t.connection
    ensures Made(s0, ls, jk, tk, t')
  {
    var front := ls[..|ls| - 1];
    var i: nat, c, l, start :| MadeAt(s0, front, jk, tk, t, i, c, l, start);
    assert front[..i] == ls[..i] && front[..i + 1] == ls[..i + 1];
    assert MadeAt(s0, ls, jk, tk, t', i, c, l, start);
  }

  /** What a create that takes effect puts into the store. */
  lemma CreateMakes(s: Sys, jk: Key, o: WriteOutcome, error: string, seg: seq<Label>) returns (l: Protocol.Listing)
    requires Shapes.Inv(s) && JobEnabled(s, jk, JCreate(o, error)) && o != Refused && Along(s, jk, JobPcAt(s, jk), seg)
    ensures jk in s.jobs && |l.items| < |s.jobs[jk].actions| && ListsDone(s, l)
    ensures
      var pc := JobPcAt(s, jk);
      seg == Listing(jk, s.jobs[jk], pc.current.startTime, pc.connection, l)
    ensures
      var made := TaskMade(jk, s.jobs[jk].actions[|l.items|], JobPcAt(s, jk).connection);
      Next(s, JobStep(jk, JCreate(o, error))).tasks == s.tasks[TaskName(jk, |l.items|) := made]
  {
    var pc := JobPcAt(s, jk);
    assert JobPcOk(s.jobs, jk, pc, s.clock);
    var listed :| DoneListed(s, jk, pc.job, pc.current, seg, pc.connection, listed) && |listed.items| == pc.index;
    l := listed;
    assert TaskKey(jk, pc.index) == TaskName(jk, pc.index);
  }

  ghost predicate Controls(jk: Key, tk: Key, t: Task) {
    OwnerOf(tk, t) == Some(jk)
  }

  lemma MadeIsControlled(jk: Key, index: nat, action: Action, c: Connection, other: Key)
    requires Controls(other, TaskName(jk, index), TaskMade(jk, action, c))
    ensures other == jk
  {
  }

  lemma MadeNow(s0: Sys, ls: seq<Label>, other: Key, tk: Key)
    requires Initial(s0) && Run(s0, ls) && ls != [] && ls[|ls| - 1].JobStep? && ls[|ls| - 1].jobMove.JCreate?
    requires ls[|ls| - 1].jobMove.created != Refused
    requires tk in After(s0, ls).tasks && tk !in After(s0, ls[..|ls| - 1]).tasks
    requires Controls(other, tk, After(s0, ls).tasks[tk])
    ensures Made(s0, ls, other, tk, After(s0, ls).tasks[tk])
  {
    var front, jk, m := ls[..|ls| - 1], ls[|ls| - 1].job, ls[|ls| - 1].jobMove;
    var s := After(s0, front);
    AlwaysAlong(s0, front, jk);
    Shapes.Always(s0, front);
    var l := CreateMakes(s, jk, m.created, m.error, TaskStory.LastReconcile(front, JobActor(jk)));
    var pc := JobPcAt(s, jk);
    MadeIsControlled(jk, |l.items|, s.jobs[jk].actions[|l.items|], pc.connection, other);
    assert ls[..|ls| - 1 + 1] == ls;
    assert MadeAt(s0, ls, jk, tk, After(s0, ls).tasks[tk], |ls| - 1, pc.connection, l, pc.current.startTime);
  }

  /** A step adds a controlled Task only by a Job's create that takes effect. */
  lemma NewTasks(s: Sys, l: Label, jk: Key, tk: Key)
    requires Shapes.Inv(s) && Enabled(s, l) && tk in Next(s, l).tasks && Controls(jk, tk, Next(s, l).tasks[tk])
    ensures
      if tk in s.tasks then
        var t, t' := s.tasks[tk], Next(s, l).tasks[tk];
        t'.owners == t.owners && t'.action == t.action && t'.connection == t.connection
      else l.JobStep? && l.jobMove.JCreate? && l.jobMove.created != Refused
  {
    WriteBound.StepGrows(s, l);
    match l
    case User(m) =>
    case JobStep(j, m) => JobStepWrites(s, j, m);
    case TaskStep(k, m) => TaskStepShape(s, k, m);
  }

  /** Every Task that a Job controls was created by a reconcile of that Job, as its
      next one, for the Machine the Job names: with the connection that this
      reconcile fetched. */
  lemma {:induction false} EveryTaskWasMade(s0: Sys, ls: seq<Label>, jk: Key, tk: Key)
    requires Initial(s0) && Run(s0, ls) && tk in After(s0, ls).tasks && Controls(jk, tk, After(s0, ls).tasks[tk])
    ensures Made(s0, ls, jk, tk, After(s0, ls).tasks[tk])
  {
    var front, l := ls[..|ls| - 1], ls[|ls| - 1];
    var s := After(s0, front);
    Shapes.Always(s0, front);
    NewTasks(s, l, jk, tk);
    if tk in s.tasks {
      EveryTaskWasMade(s0, front, jk, tk);
      MadeBefore(s0, ls, jk, tk, s.tasks[tk], After(s0, ls).tasks[tk]);
    } else {
      MadeNow(s0, ls, jk, tk);
    }
  }
}
