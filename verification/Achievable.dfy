/** Runs there are: the good outcomes of a reconcile can be reached, and a Job can
    be carried to Completed. */
module Achievable {
  import opened Options
  import opened Conditions
  import opened Statuses
  import opened Bmc
  import opened Protocol
  import opened StatusInvariant
  import opened OrderInvariant
  import opened RunLog
  import Order = OrderInvariant
  import Ordered = OrderPreserved
  import Theorems

  // ---- Putting runs together ----

  lemma {:induction false} Compose(s: Sys, a: seq<Label>, b: seq<Label>)
    requires Run(s, a) && Run(After(s, a), b)
    ensures Run(s, a + b) && After(s, a + b) == After(After(s, a), b)
    decreases |b|
  {
    if b == [] {
      assert a + b == a;
    } else {
      Compose(s, a, b[..|b| - 1]);
      ComposeOne(s, a, b, After(s, a), After(After(s, a), b[..|b| - 1]));
    }
  }

  lemma ComposeOne(s: Sys, a: seq<Label>, b: seq<Label>, mid: Sys, last: Sys)
    requires b != [] && Run(mid, b) && After(mid, b[..|b| - 1]) == last
    requires Run(s, a + b[..|b| - 1]) && After(s, a + b[..|b| - 1]) == last
    ensures Run(s, a + b) && After(s, a + b) == After(mid, b)
  {
    assert (a + b)[..|a + b| - 1] == a + b[..|b| - 1];
  }

  lemma One(s: Sys, l: Label)
    requires Enabled(s, l)
    ensures Run(s, [l]) && After(s, [l]) == Next(s, l)
  {
    RunStep(s, [], l);
    assert [] + [l] == [l];
  }

  // ---- A Job's reconcile ----

  /** The same store and the same other reconciles, with the Job's at pc. */
  ghost predicate JobAt(s: Sys, s': Sys, jk: Key, pc: JobPc) {
    && s'.clock == s.clock && s'.jobs == s.jobs && s'.tasks == s.tasks && s'.past == s.past
    && s'.log == s.log && s'.taskPcs == s.taskPcs
    && JobPcAt(s', jk) == pc && forall j :: j != jk ==> JobPcAt(s', j) == JobPcAt(s, j)
  }

  lemma LocalJobStep(s: Sys, s1: Sys, jk: Key, pc: JobPc, m: JobMove, pc': JobPc) returns (s2: Sys)
    requires JobAt(s, s1, jk, pc) && JobEnabled(s1, jk, m) && JobEffectOf(s1, jk, m) == Local(pc')
    ensures Enabled(s1, JobStep(jk, m)) && s2 == Next(s1, JobStep(jk, m)) && JobAt(s, s2, jk, pc')
  {
    s2 := Next(s1, JobStep(jk, m));
    assert s1.log + [] == s1.log;
  }

  /** The status of a Job once its reconcile has marked it Running. */
  function Begun(j: Job, now: Time): Status {
    if Is(j.status, Running) then j.status else With(j.status.(startTime := Some(now)), Running, None)
  }

  lemma Connect(s: Sys, jk: Key, connection: Connection) returns (ls: seq<Label>)
    requires jk in s.jobs && !s.jobs[jk].deleting && !Terminal(s.jobs[jk].status) && JobPcAt(s, jk).JIdle?
    ensures Run(s, ls)
    ensures JobAt(s, After(s, ls), jk, JConnected(s.jobs[jk], Begun(s.jobs[jk], s.clock), connection))
  {
    var j := s.jobs[jk];
    var l1, l2 := JobStep(jk, JGet(true)), JobStep(jk, JNow(s.clock));
    var l3 := JobStep(jk, JMachine(j.machine, Some(connection)));
    One(s, l1);
    var s1 := LocalJobStep(s, s, jk, JobPcAt(s, jk), JGet(true), AfterJobGet(j));
    ls := [l1];
    if !Is(j.status, Running) {
      var s2 := LocalJobStep(s, s1, jk, JFetched(j), JNow(s.clock), JStarted(j, Begun(j, s.clock)));
      One(s1, l2);
      Compose(s, ls, [l2]);
      ls, s1 := ls + [l2], s2;
    }
    var s3 := LocalJobStep(s, s1, jk, JStarted(j, Begun(j, s.clock)), JMachine(j.machine, Some(connection)),
      JConnected(j, Begun(j, s.clock), connection));
    One(s1, l3);
    Compose(s, ls, [l3]);
    ls := ls + [l3];
  }

  ghost function Names(jk: Key, k: nat): seq<Key> {
    seq(k, i requires 0 <= i < k => TaskKey(jk, i))
  }

  lemma NamesListed(v: TaskStore, jk: Key, actions: seq<Action>, k: nat)
    requires Prefix(v, jk, actions, k)
    ensures ListsOwned(v, jk, Names(jk, k))
  {
    var items := Names(jk, k);
    forall i, j | 0 <= i < j < k
      ensures items[i] != items[j]
    {
      if items[i] == items[j] {
        TaskKeyInjective(jk, i, jk, j);
      }
    }
    forall i | 0 <= i < k
      ensures Owned(v, items[i], jk)
    {
      assert Owned(v, TaskKey(jk, i), jk);
    }
    forall tk | Owned(v, tk, jk)
      ensures tk in items
    {
      var i: nat :| i < k && tk == TaskKey(jk, i);
      assert items[i] == tk;
    }
  }

  /** The reconcile up to its decision, with a current list. */
  lemma Decide(s: Sys, jk: Key, connection: Connection, k: nat) returns (ls: seq<Label>)
    requires Order.Inv(s)
    requires jk in s.jobs && !s.jobs[jk].deleting && !Terminal(s.jobs[jk].status) && JobPcAt(s, jk).JIdle?
    requires Prefix(s.tasks, jk, s.jobs[jk].actions, k)
    ensures Run(s, ls) && (k > 0 ==> TaskKey(jk, k - 1) in s.tasks)
    ensures
      var pc := JConnected(s.jobs[jk], Begun(s.jobs[jk], s.clock), connection);
      JobAt(s, After(s, ls), jk, AfterScan(pc, Outcome(s.tasks, jk, k)))
  {
    var pc := JConnected(s.jobs[jk], Begun(s.jobs[jk], s.clock), connection);
    var items := Names(jk, k);
    ls := Connect(s, jk, connection);
    var s1 := After(s, ls);
    NamesListed(s.tasks, jk, s.jobs[jk].actions, k);
    ScanOfPrefix(s.tasks, jk, s.jobs[jk].actions, k, items, s.clock);
    var m := JList(Some(Listing(|s.past|, items)));
    var s2 := LocalJobStep(s, s1, jk, pc, m, AfterScan(pc, Outcome(s.tasks, jk, k)));
    One(s1, JobStep(jk, m));
    Compose(s, ls, [JobStep(jk, m)]);
    ls := ls + [JobStep(jk, m)];
  }

  /** The Job's status patched; nothing else of the store changed. */
  ghost predicate JobPersisted(s: Sys, s': Sys, jk: Key, st: Status) {
    && jk in s.jobs && s'.jobs == s.jobs[jk := s.jobs[jk].(status := st)]
    && s'.clock == s.clock && s'.tasks == s.tasks && s'.log == s.log && s'.taskPcs == s.taskPcs
    && JobPcAt(s', jk).JIdle?
  }

  lemma Persist(s: Sys, s1: Sys, jk: Key, current: Status, answer: Answer)
    requires jk in s.jobs && JobAt(s, s1, jk, JPatching(s.jobs[jk], current, answer))
    ensures Enabled(s1, JobStep(jk, JPatch(Applied)))
    ensures JobPersisted(s, Next(s1, JobStep(jk, JPatch(Applied))), jk, current)
  {
    assert s1.log + [] == s1.log;
  }

  /** The Task created and the Job's status patched; nothing else of the store changed. */
  ghost predicate Created(s: Sys, s': Sys, jk: Key, tk: Key, t: Task, st: Status) {
    && jk in s.jobs && s'.jobs == s.jobs[jk := s.jobs[jk].(status := st)] && s'.tasks == s.tasks[tk := t]
    && s'.clock == s.clock && s'.log == s.log && s'.taskPcs == s.taskPcs && JobPcAt(s', jk).JIdle?
  }

  lemma CreateAndPersist(s: Sys, s1: Sys, jk: Key, current: Status, connection: Connection, k: nat)
    returns (ls: seq<Label>)
    requires jk in s.jobs && JobAt(s, s1, jk, JCreating(s.jobs[jk], current, connection, k))
    requires k < |s.jobs[jk].actions| && TaskKey(jk, k) !in s.tasks
    ensures Run(s1, ls)
    ensures Created(s, After(s1, ls), jk, TaskKey(jk, k), NewTask(jk, s.jobs[jk].actions[k], connection), current)
  {
    var l1, l2 := JobStep(jk, JCreate(Applied, "")), JobStep(jk, JPatch(Applied));
    var s2 := Next(s1, l1);
    assert s1.log + [] == s1.log && s2.log + [] == s2.log;
    One(s1, l1);
    One(s2, l2);
    Compose(s1, [l1], [l2]);
    ls := [l1] + [l2];
  }

  /** With all Tasks so far Completed, it decides to finish or to create the next. */
  lemma DecideToGoOn(s: Sys, jk: Key, connection: Connection, k: nat) returns (ls: seq<Label>)
    requires Order.Inv(s)
    requires jk in s.jobs && !s.jobs[jk].deleting && !Terminal(s.jobs[jk].status) && JobPcAt(s, jk).JIdle?
    requires Prefix(s.tasks, jk, s.jobs[jk].actions, k) && DoneUpTo(s.tasks, jk, k)
    ensures Run(s, ls)
    ensures
      var j, current := s.jobs[jk], Begun(s.jobs[jk], s.clock);
      JobAt(s, After(s, ls), jk, if k == |j.actions| then JFinishing(j, current)
        else JCreating(j, current, connection, k))
  {
    ls := Decide(s, jk, connection, k);
    assert k > 0 ==> OwnedDone(s.tasks, jk, k - 1);
  }

  /** The first Task of a Job that is not there yet is created, and the Job is
      persisted as Running, by some reconcile that finds all before it Completed. */
  lemma CanCreate(s: Sys, jk: Key, connection: Connection, k: nat) returns (ls: seq<Label>)
    requires Order.Inv(s)
    requires jk in s.jobs && !s.jobs[jk].deleting && !Terminal(s.jobs[jk].status) && JobPcAt(s, jk).JIdle?
    requires Prefix(s.tasks, jk, s.jobs[jk].actions, k) && DoneUpTo(s.tasks, jk, k) && k < |s.jobs[jk].actions|
    requires TaskKey(jk, k) !in s.tasks
    ensures Run(s, ls)
    ensures
      Created(s, After(s, ls), jk, TaskKey(jk, k), NewTask(jk, s.jobs[jk].actions[k], connection),
        Begun(s.jobs[jk], s.clock))
  {
    ls := DecideToGoOn(s, jk, connection, k);
    var more := CreateAndPersist(s, After(s, ls), jk, Begun(s.jobs[jk], s.clock), connection, k);
    Compose(s, ls, more);
    ls := ls + more;
  }

  lemma Finish(s: Sys, s1: Sys, jk: Key, current: Status, done: Status) returns (ls: seq<Label>)
    requires jk in s.jobs && JobAt(s, s1, jk, JFinishing(s.jobs[jk], current))
    requires done == With(current, Completed, None).(completionTime := Some(s.clock))
    ensures Run(s1, ls) && JobPersisted(s, After(s1, ls), jk, done)
  {
    var l1, l2 := JobStep(jk, JNow(s.clock)), JobStep(jk, JPatch(Applied));
    var s2 := LocalJobStep(s, s1, jk, JFinishing(s.jobs[jk], current), JNow(s.clock),
      JPatching(s.jobs[jk], done, Done));
    One(s1, l1);
    Persist(s, s2, jk, done, Done);
    One(s2, l2);
    Compose(s1, [l1], [l2]);
    ls := [l1] + [l2];
  }

  /** Some reconcile that finds all Tasks of a Job Completed persists it as Completed. */
  lemma CanComplete(s: Sys, jk: Key, connection: Connection) returns (ls: seq<Label>)
    requires Order.Inv(s)
    requires jk in s.jobs && !s.jobs[jk].deleting && !Terminal(s.jobs[jk].status) && JobPcAt(s, jk).JIdle?
    requires Prefix(s.tasks, jk, s.jobs[jk].actions, |s.jobs[jk].actions|)
    requires DoneUpTo(s.tasks, jk, |s.jobs[jk].actions|)
    ensures Run(s, ls)
    ensures JobPersisted(s, After(s, ls), jk,
      With(Begun(s.jobs[jk], s.clock), Completed, None).(completionTime := Some(s.clock)))
  {
    var current, n := Begun(s.jobs[jk], s.clock), |s.jobs[jk].actions|;
    ls := DecideToGoOn(s, jk, connection, n);
    var more := Finish(s, After(s, ls), jk, current, With(current, Completed, None).(completionTime := Some(s.clock)));
    Compose(s, ls, more);
    ls := ls + more;
  }

  // ---- A Task's reconcile ----

  ghost predicate NoLoss(log: seq<Event>, later: seq<Event>) {
    forall k :: Losses(later, k) == Losses(log, k)
  }

  /** The same store and the same other reconciles, with the Task's at pc, and no run lost. */
  ghost predicate TaskAt(s: Sys, s': Sys, tk: Key, pc: TaskPc) {
    && s'.clock == s.clock && s'.jobs == s.jobs && s'.tasks == s.tasks && s'.past == s.past
    && s'.jobPcs == s.jobPcs && NoLoss(s.log, s'.log)
    && TaskPcAt(s', tk) == pc && forall k :: k != tk ==> TaskPcAt(s', k) == TaskPcAt(s, k)
  }

  lemma {:induction false} NoLossAppend(log: seq<Event>, events: seq<Event>)
    requires forall e :: e in events ==> !e.RunLost?
    ensures NoLoss(log, log + events)
    decreases |events|
  {
    if events == [] {
      assert log + events == log;
    } else {
      var front := events[..|events| - 1];
      NoLossAppend(log, front);
      assert events[|events| - 1] in events;
      assert (log + events)[..|log + events| - 1] == log + front;
    }
  }

  ghost predicate Quiet(e: TaskEffect, pc: TaskPc) {
    e.pc == pc && e.write.None? && forall event :: event in e.events ==> !event.RunLost?
  }

  lemma QuietTaskStep(s: Sys, s1: Sys, tk: Key, pc: TaskPc, m: TaskMove, pc': TaskPc)
    requires TaskAt(s, s1, tk, pc) && TaskEnabled(s1, tk, m) && Quiet(TaskEffectOf(s1, tk, m), pc')
    ensures TaskAt(s, Next(s1, TaskStep(tk, m)), tk, pc')
  {
    NoLossAppend(s1.log, TaskEffectOf(s1, tk, m).events);
  }

  predicate Reads(l: Label) {
    l.TaskStep? && l.taskMove.TPower?
  }

  ghost predicate NoReads(ls: seq<Label>) {
    forall l :: l in ls ==> !Reads(l)
  }

  /** No power reading but this one is taken. */
  ghost predicate OnlyReads(ls: seq<Label>, reading: Option<string>) {
    forall l :: l in ls && Reads(l) ==> l.taskMove.reading == reading
  }

  /** One more step of a Task's reconcile that writes nothing and loses nothing. */
  lemma LocalTaskStep(s: Sys, ls: seq<Label>, tk: Key, pc: TaskPc, m: TaskMove, pc': TaskPc) returns (more: seq<Label>)
    requires Run(s, ls) && TaskAt(s, After(s, ls), tk, pc)
    requires TaskEnabled(After(s, ls), tk, m) && Quiet(TaskEffectOf(After(s, ls), tk, m), pc')
    ensures Run(s, more) && TaskAt(s, After(s, more), tk, pc') && more == ls + [TaskStep(tk, m)]
  {
    QuietTaskStep(s, After(s, ls), tk, pc, m, pc');
    RunStep(s, ls, TaskStep(tk, m));
    more := ls + [TaskStep(tk, m)];
  }

  /** A Task's status patched; nothing else of the store changed. */
  ghost predicate TaskPersisted(s: Sys, s': Sys, tk: Key, st: Status) {
    && tk in s.tasks && s'.tasks == s.tasks[tk := s.tasks[tk].(status := st)]
    && s'.clock == s.clock && s'.jobs == s.jobs && s'.jobPcs == s.jobPcs && NoLoss(s.log, s'.log)
    && TaskPcAt(s', tk).TIdle? && forall k :: k != tk ==> TaskPcAt(s', k) == TaskPcAt(s, k)
  }

  lemma PersistTask(s: Sys, ls: seq<Label>, tk: Key, current: Status, answer: Answer) returns (more: seq<Label>)
    requires tk in s.tasks && Run(s, ls) && TaskAt(s, After(s, ls), tk, TPatching(s.tasks[tk], current, answer))
    ensures Run(s, more) && TaskPersisted(s, After(s, more), tk, current)
    ensures more == ls + [TaskStep(tk, TPatch(Applied))]
  {
    var s1 := After(s, ls);
    RunStep(s, ls, TaskStep(tk, TPatch(Applied)));
    NoLossAppend(s1.log, []);
    more := ls + [TaskStep(tk, TPatch(Applied))];
  }

  lemma OpenFetched(s: Sys, ls: seq<Label>, tk: Key, t: Task) returns (more: seq<Label>)
    requires Run(s, ls) && TaskAt(s, After(s, ls), tk, TFetched(t))
    ensures Run(s, more) && TaskAt(s, After(s, more), tk, TOpening(t)) && more == ls + [TaskStep(tk, TSecrets(true))]
  {
    more := LocalTaskStep(s, ls, tk, TFetched(t), TSecrets(true), TOpening(t));
  }

  lemma OpenConnection(s: Sys, ls: seq<Label>, tk: Key, t: Task) returns (more: seq<Label>)
    requires Run(s, ls) && TaskAt(s, After(s, ls), tk, TOpening(t))
    ensures Run(s, more) && TaskAt(s, After(s, more), tk, TOpened(t)) && more == ls + [TaskStep(tk, TOpen(None))]
  {
    more := LocalTaskStep(s, ls, tk, TOpening(t), TOpen(None), TOpened(t));
  }

  lemma FetchTask(s: Sys, tk: Key) returns (ls: seq<Label>)
    requires tk in s.tasks && TaskPcAt(s, tk).TIdle?
    ensures Run(s, ls) && TaskAt(s, After(s, ls), tk, AfterTaskGet(s.tasks[tk])) && ls == [TaskStep(tk, TGet(true))]
  {
    ls := LocalTaskStep(s, [], tk, TaskPcAt(s, tk), TGet(true), AfterTaskGet(s.tasks[tk]));
  }

  lemma OpenTask(s: Sys, tk: Key) returns (ls: seq<Label>)
    requires tk in s.tasks && !s.tasks[tk].deleting && !Terminal(s.tasks[tk].status) && TaskPcAt(s, tk).TIdle?
    ensures Run(s, ls) && TaskAt(s, After(s, ls), tk, TOpened(s.tasks[tk])) && NoReads(ls)
  {
    var t := s.tasks[tk];
    ls := FetchTask(s, tk);
    if NeedsSecrets(t.connection) {
      ls := OpenFetched(s, ls, tk, t);
    }
    ls := OpenConnection(s, ls, tk, t);
  }

  /** The clock is read with the connection open. */
  lemma ReadClock(s: Sys, ls: seq<Label>, tk: Key, t: Task) returns (more: seq<Label>)
    requires Run(s, ls) && TaskAt(s, After(s, ls), tk, TOpened(t))
    ensures Run(s, more) && TaskAt(s, After(s, more), tk, TaskOpenedEffect(tk, t, s.clock).pc)
    ensures more == ls + [TaskStep(tk, TNow(s.clock))]
  {
    more := LocalTaskStep(s, ls, tk, TOpened(t), TNow(s.clock), TaskOpenedEffect(tk, t, s.clock).pc);
  }

  lemma IssueOne(s: Sys, ls: seq<Label>, tk: Key, t: Task, current: Status, issued: nat) returns (more: seq<Label>)
    requires Run(s, ls) && TaskAt(s, After(s, ls), tk, TRunning(t, current, issued))
    requires issued < |Commands(t.action)| && Commands(t.action)[issued] != NoDevice
    ensures Run(s, more) && more == ls + [TaskStep(tk, TCommand(Commands(t.action)[issued], None))]
    ensures
      var pc :=
        if issued + 1 < |Commands(t.action)| then TRunning(t, current, issued + 1) else TPatching(t, current, Done);
      TaskAt(s, After(s, more), tk, pc)
  {
    var pc := TRunning(t, current, issued);
    more := LocalTaskStep(s, ls, tk, pc, TCommand(Commands(t.action)[issued], None),
      TaskCommandEffect(tk, pc, None).pc);
  }

  /** Every command of a run succeeds. */
  lemma {:induction false} IssueAll(s: Sys, ls: seq<Label>, tk: Key, t: Task, current: Status, issued: nat)
    returns (more: seq<Label>)
    requires Run(s, ls) && TaskAt(s, After(s, ls), tk, TRunning(t, current, issued))
    requires issued < |Commands(t.action)| && NoDevice !in Commands(t.action)
    ensures Run(s, more) && TaskAt(s, After(s, more), tk, TPatching(t, current, Done))
    ensures NoReads(ls) ==> NoReads(more)
    decreases |Commands(t.action)| - issued
  {
    more := IssueOne(s, ls, tk, t, current, issued);
    if issued + 1 < |Commands(t.action)| {
      more := IssueAll(s, more, tk, t, current, issued + 1);
    }
  }

  lemma RunToPatch(s: Sys, tk: Key) returns (ls: seq<Label>)
    requires tk in s.tasks && !s.tasks[tk].deleting && s.tasks[tk].status == EMPTY && TaskPcAt(s, tk).TIdle?
    requires NoDevice !in Commands(s.tasks[tk].action)
    ensures Run(s, ls) && NoReads(ls)
    ensures TaskAt(s, After(s, ls), tk, TPatching(s.tasks[tk], Status([], Some(s.clock), None), Done))
  {
    var t, current := s.tasks[tk], Status([], Some(s.clock), None);
    ls := OpenTask(s, tk);
    ls := ReadClock(s, ls, tk, t);
    if Commands(t.action) != [] {
      ls := IssueAll(s, ls, tk, t, current, 0);
    }
  }

  /** Some reconcile of a new Task runs its action and persists the StartTime. */
  lemma CanRun(s: Sys, tk: Key) returns (ls: seq<Label>)
    requires tk in s.tasks && !s.tasks[tk].deleting && s.tasks[tk].status == EMPTY && TaskPcAt(s, tk).TIdle?
    requires NoDevice !in Commands(s.tasks[tk].action)
    ensures Run(s, ls) && TaskPersisted(s, After(s, ls), tk, Status([], Some(s.clock), None)) && NoReads(ls)
  {
    var way := RunToPatch(s, tk);
    ls := PersistTask(s, way, tk, Status([], Some(s.clock), None), Done);
  }

  /** Whether an action's check accepts a reading. */
  predicate Accepts(a: Action, raw: string) {
    a.power.Some? ==> Meets(a.power.value, raw)
  }

  lemma PollTask(s: Sys, ls: seq<Label>, tk: Key, t: Task, sampled: Time, raw: string) returns (more: seq<Label>)
    requires Run(s, ls) && TaskAt(s, After(s, ls), tk, TPolling(t, sampled)) && t.action.power.Some?
    requires Accepts(t.action, raw)
    ensures Run(s, more) && TaskAt(s, After(s, more), tk, TConfirmed(t, sampled))
    ensures more == ls + [TaskStep(tk, TPower(Some(raw)))]
  {
    more := LocalTaskStep(s, ls, tk, TPolling(t, sampled), TPower(Some(raw)), TConfirmed(t, sampled));
  }

  lemma FinishTask(s: Sys, ls: seq<Label>, tk: Key, t: Task, sampled: Time) returns (more: seq<Label>)
    requires tk in s.tasks && t == s.tasks[tk] && Run(s, ls) && TaskAt(s, After(s, ls), tk, TConfirmed(t, sampled))
    ensures Run(s, more) && more == ls + [TaskStep(tk, TNow(s.clock))] + [TaskStep(tk, TPatch(Applied))]
    ensures TaskPersisted(s, After(s, more), tk, With(t.status.(completionTime := Some(s.clock)), Completed, None))
  {
    var done := With(t.status.(completionTime := Some(s.clock)), Completed, None);
    more := LocalTaskStep(s, ls, tk, TConfirmed(t, sampled), TNow(s.clock), TPatching(t, done, Done));
    more := PersistTask(s, more, tk, done, Done);
  }

  lemma ConfirmTask(s: Sys, tk: Key, raw: string) returns (ls: seq<Label>)
    requires tk in s.tasks && !s.tasks[tk].deleting && TaskStarted(s.tasks[tk].status) && TaskPcAt(s, tk).TIdle?
    requires InTime(s.tasks[tk].status, s.clock) && Accepts(s.tasks[tk].action, raw)
    ensures Run(s, ls) && TaskAt(s, After(s, ls), tk, TConfirmed(s.tasks[tk], s.clock))
    ensures OnlyReads(ls, if s.tasks[tk].action.power.Some? then Some(raw) else None)
  {
    var t := s.tasks[tk];
    ls := OpenTask(s, tk);
    ls := ReadClock(s, ls, tk, t);
    if t.action.power.Some? {
      ls := PollTask(s, ls, tk, t, s.clock, raw);
    }
  }

  /** Some reconcile of a started Task, in time and on a reading that shows what it
      waits for, persists it as Completed. */
  lemma CanConfirm(s: Sys, tk: Key, raw: string) returns (ls: seq<Label>)
    requires tk in s.tasks && !s.tasks[tk].deleting && TaskStarted(s.tasks[tk].status) && TaskPcAt(s, tk).TIdle?
    requires InTime(s.tasks[tk].status, s.clock) && Accepts(s.tasks[tk].action, raw)
    ensures Run(s, ls) && TaskPersisted(s, After(s, ls), tk,
      With(s.tasks[tk].status, Completed, None).(completionTime := Some(s.clock)))
    ensures OnlyReads(ls, if s.tasks[tk].action.power.Some? then Some(raw) else None)
  {
    ls := ConfirmTask(s, tk, raw);
    ls := FinishTask(s, ls, tk, s.tasks[tk], s.clock);
  }

  // ---- A whole Job ----

  lemma PlainReadings()
    ensures ToPowerState("on") == On && ToPowerState("off") == Off
  {
    assert ToLower("on") == "on" && ToLower("off") == "off";
    assert "off"[1..] == "ff" && "ff"[1..] == "f" && "f"[1..] == "";
    assert "on"[0] == 'o' && "off"[1] == 'f' && "off"[0] == 'o' && "on"[1] == 'n' && "ff"[0] == 'f';
    assert !Contains("", "on") && !Contains("f", "on") && !Contains("ff", "on") && !Contains("off", "on");
  }

  /** A reading that satisfies an action's check. */
  function SomeReading(a: Action): string {
    if a.power.Some? && Wanted(a.power.value) == Some(Off) then "off" else "on"
  }

  lemma AcceptsSome(a: Action)
    ensures Accepts(a, SomeReading(a))
  {
    PlainReadings();
  }

  /** A Job that has got through its first k actions without a hitch. */
  ghost predicate Halfway(s: Sys, jk: Key, actions: seq<Action>, k: nat) {
    && jk in s.jobs && s.jobs[jk].actions == actions && !s.jobs[jk].deleting && !Terminal(s.jobs[jk].status)
    && JobPcAt(s, jk).JIdle?
    && Prefix(s.tasks, jk, actions, k) && DoneUpTo(s.tasks, jk, k)
    && (forall tk :: tk in s.tasks ==> Owned(s.tasks, tk, jk))
    && (forall tk :: TaskPcAt(s, tk).TIdle?)
    && (forall tk :: Losses(s.log, tk) == 0)
  }

  /** The next name is free: all Tasks there are the first k. */
  lemma NextNameFree(s: Sys, jk: Key, actions: seq<Action>, k: nat)
    requires Halfway(s, jk, actions, k)
    ensures TaskKey(jk, k) !in s.tasks
  {
    if TaskKey(jk, k) in s.tasks {
      assert Owned(s.tasks, TaskKey(jk, k), jk);
      var i: nat :| i < k && TaskKey(jk, k) == TaskKey(jk, i);
      TaskKeyInjective(jk, k, jk, i);
    }
  }

  lemma BegunRunning(s: Sys, jk: Key)
    requires jk in s.jobs && JobStatusOk(s.jobs[jk].status, s.clock) && !Terminal(s.jobs[jk].status)
    ensures JobRunning(Begun(s.jobs[jk], s.clock)) && !Terminal(Begun(s.jobs[jk], s.clock))
    ensures JobStatusOk(Begun(s.jobs[jk], s.clock), s.clock)
  {
    JobConditions(s.jobs[jk].status, s.clock);
    JobChanges(s.jobs[jk].status, s.clock, "");
    JobConditions(Begun(s.jobs[jk], s.clock), s.clock);
  }

  /** A new Task carried to Completed. */
  lemma RunAndConfirm(s: Sys, tk: Key, raw: string) returns (ls: seq<Label>)
    requires tk in s.tasks && Accepts(s.tasks[tk].action, raw) && !s.tasks[tk].deleting && s.tasks[tk].status == EMPTY
    requires TaskPcAt(s, tk).TIdle?
    requires NoDevice !in Commands(s.tasks[tk].action)
    ensures Run(s, ls)
    ensures TaskPersisted(s, After(s, ls), tk, Status([Condition(Completed, True, "")], Some(s.clock), Some(s.clock)))
    ensures OnlyReads(ls, if s.tasks[tk].action.power.Some? then Some(raw) else None)
  {
    ls := CanRun(s, tk);
    var s1 := After(s, ls);
    var more := CanConfirm(s1, tk, raw);
    var done := Status([Condition(Completed, True, "")], Some(s.clock), Some(s.clock));
    assert With(s1.tasks[tk].status, Completed, None).(completionTime := Some(s.clock)) == done;
    assert s1.tasks[tk := s1.tasks[tk].(status := done)] == s.tasks[tk := s.tasks[tk].(status := done)];
    Compose(s, ls, more);
    ls := ls + more;
  }

  /** The next Task, created and since then carried to Completed: the Tasks are one more. */
  lemma PrefixCompleted(v: TaskStore, w: TaskStore, jk: Key, actions: seq<Action>, k: nat, connection: Connection,
    done: Status)
    requires Prefix(v, jk, actions, k) && DoneUpTo(v, jk, k) && k < |actions| && TaskKey(jk, k) !in v && TaskDone(done)
    requires w == v[TaskKey(jk, k) := NewTask(jk, actions[k], connection).(status := done)]
    ensures Prefix(w, jk, actions, k + 1)
  {
    var created := v[TaskKey(jk, k) := NewTask(jk, actions[k], connection)];
    PrefixNext(v, jk, actions, k, connection);
    PrefixKept(created, w, jk, actions, k + 1);
  }

  /** And one more of them is Completed. */
  lemma DoneCompleted(v: TaskStore, w: TaskStore, jk: Key, k: nat, t: Task)
    requires DoneUpTo(v, jk, k) && TaskKey(jk, k) !in v && w == v[TaskKey(jk, k) := t]
    requires OwnerOf(TaskKey(jk, k), t) == Some(jk) && TaskDone(t.status)
    ensures DoneUpTo(w, jk, k + 1)
    ensures (forall tk :: tk in v ==> Owned(v, tk, jk)) ==> forall tk :: tk in w ==> Owned(w, tk, jk)
  {
    forall i | 0 <= i < k + 1
      ensures OwnedDone(w, jk, i)
    {
      if i < k {
        assert OwnedDone(v, jk, i);
      }
    }
    if forall tk :: tk in v ==> Owned(v, tk, jk) {
      forall tk | tk in w
        ensures Owned(w, tk, jk)
      {
        assert tk != TaskKey(jk, k) ==> Owned(v, tk, jk);
      }
    }
  }

  /** What the store is like when the next Task has been carried to Completed. */
  lemma HalfwayNext(s: Sys, s': Sys, jk: Key, actions: seq<Action>, k: nat, connection: Connection, done: Status)
    requires Halfway(s, jk, actions, k) && k < |actions| && TaskKey(jk, k) !in s.tasks && TaskDone(done)
    requires s'.tasks == s.tasks[TaskKey(jk, k) := NewTask(jk, actions[k], connection).(status := done)]
    ensures Prefix(s'.tasks, jk, actions, k + 1) && DoneUpTo(s'.tasks, jk, k + 1)
    ensures forall tk :: tk in s'.tasks ==> Owned(s'.tasks, tk, jk)
  {
    NewTaskOwner(jk, k, actions[k], connection);
    PrefixCompleted(s.tasks, s'.tasks, jk, actions, k, connection, done);
    DoneCompleted(s.tasks, s'.tasks, jk, k, NewTask(jk, actions[k], connection).(status := done));
  }

  lemma StartAction(s: Sys, jk: Key, actions: seq<Action>, k: nat, connection: Connection) returns (ls: seq<Label>)
    requires Order.Inv(s) && Halfway(s, jk, actions, k) && k < |actions|
    ensures Run(s, ls) && TaskKey(jk, k) !in s.tasks && !Terminal(Begun(s.jobs[jk], s.clock))
    ensures
      var t := NewTask(jk, actions[k], connection);
      Created(s, After(s, ls), jk, TaskKey(jk, k), t, Begun(s.jobs[jk], s.clock))
  {
    NextNameFree(s, jk, actions, k);
    BegunRunning(s, jk);
    ls := CanCreate(s, jk, connection, k);
  }

  /** One more action: its Task created, run and confirmed. */
  lemma OneAction(s: Sys, jk: Key, actions: seq<Action>, k: nat, connection: Connection) returns (ls: seq<Label>)
    requires Order.Inv(s) && Halfway(s, jk, actions, k) && k < |actions| && NoDevice !in Commands(actions[k])
    ensures Run(s, ls) && Halfway(After(s, ls), jk, actions, k + 1)
  {
    ls := StartAction(s, jk, actions, k, connection);
    var s1 := After(s, ls);
    assert TaskPcAt(s1, TaskKey(jk, k)) == TaskPcAt(s, TaskKey(jk, k));
    AcceptsSome(actions[k]);
    var more := RunAndConfirm(s1, TaskKey(jk, k), SomeReading(actions[k]));
    ConfirmedNext(s, s1, After(s1, more), jk, actions, k, connection);
    Compose(s, ls, more);
    ls := ls + more;
  }

  lemma ConfirmedNext(s: Sys, s1: Sys, s2: Sys, jk: Key, actions: seq<Action>, k: nat, connection: Connection)
    requires Halfway(s, jk, actions, k) && k < |actions| && TaskKey(jk, k) !in s.tasks
    requires Created(s, s1, jk, TaskKey(jk, k), NewTask(jk, actions[k], connection), Begun(s.jobs[jk], s.clock))
    requires !Terminal(Begun(s.jobs[jk], s.clock))
    requires TaskPersisted(s1, s2, TaskKey(jk, k),
      Status([Condition(Completed, True, "")], Some(s1.clock), Some(s1.clock)))
    ensures Halfway(s2, jk, actions, k + 1)
  {
    var done := Status([Condition(Completed, True, "")], Some(s1.clock), Some(s1.clock));
    assert s2.tasks == s.tasks[TaskKey(jk, k) := NewTask(jk, actions[k], connection).(status := done)];
    HalfwayNext(s, s2, jk, actions, k, connection, done);
    HalfwayReached(s, s1, s2, jk, actions, k);
  }

  lemma HalfwayReached(s: Sys, s1: Sys, s2: Sys, jk: Key, actions: seq<Action>, k: nat)
    requires Halfway(s, jk, actions, k)
    requires s1.jobs == s.jobs[jk := s.jobs[jk].(status := Begun(s.jobs[jk], s.clock))]
    requires !Terminal(Begun(s.jobs[jk], s.clock))
    requires s1.log == s.log && s1.taskPcs == s.taskPcs && JobPcAt(s1, jk).JIdle? && TaskKey(jk, k) in s1.tasks
    requires s2.jobs == s1.jobs && s2.jobPcs == s1.jobPcs && NoLoss(s1.log, s2.log)
    requires TaskPcAt(s2, TaskKey(jk, k)).TIdle? && forall tk :: tk != TaskKey(jk, k) ==>
      TaskPcAt(s2, tk) == TaskPcAt(s1, tk)
    requires Prefix(s2.tasks, jk, actions, k + 1) && DoneUpTo(s2.tasks, jk, k + 1)
    requires forall tk :: tk in s2.tasks ==> Owned(s2.tasks, tk, jk)
    ensures Halfway(s2, jk, actions, k + 1)
  {
    forall tk
      ensures TaskPcAt(s2, tk).TIdle?
    {
      assert TaskPcAt(s, tk).TIdle? && TaskPcAt(s1, tk) == TaskPcAt(s, tk);
    }
    forall tk
      ensures Losses(s2.log, tk) == 0
    {
      assert Losses(s.log, tk) == 0 && Losses(s2.log, tk) == Losses(s1.log, tk);
    }
  }

  lemma {:induction false} Carry(s0: Sys, jk: Key, actions: seq<Action>, k: nat, connection: Connection)
    returns (ls: seq<Label>)
    requires Initial(s0) && k <= |actions| && forall i :: 0 <= i < |actions| ==> NoDevice !in Commands(actions[i])
    ensures Run(s0, ls) && Halfway(After(s0, ls), jk, actions, k)
  {
    if k == 0 {
      var l := User(CreateJob(jk, jk, actions));
      One(s0, l);
      ls := [l];
      assert forall tk :: !Owned(After(s0, ls).tasks, tk, jk);
    } else {
      ls := Carry(s0, jk, actions, k - 1, connection);
      Ordered.Always(s0, ls);
      var more := OneAction(After(s0, ls), jk, actions, k - 1, connection);
      Compose(s0, ls, more);
      ls := ls + more;
    }
  }

  /** Whatever its actions, a Job can be carried to Completed, with exactly its
      actions run, in order, each once. */
  lemma JobCanComplete(s0: Sys, jk: Key, actions: seq<Action>, connection: Connection) returns (ls: seq<Label>)
    requires Initial(s0) && forall i :: 0 <= i < |actions| ==> NoDevice !in Commands(actions[i])
    ensures Run(s0, ls) && jk in After(s0, ls).jobs
    ensures After(s0, ls).jobs[jk].actions == actions && Is(After(s0, ls).jobs[jk].status, Completed)
    ensures ActionsRun(After(s0, ls).log, jk) == actions
  {
    ls := Carry(s0, jk, actions, |actions|, connection);
    var s := After(s0, ls);
    Ordered.Always(s0, ls);
    var more := CanComplete(s, jk, connection);
    Compose(s0, ls, more);
    BegunRunning(s, jk);
    JobChanges(Begun(s.jobs[jk], s.clock), s.clock, "");
    ls := ls + more;
    JobConditions(After(s0, ls).jobs[jk].status, s.clock);
    assert forall i: nat :: Losses(s.log, TaskKey(jk, i)) == 0;
    Theorems.CompletedJobRanAll(s0, ls, jk);
  }
}
