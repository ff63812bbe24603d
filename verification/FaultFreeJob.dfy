/** What every reconcile of a Job achieves when none of its own calls fails and
    its list is no older than the reconcile, whatever everybody else does meanwhile. */
module FaultFreeJob {
  import opened Options
  import opened Conditions
  import opened Statuses
  import opened Bmc
  import opened Protocol
  import opened StatusInvariant
  import opened OrderInvariant
  import opened OrderPreserved
  import opened WriteBound
  import JobStory
  import ScanOrder
  import TaskStory
  import Theorems
  import Shapes = StatusInvariant
  import Order = OrderInvariant
  import Ordered = OrderPreserved

  // ---- Faults ----

  /** A step of the Job's reconcile that fails, cuts it off or lists Tasks from
      before the since-th change of the Task store, or the Job's deletion. */
  predicate Faulty(l: Label, jk: Key, since: nat) {
    match l
    case User(DeleteJob(j)) => j == jk
    case JobStep(j, m) => j == jk && MoveFaulty(m, since)
    case _ => false
  }

  predicate MoveFaulty(m: JobMove, since: nat) {
    match m
    case JGet(found) => !found
    case JNow(_) => false
    case JMachine(_, connection) => connection.None?
    case JList(listing) => listing.None? || listing.value.view < since
    case JCreate(o, _) => o != Applied
    case JPatch(o) => o != Applied
    case JCut => true
  }

  ghost predicate FaultFree(ls: seq<Label>, jk: Key, since: nat) {
    forall l :: l in ls ==> !Faulty(l, jk, since)
  }

  // ---- Stores between two moments ----

  ghost predicate SameTasks(v: TaskStore, w: TaskStore, jk: Key) {
    forall tk :: Owned(v, tk, jk) <==> Owned(w, tk, jk)
  }

  /** Every store since s is at least as far on as the one at s. */
  ghost predicate ViewsSince(s: Sys, s': Sys) {
    && |s.past| <= |s'.past|
    && forall i: nat :: |s.past| <= i <= |s'.past| ==> Older(s.tasks, View(s', i))
  }

  lemma ViewsStep(s: Sys, s1: Sys, s2: Sys)
    requires ViewsSince(s, s1) && Grown(s1, s2)
    ensures ViewsSince(s, s2)
  {
    forall i: nat | |s.past| <= i <= |s2.past|
      ensures Older(s.tasks, View(s2, i))
    {
      assert Older(s.tasks, View(s1, |s1.past|));
      OlderTransitive(s.tasks, s1.tasks, s2.tasks);
      if i <= |s1.past| {
        assert Older(s.tasks, View(s1, i));
      }
    }
  }

  lemma {:induction false} AlwaysViews(s0: Sys, ls: seq<Label>, more: seq<Label>)
    requires Initial(s0) && Run(s0, ls) && Run(s0, ls + more)
    ensures ViewsSince(After(s0, ls), After(s0, ls + more))
    decreases |more|
  {
    if more == [] {
      assert ls + more == ls;
    } else {
      var front, l := more[..|more| - 1], more[|more| - 1];
      assert (ls + more)[..|ls + more| - 1] == ls + front;
      AlwaysViews(s0, ls, front);
      Shapes.Always(s0, ls + front);
      StepGrows(After(s0, ls + front), l);
      ViewsStep(After(s0, ls), After(s0, ls + front), Next(After(s0, ls + front), l));
    }
  }

  lemma SameCount(v: TaskStore, w: TaskStore, jk: Key, actions: seq<Action>, k: nat, n: nat)
    requires Prefix(v, jk, actions, k) && Prefix(w, jk, actions, n) && SameTasks(v, w, jk)
    ensures k == n
  {
    if k < n {
      assert Owned(w, TaskKey(jk, k), jk);
      var i: nat :| i < k && TaskKey(jk, k) == TaskKey(jk, i);
      TaskKeyInjective(jk, k, jk, i);
    }
    if n < k {
      assert Owned(v, TaskKey(jk, n), jk);
      var i: nat :| i < n && TaskKey(jk, n) == TaskKey(jk, i);
      TaskKeyInjective(jk, n, jk, i);
    }
  }

  /** Whether the last of the Job's k Tasks is neither Completed nor Failed. */
  ghost predicate Pending(v: TaskStore, jk: Key, k: nat) {
    && k > 0 && Owned(v, TaskKey(jk, k - 1), jk)
    && !TaskDone(v[TaskKey(jk, k - 1)].status) && !TaskFailed(v[TaskKey(jk, k - 1)].status)
  }

  /** What a scan of a store between u and w finds. */
  lemma ScanBetween(u: TaskStore, v: TaskStore, w: Sys, jk: Key, actions: seq<Action>, k: nat, items: seq<Key>)
    requires Prefix(u, jk, actions, k) && Older(u, v) && ViewOk(v, w) && SameTasks(u, w.tasks, jk)
    requires jk in w.jobs && w.jobs[jk].actions == actions
    requires ListsOwned(v, jk, items)
    ensures k > 0 ==> TaskKey(jk, k - 1) in v
    ensures ScanOrder.AllIn(v, items) && Scan(v, items) == Outcome(v, jk, k)
  {
    var n: nat :| Prefix(v, jk, actions, n);
    assert SameTasks(u, v, jk);
    SameCount(u, v, jk, actions, k, n);
    ScanOfPrefix(v, jk, actions, k, items, w.clock);
  }

  // ---- Steps of everybody else ----

  /** Nothing about the Job happened but time passing and its Tasks' statuses moving. */
  ghost predicate Aside(s: Sys, s': Sys, jk: Key) {
    && s.clock <= s'.clock && Older(s.tasks, s'.tasks)
    && JobPcAt(s', jk) == JobPcAt(s, jk)
    && (jk in s.jobs ==> jk in s'.jobs && s'.jobs[jk] == s.jobs[jk])
    && SameTasks(s.tasks, s'.tasks, jk)
  }

  lemma UserAside(s: Sys, m: UserMove, jk: Key)
    requires UserEnabled(s, m) && m != DeleteJob(jk) && jk in s.jobs
    ensures Aside(s, Next(s, User(m)), jk)
  {
    UserStepFrame(s, m);
    UserStepGrows(s, m);
  }

  lemma OtherAside(s: Sys, l: Label, jk: Key)
    requires Shapes.Inv(s) && Enabled(s, l) && jk in s.jobs
    requires ActorOf(l) != Some(JobActor(jk)) && l != User(DeleteJob(jk))
    ensures Aside(s, Next(s, l), jk)
  {
    match l
    case User(m) => UserAside(s, m, jk);
    case JobStep(j, m) =>
      Theorems.StepIsIsolated(s, j, m, jk);
      JobStepGrows(s, j, m);
    case TaskStep(tk, m) =>
      Theorems.TerminalTaskStep(s, tk, m, jk);
      TaskStepGrows(s, tk, m);
  }

  // ---- What a reconcile amounts to ----

  /** The Job's status as of its start: Running since a time meanwhile, unless it was Running before. */
  function BegunAt(j: Job, start: Option<Time>): Status {
    if Is(j.status, Running) then j.status else With(j.status.(startTime := start), Running, None)
  }

  ghost predicate StartOk(s: Sys, s': Sys, j: Job, start: Option<Time>) {
    Is(j.status, Running) || (start.Some? && Meanwhile(s, s', start.value))
  }

  ghost predicate Begun(s: Sys, s': Sys, j: Job, current: Status) {
    StartOk(s, s', j, current.startTime) && current == BegunAt(j, current.startTime)
  }

  /** The Job's k-th action has a Task now, and that is the only new one. */
  ghost predicate Created(v: TaskStore, w: TaskStore, jk: Key, k: nat, action: Action) {
    && TaskKey(jk, k) !in v && Owned(w, TaskKey(jk, k), jk) && w[TaskKey(jk, k)].action == action
    && forall tk :: Owned(w, tk, jk) <==> Owned(v, tk, jk) || tk == TaskKey(jk, k)
  }

  ghost predicate Failing(s: Sys, s': Sys, j: Job, current: Status, tk: Key) {
    && StartOk(s, s', j, current.startTime)
    && current == With(BegunAt(j, current.startTime), Failed, Some(JobFailure(tk)))
  }

  ghost predicate Completing(s: Sys, s': Sys, j: Job, current: Status) {
    && StartOk(s, s', j, current.startTime)
    && current.completionTime.Some? && Meanwhile(s, s', current.completionTime.value)
    && current == With(BegunAt(j, current.startTime), Completed, None).(completionTime := current.completionTime)
  }

  /** What a fault-free reconcile of a Job with k Tasks comes to, between s and
      s', when their scan finds found. */
  ghost predicate JobOutcome(s: Sys, s': Sys, jk: Key, found: Scanned, current: Status, answer: Answer)
    requires jk in s.jobs
  {
    var j := s.jobs[jk];
    match found
    case ScanFailed(tk) => answer == Error && SameTasks(s.tasks, s'.tasks, jk) && Failing(s, s', j, current, tk)
    case ScanPending => answer == Done && SameTasks(s.tasks, s'.tasks, jk) && current == j.status
    case ScanCompleted(k) =>
      && answer == Done
      && if k < |j.actions| then Begun(s, s', j, current) && Created(s.tasks, s'.tasks, jk, k, j.actions[k])
         else Completing(s, s', j, current) && SameTasks(s.tasks, s'.tasks, jk)
  }

  /** Where such a reconcile stands at s', given its own steps since s. */
  ghost predicate Phase(s: Sys, s': Sys, jk: Key, found: Scanned, own: seq<Label>)
    requires jk in s.jobs
  {
    var j, pc := s.jobs[jk], JobPcAt(s', jk);
    && jk in s'.jobs && s.clock <= s'.clock && Older(s.tasks, s'.tasks)
    && if own == [] then pc.JIdle? && s'.jobs[jk] == j && SameTasks(s.tasks, s'.tasks, jk)
       else match pc
         case JIdle(answer) =>
           s'.jobs[jk] == j.(status := s'.jobs[jk].status) && JobOutcome(s, s', jk, found, s'.jobs[jk].status, answer)
         case JPatching(job, current, answer) =>
           s'.jobs[jk] == j && job == j && JobOutcome(s, s', jk, found, current, answer)
         case JFetched(job) =>
           s'.jobs[jk] == j && job == j && SameTasks(s.tasks, s'.tasks, jk) && !Is(j.status, Running)
         case JFinishing(_, _) => Underway(s, s', jk) && CountIs(found, |j.actions|)
         case JCreating(_, _, _, index) => Underway(s, s', jk) && CountIs(found, index) && index < |j.actions|
         case _ => Underway(s, s', jk)
  }

  /** Between the start and the decision: Running in hand, nothing stored. */
  ghost predicate Underway(s: Sys, s': Sys, jk: Key)
    requires jk in s.jobs && jk in s'.jobs && !JobPcAt(s', jk).JIdle? && !JobPcAt(s', jk).JFetched?
  {
    var j, pc := s.jobs[jk], JobPcAt(s', jk);
    s'.jobs[jk] == j && pc.job == j && SameTasks(s.tasks, s'.tasks, jk) && Begun(s, s', j, pc.current)
  }

  predicate CountIs(found: Scanned, n: int) {
    match found
    case ScanCompleted(count) => count == n
    case _ => false
  }

  lemma CreatedKept(v: TaskStore, w: TaskStore, w': TaskStore, jk: Key, k: nat, action: Action)
    requires Created(v, w, jk, k, action) && Older(w, w') && SameTasks(w, w', jk)
    ensures Created(v, w', jk, k, action)
  {
  }

  lemma OutcomeKept(s: Sys, s1: Sys, s2: Sys, jk: Key, found: Scanned, current: Status, answer: Answer)
    requires jk in s.jobs && JobOutcome(s, s1, jk, found, current, answer)
    requires s1.clock <= s2.clock && Older(s1.tasks, s2.tasks) && SameTasks(s1.tasks, s2.tasks, jk)
    ensures JobOutcome(s, s2, jk, found, current, answer)
  {
    if found.ScanCompleted? && found.count < |s.jobs[jk].actions| {
      CreatedKept(s.tasks, s1.tasks, s2.tasks, jk, found.count, s.jobs[jk].actions[found.count]);
    }
  }

  lemma PhaseKept(s: Sys, s1: Sys, s2: Sys, jk: Key, found: Scanned, own: seq<Label>)
    requires jk in s.jobs && Phase(s, s1, jk, found, own) && Aside(s1, s2, jk)
    ensures Phase(s, s2, jk, found, own)
  {
    var pc := JobPcAt(s1, jk);
    OlderTransitive(s.tasks, s1.tasks, s2.tasks);
    if own != [] && pc.JIdle? {
      OutcomeKept(s, s1, s2, jk, found, s1.jobs[jk].status, pc.last);
    } else if pc.JPatching? {
      OutcomeKept(s, s1, s2, jk, found, pc.current, pc.answer);
    }
  }

  ghost predicate Fetchable(s: Sys, jk: Key) {
    jk in s.jobs && JobPcAt(s, jk).JIdle? && !s.jobs[jk].deleting && !Terminal(s.jobs[jk].status)
  }

  // ---- Own steps ----

  /** A step of the Job's reconcile that writes nothing. */
  ghost predicate Moved(s1: Sys, s2: Sys, jk: Key, pc: JobPc) {
    s2.clock == s1.clock && s2.tasks == s1.tasks && s2.jobs == s1.jobs && JobPcAt(s2, jk) == pc
  }

  lemma PhaseEarly(s: Sys, s1: Sys, jk: Key, found: Scanned, own: seq<Label>, own': seq<Label>, m: JobMove)
    requires Fetchable(s, jk) && own' != [] && Phase(s, s1, jk, found, own) && JobEnabled(s1, jk, m)
    requires !MoveFaulty(m, |s.past|)
    requires (m.JGet? && own == []) || ((m.JMachine? || (m.JNow? && JobPcAt(s1, jk).JFetched?)) && own != [])
    requires Is(s.jobs[jk].status, Running) ==> s.jobs[jk].status.startTime.Some?
    ensures Phase(s, Next(s1, JobStep(jk, m)), jk, found, own')
  {
  }

  /** The clock is read for the CompletionTime. */
  lemma PhaseFinishing(s: Sys, s1: Sys, s2: Sys, jk: Key, found: Scanned, own: seq<Label>, own': seq<Label>)
    requires Fetchable(s, jk) && own != [] && own' != [] && Phase(s, s1, jk, found, own) && JobPcAt(s1, jk).JFinishing?
    requires
      var pc := JobPcAt(s1, jk);
      Moved(s1, s2, jk, JPatching(pc.job, With(pc.current, Completed, None).(completionTime := Some(s1.clock)), Done))
    ensures Phase(s, s2, jk, found, own')
  {
  }

  /** The list has been scanned. */
  lemma PhaseScanned(s: Sys, s1: Sys, s2: Sys, jk: Key, found: Scanned, own: seq<Label>, own': seq<Label>)
    requires Fetchable(s, jk) && own != [] && own' != [] && Phase(s, s1, jk, found, own) && JobPcAt(s1, jk).JConnected?
    requires found.ScanCompleted? ==> found.count <= |s.jobs[jk].actions|
    requires Moved(s1, s2, jk, AfterScan(JobPcAt(s1, jk), found))
    ensures Phase(s, s2, jk, found, own')
  {
  }

  lemma PhasePatched(s: Sys, s1: Sys, s2: Sys, jk: Key, found: Scanned, own: seq<Label>, own': seq<Label>)
    requires Fetchable(s, jk) && own != [] && own' != [] && Phase(s, s1, jk, found, own) && JobPcAt(s1, jk).JPatching?
    requires
      var pc := JobPcAt(s1, jk);
      && s2.clock == s1.clock && s2.tasks == s1.tasks && JobPcAt(s2, jk) == JIdle(pc.answer)
      && s2.jobs == s1.jobs[jk := s1.jobs[jk].(status := pc.current)]
    ensures Phase(s, s2, jk, found, own')
  {
    var pc := JobPcAt(s1, jk);
    OutcomeKept(s, s1, s2, jk, found, pc.current, pc.answer);
  }

  lemma PhaseCreated(s: Sys, s1: Sys, s2: Sys, jk: Key, found: Scanned, own: seq<Label>, own': seq<Label>)
    requires Fetchable(s, jk) && own != [] && own' != [] && Phase(s, s1, jk, found, own) && JobPcAt(s1, jk).JCreating?
    requires
      var pc := JobPcAt(s1, jk);
      && TaskKey(jk, pc.index) !in s1.tasks
      && s2.clock == s1.clock && s2.jobs == s1.jobs && JobPcAt(s2, jk) == JPatching(pc.job, pc.current, Done)
      && s2.tasks == s1.tasks[TaskKey(jk, pc.index) := NewTask(jk, pc.job.actions[pc.index], pc.connection)]
    ensures Phase(s, s2, jk, found, own')
  {
    var pc := JobPcAt(s1, jk);
    NewTaskOwner(jk, pc.index, pc.job.actions[pc.index], pc.connection);
    assert Created(s.tasks, s2.tasks, jk, pc.index, pc.job.actions[pc.index]);
  }

  /** What a scan of the Job's k Tasks can have found between s and s': what it
      would find at s or, if the last Task was pending then, what it would at s'. */
  ghost predicate Seen(s: Sys, s': Sys, jk: Key, k: nat, found: Scanned) {
    && jk in s.jobs && k <= |s.jobs[jk].actions|
    && (k > 0 ==> TaskKey(jk, k - 1) in s.tasks && TaskKey(jk, k - 1) in s'.tasks)
    && (found == Outcome(s.tasks, jk, k) || (Outcome(s.tasks, jk, k).ScanPending? && found == Outcome(s'.tasks, jk, k)))
  }

  lemma SeenKept(s: Sys, s1: Sys, s2: Sys, jk: Key, k: nat, found: Scanned)
    requires Seen(s, s1, jk, k, found) && Older(s1.tasks, s2.tasks)
    ensures Seen(s, s2, jk, k, found)
  {
  }

  /** What a store between s and s1 shows. */
  lemma SeenBetween(s: Sys, v: TaskStore, s1: Sys, jk: Key, k: nat)
    requires jk in s.jobs && Prefix(s.tasks, jk, s.jobs[jk].actions, k)
    requires Older(s.tasks, v) && Older(v, s1.tasks) && (k > 0 ==> TaskKey(jk, k - 1) in v)
    ensures Seen(s, s1, jk, k, Outcome(v, jk, k))
  {
    assert k > 0 ==> Owned(s.tasks, TaskKey(jk, k - 1), jk);
  }

  /** The list may be of any store since s. */
  lemma ListSees(s: Sys, s1: Sys, jk: Key, k: nat, l: Listing)
    requires jk in s.jobs && Prefix(s.tasks, jk, s.jobs[jk].actions, k)
    requires Order.Inv(s1) && ViewsSince(s, s1) && SameTasks(s.tasks, s1.tasks, jk)
    requires jk in s1.jobs && s1.jobs[jk].actions == s.jobs[jk].actions
    requires JobEnabled(s1, jk, JList(Some(l))) && l.view >= |s.past|
    ensures Seen(s, s1, jk, k, Scan(View(s1, l.view), l.items))
  {
    var v := View(s1, l.view);
    assert ViewOk(v, s1) by {
      assert v in s1.past || v == s1.tasks;
    }
    ScanBetween(s.tasks, v, s1, jk, s.jobs[jk].actions, k, l.items);
    SeenBetween(s, v, s1, jk, k);
  }

  /** Before the list, nothing depends on what it will show. */
  lemma PhaseBeforeList(s: Sys, s1: Sys, jk: Key, found: Scanned, found': Scanned, own: seq<Label>)
    requires jk in s.jobs && own != [] && Phase(s, s1, jk, found, own) && JobPcAt(s1, jk).JConnected?
    ensures Phase(s, s1, jk, found', own)
  {
  }

  lemma ListMoves(s1: Sys, jk: Key, l: Listing)
    requires JobEnabled(s1, jk, JList(Some(l)))
    ensures
      var s2 := Next(s1, JobStep(jk, JList(Some(l))));
      Moved(s1, s2, jk, AfterScan(JobPcAt(s1, jk), Scan(View(s1, l.view), l.items)))
  {
  }

  lemma PhaseList(s: Sys, s1: Sys, jk: Key, k: nat, found: Scanned, own: seq<Label>, own': seq<Label>, l: Listing)
    returns (found': Scanned)
    requires Fetchable(s, jk) && own != [] && own' != [] && Phase(s, s1, jk, found, own)
    requires Prefix(s.tasks, jk, s.jobs[jk].actions, k) && Order.Inv(s1) && ViewsSince(s, s1)
    requires JobEnabled(s1, jk, JList(Some(l))) && l.view >= |s.past|
    ensures
      var s2 := Next(s1, JobStep(jk, JList(Some(l))));
      Seen(s, s2, jk, k, found') && Phase(s, s2, jk, found', own')
  {
    found' := Scan(View(s1, l.view), l.items);
    assert Underway(s, s1, jk);
    ListSees(s, s1, jk, k, l);
    ListMoves(s1, jk, l);
    PhaseListed(s, s1, Next(s1, JobStep(jk, JList(Some(l)))), jk, k, found, found', own, own');
  }

  lemma PhaseListed(
      s: Sys, s1: Sys, s2: Sys, jk: Key, k: nat, found: Scanned, found': Scanned, own: seq<Label>, own': seq<Label>)
    requires Fetchable(s, jk) && own != [] && own' != [] && Phase(s, s1, jk, found, own)
    requires JobPcAt(s1, jk).JConnected? && Seen(s, s1, jk, k, found')
    requires Moved(s1, s2, jk, AfterScan(JobPcAt(s1, jk), found'))
    ensures Seen(s, s2, jk, k, found') && Phase(s, s2, jk, found', own')
  {
    PhaseBeforeList(s, s1, jk, found, found', own);
    PhaseScanned(s, s1, s2, jk, found', own, own');
  }

  lemma PhaseCreate(s: Sys, s1: Sys, jk: Key, found: Scanned, own: seq<Label>, own': seq<Label>, error: string)
    requires Fetchable(s, jk) && own != [] && own' != [] && Phase(s, s1, jk, found, own)
    requires JobEnabled(s1, jk, JCreate(Applied, error))
    ensures Phase(s, Next(s1, JobStep(jk, JCreate(Applied, error))), jk, found, own')
  {
    PhaseCreated(s, s1, Next(s1, JobStep(jk, JCreate(Applied, error))), jk, found, own, own');
  }

  lemma PatchApplied(s1: Sys, jk: Key)
    requires JobEnabled(s1, jk, JPatch(Applied)) && s1.jobs[jk].status == JobPcAt(s1, jk).job.status
    ensures
      var pc, s2 := JobPcAt(s1, jk), Next(s1, JobStep(jk, JPatch(Applied)));
      && s2.clock == s1.clock && s2.tasks == s1.tasks && JobPcAt(s2, jk) == JIdle(pc.answer)
      && s2.jobs == s1.jobs[jk := s1.jobs[jk].(status := pc.current)]
  {
    var pc := JobPcAt(s1, jk);
    assert Patched(pc.job.status, pc.job.status, pc.current) == pc.current;
  }

  lemma PhasePatch(s: Sys, s1: Sys, jk: Key, found: Scanned, own: seq<Label>, own': seq<Label>)
    requires Fetchable(s, jk) && own != [] && own' != [] && Phase(s, s1, jk, found, own)
    requires JobEnabled(s1, jk, JPatch(Applied))
    ensures Phase(s, Next(s1, JobStep(jk, JPatch(Applied))), jk, found, own')
  {
    PatchApplied(s1, jk);
    PhasePatched(s, s1, Next(s1, JobStep(jk, JPatch(Applied))), jk, found, own, own');
  }

  lemma PhaseNow(s: Sys, s1: Sys, jk: Key, found: Scanned, own: seq<Label>, own': seq<Label>)
    requires Fetchable(s, jk) && own != [] && own' != [] && Phase(s, s1, jk, found, own)
    requires JobEnabled(s1, jk, JNow(s1.clock))
    requires Is(s.jobs[jk].status, Running) ==> s.jobs[jk].status.startTime.Some?
    ensures Phase(s, Next(s1, JobStep(jk, JNow(s1.clock))), jk, found, own')
  {
    if JobPcAt(s1, jk).JFinishing? {
      PhaseFinishing(s, s1, Next(s1, JobStep(jk, JNow(s1.clock))), jk, found, own, own');
    } else {
      PhaseEarly(s, s1, jk, found, own, own', JNow(s1.clock));
    }
  }

  /** Any step but the list. */
  lemma PhaseStep(s: Sys, s1: Sys, jk: Key, found: Scanned, own: seq<Label>, own': seq<Label>, m: JobMove)
    requires Fetchable(s, jk) && Phase(s, s1, jk, found, own)
    requires JobEnabled(s1, jk, m) && !MoveFaulty(m, |s.past|) && own' != [] && (m.JGet? <==> own == []) && !m.JList?
    requires Is(s.jobs[jk].status, Running) ==> s.jobs[jk].status.startTime.Some?
    ensures Phase(s, Next(s1, JobStep(jk, m)), jk, found, own')
  {
    match m
    case JCreate(_, error) => PhaseCreate(s, s1, jk, found, own, own', error);
    case JPatch(_) => PhasePatch(s, s1, jk, found, own, own');
    case JNow(_) => PhaseNow(s, s1, jk, found, own, own');
    case _ => PhaseEarly(s, s1, jk, found, own, own', m);
  }

  lemma PhaseOwn(s: Sys, s1: Sys, jk: Key, k: nat, found: Scanned, own: seq<Label>, own': seq<Label>, m: JobMove)
    returns (found': Scanned)
    requires Fetchable(s, jk) && Phase(s, s1, jk, found, own) && Seen(s, s1, jk, k, found)
    requires Prefix(s.tasks, jk, s.jobs[jk].actions, k) && Order.Inv(s1) && ViewsSince(s, s1)
    requires JobEnabled(s1, jk, m) && !MoveFaulty(m, |s.past|) && own' != [] && (m.JGet? <==> own == [])
    requires Is(s.jobs[jk].status, Running) ==> s.jobs[jk].status.startTime.Some?
    ensures
      var s2 := Next(s1, JobStep(jk, m));
      Seen(s, s2, jk, k, found') && Phase(s, s2, jk, found', own')
  {
    if m.JList? {
      found' := PhaseList(s, s1, jk, k, found, own, own', m.listing.value);
    } else {
      found' := found;
      JobStepGrows(s1, jk, m);
      SeenKept(s, s1, Next(s1, JobStep(jk, m)), jk, k, found);
      PhaseStep(s, s1, jk, found, own, own', m);
    }
  }

  lemma PhaseAny(s: Sys, s1: Sys, l: Label, jk: Key, k: nat, found: Scanned, own: seq<Label>) returns (found': Scanned)
    requires Fetchable(s, jk) && Phase(s, s1, jk, found, own) && Seen(s, s1, jk, k, found)
    requires Prefix(s.tasks, jk, s.jobs[jk].actions, k) && Order.Inv(s1) && ViewsSince(s, s1)
    requires Enabled(s1, l) && !Faulty(l, jk, |s.past|)
    requires ActorOf(l) == Some(JobActor(jk)) ==> (Begins(l) <==> own == [])
    requires Is(s.jobs[jk].status, Running) ==> s.jobs[jk].status.startTime.Some?
    ensures
      var s2 := Next(s1, l);
      && Seen(s, s2, jk, k, found')
      && Phase(s, s2, jk, found', if ActorOf(l) == Some(JobActor(jk)) then own + [l] else own)
  {
    if ActorOf(l) == Some(JobActor(jk)) {
      found' := PhaseOwn(s, s1, jk, k, found, own, own + [l], l.jobMove);
    } else {
      found' := found;
      OtherAside(s1, l, jk);
      SeenKept(s, s1, Next(s1, l), jk, k, found);
      PhaseKept(s, s1, Next(s1, l), jk, found, own);
    }
  }

  /** In every run, a fault-free reconcile is always somewhere along the way. */
  lemma {:induction false} AlwaysPhase(s0: Sys, ls: seq<Label>, more: seq<Label>, jk: Key, k: nat)
    returns (found: Scanned)
    requires Initial(s0) && Run(s0, ls) && Run(s0, ls + more) && Fetchable(After(s0, ls), jk)
    requires Prefix(After(s0, ls).tasks, jk, After(s0, ls).jobs[jk].actions, k)
    requires FaultFree(more, jk, |After(s0, ls).past|) && AtMostOne(Own(more, JobActor(jk)))
    ensures Seen(After(s0, ls), After(s0, ls + more), jk, k, found)
    ensures Phase(After(s0, ls), After(s0, ls + more), jk, found, Own(more, JobActor(jk)))
    decreases |more|
  {
    var s := After(s0, ls);
    if more == [] {
      assert ls + more == ls;
      assert k > 0 ==> Owned(s.tasks, TaskKey(jk, k - 1), jk);
      found := Outcome(s.tasks, jk, k);
    } else {
      var front, l := more[..|more| - 1], more[|more| - 1];
      assert (ls + more)[..|ls + more| - 1] == ls + front;
      assert l in more;
      Ordered.Always(s0, ls + front);
      AlwaysViews(s0, ls, front);
      OwnFront(more, JobActor(jk));
      found := AlwaysPhase(s0, ls, front, jk, k);
      StartIfRunning(s0, ls, jk);
      found := PhaseAny(s, After(s0, ls + front), l, jk, k, found, Own(front, JobActor(jk)));
    }
  }

  lemma StartIfRunning(s0: Sys, ls: seq<Label>, jk: Key)
    requires Initial(s0) && Run(s0, ls) && jk in After(s0, ls).jobs
    ensures
      var st := After(s0, ls).jobs[jk].status;
      Is(st, Running) ==> st.startTime.Some?
  {
    Shapes.Always(s0, ls);
    JobConditions(After(s0, ls).jobs[jk].status, After(s0, ls).clock);
  }

  // ---- Every fault-free reconcile ----

  /** From s to s' a Job that can be fetched was reconciled once, from the first
      call to the last, no call of that reconcile failed, and its list was not
      older than s. */
  ghost predicate Reconciled(s0: Sys, ls: seq<Label>, more: seq<Label>, jk: Key) {
    && Initial(s0) && Run(s0, ls) && Run(s0, ls + more)
    && Fetchable(After(s0, ls), jk) && FaultFree(more, jk, |After(s0, ls).past|)
    && OneReconcile([], Own(more, JobActor(jk))) && JobPcAt(After(s0, ls + more), jk).JIdle?
  }

  /** Whatever the others do meanwhile, it comes to what a scan of its Tasks
      demands, as they were at s or, if the last of them was pending then, as they
      are at s'; and that is what is stored. */
  lemma JobReconciled(s0: Sys, ls: seq<Label>, more: seq<Label>, jk: Key, k: nat) returns (found: Scanned)
    requires Reconciled(s0, ls, more, jk)
    requires Prefix(After(s0, ls).tasks, jk, After(s0, ls).jobs[jk].actions, k)
    ensures
      var s, s' := After(s0, ls), After(s0, ls + more);
      && Seen(s, s', jk, k, found)
      && jk in s'.jobs && s'.jobs[jk] == s.jobs[jk].(status := s'.jobs[jk].status)
      && JobOutcome(s, s', jk, found, s'.jobs[jk].status, JobPcAt(s', jk).last)
  {
    found := AlwaysPhase(s0, ls, more, jk, k);
  }

  lemma DoneIsFound(s: Sys, jk: Key, k: nat)
    requires DoneUpTo(s.tasks, jk, k)
    ensures k > 0 ==> TaskKey(jk, k - 1) in s.tasks
    ensures Outcome(s.tasks, jk, k) == ScanCompleted(k)
  {
    assert k > 0 ==> OwnedDone(s.tasks, jk, k - 1);
  }

  lemma {:induction false} RunSplit(s0: Sys, ls: seq<Label>, i: nat)
    requires Run(s0, ls) && i <= |ls|
    ensures Run(s0, ls[..i])
    decreases |ls|
  {
    if i == |ls| {
      assert ls[..i] == ls;
    } else {
      RunSplit(s0, ls[..|ls| - 1], i);
      assert ls[..|ls| - 1][..i] == ls[..i];
    }
  }

  lemma {:induction false} OwnConcat(a: seq<Label>, b: seq<Label>, who: Actor)
    ensures Own(a + b, who) == Own(a, who) + Own(b, who)
  {
    if b == [] {
      assert a + b == a;
    } else {
      assert (a + b)[..|a + b| - 1] == a + b[..|b| - 1];
      OwnConcat(a, b[..|b| - 1], who);
    }
  }

  /** A segment that began in the second part lies in it. */
  lemma {:induction false} SegmentAfter(a: seq<Label>, b: seq<Label>)
    requires b != [] && Begins(b[0])
    ensures forall l :: l in TaskStory.Segment(a + b) ==> l in b
    decreases |b|
  {
    assert (a + b)[..|a + b| - 1] == a + b[..|b| - 1];
    assert (a + b)[|a + b| - 1] == b[|b| - 1];
    if |b| > 1 {
      assert b[..|b| - 1][0] == b[0];
      SegmentAfter(a, b[..|b| - 1]);
    }
  }

  lemma {:induction false} OwnFirst(more: seq<Label>, i: nat, who: Actor)
    requires i <= |more| && Own(more[..i], who) != []
    ensures Own(more, who) != [] && Own(more, who)[0] == Own(more[..i], who)[0]
    decreases |more|
  {
    if i == |more| {
      assert more[..i] == more;
    } else {
      assert more[..|more| - 1][..i] == more[..i];
      OwnFirst(more[..|more| - 1], i, who);
    }
  }

  lemma {:induction false} OwnIn(more: seq<Label>, who: Actor, l: Label)
    requires l in Own(more, who)
    ensures l in more
  {
    if l in Own(more[..|more| - 1], who) {
      OwnIn(more[..|more| - 1], who, l);
    }
  }

  lemma Slices<T>(a: seq<T>, b: seq<T>, i: nat)
    requires i <= |a + b|
    ensures i >= |a| ==> (a + b)[..i] == a + b[..i - |a|] && b == b[..i - |a|] + b[i - |a|..]
    ensures i <= |a| ==> (a + b)[..i] == a[..i] && a == a[..i] + a[i..]
  {
  }

  /** What the last reconcile did is in the second part of a run if it began there. */
  lemma BegunLater(ls: seq<Label>, part: seq<Label>, who: Actor, l: Label)
    requires Own(part, who) != [] && Begins(Own(part, who)[0])
    requires l in TaskStory.LastReconcile(ls + part, who)
    ensures l in part
  {
    OwnConcat(ls, part, who);
    SegmentAfter(Own(ls, who), Own(part, who));
    OwnIn(part, who, l);
  }

  /** The reconcile that created a Task after ls began after ls, since none was in flight then. */
  lemma MadeMeanwhile(ls: seq<Label>, more: seq<Label>, jk: Key, l: Label, i: nat)
    requires OneReconcile([], Own(more, JobActor(jk))) && |ls| < i < |ls + more|
    requires Own(more[..i - |ls|], JobActor(jk)) != []
    requires l in TaskStory.LastReconcile((ls + more)[..i], JobActor(jk))
    ensures l in more
  {
    Slices(ls, more, i);
    OwnFirst(more, i - |ls|, JobActor(jk));
    BegunLater(ls, more[..i - |ls|], JobActor(jk), l);
  }

  lemma KeepsTasks(s0: Sys, ls: seq<Label>, more: seq<Label>, tk: Key)
    requires Initial(s0) && Run(s0, ls) && Run(s0, ls + more) && tk in After(s0, ls).tasks
    ensures tk in After(s0, ls + more).tasks
  {
    Theorems.StatusesOnlyAdvance(s0, ls, more);
  }

  /** A Task made meanwhile was made at a step of the second part of the run. */
  lemma MadeLater(s0: Sys, ls: seq<Label>, more: seq<Label>, tk: Key, i: nat)
    requires Initial(s0) && Run(s0, ls) && tk !in After(s0, ls).tasks
    requires i < |ls + more| && Run(s0, (ls + more)[..i + 1]) && tk in After(s0, (ls + more)[..i + 1]).tasks
    ensures i >= |ls|
  {
    if i < |ls| {
      Slices(ls, more, i + 1);
      KeepsTasks(s0, ls[..i + 1], ls[i + 1..], tk);
    }
  }

  /** The reconcile of Job jk is in flight when it creates, so it has made calls since it was idle. */
  lemma CreatesInFlight(s0: Sys, ls: seq<Label>, more: seq<Label>, jk: Key, i: nat)
    requires Initial(s0) && Run(s0, ls) && Run(s0, ls + more) && JobPcAt(After(s0, ls), jk).JIdle?
    requires |ls| <= i < |ls + more| && (ls + more)[i].JobStep? && (ls + more)[i].job == jk
    requires (ls + more)[i].jobMove.JCreate?
    ensures i > |ls| && Own(more[..i - |ls|], JobActor(jk)) != []
  {
    var part := more[..i - |ls|];
    assert (ls + more)[..i] == ls + part;
    TaskStory.StepEnabled(s0, ls + more, i);
    if Own(part, JobActor(jk)) == [] {
      StillIdle(s0, ls, part, jk);
    }
  }

  lemma {:induction false} StillIdle(s0: Sys, ls: seq<Label>, part: seq<Label>, jk: Key)
    requires Run(s0, ls) && Run(s0, ls + part) && Own(part, JobActor(jk)) == []
    ensures JobPcAt(After(s0, ls + part), jk) == JobPcAt(After(s0, ls), jk)
    decreases |part|
  {
    if part == [] {
      assert ls + part == ls;
    } else {
      var front := part[..|part| - 1];
      assert (ls + part)[..|ls + part| - 1] == ls + front;
      StillIdle(s0, ls, front, jk);
      JobStory.OtherPcs(After(s0, ls + front), part[|part| - 1], jk);
    }
  }

  /** The Task has the connection of the Job's Machine, as one of these calls fetched it. */
  ghost predicate DrivesMachine(more: seq<Label>, jk: Key, machine: Key, t: Task) {
    && t.owners == [OwnerRef("bmc.tinkerbell.org/v1alpha1", "Job", jk.name, true)]
    && JobStep(jk, JMachine(machine, Some(t.connection))) in more
  }

  lemma CreatedDrives(s0: Sys, ls: seq<Label>, more: seq<Label>, jk: Key, tk: Key)
    requires Reconciled(s0, ls, more, jk) && tk !in After(s0, ls).tasks && Owned(After(s0, ls + more).tasks, tk, jk)
    ensures jk in After(s0, ls).jobs
    ensures DrivesMachine(more, jk, After(s0, ls).jobs[jk].machine, After(s0, ls + more).tasks[tk])
  {
    var t := After(s0, ls + more).tasks[tk];
    JobStory.EveryTaskWasMade(s0, ls + more, jk, tk);
    var i: nat, c, l, start :| JobStory.MadeAt(s0, ls + more, jk, tk, t, i, c, l, start);
    MadeLater(s0, ls, more, tk, i);
    CreatesInFlight(s0, ls, more, jk, i);
    var j := After(s0, (ls + more)[..i]).jobs[jk];
    MachineKept(s0, ls, more, jk, i);
    var fetched := JobStep(jk, JMachine(j.machine, Some(c)));
    var seg := JobStory.Listing(jk, j, start, c, l);
    assert seg[|JobStory.Beginning(jk, j, start)|] == fetched;
    assert fetched in seg;
    MadeMeanwhile(ls, more, jk, fetched, i);
  }

  lemma MachineStep(s: Sys, l: Label, jk: Key)
    requires Shapes.Inv(s) && Enabled(s, l) && jk in s.jobs
    ensures jk in Next(s, l).jobs && Next(s, l).jobs[jk].machine == s.jobs[jk].machine
  {
  }

  lemma {:induction false} MachineStays(s0: Sys, ls: seq<Label>, part: seq<Label>, jk: Key)
    requires Initial(s0) && Run(s0, ls) && Run(s0, ls + part) && jk in After(s0, ls).jobs
    ensures jk in After(s0, ls + part).jobs
    ensures After(s0, ls + part).jobs[jk].machine == After(s0, ls).jobs[jk].machine
    decreases |part|
  {
    if part == [] {
      assert ls + part == ls;
    } else {
      var front := part[..|part| - 1];
      assert (ls + part)[..|ls + part| - 1] == ls + front;
      MachineStays(s0, ls, front, jk);
      Shapes.Always(s0, ls + front);
      MachineStep(After(s0, ls + front), part[|part| - 1], jk);
    }
  }

  lemma MachineKept(s0: Sys, ls: seq<Label>, more: seq<Label>, jk: Key, i: nat)
    requires Initial(s0) && Run(s0, ls) && Run(s0, ls + more) && jk in After(s0, ls).jobs && |ls| <= i <= |ls + more|
    ensures Run(s0, (ls + more)[..i]) && jk in After(s0, (ls + more)[..i]).jobs
    ensures After(s0, (ls + more)[..i]).jobs[jk].machine == After(s0, ls).jobs[jk].machine
  {
    RunSplit(s0, ls + more, i);
    assert (ls + more)[..i] == ls + more[..i - |ls|];
    MachineStays(s0, ls, more[..i - |ls|], jk);
  }

  /** Every fault-free reconcile of a Job whose Tasks are all Completed, but too
      few, creates the Task of the next action and no other, for the Job's Machine
      and with the connection this reconcile fetched, and persists Running. */
  lemma ReconcileCreates(s0: Sys, ls: seq<Label>, more: seq<Label>, jk: Key, k: nat)
    requires Reconciled(s0, ls, more, jk) && k < |After(s0, ls).jobs[jk].actions|
    requires Prefix(After(s0, ls).tasks, jk, After(s0, ls).jobs[jk].actions, k) && DoneUpTo(After(s0, ls).tasks, jk, k)
    ensures
      var s, s' := After(s0, ls), After(s0, ls + more);
      && jk in s'.jobs && JobPcAt(s', jk) == JIdle(Done)
      && Created(s.tasks, s'.tasks, jk, k, s.jobs[jk].actions[k]) && Begun(s, s', s.jobs[jk], s'.jobs[jk].status)
      && DrivesMachine(more, jk, s.jobs[jk].machine, s'.tasks[TaskKey(jk, k)])
  {
    DoneIsFound(After(s0, ls), jk, k);
    var _ := JobReconciled(s0, ls, more, jk, k);
    CreatedDrives(s0, ls, more, jk, TaskKey(jk, k));
  }

  /** Every fault-free reconcile of a Job whose Tasks are all there and all
      Completed persists it as Completed and creates nothing. */
  lemma ReconcileCompletes(s0: Sys, ls: seq<Label>, more: seq<Label>, jk: Key)
    requires Reconciled(s0, ls, more, jk)
    requires
      var s, n := After(s0, ls), |After(s0, ls).jobs[jk].actions|;
      Prefix(s.tasks, jk, s.jobs[jk].actions, n) && DoneUpTo(s.tasks, jk, n)
    ensures
      var s, s' := After(s0, ls), After(s0, ls + more);
      && jk in s'.jobs && JobPcAt(s', jk) == JIdle(Done)
      && Completing(s, s', s.jobs[jk], s'.jobs[jk].status) && SameTasks(s.tasks, s'.tasks, jk)
  {
    var n := |After(s0, ls).jobs[jk].actions|;
    DoneIsFound(After(s0, ls), jk, n);
    var _ := JobReconciled(s0, ls, more, jk, n);
  }

  /** Every fault-free reconcile of a Job whose last Task is Failed persists it as
      Failed, names that Task, and creates nothing. */
  lemma ReconcileFails(s0: Sys, ls: seq<Label>, more: seq<Label>, jk: Key, k: nat)
    requires Reconciled(s0, ls, more, jk) && k > 0
    requires Prefix(After(s0, ls).tasks, jk, After(s0, ls).jobs[jk].actions, k)
    requires OwnedFailed(After(s0, ls).tasks, jk, k - 1)
    ensures
      var s, s' := After(s0, ls), After(s0, ls + more);
      && jk in s'.jobs && JobPcAt(s', jk) == JIdle(Error)
      && Failing(s, s', s.jobs[jk], s'.jobs[jk].status, TaskKey(jk, k - 1)) && SameTasks(s.tasks, s'.tasks, jk)
  {
    var _ := JobReconciled(s0, ls, more, jk, k);
  }

  /** Every fault-free reconcile of a Job whose last Task is pending throughout
      persists nothing and creates nothing. */
  lemma ReconcileWaits(s0: Sys, ls: seq<Label>, more: seq<Label>, jk: Key, k: nat)
    requires Reconciled(s0, ls, more, jk) && Prefix(After(s0, ls).tasks, jk, After(s0, ls).jobs[jk].actions, k)
    requires Pending(After(s0, ls).tasks, jk, k) && Pending(After(s0, ls + more).tasks, jk, k)
    ensures
      var s, s' := After(s0, ls), After(s0, ls + more);
      && jk in s'.jobs && JobPcAt(s', jk) == JIdle(Done)
      && s'.jobs[jk] == s.jobs[jk] && SameTasks(s.tasks, s'.tasks, jk)
  {
    var _ := JobReconciled(s0, ls, more, jk, k);
  }
}
