/** The Job and Task controllers as a labelled transition system over the object
    store. A step is one call a reconcile makes (or one clock reading) with one
    of its possible outcomes; reconciles of different objects interleave freely,
    and any reconcile can be cut off between two calls. */
module Protocol {
  import opened Options
  import opened Conditions
  import opened Statuses
  import opened Bmc
  import opened TaskNames

  const TIMEOUT: Time := 10 * 60 * 1_000_000_000
  const REQUEUE_AFTER: Time := 3 * 1_000_000_000
  const GROUP_VERSION := "bmc.tinkerbell.org/v1alpha1"

  // ---- Objects ----

  datatype Key = Key(namespace: string, name: string)

  datatype SecretRef = SecretRef(namespace: string, name: string)

  /** Where a connection's credentials come from. Provider options other than RPC play no part here. */
  datatype Credentials = AuthSecret(ref: SecretRef) | RpcSecrets(hmac: map<string, seq<SecretRef>>)

  datatype Connection = Connection(host: string, credentials: Credentials)

  /** Whether a reconcile reads secrets before it opens the connection. */
  predicate NeedsSecrets(c: Connection) {
    c.credentials.RpcSecrets? ==> c.credentials.hmac != map[]
  }

  datatype OwnerRef = OwnerRef(apiVersion: string, kind: string, name: string, controller: bool)

  datatype Job = Job(machine: Key, actions: seq<Action>, deleting: bool, status: Status)

  datatype Task = Task(owners: seq<OwnerRef>, action: Action, connection: Connection, deleting: bool, status: Status)

  type TaskStore = map<Key, Task>

  /** The first owner reference marked as the controller. */
  function ControllerOf(owners: seq<OwnerRef>): Option<OwnerRef> {
    if owners == [] then None
    else if owners[0].controller then Some(owners[0])
    else ControllerOf(owners[1..])
  }

  /** The value a Task is indexed under: the name of the Job that controls it. */
  function TaskOwnerIndex(owners: seq<OwnerRef>): Option<string> {
    match ControllerOf(owners)
    case None => None
    case Some(o) => if o.kind != "Job" || o.apiVersion != GROUP_VERSION then None else Some(o.name)
  }

  /** The Job a Task is listed under: the index is by name, within the Task's namespace. */
  function OwnerOf(tk: Key, t: Task): Option<Key> {
    match TaskOwnerIndex(t.owners)
    case None => None
    case Some(name) => Some(Key(tk.namespace, name))
  }

  function TaskKey(jk: Key, n: nat): Key {
    Key(jk.namespace, FormatTaskName(jk.name, n))
  }

  /** The Task createTaskWithOwner builds for one of a Job's actions. */
  function NewTask(jk: Key, action: Action, connection: Connection): Task {
    Task([OwnerRef(GROUP_VERSION, "Job", jk.name, true)], action, connection, false, EMPTY)
  }

  // ---- Reconciles in flight ----

  /** How the last reconcile of an object ended. */
  datatype Answer = Never | Done | Requeue(after: Time) | Error | Cut | Panicked

  /** Where a Job's reconcile stands; job is the object as fetched (the patch
      base) and current the status as changed so far. */
  datatype JobPc =
    | JIdle(last: Answer)
    | JFetched(job: Job)
    | JStarted(job: Job, current: Status)
    | JConnected(job: Job, current: Status, connection: Connection)
    | JFinishing(job: Job, current: Status)
    | JCreating(job: Job, current: Status, connection: Connection, index: nat)
    | JPatching(job: Job, current: Status, answer: Answer)

  /** Where a Task's reconcile stands; task is the object as fetched. */
  datatype TaskPc =
    | TIdle(last: Answer)
    | TFetched(task: Task)
    | TOpening(task: Task)
    | TOpened(task: Task)
    | TPolling(task: Task, sampled: Time)
    | TConfirmed(task: Task, sampled: Time)
    | TRunning(task: Task, current: Status, issued: nat)
    | TPatching(task: Task, current: Status, answer: Answer)

  /** What the runs are judged by; no controller reads it. */
  datatype Event =
    | RunCalled(task: Key, owner: Option<Key>, action: Action)
    | Commanded(task: Key, command: Command, ok: bool)
    | RunReturned(task: Key)
    | RunLost(task: Key)
    | Checked(task: Key, sampled: Time, reading: Option<string>, met: bool)
    | CreateFailed(job: Key, index: nat, error: string)

  datatype Sys = Sys(
    clock: Time,
    jobs: map<Key, Job>,
    tasks: TaskStore,
    past: seq<TaskStore>,
    jobPcs: map<Key, JobPc>,
    taskPcs: map<Key, TaskPc>,
    log: seq<Event>)

  predicate Initial(s: Sys) {
    s.jobs == map[] && s.tasks == map[] && s.past == [] && s.jobPcs == map[] && s.taskPcs == map[] && s.log == []
  }

  function JobPcAt(s: Sys, jk: Key): JobPc {
    if jk in s.jobPcs then s.jobPcs[jk] else JIdle(Never)
  }

  function TaskPcAt(s: Sys, tk: Key): TaskPc {
    if tk in s.taskPcs then s.taskPcs[tk] else TIdle(Never)
  }

  /** The Task store as it is, or as it was before its i-th change. */
  function View(s: Sys, i: nat): TaskStore
    requires i <= |s.past|
  {
    if i < |s.past| then s.past[i] else s.tasks
  }

  /** The clock has passed this time between two states. */
  predicate Meanwhile(s: Sys, s': Sys, t: Time) {
    s.clock <= t <= s'.clock
  }

  // ---- Labels ----

  datatype UserMove =
    | CreateJob(jobKey: Key, machine: Key, actions: seq<Action>)
    | CreateTask(taskKey: Key, owners: seq<OwnerRef>, action: Action, connection: Connection)
    | DeleteJob(jobKey: Key)
    | DeleteTask(taskKey: Key)
    | Wait(duration: Time)

  /** A write can succeed, be refused, or take effect with its answer lost. */
  datatype WriteOutcome = Applied | AppliedUnseen | Refused

  /** A list may come from a cache: it holds the Tasks of the current store or of any earlier one. */
  datatype Listing = Listing(view: nat, items: seq<Key>)

  datatype JobMove =
    | JGet(found: bool)
    | JNow(now: Time)
    | JMachine(machine: Key, connection: Option<Connection>)
    | JList(listing: Option<Listing>)
    | JCreate(created: WriteOutcome, error: string)
    | JPatch(patched: WriteOutcome)
    | JCut

  datatype TaskMove =
    | TGet(found: bool)
    | TSecrets(resolved: bool)
    | TOpen(failure: Option<string>)
    | TNow(now: Time)
    | TCommand(command: Command, error: Option<string>)
    | TPanic
    | TPower(reading: Option<string>)
    | TPatch(patched: WriteOutcome)
    | TCut

  datatype Label =
    | User(user: UserMove)
    | JobStep(job: Key, jobMove: JobMove)
    | TaskStep(task: Key, taskMove: TaskMove)

  // ---- The scan ----

  datatype Scanned = ScanFailed(task: Key) | ScanPending | ScanCompleted(count: nat)

  /** The early-returning loop over the listed Tasks. */
  function Scan(tasks: TaskStore, items: seq<Key>): Scanned
    requires forall i :: 0 <= i < |items| ==> items[i] in tasks
  {
    if items == [] then ScanCompleted(0)
    else
      var st := tasks[items[0]].status;
      if Is(st, Completed) then
        var rest := Scan(tasks, items[1..]);
        if rest.ScanCompleted? then ScanCompleted(rest.count + 1) else rest
      else if Is(st, Failed) then ScanFailed(items[0])
      else ScanPending
  }

  predicate Distinct(items: seq<Key>) {
    forall i, j :: 0 <= i < j < |items| ==> items[i] != items[j]
  }

  /** items lists the Tasks owned by the Job, each once, in any order. */
  predicate ListsOwned(tasks: TaskStore, jk: Key, items: seq<Key>) {
    && Distinct(items)
    && (forall i :: 0 <= i < |items| ==> items[i] in tasks && OwnerOf(items[i], tasks[items[i]]) == Some(jk))
    && (forall tk :: tk in tasks && OwnerOf(tk, tasks[tk]) == Some(jk) ==> tk in items)
  }

  // ---- Job steps ----

  datatype JobEffect = JobEffect(pc: JobPc, events: seq<Event>, write: Option<Status>, create: Option<(Key, Task)>)

  function Local(pc: JobPc): JobEffect {
    JobEffect(pc, [], None, None)
  }

  predicate JobEnabled(s: Sys, jk: Key, m: JobMove) {
    var pc := JobPcAt(s, jk);
    match m
    case JGet(_) => pc.JIdle?
    case JNow(now) => (pc.JFetched? || pc.JFinishing?) && now == s.clock
    case JMachine(machine, _) => pc.JStarted? && machine == pc.job.machine
    case JList(None) => pc.JConnected?
    case JList(Some(l)) => pc.JConnected? && l.view <= |s.past| && ListsOwned(View(s, l.view), jk, l.items)
    case JCreate(o, _) => pc.JCreating? && pc.index < |pc.job.actions|
      && (o != Refused ==> TaskKey(jk, pc.index) !in s.tasks)
    case JPatch(o) => pc.JPatching? && (o != Refused ==> jk in s.jobs)
    case JCut => !pc.JIdle?
  }

  function JobFailure(tk: Key): string {
    "task " + tk.namespace + "/" + tk.name + " failed"
  }

  function CreateFailure(tk: Key, error: string): string {
    "failed to create Task " + tk.namespace + "/" + tk.name + ": " + error
  }

  /** A Job that is being deleted, or is Completed or Failed, is left alone. */
  function AfterJobGet(j: Job): JobPc {
    if j.deleting || Is(j.status, Completed) || Is(j.status, Failed) then JIdle(Done)
    else if !Is(j.status, Running) then JFetched(j)
    else JStarted(j, j.status)
  }

  /** Where the scan of the listed Tasks leads. */
  function AfterScan(pc: JobPc, found: Scanned): JobPc
    requires pc.JConnected?
  {
    match found
    case ScanFailed(tk) => JPatching(pc.job, With(pc.current, Failed, Some(JobFailure(tk))), Error)
    case ScanPending => JIdle(Done)
    case ScanCompleted(count) =>
      if count == |pc.job.actions| then JFinishing(pc.job, pc.current)
      else JCreating(pc.job, pc.current, pc.connection, count)
  }

  function JobEffectOf(s: Sys, jk: Key, m: JobMove): JobEffect
    requires JobEnabled(s, jk, m)
  {
    var pc := JobPcAt(s, jk);
    match m
    case JGet(found) =>
      if !found then Local(JIdle(Error))
      else if jk !in s.jobs then Local(JIdle(Done))
      else Local(AfterJobGet(s.jobs[jk]))
    case JNow(now) =>
      if pc.JFetched? then
        Local(JStarted(pc.job, With(pc.job.status.(startTime := Some(s.clock)), Running, None)))
      else
        Local(JPatching(pc.job, With(pc.current, Completed, None).(completionTime := Some(s.clock)), Done))
    case JMachine(_, None) => Local(JIdle(Error))
    case JMachine(_, Some(c)) => Local(JConnected(pc.job, pc.current, c))
    case JList(None) => Local(JIdle(Error))
    case JList(Some(l)) => Local(AfterScan(pc, Scan(View(s, l.view), l.items)))
    case JCreate(o, error) =>
      var next :=
        if o == Applied then JPatching(pc.job, pc.current, Done)
        else JPatching(pc.job, With(pc.current, Failed, Some(CreateFailure(TaskKey(jk, pc.index), error))), Error);
      JobEffect(next, if o == Applied then [] else [CreateFailed(jk, pc.index, error)], None,
        if o == Refused then None
        else Some((TaskKey(jk, pc.index), NewTask(jk, pc.job.actions[pc.index], pc.connection))))
    case JPatch(o) =>
      JobEffect(JIdle(if o == Applied then pc.answer else Error), [],
        if o == Refused then None else Some(Patched(s.jobs[jk].status, pc.job.status, pc.current)), None)
    case JCut => Local(JIdle(Cut))
  }

  function JobStepped(s: Sys, jk: Key, e: JobEffect): Sys
    requires e.write.Some? ==> jk in s.jobs
  {
    s.(jobPcs := s.jobPcs[jk := e.pc],
       log := s.log + e.events,
       jobs := if e.write.Some? then s.jobs[jk := s.jobs[jk].(status := e.write.value)] else s.jobs,
       tasks := if e.create.Some? then s.tasks[e.create.value.0 := e.create.value.1] else s.tasks,
       past := if e.create.Some? then s.past + [s.tasks] else s.past)
  }

  // ---- Task steps ----

  datatype TaskEffect = TaskEffect(pc: TaskPc, events: seq<Event>, write: Option<Status>)

  /** A reconcile that has called runTask and not yet persisted the StartTime. */
  predicate RunPending(pc: TaskPc) {
    pc.TRunning? || (pc.TPatching? && pc.task.status.startTime.None? && pc.current.startTime.Some?)
  }

  function LostRun(tk: Key, pc: TaskPc): seq<Event> {
    if RunPending(pc) then [RunLost(tk)] else []
  }

  predicate TaskEnabled(s: Sys, tk: Key, m: TaskMove) {
    var pc := TaskPcAt(s, tk);
    match m
    case TGet(_) => pc.TIdle?
    case TSecrets(_) => pc.TFetched?
    case TOpen(_) => pc.TOpening?
    case TNow(now) => (pc.TOpened? || pc.TConfirmed?) && now == s.clock
    case TCommand(command, _) =>
      && pc.TRunning? && pc.issued < |Commands(pc.task.action)|
      && command == Commands(pc.task.action)[pc.issued] && command != NoDevice
    case TPanic => pc.TRunning? && pc.issued < |Commands(pc.task.action)|
      && Commands(pc.task.action)[pc.issued] == NoDevice
    case TPower(_) => pc.TPolling? && pc.task.action.power.Some?
    case TPatch(o) => pc.TPatching? && (o != Refused ==> tk in s.tasks)
    case TCut => !pc.TIdle?
  }

  function TimeoutMessage(elapsed: int): string
    requires elapsed >= 0
  {
    "bmc task timeout: " + Decimal(elapsed)
  }

  function Fail(t: Task, current: Status, message: string): TaskPc {
    TPatching(t, With(current, Failed, Some(message)), Error)
  }

  /** A Task that is being deleted, or is Failed or Completed, is left alone. */
  function AfterTaskGet(t: Task): TaskPc {
    if t.deleting || Is(t.status, Failed) || Is(t.status, Completed) then TIdle(Done)
    else if NeedsSecrets(t.connection) then TFetched(t)
    else TOpening(t)
  }

  /** The reading of the clock once the connection is open. */
  function TaskOpenedEffect(tk: Key, t: Task, now: Time): TaskEffect {
    match t.status.startTime
    case Some(start) =>
      if now - start >= TIMEOUT then TaskEffect(Fail(t, t.status, TimeoutMessage(now - start)), [], None)
      else if t.action.power.Some? then TaskEffect(TPolling(t, now), [], None)
      else TaskEffect(TConfirmed(t, now), [Checked(tk, now, None, true)], None)
    case None =>
      var current := t.status.(startTime := Some(now));
      var called := RunCalled(tk, OwnerOf(tk, t), t.action);
      if Commands(t.action) == [] then TaskEffect(TPatching(t, current, Done), [called, RunReturned(tk)], None)
      else TaskEffect(TRunning(t, current, 0), [called], None)
  }

  function TaskCommandEffect(tk: Key, pc: TaskPc, error: Option<string>): TaskEffect
    requires pc.TRunning? && pc.issued < |Commands(pc.task.action)|
  {
    var command := Commands(pc.task.action)[pc.issued];
    var event := Commanded(tk, command, error.None?);
    if error.Some? then TaskEffect(Fail(pc.task, pc.current, CommandFailure(command, error.value)), [event], None)
    else if pc.issued + 1 < |Commands(pc.task.action)| then
      TaskEffect(TRunning(pc.task, pc.current, pc.issued + 1), [event], None)
    else TaskEffect(TPatching(pc.task, pc.current, Done), [event, RunReturned(tk)], None)
  }

  function TaskEffectOf(s: Sys, tk: Key, m: TaskMove): TaskEffect
    requires TaskEnabled(s, tk, m)
  {
    var pc := TaskPcAt(s, tk);
    match m
    case TGet(found) =>
      if !found then TaskEffect(TIdle(Error), [], None)
      else if tk !in s.tasks then TaskEffect(TIdle(Done), [], None)
      else TaskEffect(AfterTaskGet(s.tasks[tk]), [], None)
    case TSecrets(resolved) => TaskEffect(if resolved then TOpening(pc.task) else TIdle(Error), [], None)
    case TOpen(None) => TaskEffect(TOpened(pc.task), [], None)
    case TOpen(Some(e)) => TaskEffect(Fail(pc.task, pc.task.status, "Failed to connect to BMC: " + e), [], None)
    case TNow(now) =>
      if pc.TOpened? then TaskOpenedEffect(tk, pc.task, s.clock)
      else
        TaskEffect(TPatching(pc.task, With(pc.task.status.(completionTime := Some(s.clock)), Completed, None), Done),
          [], None)
    case TCommand(_, error) => TaskCommandEffect(tk, pc, error)
    case TPanic => TaskEffect(TIdle(Panicked), [RunLost(tk)], None)
    case TPower(None) => TaskEffect(TIdle(Error), [], None)
    case TPower(Some(raw)) =>
      if Meets(pc.task.action.power.value, raw) then
        TaskEffect(TConfirmed(pc.task, pc.sampled), [Checked(tk, pc.sampled, Some(raw), true)], None)
      else
        TaskEffect(TIdle(Requeue(REQUEUE_AFTER)), [Checked(tk, pc.sampled, Some(raw), false)], None)
    case TPatch(o) =>
      TaskEffect(TIdle(if o == Applied then pc.answer else Error), if o == Refused then LostRun(tk, pc) else [],
        if o == Refused then None else Some(Patched(s.tasks[tk].status, pc.task.status, pc.current)))
    case TCut => TaskEffect(TIdle(Cut), LostRun(tk, pc), None)
  }

  function TaskStepped(s: Sys, tk: Key, e: TaskEffect): Sys
    requires e.write.Some? ==> tk in s.tasks
  {
    s.(taskPcs := s.taskPcs[tk := e.pc],
       log := s.log + e.events,
       tasks := if e.write.Some? then s.tasks[tk := s.tasks[tk].(status := e.write.value)] else s.tasks,
       past := if e.write.Some? then s.past + [s.tasks] else s.past)
  }

  // ---- User steps ----

  predicate UserEnabled(s: Sys, m: UserMove) {
    match m
    case CreateJob(jk, _, _) => jk !in s.jobs
    case CreateTask(tk, owners, _, _) => tk !in s.tasks && TaskOwnerIndex(owners) == None
    case DeleteJob(jk) => jk in s.jobs
    case DeleteTask(tk) => tk in s.tasks
    case Wait(_) => true
  }

  function UserStepped(s: Sys, m: UserMove): Sys
    requires UserEnabled(s, m)
  {
    match m
    case CreateJob(jk, machine, actions) => s.(jobs := s.jobs[jk := Job(machine, actions, false, EMPTY)])
    case CreateTask(tk, owners, action, connection) =>
      s.(tasks := s.tasks[tk := Task(owners, action, connection, false, EMPTY)], past := s.past + [s.tasks])
    case DeleteJob(jk) => s.(jobs := s.jobs[jk := s.jobs[jk].(deleting := true)])
    case DeleteTask(tk) => s.(tasks := s.tasks[tk := s.tasks[tk].(deleting := true)], past := s.past + [s.tasks])
    case Wait(d) => s.(clock := s.clock + d)
  }

  // ---- Runs ----

  predicate Enabled(s: Sys, l: Label) {
    match l
    case User(m) => UserEnabled(s, m)
    case JobStep(jk, m) => JobEnabled(s, jk, m)
    case TaskStep(tk, m) => TaskEnabled(s, tk, m)
  }

  function Next(s: Sys, l: Label): Sys
    requires Enabled(s, l)
  {
    match l
    case User(m) => UserStepped(s, m)
    case JobStep(jk, m) => JobStepped(s, jk, JobEffectOf(s, jk, m))
    case TaskStep(tk, m) => TaskStepped(s, tk, TaskEffectOf(s, tk, m))
  }

  ghost predicate Run(s0: Sys, ls: seq<Label>)
    decreases |ls|, 0
  {
    ls == [] || (Run(s0, ls[..|ls| - 1]) && Enabled(After(s0, ls[..|ls| - 1]), ls[|ls| - 1]))
  }

  ghost function After(s0: Sys, ls: seq<Label>): Sys
    requires Run(s0, ls)
    decreases |ls|, 1
  {
    if ls == [] then s0 else Next(After(s0, ls[..|ls| - 1]), ls[|ls| - 1])
  }

  /** One more step of a run. */
  lemma RunStep(s0: Sys, ls: seq<Label>, l: Label)
    requires Run(s0, ls) && Enabled(After(s0, ls), l)
    ensures Run(s0, ls + [l]) && After(s0, ls + [l]) == Next(After(s0, ls), l)
  {
    assert (ls + [l])[..|ls + [l]| - 1] == ls;
  }

  // ---- Whose step ----

  datatype Actor = JobActor(job: Key) | TaskActor(task: Key)

  function ActorOf(l: Label): Option<Actor> {
    match l
    case User(_) => None
    case JobStep(jk, _) => Some(JobActor(jk))
    case TaskStep(tk, _) => Some(TaskActor(tk))
  }

  /** The steps of a run that one reconciler took for one object. */
  ghost function Own(ls: seq<Label>, a: Actor): seq<Label> {
    if ls == [] then []
    else Own(ls[..|ls| - 1], a) + if ActorOf(ls[|ls| - 1]) == Some(a) then [ls[|ls| - 1]] else []
  }

  predicate Begins(l: Label) {
    (l.JobStep? && l.jobMove.JGet?) || (l.TaskStep? && l.taskMove.TGet?)
  }

  /** More steps of the same reconcile. */
  ghost predicate Continues(before: seq<Label>, after: seq<Label>) {
    before <= after && forall i :: |before| <= i < |after| ==> !Begins(after[i])
  }

  /** Exactly one more reconcile, from its first call on. */
  ghost predicate OneReconcile(before: seq<Label>, after: seq<Label>) {
    && before < after && Begins(after[|before|])
    && forall i :: |before| < i < |after| ==> !Begins(after[i])
  }

  ghost predicate AtMostOne(own: seq<Label>) {
    own == [] || OneReconcile([], own)
  }

  lemma AtMostOneStep(own: seq<Label>, l: Label)
    requires AtMostOne(own + [l])
    ensures AtMostOne(own) && (Begins(l) <==> own == [])
  {
    assert (own + [l])[|own|] == l;
    assert forall i :: 0 <= i < |own| ==> (own + [l])[i] == own[i];
  }

  lemma OwnFront(ls: seq<Label>, a: Actor)
    requires ls != [] && AtMostOne(Own(ls, a))
    ensures
      var own, l := Own(ls[..|ls| - 1], a), ls[|ls| - 1];
      && AtMostOne(own)
      && if ActorOf(l) == Some(a) then Own(ls, a) == own + [l] && (Begins(l) <==> own == []) else Own(ls, a) == own
  {
    var own, l := Own(ls[..|ls| - 1], a), ls[|ls| - 1];
    if ActorOf(l) == Some(a) {
      assert Own(ls, a) == own + [l];
      AtMostOneStep(own, l);
    } else {
      assert Own(ls, a) == own + [] == own;
    }
  }
}
