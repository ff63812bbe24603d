/** The order of a Job's Tasks: in every reachable store, present or past, they
    are the first k of its actions, and all but the last of them are Completed. */
module OrderInvariant {
  import opened Options
  import opened Conditions
  import opened Statuses
  import opened Bmc
  import opened TaskNames
  import opened Protocol
  import Shapes = StatusInvariant
  import opened StatusInvariant

  ghost predicate Owned(v: TaskStore, tk: Key, jk: Key) {
    tk in v && OwnerOf(tk, v[tk]) == Some(jk)
  }

  ghost predicate OwnedDone(v: TaskStore, jk: Key, i: nat) {
    Owned(v, TaskKey(jk, i), jk) && TaskDone(v[TaskKey(jk, i)].status)
  }

  ghost predicate OwnedFailed(v: TaskStore, jk: Key, i: nat) {
    Owned(v, TaskKey(jk, i), jk) && TaskFailed(v[TaskKey(jk, i)].status)
  }

  ghost predicate DoneUpTo(v: TaskStore, jk: Key, n: nat) {
    forall i :: 0 <= i < n ==> OwnedDone(v, jk, i)
  }

  /** The Tasks owned by a Job are exactly those of its first k actions, in
      order, and all but possibly the last are Completed. */
  ghost predicate Prefix(v: TaskStore, jk: Key, actions: seq<Action>, k: nat) {
    && k <= |actions|
    && (forall i :: 0 <= i < k ==> Owned(v, TaskKey(jk, i), jk) && v[TaskKey(jk, i)].action == actions[i])
    && (forall tk :: Owned(v, tk, jk) ==> exists i :: 0 <= i < k && tk == TaskKey(jk, i))
    && (forall i :: 0 <= i < k - 1 ==> OwnedDone(v, jk, i))
  }

  /** What holds between a store and a later one. */
  ghost predicate Older(v: TaskStore, w: TaskStore) {
    forall tk :: tk in v ==>
      && tk in w && w[tk].owners == v[tk].owners && w[tk].action == v[tk].action && w[tk].connection == v[tk].connection
      && (TaskDone(v[tk].status) || TaskFailed(v[tk].status) ==> w[tk].status == v[tk].status)
      && (v[tk].status.startTime.Some? ==> w[tk].status.startTime == v[tk].status.startTime)
  }

  ghost predicate ViewOk(v: TaskStore, s: Sys) {
    && Older(v, s.tasks)
    && (forall tk :: tk in v ==> TaskStatusOk(v[tk].status, s.clock))
    && (forall jk :: jk in s.jobs ==> exists k: nat :: Prefix(v, jk, s.jobs[jk].actions, k))
  }

  ghost predicate TaskCause(v: TaskStore, jk: Key, message: string, i: nat) {
    OwnedFailed(v, jk, i) && message == JobFailure(TaskKey(jk, i))
  }

  ghost predicate CreateCause(log: seq<Event>, jk: Key, message: string, e: Event) {
    e in log && e.CreateFailed? && e.job == jk && message == CreateFailure(TaskKey(jk, e.index), e.error)
  }

  /** Why a Job may be Failed with this message: one of its Tasks is and the
      message names it, or the message carries the error a create returned. */
  ghost predicate FailCause(s: Sys, jk: Key, n: nat, message: string) {
    (exists i: nat :: i < n && TaskCause(s.tasks, jk, message, i)) || (exists e :: CreateCause(s.log, jk, message, e))
  }

  ghost predicate JobStatusCaused(s: Sys, jk: Key, n: nat, st: Status) {
    && (JobCompleted(st) ==> DoneUpTo(s.tasks, jk, n))
    && (JobFailed(st) ==> FailCause(s, jk, n, st.conditions[1].message))
  }

  ghost predicate JobPcCaused(s: Sys, jk: Key, pc: JobPc) {
    match pc
    case JCreating(j, _, _, index) => index < |j.actions| && DoneUpTo(s.tasks, jk, index)
    case JFinishing(j, _) => DoneUpTo(s.tasks, jk, |j.actions|)
    case JPatching(j, current, _) => JobStatusCaused(s, jk, |j.actions|, current)
    case _ => true
  }

  ghost predicate Inv(s: Sys) {
    && Shapes.Inv(s)
    && ViewOk(s.tasks, s)
    && (forall v :: v in s.past ==> ViewOk(v, s))
    && (forall tk :: tk in s.tasks && OwnerOf(tk, s.tasks[tk]).Some? ==> OwnerOf(tk, s.tasks[tk]).value in s.jobs)
    && (forall jk :: jk in s.jobs ==> JobStatusCaused(s, jk, |s.jobs[jk].actions|, s.jobs[jk].status))
    && (forall jk :: JobPcCaused(s, jk, JobPcAt(s, jk)))
  }

  lemma TaskKeyInjective(j1: Key, n1: nat, j2: Key, n2: nat)
    requires TaskKey(j1, n1) == TaskKey(j2, n2)
    ensures j1 == j2 && n1 == n2
  {
    FormatTaskNameInjective(j1.name, n1, j2.name, n2);
  }

  /** The position of the owner reference that controls an object. */
  predicate ControllerAt(owners: seq<OwnerRef>, i: nat) {
    i < |owners| && owners[i].controller && forall j :: 0 <= j < i ==> !owners[j].controller
  }

  lemma {:induction false} ControllerIs(owners: seq<OwnerRef>, o: OwnerRef)
    ensures ControllerOf(owners) == Some(o) <==> exists i: nat :: ControllerAt(owners, i) && owners[i] == o
  {
    if owners != [] {
      if owners[0].controller {
        assert ControllerAt(owners, 0);
      } else {
        ControllerIs(owners[1..], o);
        if i: nat :| ControllerAt(owners[1..], i) && owners[1..][i] == o {
          assert ControllerAt(owners, i + 1);
        }
        if i: nat :| ControllerAt(owners, i) && owners[i] == o {
          assert ControllerAt(owners[1..], i - 1);
        }
      }
    }
  }

  lemma {:induction false} ControllerIsSome(owners: seq<OwnerRef>, i: nat)
    requires ControllerAt(owners, i)
    ensures ControllerOf(owners) == Some(owners[i])
  {
    ControllerIs(owners, owners[i]);
  }

  /** A Task is indexed under exactly the name of the owner that controls it, if
      that is a Job of this API group and version. */
  lemma OwnerIndexIs(owners: seq<OwnerRef>, name: string)
    ensures TaskOwnerIndex(owners) == Some(name) <==>
      exists i: nat ::
        && ControllerAt(owners, i) && owners[i].name == name
        && owners[i].kind == "Job" && owners[i].apiVersion == "bmc.tinkerbell.org/v1alpha1"
  {
    if ControllerOf(owners).Some? {
      ControllerIs(owners, ControllerOf(owners).value);
    }
    forall i: nat | ControllerAt(owners, i)
      ensures ControllerOf(owners) == Some(owners[i])
    {
      ControllerIsSome(owners, i);
    }
  }

  /** A Task is listed for a Job exactly when it is in the Job's namespace and indexed under its name. */
  lemma OwnedIs(v: TaskStore, tk: Key, jk: Key)
    ensures Owned(v, tk, jk) <==>
      tk in v && tk.namespace == jk.namespace && TaskOwnerIndex(v[tk].owners) == Some(jk.name)
  {
  }

  // ---- The scan of a prefix ----

  ghost function Keys(jk: Key, k: nat): set<Key> {
    if k == 0 then {} else Keys(jk, k - 1) + {TaskKey(jk, k - 1)}
  }

  lemma {:induction false} InKeys(jk: Key, k: nat, tk: Key)
    ensures tk in Keys(jk, k) <==> exists i :: 0 <= i < k && tk == TaskKey(jk, i)
  {
    if k > 0 {
      InKeys(jk, k - 1, tk);
    }
  }

  lemma KeysFresh(jk: Key, k: nat)
    ensures TaskKey(jk, k) !in Keys(jk, k)
  {
    InKeys(jk, k, TaskKey(jk, k));
    if TaskKey(jk, k) in Keys(jk, k) {
      var i: nat :| i < k && TaskKey(jk, k) == TaskKey(jk, i);
      TaskKeyInjective(jk, k, jk, i);
    }
  }

  lemma AddOne(keys: set<Key>, tk: Key)
    requires tk !in keys
    ensures |keys + {tk}| == |keys| + 1
  {
  }

  lemma {:induction false} KeysCount(jk: Key, k: nat)
    ensures |Keys(jk, k)| == k
  {
    if k > 0 {
      KeysCount(jk, k - 1);
      KeysFresh(jk, k - 1);
      AddOne(Keys(jk, k - 1), TaskKey(jk, k - 1));
    }
  }

  lemma {:induction false} DistinctCount(items: seq<Key>, keys: set<Key>)
    requires Distinct(items)
    requires forall tk :: tk in keys <==> tk in items
    ensures |keys| == |items|
  {
    if items == [] {
      assert keys == {};
    } else {
      var tk := items[0];
      assert forall k :: k in items[1..] ==> k != tk;
      DistinctCount(items[1..], keys - {tk});
    }
  }

  /** A list in which every Task but one is Completed: that one decides. */
  lemma {:induction false} ScanAllButOne(v: TaskStore, items: seq<Key>, last: Key)
    requires Distinct(items)
    requires forall i :: 0 <= i < |items| ==> items[i] in v && (items[i] == last || Is(v[items[i]].status, Completed))
    ensures Scan(v, items) ==
      if last !in items || Is(v[last].status, Completed) then ScanCompleted(|items|)
      else if Is(v[last].status, Failed) then ScanFailed(last)
      else ScanPending
  {
    if items != [] {
      ScanAllButOne(v, items[1..], last);
      assert items == [items[0]] + items[1..];
      assert items[0] !in items[1..];
    }
  }

  /** What the scan of a Job's Tasks finds, from the store alone. */
  ghost function Outcome(v: TaskStore, jk: Key, k: nat): Scanned
    requires k > 0 ==> TaskKey(jk, k - 1) in v
  {
    if k == 0 || TaskDone(v[TaskKey(jk, k - 1)].status) then ScanCompleted(k)
    else if TaskFailed(v[TaskKey(jk, k - 1)].status) then ScanFailed(TaskKey(jk, k - 1))
    else ScanPending
  }

  lemma ListCount(v: TaskStore, jk: Key, actions: seq<Action>, k: nat, items: seq<Key>)
    requires Prefix(v, jk, actions, k) && ListsOwned(v, jk, items)
    ensures |items| == k
    ensures forall i :: 0 <= i < k ==> TaskKey(jk, i) in items
  {
    forall tk
      ensures tk in Keys(jk, k) <==> tk in items
    {
      InKeys(jk, k, tk);
      if tk in Keys(jk, k) {
        var i :| 0 <= i < k && tk == TaskKey(jk, i);
        assert Owned(v, TaskKey(jk, i), jk);
      }
      if tk in items {
        assert Owned(v, tk, jk);
      }
    }
    KeysCount(jk, k);
    DistinctCount(items, Keys(jk, k));
    forall i | 0 <= i < k
      ensures TaskKey(jk, i) in items
    {
      assert Owned(v, TaskKey(jk, i), jk);
    }
  }

  /** In whatever order the Tasks are listed, the early-returning loop finds the same. */
  lemma ScanOfPrefix(v: TaskStore, jk: Key, actions: seq<Action>, k: nat, items: seq<Key>, now: Time)
    requires Prefix(v, jk, actions, k) && ListsOwned(v, jk, items)
    requires forall tk :: tk in v ==> TaskStatusOk(v[tk].status, now)
    ensures k > 0 ==> TaskKey(jk, k - 1) in v
    ensures Scan(v, items) == Outcome(v, jk, k)
  {
    ListCount(v, jk, actions, k, items);
    if k > 0 {
      var last := TaskKey(jk, k - 1);
      assert Owned(v, last, jk);
      forall i | 0 <= i < |items| && items[i] != last
        ensures Is(v[items[i]].status, Completed)
      {
        assert Owned(v, items[i], jk);
        var n :| 0 <= n < k && items[i] == TaskKey(jk, n);
        assert OwnedDone(v, jk, n);
        TaskConditions(v[items[i]].status, now);
      }
      TaskConditions(v[last].status, now);
      ScanAllButOne(v, items, last);
    }
  }

  // ---- How stores change ----

  lemma OlderTransitive(u: TaskStore, v: TaskStore, w: TaskStore)
    requires Older(u, v) && Older(v, w)
    ensures Older(u, w)
  {
  }

  /** The same Tasks with later statuses. */
  lemma PrefixKept(v: TaskStore, w: TaskStore, jk: Key, actions: seq<Action>, k: nat)
    requires Prefix(v, jk, actions, k) && Older(v, w) && w.Keys == v.Keys
    ensures Prefix(w, jk, actions, k)
  {
    forall tk
      ensures Owned(w, tk, jk) <==> Owned(v, tk, jk)
    {
    }
    forall i | 0 <= i < k
      ensures Owned(w, TaskKey(jk, i), jk) && w[TaskKey(jk, i)].action == actions[i]
    {
      assert Owned(v, TaskKey(jk, i), jk);
    }
    forall i | 0 <= i < k - 1
      ensures OwnedDone(w, jk, i)
    {
      assert OwnedDone(v, jk, i);
    }
  }

  /** A Task that is not the Job's. */
  lemma PrefixAside(v: TaskStore, tk: Key, t: Task, jk: Key, actions: seq<Action>, k: nat)
    requires Prefix(v, jk, actions, k) && tk !in v && OwnerOf(tk, t) != Some(jk)
    ensures Prefix(v[tk := t], jk, actions, k)
  {
    var w := v[tk := t];
    forall u
      ensures Owned(w, u, jk) <==> Owned(v, u, jk)
    {
    }
    forall i | 0 <= i < k
      ensures Owned(w, TaskKey(jk, i), jk) && w[TaskKey(jk, i)].action == actions[i]
    {
      assert Owned(v, TaskKey(jk, i), jk);
    }
    forall i | 0 <= i < k - 1
      ensures OwnedDone(w, jk, i)
    {
      assert OwnedDone(v, jk, i);
    }
  }

  lemma NewTaskOwner(jk: Key, n: nat, action: Action, connection: Connection)
    ensures OwnerOf(TaskKey(jk, n), NewTask(jk, action, connection)) == Some(jk)
  {
  }

  /** If the first n Tasks are there and Completed and the next name is free,
      then n is the number of Tasks. */
  lemma NextIsFree(v: TaskStore, jk: Key, actions: seq<Action>, k: nat, n: nat)
    requires Prefix(v, jk, actions, k) && DoneUpTo(v, jk, n) && TaskKey(jk, n) !in v
    ensures k == n
  {
    assert n < k ==> Owned(v, TaskKey(jk, n), jk);
    if n > k {
      assert OwnedDone(v, jk, n - 1);
      var i :| 0 <= i < k && TaskKey(jk, n - 1) == TaskKey(jk, i);
      TaskKeyInjective(jk, n - 1, jk, i);
    }
  }

  lemma PrefixNext(v: TaskStore, jk: Key, actions: seq<Action>, k: nat, connection: Connection)
    requires Prefix(v, jk, actions, k) && DoneUpTo(v, jk, k) && k < |actions| && TaskKey(jk, k) !in v
    ensures Prefix(v[TaskKey(jk, k) := NewTask(jk, actions[k], connection)], jk, actions, k + 1)
  {
    var w := v[TaskKey(jk, k) := NewTask(jk, actions[k], connection)];
    NewTaskOwner(jk, k, actions[k], connection);
    forall i | 0 <= i < k + 1
      ensures Owned(w, TaskKey(jk, i), jk) && w[TaskKey(jk, i)].action == actions[i]
      ensures i < k ==> OwnedDone(w, jk, i)
    {
      if i < k {
        assert Owned(v, TaskKey(jk, i), jk) && OwnedDone(v, jk, i);
      }
    }
    forall tk | Owned(w, tk, jk)
      ensures exists i :: 0 <= i < k + 1 && tk == TaskKey(jk, i)
    {
      if tk != TaskKey(jk, k) {
        assert Owned(v, tk, jk);
      }
    }
  }
}
