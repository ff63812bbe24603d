/** Jobs do not touch each other, and what a create can collide with. */
module Isolation {
  import opened Options
  import opened Bmc
  import opened Protocol
  import opened StatusInvariant
  import opened OrderInvariant
  import Order = OrderInvariant
  import Ordered = OrderPreserved
  import FaultFreeJob
  import Theorems
  import Shapes = StatusInvariant

  // ---- Lists ----

  /** The same Tasks, unchanged. */
  ghost predicate SameOwned(v: TaskStore, w: TaskStore, jk: Key) {
    forall tk :: (Owned(w, tk, jk) <==> Owned(v, tk, jk)) && (Owned(v, tk, jk) ==> w[tk] == v[tk])
  }

  lemma {:induction false} ScanSame(v: TaskStore, w: TaskStore, items: seq<Key>)
    requires forall i :: 0 <= i < |items| ==> items[i] in v && items[i] in w && w[items[i]] == v[items[i]]
    ensures Scan(w, items) == Scan(v, items)
  {
    if items != [] {
      ScanSame(v, w, items[1..]);
    }
  }

  lemma ListedIn(v: TaskStore, w: TaskStore, jk: Key, items: seq<Key>)
    requires SameOwned(v, w, jk) && ListsOwned(v, jk, items)
    ensures ListsOwned(w, jk, items) && Scan(w, items) == Scan(v, items)
  {
    forall i | 0 <= i < |items|
      ensures items[i] in w && OwnerOf(items[i], w[items[i]]) == Some(jk) && w[items[i]] == v[items[i]]
    {
      assert Owned(v, items[i], jk);
      assert Owned(w, items[i], jk);
    }
    forall tk | Owned(w, tk, jk)
      ensures tk in items
    {
      assert Owned(v, tk, jk);
    }
    ScanSame(v, w, items);
  }

  /** The lists of a Job's Tasks, and what their scans find, are the same in both stores. */
  ghost predicate SameLists(v: TaskStore, w: TaskStore, jk: Key) {
    forall items ::
      && (ListsOwned(w, jk, items) <==> ListsOwned(v, jk, items))
      && (ListsOwned(v, jk, items) ==> Scan(w, items) == Scan(v, items))
  }

  lemma SameOwnedSameLists(v: TaskStore, w: TaskStore, jk: Key)
    requires SameOwned(v, w, jk)
    ensures SameLists(v, w, jk)
  {
    forall items
      ensures ListsOwned(w, jk, items) <==> ListsOwned(v, jk, items)
      ensures ListsOwned(v, jk, items) ==> Scan(w, items) == Scan(v, items)
    {
      if ListsOwned(v, jk, items) {
        ListedIn(v, w, jk, items);
      }
      if ListsOwned(w, jk, items) {
        ListedIn(w, v, jk, items);
      }
    }
  }

  // ---- Isolation ----

  ghost predicate Undisturbed(s: Sys, s': Sys, jk: Key) {
    && (jk in s.jobs <==> jk in s'.jobs) && (jk in s.jobs ==> s'.jobs[jk] == s.jobs[jk])
    && JobPcAt(s', jk) == JobPcAt(s, jk) && SameOwned(s.tasks, s'.tasks, jk)
  }

  lemma UndisturbedStep(s: Sys, s1: Sys, jk: Key, m: JobMove, other: Key)
    requires Shapes.Inv(s1) && JobEnabled(s1, jk, m) && other != jk && Undisturbed(s, s1, other)
    ensures Undisturbed(s, Next(s1, JobStep(jk, m)), other)
  {
    Theorems.StepIsIsolated(s1, jk, m, other);
  }

  lemma {:induction false} AlwaysUndisturbed(s0: Sys, ls: seq<Label>, more: seq<Label>, jk: Key, other: Key)
    requires Initial(s0) && Run(s0, ls) && Run(s0, ls + more) && other != jk
    requires forall l :: l in more ==> l.JobStep? && l.job == jk
    ensures Undisturbed(After(s0, ls), After(s0, ls + more), other)
    decreases |more|
  {
    if more == [] {
      assert ls + more == ls;
    } else {
      var front, l := more[..|more| - 1], more[|more| - 1];
      assert (ls + more)[..|ls + more| - 1] == ls + front;
      assert l in more;
      AlwaysUndisturbed(s0, ls, front, jk, other);
      Shapes.Always(s0, ls + front);
      UndisturbedStep(After(s0, ls), After(s0, ls + front), jk, l.jobMove, other);
    }
  }

  /** However far the reconciles of one Job go, and however they fail, every other
      Job, its reconcile, its Tasks, the lists of them and what a scan of a list
      finds stay as they were. */
  lemma ReconcileIsIsolated(s0: Sys, ls: seq<Label>, more: seq<Label>, jk: Key, other: Key)
    requires Initial(s0) && Run(s0, ls) && Run(s0, ls + more) && other != jk
    requires forall l :: l in more ==> l.JobStep? && l.job == jk
    ensures Undisturbed(After(s0, ls), After(s0, ls + more), other)
    ensures SameLists(After(s0, ls).tasks, After(s0, ls + more).tasks, other)
  {
    AlwaysUndisturbed(s0, ls, more, jk, other);
    SameOwnedSameLists(After(s0, ls).tasks, After(s0, ls + more).tasks, other);
  }

  // ---- Collisions ----

  /** The Job's reconcile stands still, and no Task becomes or ceases to be the Job's. */
  ghost predicate StandsStill(s: Sys, s': Sys, jk: Key) {
    jk in s.jobs && jk in s'.jobs && JobPcAt(s', jk) == JobPcAt(s, jk) && FaultFreeJob.SameTasks(s.tasks, s'.tasks, jk)
  }

  lemma StandingStep(s: Sys, s1: Sys, l: Label, jk: Key)
    requires Shapes.Inv(s1) && Enabled(s1, l) && ActorOf(l) != Some(JobActor(jk)) && StandsStill(s, s1, jk)
    ensures StandsStill(s, Next(s1, l), jk)
  {
    if l != User(DeleteJob(jk)) {
      FaultFreeJob.OtherAside(s1, l, jk);
    }
  }

  lemma {:induction false} AlwaysStanding(s0: Sys, ls: seq<Label>, more: seq<Label>, jk: Key)
    requires Initial(s0) && Run(s0, ls) && Run(s0, ls + more) && jk in After(s0, ls).jobs
    requires forall l :: l in more ==> ActorOf(l) != Some(JobActor(jk))
    ensures StandsStill(After(s0, ls), After(s0, ls + more), jk)
    decreases |more|
  {
    if more == [] {
      assert ls + more == ls;
    } else {
      var front, l := more[..|more| - 1], more[|more| - 1];
      assert (ls + more)[..|ls + more| - 1] == ls + front;
      assert l in more;
      AlwaysStanding(s0, ls, front, jk);
      Shapes.Always(s0, ls + front);
      StandingStep(After(s0, ls), After(s0, ls + front), l, jk);
    }
  }

  lemma UnownedName(v: TaskStore, jk: Key, actions: seq<Action>, k: nat, n: nat)
    requires Prefix(v, jk, actions, k)
    ensures Owned(v, TaskKey(jk, n), jk) <==> n < k
  {
    if Owned(v, TaskKey(jk, n), jk) {
      var i: nat :| i < k && TaskKey(jk, n) == TaskKey(jk, i);
      TaskKeyInjective(jk, n, jk, i);
    }
  }

  /** Among stores of one run, a list of the Job's Tasks is out of date exactly
      when the name it points to is the name of one of them. */
  lemma StaleIfOwned(v: TaskStore, w: TaskStore, jk: Key, actions: seq<Action>, k: nat, n: nat, items: seq<Key>)
    requires Older(v, w) && Prefix(v, jk, actions, k) && Prefix(w, jk, actions, n) && ListsOwned(v, jk, items)
    ensures Owned(w, TaskKey(jk, |items|), jk) <==> !ListsOwned(w, jk, items)
  {
    ListCount(v, jk, actions, k, items);
    UnownedName(w, jk, actions, n, k);
    if ListsOwned(w, jk, items) {
      ListCount(w, jk, actions, n, items);
    } else if n <= k {
      CurrentList(v, w, jk, actions, k, n, items);
    }
  }

  lemma CurrentList(v: TaskStore, w: TaskStore, jk: Key, actions: seq<Action>, k: nat, n: nat, items: seq<Key>)
    requires Older(v, w) && Prefix(v, jk, actions, k) && Prefix(w, jk, actions, n) && ListsOwned(v, jk, items) && n <= k
    ensures ListsOwned(w, jk, items)
  {
    forall tk | Owned(w, tk, jk)
      ensures tk in items
    {
      var i: nat :| i < n && tk == TaskKey(jk, i);
      assert Owned(v, TaskKey(jk, i), jk);
    }
    forall i | 0 <= i < |items|
      ensures items[i] in w && OwnerOf(items[i], w[items[i]]) == Some(jk)
    {
      assert Owned(v, items[i], jk);
    }
  }

  lemma ListedIndex(s: Sys, jk: Key, l: Listing)
    requires Order.Inv(s) && JobEnabled(s, jk, JList(Some(l)))
    requires JobEffectOf(s, jk, JList(Some(l))).pc.JCreating?
    ensures jk in s.jobs && JobEffectOf(s, jk, JList(Some(l))).pc.index == |l.items|
    ensures Owned(s.tasks, TaskKey(jk, |l.items|), jk) <==> !ListsOwned(s.tasks, jk, l.items)
  {
    var v := View(s, l.view);
    assert JobPcOk(s.jobs, jk, JobPcAt(s, jk), s.clock);
    assert ViewOk(v, s) by {
      assert v in s.past || v == s.tasks;
    }
    var actions := s.jobs[jk].actions;
    var k: nat :| Prefix(v, jk, actions, k);
    var n: nat :| Prefix(s.tasks, jk, actions, n);
    ListIndex(v, s, jk, actions, k, l.items);
    StaleIfOwned(v, s.tasks, jk, actions, k, n, l.items);
  }

  lemma ListIndex(v: TaskStore, s: Sys, jk: Key, actions: seq<Action>, k: nat, items: seq<Key>)
    requires ViewOk(v, s) && Prefix(v, jk, actions, k) && ListsOwned(v, jk, items) && Scan(v, items).ScanCompleted?
    ensures Scan(v, items).count == |items|
  {
    ListCount(v, jk, actions, k, items);
    ScanOfPrefix(v, jk, actions, k, items, s.clock);
  }

  /** What a create can collide with: when a list has led a Job's reconcile to
      creating a Task, then as long as that reconcile takes no further step, a
      Task that stands under the name belongs to no Job or to this one, and to
      this one if and only if the list was already out of date when it was read. */
  lemma CreateCollision(s0: Sys, ls: seq<Label>, l: Listing, more: seq<Label>, jk: Key)
    requires Initial(s0) && Run(s0, ls) && JobEnabled(After(s0, ls), jk, JList(Some(l)))
    requires Run(s0, ls + [JobStep(jk, JList(Some(l)))] + more)
    requires JobEffectOf(After(s0, ls), jk, JList(Some(l))).pc.JCreating?
    requires forall step :: step in more ==> ActorOf(step) != Some(JobActor(jk))
    ensures
      var s, s' := After(s0, ls), After(s0, ls + [JobStep(jk, JList(Some(l)))] + more);
      var tk := TaskKey(jk, |l.items|);
      && JobPcAt(s', jk).JCreating? && JobPcAt(s', jk).index == |l.items|
      && (tk in s'.tasks ==> OwnerOf(tk, s'.tasks[tk]) in {None, Some(jk)})
      && (Owned(s'.tasks, tk, jk) <==> !ListsOwned(s.tasks, jk, l.items))
  {
    var s, step := After(s0, ls), JobStep(jk, JList(Some(l)));
    Ordered.Always(s0, ls);
    ListedIndex(s, jk, l);
    RunStep(s0, ls, step);
    AlwaysStanding(s0, ls + [step], more, jk);
    if TaskKey(jk, |l.items|) in After(s0, ls + [step] + more).tasks {
      Theorems.NoForeignCollision(s0, ls + [step] + more, jk, |l.items|);
    }
  }
}
