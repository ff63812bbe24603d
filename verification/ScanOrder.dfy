/** When the early-returning loop over a list of Tasks depends on the list's order. */
module ScanOrder {
  import opened Conditions
  import opened Statuses
  import opened Protocol

  ghost predicate AllIn(v: TaskStore, items: seq<Key>) {
    forall i :: 0 <= i < |items| ==> items[i] in v
  }

  predicate Open(t: Task) {
    !Is(t.status, Completed)
  }

  /** A Failed Task, if the loop can come to one, is the only Task that is not Completed. */
  ghost predicate FailedStandsAlone(v: TaskStore, items: seq<Key>)
    requires AllIn(v, items)
  {
    forall f, g :: f in items && g in items && Open(v[f]) && Open(v[g]) && Is(v[f].status, Failed) ==> f == g
  }

  ghost predicate Permuted(items: seq<Key>, items': seq<Key>) {
    multiset(items) == multiset(items')
  }

  ghost predicate SameForEveryOrder(v: TaskStore, items: seq<Key>)
    requires AllIn(v, items)
  {
    forall items' :: Permuted(items, items') ==> AllIn(v, items') && Scan(v, items') == Scan(v, items)
  }

  lemma PermutedMembers(items: seq<Key>, items': seq<Key>)
    requires Permuted(items, items')
    ensures |items| == |items'| && forall tk :: tk in items <==> tk in items'
  {
    assert |multiset(items)| == |items| && |multiset(items')| == |items'|;
    assert forall tk :: tk in items <==> tk in multiset(items);
    assert forall tk :: tk in items' <==> tk in multiset(items');
  }

  lemma {:induction false} ScanAlone(v: TaskStore, items: seq<Key>, failed: Key)
    requires AllIn(v, items) && failed in items && Open(v[failed]) && Is(v[failed].status, Failed)
    requires forall tk :: tk in items && Open(v[tk]) ==> tk == failed
    ensures Scan(v, items) == ScanFailed(failed)
  {
    if items[0] != failed {
      ScanAlone(v, items[1..], failed);
    }
  }

  lemma {:induction false} ScanUnfailed(v: TaskStore, items: seq<Key>)
    requires AllIn(v, items) && forall tk :: tk in items && Open(v[tk]) ==> !Is(v[tk].status, Failed)
    ensures Scan(v, items) == if exists tk :: tk in items && Open(v[tk]) then ScanPending else ScanCompleted(|items|)
  {
    if items != [] {
      ScanUnfailed(v, items[1..]);
      assert items == [items[0]] + items[1..];
    }
  }

  lemma SameIfAlone(v: TaskStore, items: seq<Key>, items': seq<Key>)
    requires AllIn(v, items) && AllIn(v, items') && FailedStandsAlone(v, items) && Permuted(items, items')
    ensures Scan(v, items') == Scan(v, items)
  {
    PermutedMembers(items, items');
    if failed :| failed in items && Open(v[failed]) && Is(v[failed].status, Failed) {
      ScanAlone(v, items, failed);
      ScanAlone(v, items', failed);
    } else {
      ScanUnfailed(v, items);
      ScanUnfailed(v, items');
    }
  }

  /** The list with one of its items moved to the front: what the loop finds if that item is not Completed. */
  lemma ToFront(v: TaskStore, items: seq<Key>, tk: Key) returns (items': seq<Key>)
    requires AllIn(v, items) && tk in items && Open(v[tk])
    ensures Permuted(items, items') && AllIn(v, items')
    ensures Scan(v, items') == if Is(v[tk].status, Failed) then ScanFailed(tk) else ScanPending
  {
    var i :| 0 <= i < |items| && items[i] == tk;
    assert items == items[..i] + [items[i]] + items[i + 1..];
    items' := [items[i]] + items[..i] + items[i + 1..];
    PermutedIn(v, items, items');
    assert items'[0] == tk;
  }

  lemma PermutedIn(v: TaskStore, items: seq<Key>, items': seq<Key>)
    requires AllIn(v, items) && Permuted(items, items')
    ensures AllIn(v, items')
  {
    PermutedMembers(items, items');
    assert forall i :: 0 <= i < |items'| ==> items'[i] in items;
  }

  /** The loop's answer is the same for every order of the listed Tasks if and
      only if a Failed Task is the only one that is not Completed. */
  lemma OrderIndependence(v: TaskStore, items: seq<Key>)
    requires AllIn(v, items)
    ensures SameForEveryOrder(v, items) <==> FailedStandsAlone(v, items)
  {
    if FailedStandsAlone(v, items) {
      forall items' | Permuted(items, items')
        ensures AllIn(v, items') && Scan(v, items') == Scan(v, items)
      {
        PermutedIn(v, items, items');
        SameIfAlone(v, items, items');
      }
    } else {
      TwoOrders(v, items);
    }
  }

  lemma TwoOrders(v: TaskStore, items: seq<Key>)
    requires AllIn(v, items) && !FailedStandsAlone(v, items)
    ensures !SameForEveryOrder(v, items)
  {
    var f, g :| f in items && g in items && Open(v[f]) && Open(v[g]) && Is(v[f].status, Failed) && f != g;
    var failedFirst := ToFront(v, items, f);
    var otherFirst := ToFront(v, items, g);
    assert Scan(v, failedFirst) != Scan(v, otherFirst);
  }
}
