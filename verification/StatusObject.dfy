/** The status of a fetched object, as the reconcilers change it in place. */
module StatusObject {
  import opened Options
  import opened Conditions
  import opened Statuses
  import opened MergePatch
  import opened StatusPatch

  /** What a pointer to a time points to. */
  class Stamp {
    var at: Time

    constructor (at: Time)
      ensures this.at == at
    {
      this.at := at;
    }
  }

  ghost function TimeOf(p: Stamp?): Option<Time>
    reads p
  {
    if p == null then None else Some(p.at)
  }

  method Point(time: Option<Time>) returns (p: Stamp?)
    ensures TimeOf(p) == time && (p != null ==> fresh(p))
  {
    p := null;
    if time.Some? {
      p := new Stamp(time.value);
    }
  }

  /** The status of a fetched object, changed in place. Conditions are a Go
      slice: the first len elements of a backing array that may have spare
      capacity. Two slices can share a backing array, which is what the deep
      copy has to avoid. */
  class ResourceStatus {
    var backing: array<Condition>
    var len: nat
    var startTime: Stamp?
    var completionTime: Stamp?

    ghost predicate Valid()
      reads this
    {
      len <= backing.Length
    }

    ghost function View(): Status
      reads this, backing, startTime, completionTime
      requires Valid()
    {
      Status(backing[..len], TimeOf(startTime), TimeOf(completionTime))
    }

    constructor Decode(st: Status)
      ensures Valid() && fresh(backing) && View() == st
    {
      var cs := st.conditions;
      backing := new Condition[|cs|](i requires 0 <= i < |cs| => cs[i]);
      len := |cs|;
      startTime := null;
      completionTime := null;
      new;
      startTime := Point(st.startTime);
      completionTime := Point(st.completionTime);
    }

    method HasCondition(t: ConditionType, status: ConditionStatus) returns (has: bool)
      requires Valid()
      ensures has <==> Has(View().conditions, t, status)
    {
      ghost var cs := backing[..len];
      for i := 0 to len
        invariant forall j :: 0 <= j < i ==> cs[j].ctype != t
      {
        if backing[i].ctype == t {
          assert cs[i] == backing[i];
          FirstIs(cs, t, i);
          return backing[i].status == status;
        }
      }
      return false;
    }

    /** The StartTime points to a new time. */
    method StampStart(now: Time)
      requires Valid()
      modifies this`startTime
      ensures View() == old(View()).(startTime := Some(now))
    {
      startTime := new Stamp(now);
    }

    /** The CompletionTime points to a new time. */
    method StampCompletion(now: Time)
      requires Valid()
      modifies this`completionTime
      ensures View() == old(View()).(completionTime := Some(now))
    {
      completionTime := new Stamp(now);
    }

    /** Go's append: into spare capacity when there is some, else into a larger array. */
    method Append(c: Condition)
      requires Valid()
      modifies this, backing
      ensures Valid() && View() == old(View()).(conditions := old(View()).conditions + [c])
      ensures backing == old(backing) || fresh(backing)
    {
      if len == backing.Length {
        var grown := new Condition[2 * len + 1];
        forall i | 0 <= i < len {
          grown[i] := backing[i];
        }
        backing := grown;
      }
      backing[len] := c;
      len := len + 1;
    }

    method SetCondition(t: ConditionType, status: ConditionStatus, message: Option<string>)
      requires Valid()
      modifies this, backing
      ensures Valid() && View() == old(View()).(conditions := Set(old(View()).conditions, t, status, message))
      ensures backing == old(backing) || fresh(backing)
    {
      ghost var cs := backing[..len];
      var at := 0;
      while at < len && backing[at].ctype != t
        invariant at <= len
        invariant forall j :: 0 <= j < at ==> cs[j].ctype != t
      {
        at := at + 1;
      }
      if at < len {
        FirstIs(cs, t, at);
      } else {
        Append(Condition(t, Unset, ""));
        assert First(cs, t) == at;
      }
      Write(at, status, message);
    }

    /** Writes through a pointer to one entry: its status, then the message option. */
    method Write(at: nat, status: ConditionStatus, message: Option<string>)
      requires Valid() && at < len
      modifies backing
      ensures View() == old(View()).(conditions :=
        old(View().conditions[at := Updated(View().conditions[at], status, message)]))
    {
      backing[at] := Condition(backing[at].ctype, status, backing[at].message);
      if message.Some? {
        backing[at] := Condition(backing[at].ctype, backing[at].status, message.value);
      }
    }

    method DeepCopyInto(out: ResourceStatus)
      requires Valid() && out != this
      modifies out
      ensures out.Valid() && out.View() == View()
      ensures fresh(out.backing) && (out.startTime != null ==> fresh(out.startTime))
      ensures out.completionTime != null ==> fresh(out.completionTime)
    {
      var copied := new Condition[len];
      forall i | 0 <= i < len {
        copied[i] := backing[i];
      }
      out.backing := copied;
      out.len := len;
      out.startTime := null;
      if startTime != null {
        out.startTime := new Stamp(startTime.at);
      }
      out.completionTime := null;
      if completionTime != null {
        out.completionTime := new Stamp(completionTime.at);
      }
      assert copied[..len] == backing[..len];
    }

    method DeepCopy() returns (out: ResourceStatus)
      requires Valid()
      ensures fresh(out) && fresh(out.backing) && (out.startTime != null ==> fresh(out.startTime))
      ensures out.completionTime != null ==> fresh(out.completionTime)
      ensures out.Valid() && out.View() == View()
    {
      out := new ResourceStatus.Decode(EMPTY);
      DeepCopyInto(out);
    }

    method SetConditions(us: seq<Update>)
      requires Valid()
      modifies this, backing
      ensures Valid() && View() == old(View()).(conditions := SetAll(old(View()).conditions, us))
      ensures backing == old(backing) || fresh(backing)
    {
      for i := 0 to |us|
        invariant Valid() && View() == old(View()).(conditions := SetAll(old(View()).conditions, us[..i]))
        invariant backing == old(backing) || fresh(backing)
      {
        SetCondition(us[i].ctype, us[i].status, us[i].message);
        assert us[..i + 1][..i] == us[..i];
      }
      assert us[..|us|] == us;
    }

    /** Any sequence of in-place updates after a deep copy leaves the copy as it
        was, and merging the patch computed against it gives the updated status. */
    method UpdateUnderCopy(us: seq<Update>, start: Option<Time>, completion: Option<Time>)
      returns (base: ResourceStatus)
      requires Valid()
      modifies this, backing
      ensures fresh(base) && base.Valid() && base.View() == old(View())
      ensures Valid() && View() == Status(SetAll(old(View()).conditions, us), start, completion)
      ensures Merge(Encode(base.View()), Diff(Encode(base.View()), Encode(View()))) == Encode(View())
    {
      base := DeepCopy();
      SetConditions(us);
      startTime := Point(start);
      completionTime := Point(completion);
      PatchIsFieldwise(base.View(), base.View(), View());
    }
  }
}
