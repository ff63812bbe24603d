/** An optional value: Go's nil pointers, absent options and error returns. */
module Options {
  datatype Option<+T> = None | Some(value: T)
}

/** Condition lists: slices of {type, status, message} entries which the code
    scans from the front and uses as if they were maps keyed by type.
    Jobs, Tasks and Machines share the shape; a Task only uses Completed and
    Failed, a Machine only Contactable. */
module Conditions {
  import opened Options

  datatype ConditionType = Completed | Failed | Running | Contactable

  /** Unset is the empty string an appended entry holds until its status is written. */
  datatype ConditionStatus = Unset | True | False

  datatype Condition = Condition(ctype: ConditionType, status: ConditionStatus, message: string)

  /** The index of the first entry of type t, or |cs| when there is none. */
  function First(cs: seq<Condition>, t: ConditionType): (i: nat)
    ensures i <= |cs|
    ensures i < |cs| ==> cs[i].ctype == t
    ensures forall j :: 0 <= j < i ==> cs[j].ctype != t
  {
    if cs == [] then 0
    else if cs[0].ctype == t then 0
    else 1 + First(cs[1..], t)
  }

  predicate Has(cs: seq<Condition>, t: ConditionType, status: ConditionStatus) {
    var i := First(cs, t);
    i < |cs| && cs[i].status == status
  }

  /** An entry after a SetCondition call with at most one message option. */
  function Updated(c: Condition, status: ConditionStatus, message: Option<string>): Condition {
    Condition(c.ctype, status, if message.Some? then message.value else c.message)
  }

  function Set(cs: seq<Condition>, t: ConditionType, status: ConditionStatus, message: Option<string>): seq<Condition> {
    var i := First(cs, t);
    if i < |cs| then cs[i := Updated(cs[i], status, message)]
    else cs + [Updated(Condition(t, Unset, ""), status, message)]
  }

  /** The finite map a list stands for under first-match lookup. */
  ghost function Lookup(cs: seq<Condition>): map<ConditionType, Condition> {
    map t: ConditionType | First(cs, t) < |cs| :: cs[First(cs, t)]
  }

  ghost predicate UniqueTypes(cs: seq<Condition>) {
    forall i, j :: 0 <= i < j < |cs| ==> cs[i].ctype != cs[j].ctype
  }

  lemma FirstIs(cs: seq<Condition>, t: ConditionType, i: nat)
    requires i < |cs| && cs[i].ctype == t
    requires forall j :: 0 <= j < i ==> cs[j].ctype != t
    ensures First(cs, t) == i
  {
  }

  /** Where a lookup lands after a SetCondition call, and what it finds there. */
  lemma FirstAfterSet(cs: seq<Condition>, t: ConditionType, status: ConditionStatus, message: Option<string>,
    u: ConditionType)
    ensures
      var after := Set(cs, t, status, message);
      if u == t then
        First(after, u) == First(cs, t) < |after|
      else
        (First(cs, u) < |cs| <==> First(after, u) < |after|) &&
        (First(cs, u) < |cs| ==> First(after, u) == First(cs, u) && after[First(cs, u)] == cs[First(cs, u)])
  {
    var after, i := Set(cs, t, status, message), First(cs, u);
    if u == t || i < |cs| {
      assert forall j :: 0 <= j < i ==> after[j].ctype == cs[j].ctype;
      FirstIs(after, u, i);
    }
  }

  /** SetCondition is map update: one key changes, and the entry keeps its old
      message unless the call brings a new one. */
  lemma SetIsMapUpdate(cs: seq<Condition>, t: ConditionType, status: ConditionStatus, message: Option<string>)
    ensures
      var kept := if t in Lookup(cs) then Lookup(cs)[t].message else "";
      Lookup(Set(cs, t, status, message)) ==
        Lookup(cs)[t := Condition(t, status, if message.Some? then message.value else kept)]
  {
    var after := Set(cs, t, status, message);
    var kept := if t in Lookup(cs) then Lookup(cs)[t].message else "";
    var expected := Lookup(cs)[t := Condition(t, status, if message.Some? then message.value else kept)];
    forall u: ConditionType
      ensures u in Lookup(after) <==> u in expected
      ensures u in expected ==> Lookup(after)[u] == expected[u]
    {
      FirstAfterSet(cs, t, status, message, u);
    }
  }

  /** HasCondition is lookup and compare; an absent type answers false for every status. */
  lemma HasIsLookup(cs: seq<Condition>, t: ConditionType, status: ConditionStatus)
    ensures Has(cs, t, status) <==> t in Lookup(cs) && Lookup(cs)[t].status == status
    ensures t !in Lookup(cs) ==> !Has(cs, t, True) && !Has(cs, t, False)
  {
  }

  /** Every other entry stays where it was, the list grows by at most the one
      new entry at its end, and types stay unique. */
  lemma SetKeepsTheRest(cs: seq<Condition>, t: ConditionType, status: ConditionStatus, message: Option<string>)
    ensures
      var after := Set(cs, t, status, message);
      && |after| == (if t in Lookup(cs) then |cs| else |cs| + 1)
      && (forall i :: 0 <= i < |cs| && i != First(cs, t) ==> after[i] == cs[i])
      && after[First(cs, t)].ctype == t
      && (UniqueTypes(cs) ==> UniqueTypes(after))
  {
  }

  datatype Update = Update(ctype: ConditionType, status: ConditionStatus, message: Option<string>)

  ghost function SetAll(cs: seq<Condition>, us: seq<Update>): seq<Condition> {
    if us == [] then cs
    else
      var u := us[|us| - 1];
      Set(SetAll(cs, us[..|us| - 1]), u.ctype, u.status, u.message)
  }

  /** The status the last update of type t wrote, if any did. */
  ghost function LastWritten(us: seq<Update>, t: ConditionType): Option<ConditionStatus> {
    if us == [] then None
    else if us[|us| - 1].ctype == t then Some(us[|us| - 1].status)
    else LastWritten(us[..|us| - 1], t)
  }

  /** Over any sequence of SetCondition calls from the empty list, types stay
      unique and HasCondition answers what the last call for that type wrote. */
  lemma {:induction false} SetAllRemembersLast(us: seq<Update>, t: ConditionType, status: ConditionStatus)
    ensures UniqueTypes(SetAll([], us))
    ensures Has(SetAll([], us), t, status) <==> LastWritten(us, t) == Some(status)
  {
    if us == [] {
    } else {
      var u, before := us[|us| - 1], SetAll([], us[..|us| - 1]);
      SetAllRemembersLast(us[..|us| - 1], t, status);
      SetIsMapUpdate(before, u.ctype, u.status, u.message);
      SetKeepsTheRest(before, u.ctype, u.status, u.message);
      HasIsLookup(before, t, status);
      HasIsLookup(SetAll([], us), t, status);
    }
  }
}
