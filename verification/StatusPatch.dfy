/** JSON merge patches (section 2 of RFC 7396) and the status patch built from them. */
module MergePatch {
  datatype Json =
    | Null
    | Instant(t: nat)
    | Text(s: string)
    | Array(items: seq<Json>)
    | Object(members: map<string, Json>)

  /** MergePatch(target, patch) of the RFC: objects merge member by member, null
      removes, and everything else, arrays included, replaces the target. */
  function Merge(target: Json, patch: Json): Json
    decreases patch
  {
    if patch.Object? then
      var old' := if target.Object? then target.members else map[];
      Object(map k | k in old'.Keys + patch.members.Keys && !(k in patch.members && patch.members[k].Null?) ::
        if k in patch.members then Merge(if k in old' then old'[k] else Null, patch.members[k]) else old'[k])
    else patch
  }

  /** The merge patch that leads from one object to another. */
  function Diff(a: Json, b: Json): Json
    requires a.Object? && b.Object?
    decreases b
  {
    Object(map k | k in a.members.Keys + b.members.Keys
      && !(k in a.members && k in b.members && a.members[k] == b.members[k]) ::
      if k !in b.members then Null
      else if k in a.members && a.members[k].Object? && b.members[k].Object? then Diff(a.members[k], b.members[k])
      else b.members[k])
  }

  predicate NullFree(b: Json) {
    match b
    case Null => false
    case Object(m) => forall k | k in m :: NullFree(m[k])
    case _ => true
  }

  /** A value that does not merge into an object replaces whatever was there. */
  lemma {:induction false} MergeReplaces(target: Json, b: Json)
    requires NullFree(b) && !(target.Object? && b.Object?)
    ensures Merge(target, b) == b
    decreases b
  {
    if b.Object? {
      forall k | k in b.members {
        MergeReplaces(Null, b.members[k]);
      }
    }
  }

  /** Round trip: a merge patch computed from two objects carries the one to the other. */
  lemma {:induction false} MergeOfDiff(a: Json, b: Json)
    requires a.Object? && b.Object? && NullFree(b)
    ensures Merge(a, Diff(a, b)) == b
    decreases b
  {
    var d := Diff(a, b);
    var r := Merge(a, d);
    forall k | k in b.members
      ensures k in r.members && r.members[k] == b.members[k]
    {
      if k in a.members && a.members[k] == b.members[k] {
        assert k !in d.members;
      } else if k in a.members && a.members[k].Object? && b.members[k].Object? {
        MergeOfDiff(a.members[k], b.members[k]);
      } else {
        MergeReplaces(if k in a.members then a.members[k] else Null, b.members[k]);
      }
    }
    assert r.members.Keys == b.members.Keys;
  }

  ghost predicate SameMember(a: Json, b: Json, k: string)
    requires a.Object? && b.Object?
  {
    (k in a.members <==> k in b.members) && (k in a.members ==> a.members[k] == b.members[k])
  }

  lemma SameObject(a: Json, b: Json)
    requires a.Object? && b.Object?
    requires forall k :: SameMember(a, b, k)
    ensures a == b
  {
    assert forall k :: SameMember(a, b, k) ==> (k in a.members <==> k in b.members);
    assert a.members == b.members;
  }

  /** Merging the patch between base and current into any object, member by
      member, when current has no nested objects: untouched members keep the
      target's value, touched ones take current's. */
  lemma MergeOfFlatDiff(target: Json, base: Json, current: Json, k: string)
    requires target.Object? && base.Object? && current.Object?
    requires k in current.members ==> !current.members[k].Object? && !current.members[k].Null?
    ensures Merge(target, Diff(base, current)).Object?
    ensures SameMember(Merge(target, Diff(base, current)), if SameMember(base, current, k) then target else current, k)
  {
    var d := Diff(base, current);
    if k in d.members {
      assert k !in current.members ==> d.members[k] == Null;
      assert k in current.members ==> d.members[k] == current.members[k];
    }
  }
}

/** The status objects as JSON: empty fields are omitted, as the API's tags say. */
module StatusPatch {
  import opened Options
  import opened Conditions
  import opened Statuses
  import opened MergePatch

  function TypeName(t: ConditionType): string {
    match t
    case Completed => "Completed"
    case Failed => "Failed"
    case Running => "Running"
    case Contactable => "Contactable"
  }

  function StatusName(s: ConditionStatus): string {
    match s
    case Unset => ""
    case True => "True"
    case False => "False"
  }

  function EncodeCondition(c: Condition): Json {
    Object(map["type" := Text(TypeName(c.ctype)), "status" := Text(StatusName(c.status))]
      + (if c.message == "" then map[] else map["message" := Text(c.message)]))
  }

  function EncodeConditions(cs: seq<Condition>): Json {
    Array(seq(|cs|, i requires 0 <= i < |cs| => EncodeCondition(cs[i])))
  }

  function Member(st: Status, name: string): Option<Json> {
    if name == "conditions" then
      if st.conditions == [] then None else Some(EncodeConditions(st.conditions))
    else
      var time := if name == "startTime" then st.startTime else st.completionTime;
      if time.None? then None else Some(Instant(time.value))
  }

  const FIELDS := {"conditions", "startTime", "completionTime"}

  function Encode(st: Status): Json {
    Object(map k | k in FIELDS && Member(st, k).Some? :: Member(st, k).value)
  }

  lemma EncodeConditionInjective(c: Condition, d: Condition)
    requires EncodeCondition(c) == EncodeCondition(d)
    ensures c == d
  {
    var m, n := EncodeCondition(c).members, EncodeCondition(d).members;
    assert m["type"] == n["type"] && m["status"] == n["status"];
    assert "message" in m <==> c.message != "";
    assert "message" in n <==> d.message != "";
  }

  lemma EncodeConditionsInjective(cs: seq<Condition>, ds: seq<Condition>)
    requires EncodeConditions(cs) == EncodeConditions(ds)
    ensures cs == ds
  {
    var a, b := EncodeConditions(cs).items, EncodeConditions(ds).items;
    assert |cs| == |a| == |b| == |ds|;
    forall i | 0 <= i < |cs|
      ensures cs[i] == ds[i]
    {
      assert a[i] == b[i];
      EncodeConditionInjective(cs[i], ds[i]);
    }
  }

  /** The JSON decides the status: no two encode alike. */
  lemma EncodeInjective(a: Status, b: Status)
    requires Encode(a) == Encode(b)
    ensures a == b
  {
    forall k | k in FIELDS
      ensures Member(a, k) == Member(b, k)
    {
      assert k in Encode(a).members <==> k in Encode(b).members;
    }
    assert Member(a, "conditions") == Member(b, "conditions");
    assert Member(a, "startTime") == Member(b, "startTime");
    assert Member(a, "completionTime") == Member(b, "completionTime");
    if a.conditions != [] {
      EncodeConditionsInjective(a.conditions, b.conditions);
    }
  }

  /** One member of the patched status object. */
  lemma PatchedMember(stored: Status, base: Status, current: Status, k: string)
    requires k in FIELDS
    ensures Member(Patched(stored, base, current), k) ==
      Member(if Member(base, k) == Member(current, k) then stored else current, k)
  {
    if base.conditions != [] && current.conditions != []
      && Member(base, "conditions") == Member(current, "conditions") {
      EncodeConditionsInjective(base.conditions, current.conditions);
    }
  }

  /** Patching the stored JSON with the merge patch between base and current is
      the field-wise Patched, whatever is stored: also when the base is stale. */
  lemma PatchIsFieldwise(stored: Status, base: Status, current: Status)
    ensures Merge(Encode(stored), Diff(Encode(base), Encode(current))) == Encode(Patched(stored, base, current))
  {
    var r := Merge(Encode(stored), Diff(Encode(base), Encode(current)));
    forall k
      ensures SameMember(r, Encode(Patched(stored, base, current)), k)
    {
      MergeOfFlatDiff(Encode(stored), Encode(base), Encode(current), k);
      if k in FIELDS {
        PatchedMember(stored, base, current, k);
      }
    }
    SameObject(r, Encode(Patched(stored, base, current)));
  }
}
