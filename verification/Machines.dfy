/** The Machine controller: what it persists about a machine's power and reachability. */
module Machines {
  import opened Options
  import opened Conditions
  import opened Statuses
  import opened Bmc

  /** A condition with the time its status last changed. */
  datatype MachineCondition = MachineCondition(condition: Condition, lastUpdateTime: Time)

  datatype MachineStatus = MachineStatus(power: Option<PowerState>, conditions: seq<MachineCondition>)

  const REQUEUE_INTERVAL: Time := 3 * 60 * 1_000_000_000

  const NEW := MachineStatus(None, [])

  function Plain(cs: seq<MachineCondition>): seq<Condition> {
    seq(|cs|, i requires 0 <= i < |cs| => cs[i].condition)
  }

  /** The update time moves only when the status does; the message always does. */
  function Touched(c: MachineCondition, status: ConditionStatus, message: string, now: Time): MachineCondition {
    MachineCondition(Updated(c.condition, status, Some(message)), if c.condition.status != status then now
      else c.lastUpdateTime)
  }

  function SetIn(cs: seq<MachineCondition>, t: ConditionType, status: ConditionStatus, message: string,
    now: Time): seq<MachineCondition> {
    var i := First(Plain(cs), t);
    if i < |cs| then cs[i := Touched(cs[i], status, message, now)]
    else cs + [Touched(MachineCondition(Condition(t, Unset, ""), 0), status, message, now)]
  }

  /** Apart from the update times, a Machine's SetCondition is a Job's or a Task's. */
  lemma SetInIsSet(cs: seq<MachineCondition>, t: ConditionType, status: ConditionStatus, message: string, now: Time)
    ensures Plain(SetIn(cs, t, status, message, now)) == Set(Plain(cs), t, status, Some(message))
  {
    var after, expected := Plain(SetIn(cs, t, status, message, now)), Set(Plain(cs), t, status, Some(message));
    assert |after| == |expected|;
    assert forall i :: 0 <= i < |after| ==> after[i] == expected[i];
  }

  /** How far one reconcile gets with the BMC. */
  datatype Contact = OpenFailed(error: string) | ReadFailed(error: string) | ReadPower(raw: string)

  function PowerSeen(contact: Contact): PowerState {
    if contact.ReadPower? then ToPowerState(contact.raw) else Unknown
  }

  function StatusSeen(contact: Contact): ConditionStatus {
    if contact.ReadPower? then True else False
  }

  function MessageSeen(contact: Contact): string {
    match contact
    case OpenFailed(e) => e
    case ReadFailed(e) => "get power state: " + e
    case ReadPower(_) => ""
  }

  function Reconciled(st: MachineStatus, contact: Contact, now: Time): MachineStatus {
    MachineStatus(Some(PowerSeen(contact)),
      SetIn(st.conditions, Contactable, StatusSeen(contact), MessageSeen(contact), now))
  }

  class Machine {
    var power: Option<PowerState>
    var conditions: seq<MachineCondition>

    ghost function View(): MachineStatus
      reads this
    {
      MachineStatus(power, conditions)
    }

    method SetCondition(t: ConditionType, status: ConditionStatus, message: string, now: Time)
      modifies this`conditions
      ensures conditions == SetIn(old(conditions), t, status, message, now)
    {
      ghost var plain := Plain(conditions);
      var at := 0;
      while at < |conditions| && conditions[at].condition.ctype != t
        invariant at <= |conditions| && conditions == old(conditions)
        invariant forall j :: 0 <= j < at ==> plain[j].ctype != t
      {
        at := at + 1;
      }
      if at == |conditions| {
        assert First(plain, t) == at;
        conditions := conditions + [MachineCondition(Condition(t, Unset, ""), 0)];
      } else {
        FirstIs(plain, t, at);
      }
      var c := conditions[at];
      if c.condition.status != status {
        c := MachineCondition(c.condition.(status := status), now);
      }
      c := c.(condition := c.condition.(message := message));
      conditions := conditions[at := c];
    }

    /** updatePowerState: the power state as read, or unknown. */
    method UpdatePowerState(reading: Contact) returns (error: Option<string>)
      requires !reading.OpenFailed?
      modifies this`power
      ensures power == Some(PowerSeen(reading))
      ensures error == if reading.ReadPower? then None else Some(MessageSeen(reading))
    {
      if reading.ReadFailed? {
        power := Some(Unknown);
        return Some("get power state: " + reading.error);
      }
      power := Some(ToPowerState(reading.raw));
      return None;
    }

    /** doReconcile: its patch takes effect or not, and if it does the Machine is
        requeued after three minutes, whether or not the BMC could be contacted. */
    method DoReconcile(contact: Contact, now: Time, patched: bool) returns (requeue: Option<Time>)
      modifies this
      ensures View() == Reconciled(old(View()), contact, now)
      ensures requeue == if patched then Some(180_000_000_000) else None
    {
      requeue := if patched then Some(REQUEUE_INTERVAL) else None;
      if contact.OpenFailed? {
        SetCondition(Contactable, False, contact.error, now);
        power := Some(Unknown);
        return;
      }
      var contactable, message := True, "";
      var error := UpdatePowerState(contact);
      if error.Some? {
        contactable, message := False, error.value;
      }
      SetCondition(Contactable, contactable, message, now);
    }
  }

  // ---- Histories ----

  /** One reconcile: what it saw, when it set the condition, and whether its
      patch took effect. One that got no secrets, or was cut off, saw nothing. */
  datatype Attempt = Attempt(seen: Option<Contact>, now: Time, persisted: bool)

  function Persisted(history: seq<Attempt>): MachineStatus {
    if history == [] then NEW
    else
      var a, before := history[|history| - 1], Persisted(history[..|history| - 1]);
      if a.persisted && a.seen.Some? then Reconciled(before, a.seen.value, a.now) else before
  }

  /** The attempts that left a trace. */
  function Effective(history: seq<Attempt>): seq<Attempt> {
    if history == [] then []
    else
      var a := history[|history| - 1];
      Effective(history[..|history| - 1]) + if a.persisted && a.seen.Some? then [a] else []
  }

  predicate AllSeen(es: seq<Attempt>) {
    forall i :: 0 <= i < |es| ==> es[i].seen.Some?
  }

  /** When the status seen last changed: the time of the last attempt that
      differs from the one before it, or of the first. */
  function FlipTime(es: seq<Attempt>): Time
    requires es != [] && AllSeen(es)
  {
    var n := |es|;
    if n == 1 || StatusSeen(es[n - 1].seen.value) != StatusSeen(es[n - 2].seen.value) then es[n - 1].now
    else FlipTime(es[..n - 1])
  }

  lemma FlipTimeStep(es: seq<Attempt>, a: Attempt)
    requires AllSeen(es) && a.seen.Some?
    ensures FlipTime(es + [a]) ==
      if es == [] || StatusSeen(a.seen.value) != StatusSeen(es[|es| - 1].seen.value) then a.now else FlipTime(es)
  {
    assert (es + [a])[..|es|] == es;
  }

  /** What the Contactable condition is after a contact, if it is the only one. */
  lemma SetOnly(cs: seq<MachineCondition>, status: ConditionStatus, message: string, now: Time)
    requires |cs| <= 1 && (cs != [] ==> cs[0].condition.ctype == Contactable) && status != Unset
    ensures SetIn(cs, Contactable, status, message, now) ==
      [MachineCondition(Condition(Contactable, status, message),
         if cs == [] || cs[0].condition.status != status then now else cs[0].lastUpdateTime)]
  {
  }

  /** What a series of persisted attempts amounts to: what the last one saw,
      with the time of the last flip. */
  function Summary(es: seq<Attempt>): MachineStatus
    requires AllSeen(es)
  {
    if es == [] then NEW
    else
      var last := es[|es| - 1].seen.value;
      MachineStatus(Some(PowerSeen(last)),
        [MachineCondition(Condition(Contactable, StatusSeen(last), MessageSeen(last)), FlipTime(es))])
  }

  /** After any history of reconciles, failed connections, failed reads and lost
      patches among them, the persisted status is what the last persisted attempt
      saw, with the time of the last persisted flip. */
  lemma {:induction false} MachineHistory(history: seq<Attempt>)
    ensures AllSeen(Effective(history))
    ensures Persisted(history) == Summary(Effective(history))
  {
    if history != [] {
      var front, a := history[..|history| - 1], history[|history| - 1];
      MachineHistory(front);
      if a.persisted && a.seen.Some? {
        FlipTimeStep(Effective(front), a);
        SetOnly(Persisted(front).conditions, StatusSeen(a.seen.value), MessageSeen(a.seen.value), a.now);
      } else {
        assert Effective(history) == Effective(front);
      }
    }
  }

  // ---- In so many words ----

  /** Since attempt i, and not before, all attempts agree on whether the power state can be read. */
  predicate LastFlip(es: seq<Attempt>, i: nat)
    requires AllSeen(es)
  {
    && i < |es|
    && (forall j :: i <= j < |es| ==> es[j].seen.value.ReadPower? == es[i].seen.value.ReadPower?)
    && (i > 0 ==> es[i - 1].seen.value.ReadPower? != es[i].seen.value.ReadPower?)
  }

  lemma {:induction false} FlipTimeIs(es: seq<Attempt>) returns (i: nat)
    requires es != [] && AllSeen(es)
    ensures LastFlip(es, i) && FlipTime(es) == es[i].now
  {
    var n := |es|;
    if n == 1 || es[n - 1].seen.value.ReadPower? != es[n - 2].seen.value.ReadPower? {
      i := n - 1;
    } else {
      i := FlipTimeIs(es[..n - 1]);
      assert forall j :: i <= j < n - 1 ==> es[..n - 1][j] == es[j];
    }
  }

  /** Once an attempt was persisted, the Machine has one condition, Contactable: True
      if the power state was read, and else False with the error; the power state
      is the one read, or unknown; and the update time is that of the last flip. */
  lemma PersistedIs(history: seq<Attempt>) returns (i: nat)
    requires Effective(history) != []
    ensures AllSeen(Effective(history)) && LastFlip(Effective(history), i)
    ensures
      var es := Effective(history);
      var at := es[i].now;
      match es[|es| - 1].seen.value
      case OpenFailed(e) =>
        Persisted(history) == MachineStatus(Some(Unknown), [MachineCondition(Condition(Contactable, False, e), at)])
      case ReadFailed(e) =>
        Persisted(history) == MachineStatus(Some(Unknown),
          [MachineCondition(Condition(Contactable, False, "get power state: " + e), at)])
      case ReadPower(raw) =>
        var power := if ReadsOn(raw) then On else if ReadsOff(raw) then Off else Unknown;
        Persisted(history) == MachineStatus(Some(power), [MachineCondition(Condition(Contactable, True, ""), at)])
  {
    MachineHistory(history);
    i := FlipTimeIs(Effective(history));
    var last := Effective(history)[|Effective(history)| - 1].seen.value;
    if last.ReadPower? {
      PowerStateIs(last.raw);
    }
  }

  /** A machine that is persisted as not contactable has its power state persisted as unknown. */
  lemma UncontactableIsUnknown(history: seq<Attempt>, i: nat)
    requires i < |Persisted(history).conditions|
    requires Persisted(history).conditions[i].condition.ctype == Contactable
    requires Persisted(history).conditions[i].condition.status == False
    ensures Persisted(history).power == Some(Unknown)
  {
    MachineHistory(history);
  }
}
