/** What a Completed Task says about the machine. */
module Completion {
  import opened Options
  import opened Conditions
  import opened Statuses
  import opened Bmc
  import opened Protocol
  import Achievable
  import TaskStory
  import Theorems

  /** A run in which a Task with this action is Completed. */
  ghost predicate CompletedIn(s0: Sys, ls: seq<Label>, tk: Key, action: Action) {
    && Initial(s0) && Run(s0, ls) && tk in After(s0, ls).tasks
    && After(s0, ls).tasks[tk].action == action && Is(After(s0, ls).tasks[tk].status, Completed)
  }

  /** A reading of this power state. */
  predicate Shown(l: Label, tk: Key, state: PowerState) {
    l.TaskStep? && l.task == tk && l.taskMove.TPower? && l.taskMove.reading.Some?
    && ToPowerState(l.taskMove.reading.value) == state
  }

  /** The reconcile that persisted the Task as Completed, at step j, made this
      reading, after one before it had run the action in full. */
  ghost predicate SawAfterRun(s0: Sys, ls: seq<Label>, tk: Key, st: Status, state: PowerState, j: nat, at: Time) {
    && TaskStory.CompletedByCallsAt(s0, ls, tk, st, j, at)
    && exists l :: l in TaskStory.LastReconcile(ls[..j], TaskActor(tk)) && Shown(l, tk, state)
  }

  /** Completed guarantees that the machine was seen in this power state after the action was run. */
  ghost predicate Guarantees(action: Action, state: PowerState) {
    forall s0, ls, tk :: CompletedIn(s0, ls, tk, action) ==>
      exists j: nat, at: Time :: SawAfterRun(s0, ls, tk, After(s0, ls).tasks[tk].status, state, j, at)
  }

  /** The power state a power action is for: On for "on", Off for "off" and "soft". */
  predicate For(action: Action, state: PowerState) {
    match action.power
    case None => false
    case Some(p) => (p == PowerOn && state == On) || ((p == PowerHardOff || p == PowerSoftOff) && state == Off)
  }

  lemma ShownByCheck(tk: Key, t: Task, at: Time, seg: seq<Label>, state: PowerState)
    requires TaskStory.Checking(tk, t, at, seg) && For(t.action, state)
    ensures exists l :: l in seg && Shown(l, tk, state)
  {
    var l := seg[|seg| - 1];
    PowerStateIs(l.taskMove.reading.value);
    assert Shown(l, tk, state);
  }

  lemma ActionKept(s0: Sys, ls: seq<Label>, j: nat, tk: Key)
    requires Initial(s0) && Run(s0, ls) && j <= |ls| && Run(s0, ls[..j]) && tk in After(s0, ls[..j]).tasks
    ensures tk in After(s0, ls).tasks && After(s0, ls[..j]).tasks[tk].action == After(s0, ls).tasks[tk].action
  {
    assert ls[..j] + ls[j..] == ls;
    Theorems.StatusesOnlyAdvance(s0, ls[..j], ls[j..]);
  }

  lemma StateWasSeen(s0: Sys, ls: seq<Label>, tk: Key, action: Action, state: PowerState)
    requires CompletedIn(s0, ls, tk, action) && For(action, state)
    ensures exists j: nat, at: Time :: SawAfterRun(s0, ls, tk, After(s0, ls).tasks[tk].status, state, j, at)
  {
    var st := After(s0, ls).tasks[tk].status;
    Theorems.CompletedTaskIsSound(s0, ls, tk);
    var j: nat, at: Time :| TaskStory.CompletedByCallsAt(s0, ls, tk, st, j, at);
    var t, seg := After(s0, ls[..j]).tasks[tk], TaskStory.LastReconcile(ls[..j], TaskActor(tk));
    ActionKept(s0, ls, j, tk);
    ShownByCheck(tk, t, at, seg[..|seg| - 1], state);
    var l :| l in seg[..|seg| - 1] && Shown(l, tk, state);
    assert l in seg;
    assert SawAfterRun(s0, ls, tk, st, state, j, at);
  }

  // ---- Runs that end Completed ----

  /** For every action without an empty device list and every reading its check
      accepts, a run in which its Task is Completed on that reading alone, or on
      none if it is no power action. */
  lemma CompletesOn(tk: Key, action: Action, raw: string) returns (s0: Sys, ls: seq<Label>)
    requires NoDevice !in Commands(action) && (action.power.Some? ==> TaskStory.Shows(action.power.value, raw))
    ensures CompletedIn(s0, ls, tk, action)
    ensures forall l :: l in ls && l.TaskStep? && l.taskMove.TPower? && l.taskMove.reading.Some? ==>
      action.power.Some? && l.taskMove.reading == Some(raw)
  {
    if action.power.Some? {
      TaskStory.ShowsIsMeets(action.power.value, raw);
    }
    s0 := Sys(0, map[], map[], [], map[], map[], []);
    var l := User(CreateTask(tk, [], action, Connection("bmc", RpcSecrets(map[]))));
    Achievable.One(s0, l);
    var more := Achievable.RunAndConfirm(After(s0, [l]), tk, raw);
    Achievable.Compose(s0, [l], more);
    ls := [l] + more;
    forall l' | l' in ls && l'.TaskStep? && l'.taskMove.TPower?
      ensures l'.taskMove.reading == if action.power.Some? then Some(raw) else None
    {
      assert l' in more && Achievable.Reads(l');
    }
  }

  lemma SegmentWithin(own: seq<Label>, l: Label)
    requires l in TaskStory.Segment(own)
    ensures l in own
  {
    if !Begins(own[|own| - 1]) && l != own[|own| - 1] {
      SegmentWithin(own[..|own| - 1], l);
    }
  }

  lemma OwnWithin(ls: seq<Label>, a: Actor, l: Label)
    requires l in Own(ls, a)
    ensures l in ls
  {
    if l in Own(ls[..|ls| - 1], a) {
      OwnWithin(ls[..|ls| - 1], a, l);
    }
  }

  /** A reading a check accepts without its showing this state, unless this is the state it is for. */
  lemma OtherReading(action: Action, state: PowerState) returns (raw: string)
    requires !For(action, state)
    ensures action.power.Some? ==> TaskStory.Shows(action.power.value, raw) && ToPowerState(raw) != state
  {
    Achievable.PlainReadings();
    if action.power == Some(PowerOn) {
      raw := "on";
    } else if action.power == Some(PowerHardOff) || action.power == Some(PowerSoftOff) {
      raw := "off";
    } else {
      raw := if state == On then "off" else "on";
    }
    PowerStateIs(raw);
  }

  lemma NotSeen(s0: Sys, ls: seq<Label>, tk: Key, action: Action, raw: string, state: PowerState)
    requires CompletedIn(s0, ls, tk, action) && (action.power.Some? ==> ToPowerState(raw) != state)
    requires forall l :: l in ls && l.TaskStep? && l.taskMove.TPower? && l.taskMove.reading.Some? ==>
      action.power.Some? && l.taskMove.reading == Some(raw)
    ensures !Guarantees(action, state)
  {
    var st := After(s0, ls).tasks[tk].status;
    forall j: nat, at: Time
      ensures !SawAfterRun(s0, ls, tk, st, state, j, at)
    {
      if SawAfterRun(s0, ls, tk, st, state, j, at) {
        var l :| l in TaskStory.LastReconcile(ls[..j], TaskActor(tk)) && Shown(l, tk, state);
        SegmentWithin(Own(ls[..j], TaskActor(tk)), l);
        OwnWithin(ls[..j], TaskActor(tk), l);
      }
    }
  }

  // ---- Actions that panic ----

  /** A boot action without a device. */
  predicate Panics(action: Action) {
    action.boot.Some? && action.boot.value.devices == []
  }

  lemma PanicsIs(action: Action)
    ensures Panics(action) <==> NoDevice in Commands(action)
    ensures Panics(action) <==> NoDevice in TaskStory.Plan(action)
  {
    CommandsAre(action);
    if Panics(action) {
      assert Commands(action)[if action.power.Some? then 1 else 0] == NoDevice;
    }
  }

  /** It panics whenever it is run, and is never Completed. */
  lemma PanickingNeverCompletes(s0: Sys, ls: seq<Label>, tk: Key, action: Action)
    requires Panics(action)
    ensures !CompletedIn(s0, ls, tk, action)
  {
    if CompletedIn(s0, ls, tk, action) {
      var st := After(s0, ls).tasks[tk].status;
      Theorems.CompletedTaskIsSound(s0, ls, tk);
      var j: nat, at: Time :| TaskStory.CompletedByCallsAt(s0, ls, tk, st, j, at);
      var i: nat :| TaskStory.StartedAt(s0, ls[..j], tk, st.startTime.value, i);
      assert ls[..j][..i] == ls[..i];
      ActionKept(s0, ls, i, tk);
      PanicsIs(action);
    }
  }

  /** Completed guarantees that the machine was seen in a power state after the
      action was run if and only if the action is the power action for that state
      (on: On; off and soft: Off), or one that panics and so is never Completed.
      For every other action there is a run that ends Completed without it. */
  lemma CompletedShowsState(action: Action, state: PowerState)
    ensures Guarantees(action, state) <==>
      || (action.power == Some(PowerOn) && state == On)
      || ((action.power == Some(PowerHardOff) || action.power == Some(PowerSoftOff)) && state == Off)
      || (action.boot.Some? && action.boot.value.devices == [])
  {
    PanicsIs(action);
    if Panics(action) {
      forall s0, ls, tk
        ensures !CompletedIn(s0, ls, tk, action)
      {
        PanickingNeverCompletes(s0, ls, tk, action);
      }
    } else if For(action, state) {
      forall s0, ls, tk | CompletedIn(s0, ls, tk, action)
        ensures exists j: nat, at: Time :: SawAfterRun(s0, ls, tk, After(s0, ls).tasks[tk].status, state, j, at)
      {
        StateWasSeen(s0, ls, tk, action, state);
      }
    } else {
      var raw := OtherReading(action, state);
      var tk := Key("", "");
      var s0, ls := CompletesOn(tk, action, raw);
      NotSeen(s0, ls, tk, action, raw, state);
    }
  }
}
