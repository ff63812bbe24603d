/** BMC actions: the commands they stand for and the power state they wait for. */
module Bmc {
  import opened Options

  datatype PowerAction = PowerOn | PowerHardOff | PowerSoftOff | PowerCycle | PowerReset | PowerStatus
  datatype BootAction = BootAction(devices: seq<string>, efiBoot: bool)
  datatype MediaAction = MediaAction(kind: string, url: string)

  /** The API allows at most one member; nothing here depends on that. */
  datatype Action = Action(power: Option<PowerAction>, boot: Option<BootAction>, media: Option<MediaAction>)

  /** A call to the BMC. NoDevice stands for indexing an empty device list, which panics. */
  datatype Command =
    | SetPower(action: PowerAction)
    | SetBootDevice(device: string, setPersistent: bool, efiBoot: bool)
    | SetVirtualMedia(kind: string, url: string)
    | NoDevice

  function PowerCommands(a: Action): seq<Command> {
    if a.power.Some? then [SetPower(a.power.value)] else []
  }

  function BootCommands(a: Action): seq<Command> {
    if a.boot.None? then []
    else if a.boot.value.devices == [] then [NoDevice]
    else [SetBootDevice(a.boot.value.devices[0], false, a.boot.value.efiBoot)]
  }

  function MediaCommands(a: Action): seq<Command> {
    if a.media.Some? then [SetVirtualMedia(a.media.value.kind, a.media.value.url)] else []
  }

  /** The commands of an action, in the order runTask issues them. */
  function Commands(a: Action): seq<Command> {
    PowerCommands(a) + BootCommands(a) + MediaCommands(a)
  }

  /** What runTask makes of an error a command returned. */
  function CommandFailure(c: Command, error: string): string {
    match c
    case SetPower(_) => "failed to perform PowerAction: " + error
    case SetBootDevice(_, _, _) => "failed to perform OneTimeBootDeviceAction: " + error
    case SetVirtualMedia(_, _) => "failed to perform SetVirtualMedia: " + error
    case NoDevice => error
  }

  /** The commands of an action: for its power, its boot device and its virtual
      media, in this order. The boot device is the first of the list, set for
      the next boot only. */
  lemma CommandsAre(a: Action)
    ensures Commands(a) ==
      (match a.power case None => [] case Some(p) => [SetPower(p)])
      + (match a.boot
         case None => []
         case Some(b) => if |b.devices| == 0 then [NoDevice] else [SetBootDevice(b.devices[0], false, b.efiBoot)])
      + (match a.media case None => [] case Some(m) => [SetVirtualMedia(m.kind, m.url)])
  {
  }

  datatype PowerState = On | Off | Unknown

  function Lower(c: char): char {
    if 'A' <= c <= 'Z' then (c as int + 32) as char else c
  }

  function ToLower(s: string): (r: string)
    ensures |r| == |s|
  {
    seq(|s|, i requires 0 <= i < |s| => Lower(s[i]))
  }

  predicate Contains(s: string, word: string) {
    word <= s || (s != [] && Contains(s[1..], word))
  }

  lemma {:induction false} ContainsWithin(before: string, word: string, after: string)
    ensures Contains(before + word + after, word)
  {
    if before == [] {
      assert before + word + after == word + after;
    } else {
      assert (before + word + after)[1..] == before[1..] + word + after;
      ContainsWithin(before[1..], word, after);
    }
  }

  /** How a raw BMC reading is classified: case-insensitively, "on" before "off". */
  function ToPowerState(raw: string): PowerState {
    var state := ToLower(raw);
    if Contains(state, "on") then On
    else if Contains(state, "off") then Off
    else Unknown
  }

  /** The power state a Task's status check waits for, when it waits for one. */
  function Wanted(p: PowerAction): Option<PowerState> {
    match p
    case PowerOn => Some(On)
    case PowerHardOff | PowerSoftOff => Some(Off)
    case PowerCycle | PowerReset | PowerStatus => None
  }

  predicate Meets(p: PowerAction, raw: string) {
    Wanted(p).None? || ToPowerState(raw) == Wanted(p).value
  }

  /** A reading that holds the word "on" anywhere, in any case, is On, whatever
      surrounds it; one that holds "off" is Off unless an "on" occurs too. */
  lemma ReadingHolds(before: string, word: string, after: string)
    requires ToLower(word) in {"on", "off"}
    ensures ToLower(word) == "on" ==> ToPowerState(before + word + after) == On
    ensures ToLower(word) == "off" ==>
      ToPowerState(before + word + after) == (if Contains(ToLower(before + word + after), "on") then On else Off)
  {
    assert ToLower(before + word + after) == ToLower(before) + ToLower(word) + ToLower(after);
    ContainsWithin(ToLower(before), ToLower(word), ToLower(after));
  }

  // ---- Readings, letter by letter ----

  predicate ReadsOn(raw: string) {
    exists i :: 0 <= i < |raw| - 1 && raw[i] in {'o', 'O'} && raw[i + 1] in {'n', 'N'}
  }

  predicate ReadsOff(raw: string) {
    exists i :: 0 <= i < |raw| - 2 && raw[i] in {'o', 'O'} && raw[i + 1] in {'f', 'F'} && raw[i + 2] in {'f', 'F'}
  }

  lemma {:induction false} ContainsIs(s: string, word: string)
    ensures Contains(s, word) <==> exists i :: 0 <= i <= |s| && word <= s[i..]
  {
    if word <= s {
      assert s[0..] == s;
    } else if s != [] {
      ContainsIs(s[1..], word);
      if i :| 0 <= i <= |s[1..]| && word <= s[1..][i..] {
        assert s[i + 1..] == s[1..][i..];
      }
      if i :| 0 <= i <= |s| && word <= s[i..] {
        assert s[0..] == s;
        assert s[1..][i - 1..] == s[i..];
      }
    }
  }

  lemma OnIs(raw: string)
    ensures Contains(ToLower(raw), "on") <==> ReadsOn(raw)
  {
    var s := ToLower(raw);
    ContainsIs(s, "on");
    if i :| 0 <= i <= |s| && "on" <= s[i..] {
      assert s[i] == s[i..][0] == 'o' && s[i + 1] == s[i..][1] == 'n';
    }
    if i :| 0 <= i < |raw| - 1 && raw[i] in {'o', 'O'} && raw[i + 1] in {'n', 'N'} {
      assert s[i..][0] == 'o' && s[i..][1] == 'n';
    }
  }

  lemma OffReads(raw: string)
    requires Contains(ToLower(raw), "off")
    ensures ReadsOff(raw)
  {
    var s := ToLower(raw);
    ContainsIs(s, "off");
    var i :| 0 <= i <= |s| && "off" <= s[i..];
    var rest := s[i..];
    assert rest[0] == "off"[0] && rest[1] == "off"[1] && rest[2] == "off"[2];
    assert s[i] == rest[0] && s[i + 1] == rest[1] && s[i + 2] == rest[2];
  }

  lemma OffIs(raw: string)
    ensures Contains(ToLower(raw), "off") <==> ReadsOff(raw)
  {
    var s := ToLower(raw);
    ContainsIs(s, "off");
    if Contains(s, "off") {
      OffReads(raw);
    }
    if i :| 0 <= i < |raw| - 2 && raw[i] in {'o', 'O'} && raw[i + 1] in {'f', 'F'} && raw[i + 2] in {'f', 'F'} {
      assert s[i..][0] == 'o' && s[i..][1] == 'f' && s[i..][2] == 'f';
    }
  }

  /** A reading is On exactly when an o stands right before an n in it, Off exactly
      when that is not so and an o stands right before two f, in either case of
      every letter, and else Unknown. */
  lemma PowerStateIs(raw: string)
    ensures ToPowerState(raw) == On <==> ReadsOn(raw)
    ensures ToPowerState(raw) == Off <==> !ReadsOn(raw) && ReadsOff(raw)
    ensures ToPowerState(raw) == Unknown <==> !ReadsOn(raw) && !ReadsOff(raw)
  {
    OnIs(raw);
    OffIs(raw);
  }
}
