/** oFono modems (urf-device-ofono.c, urf-ofono-manager.c): the list of modems,
    the properties each one has last reported, and which of them the arbitrator
    has in its own list.  A removed modem's object lives on while calls to oFono
    hold it, and what it still reports is handled like any other report.

    Assumptions: every modem has a proxy; the device indices of other drivers
    stay below 100. */
module OfonoModems {
  import opened Common
  import opened KillswitchState
  import opened DeviceMirror
  import opened Persistence
  import opened FlightMode
  import opened DeviceEvents

  /** A D-Bus property value; only boolean ones are looked at. */
  datatype Value = Flag(flag: bool) | Other

  /** One modem.  inFlight is pending_set_online_cb and task the task waiting for
      that call.  The rest records what it has done: the powered signals it has
      emitted, the Online values it has asked oFono for, the tasks it was given
      and how they were answered. */
  datatype Modem = Modem(
    path: string,
    index: int,
    properties: map<string, Value>,
    inFlight: bool,
    task: Option<nat>,
    signals: seq<bool>,
    sent: seq<bool>,
    given: set<nat>,
    answered: seq<(nat, bool)>)

  const FIRST_INDEX := 100

  /** What the arbitrator goes by when a device is added. */
  datatype Policy = Policy(cfg: Config, saved: Saved)

  /** The manager.  objects are all modem objects so far, named by their place;
      listed is the manager's list, newest last; known are the modem objects in
      the arbitrator's list, and foreign the indices of other drivers' devices there. */
  datatype Modems = Modems(
    objects: seq<Modem>,
    listed: seq<nat>,
    nextIndex: int,
    known: set<nat>,
    foreign: set<int>)

  const START := Modems([], [], FIRST_INDEX, {}, {})

  type Manager = g: Modems | forall s :: s in g.listed ==> s < |g.objects| witness START

  // ---------- One modem ----------

  function NewModem(path: string, index: int): Modem {
    Modem(path, index, map[], false, None, [], [], {}, [])
  }

  /** oFono reports Powered and Online as booleans. */
  ghost predicate Typed(name: string, value: Value) {
    name == "Powered" || name == "Online" ==> value.Flag?
  }

  ghost predicate TypedProperties(m: Modem) {
    forall name :: name in m.properties ==> Typed(name, m.properties[name])
  }

  function Powered(m: Modem): Option<bool> {
    if "Powered" in m.properties && m.properties["Powered"].Flag? then Some(m.properties["Powered"].flag) else None
  }

  function GetSoft(m: Modem): bool {
    "Online" in m.properties && m.properties["Online"].Flag? && !m.properties["Online"].flag
  }

  /** What the arbitrator sees of a modem. */
  function AsDevice(m: Modem): Device {
    Device(m.index, TYPE_WWAN, false, GetSoft(m), false)
  }

  lemma OnlineAlone(m: Modem, name: string, value: Value)
    ensures name != "Online" ==> GetSoft(m.(properties := m.properties[name := value])) == GetSoft(m)
  {
  }

  /** set_soft: refused while a call to oFono is in flight. */
  function SetSoft(m: Modem, blocked: bool, task: Option<nat>): Modem {
    var given := m.given + if task.Some? then {task.value} else {};
    if m.inFlight then m.(given := given, answered := m.answered + Answer(task, false))
    else m.(given := given, task := task, inFlight := true, sent := m.sent + [!blocked])
  }

  function Answer(task: Option<nat>, ok: bool): seq<(nat, bool)> {
    if task.Some? then [(task.value, ok)] else []
  }

  /** set_online_cb. */
  function OnlineReply(m: Modem, ok: bool): Modem {
    m.(inFlight := false, task := None, answered := m.answered + Answer(m.task, ok))
  }

  /** The signal update_powered emits for a newly reported value. */
  function PoweredSignal(m: Modem, powered: bool): Option<bool> {
    if Powered(m).None? then (if powered then Some(true) else None)
    else if Powered(m).value == powered then None
    else Some(powered)
  }

  /** A modem, and whether the arbitrator has it in its list. */
  datatype Pair = Pair(modem: Modem, known: bool)

  function SetSoftAll(m: Modem, asks: seq<DeviceAsk>): (n: Modem)
    ensures n == m.(inFlight := n.inFlight, task := n.task, sent := n.sent, given := n.given, answered := n.answered)
    decreases |asks|
  {
    if asks == [] then m else SetSoftAll(SetSoft(m, asks[0].block, None), asks[1..])
  }

  /** device_powered_cb.  The arbitrator adds a device if no device in its list
      has that index, and makes its first requests of it; it removes a device by
      reference, so nothing happens to another one under the same index.  taken
      says that another device in the list has the modem's index. */
  function DevicePowered(y: Policy, m: Modem, known: bool, taken: bool, powered: bool): Pair {
    if !powered then Pair(m, false)
    else if known || taken then Pair(m, known)
    else Pair(SetSoftAll(m, Greeting(y.cfg, y.saved, AsDevice(m))), true)
  }

  /** update_powered, with the signal's handler run inside it. */
  function UpdatePowered(y: Policy, m: Modem, known: bool, taken: bool, powered: bool): Pair {
    var s := PoweredSignal(m, powered);
    if s.None? then Pair(m, known)
    else DevicePowered(y, m.(signals := m.signals + [s.value]), known, taken, s.value)
  }

  /** One reported property: Powered is acted on before it is recorded. */
  function Report(y: Policy, m: Modem, known: bool, taken: bool, name: string, value: Value): Pair {
    var t := if name == "Powered" && value.Flag? then UpdatePowered(y, m, known, taken, value.flag) else Pair(m, known);
    t.(modem := t.modem.(properties := t.modem.properties[name := value]))
  }

  /** A GetProperties reply, property by property. */
  function ReportAll(y: Policy, m: Modem, known: bool, taken: bool, list: seq<(string, Value)>): Pair
    decreases |list|
  {
    if list == [] then Pair(m, known)
    else
      var t := Report(y, m, known, taken, list[0].0, list[0].1);
      ReportAll(y, t.modem, t.known, taken, list[1..])
  }

  // ---------- The manager ----------

  /** Where the manager's list has the path first, or the list's length. */
  function FindModem(g: Manager, path: string): (k: nat)
    ensures k <= |g.listed|
    ensures k < |g.listed| ==> g.objects[g.listed[k]].path == path
    ensures forall j :: 0 <= j < k ==> g.objects[g.listed[j]].path != path
    decreases |g.listed|
  {
    if g.listed == [] then 0
    else if g.objects[g.listed[0]].path == path then 0
    else 1 + FindModem(g.(listed := g.listed[1..]), path)
  }

  predicate HasPath(g: Manager, path: string) {
    FindModem(g, path) < |g.listed|
  }

  function AddModem(g: Manager, path: string): Manager {
    if HasPath(g, path) then g
    else g.(objects := g.objects + [NewModem(path, g.nextIndex)],
            listed := g.listed + [|g.objects|],
            nextIndex := g.nextIndex + 1)
  }

  function AddModems(g: Manager, paths: seq<string>): Manager
    decreases |paths|
  {
    if paths == [] then g else AddModems(AddModem(g, paths[0]), paths[1..])
  }

  function RemoveAt(g: Manager, k: nat): Manager
    requires k < |g.listed|
  {
    g.(listed := g.listed[..k] + g.listed[k + 1..], known := g.known - {g.listed[k]})
  }

  function RemoveModem(g: Manager, path: string): Manager {
    if HasPath(g, path) then RemoveAt(g, FindModem(g, path)) else g
  }

  function RemoveAllModems(g: Manager): Manager
    decreases |g.listed|
  {
    if g.listed == [] then g else RemoveAllModems(RemoveAt(g, 0))
  }

  /** on_ofono_vanished: indices start again from the first one. */
  function Vanish(g: Manager): Manager {
    RemoveAllModems(g).(nextIndex := FIRST_INDEX)
  }

  /** Another device in the arbitrator's list has this modem's index. */
  predicate Taken(g: Manager, s: nat)
    requires s < |g.objects|
  {
    || g.objects[s].index in g.foreign
    || exists o :: o in g.known && o != s && o < |g.objects| && g.objects[o].index == g.objects[s].index
  }

  function Replace(g: Manager, s: nat, t: Pair): Manager
    requires s < |g.objects|
  {
    g.(objects := g.objects[s := t.modem], known := if t.known then g.known + {s} else g.known - {s})
  }

  /** A modem reports one property. */
  function ReportTo(y: Policy, g: Manager, s: nat, name: string, value: Value): Manager
    requires s < |g.objects|
  {
    Replace(g, s, Report(y, g.objects[s], s in g.known, Taken(g, s), name, value))
  }

  /** A modem replies with a list of properties. */
  function ReplyTo(y: Policy, g: Manager, s: nat, list: seq<(string, Value)>): Manager
    requires s < |g.objects|
  {
    Replace(g, s, ReportAll(y, g.objects[s], s in g.known, Taken(g, s), list))
  }

  /** What happens to the modems.  Appeared lists the paths a GetModems reply or a
      ModemAdded signal names; Properties and Changed are reports of a modem
      object, listed or not, as Requested and Replied are the requests to it and
      oFono's answers; Foreign is another driver's device. */
  datatype ModemEvent =
    | Appeared(paths: seq<string>)
    | Removed(path: string)
    | Vanished
    | Properties(who: nat, list: seq<(string, Value)>)
    | Changed(who: nat, name: string, value: Value)
    | Requested(who: nat, blocked: bool, task: Option<nat>)
    | Replied(who: nat, ok: bool)
    | Foreign(index: int, present: bool)

  ghost predicate Possible(g: Manager, ev: ModemEvent) {
    match ev
    case Properties(s, list) => s < |g.objects| && TypedList(list)
    case Changed(s, name, value) => s < |g.objects| && Typed(name, value)
    case Requested(s, _, task) => s < |g.objects| && (task.Some? ==> task.value !in g.objects[s].given)
    case Replied(s, _) => s < |g.objects| && g.objects[s].inFlight
    case Foreign(index, _) => index < FIRST_INDEX
    case _ => true
  }

  function Step(y: Policy, g: Manager, ev: ModemEvent): Manager
    requires Possible(g, ev)
  {
    match ev
    case Appeared(paths) => AddModems(g, paths)
    case Removed(path) => RemoveModem(g, path)
    case Vanished => Vanish(g)
    case Properties(s, list) => ReplyTo(y, g, s, list)
    case Changed(s, name, value) => ReportTo(y, g, s, name, value)
    case Requested(s, blocked, task) => Replace(g, s, Pair(SetSoft(g.objects[s], blocked, task), s in g.known))
    case Replied(s, ok) => Replace(g, s, Pair(OnlineReply(g.objects[s], ok), s in g.known))
    case Foreign(index, present) => g.(foreign := if present then g.foreign + {index} else g.foreign - {index})
  }

  // ---------- What holds of one modem ----------

  /** Powered signals alternate, starting with true, and the last one is the recorded value. */
  ghost predicate SignalsAlternate(m: Modem) {
    && (forall i :: 0 <= i < |m.signals| ==> m.signals[i] == (i % 2 == 0))
    && (|m.signals| % 2 == 1 <==> Powered(m) == Some(true))
  }

  ghost predicate HasAnswer(m: Modem, id: nat) {
    exists i :: 0 <= i < |m.answered| && m.answered[i].0 == id
  }

  /** Every task the modem was given is answered once or waits for the call in flight. */
  ghost predicate TasksOk(m: Modem) {
    && (!m.inFlight ==> m.task.None?)
    && (forall i, j :: 0 <= i < j < |m.answered| ==> m.answered[i].0 != m.answered[j].0)
    && (forall id: nat :: id in m.given <==> HasAnswer(m, id) || m.task == Some(id))
    && (m.task.Some? ==> !HasAnswer(m, m.task.value))
  }

  ghost predicate ModemOk(m: Modem) {
    FIRST_INDEX <= m.index && TypedProperties(m) && SignalsAlternate(m) && TasksOk(m)
  }

  lemma {:induction false} SetSoftAllKeeps(m: Modem, asks: seq<DeviceAsk>)
    requires TasksOk(m)
    ensures var n := SetSoftAll(m, asks); TasksOk(n) && n == m.(inFlight := n.inFlight, task := n.task, sent := n.sent)
    decreases |asks|
  {
    if asks == [] {
    } else {
      var n := SetSoft(m, asks[0].block, None);
      assert n.given == m.given && n.answered == m.answered;
      assert forall id: nat :: HasAnswer(n, id) <==> HasAnswer(m, id);
      SetSoftAllKeeps(n, asks[1..]);
    }
  }

  /** Whether the arbitrator has a modem after it reported a Powered value. */
  predicate KnownAfter(m: Modem, known: bool, taken: bool, powered: bool) {
    powered && (known || (Powered(m) != Some(true) && !taken))
  }

  lemma PoweredKeeps(y: Policy, m: Modem, known: bool, taken: bool, powered: bool)
    requires TasksOk(m) && (known ==> Powered(m) == Some(true))
    ensures var t := UpdatePowered(y, m, known, taken, powered);
      && TasksOk(t.modem) && t.known == KnownAfter(m, known, taken, powered)
      && t.modem.index == m.index && t.modem.path == m.path && t.modem.properties == m.properties
      && t.modem.signals == m.signals + Listed(PoweredSignal(m, powered))
  {
    var s := PoweredSignal(m, powered);
    if s.Some? {
      var up := m.(signals := m.signals + [s.value]);
      assert forall id: nat :: HasAnswer(up, id) <==> HasAnswer(m, id);
      SetSoftAllKeeps(up, Greeting(y.cfg, y.saved, AsDevice(up)));
    }
  }

  /** However a property is reported, the modem stays right, and the arbitrator
      has it only if it was last reported powered. */
  lemma ReportKeeps(y: Policy, m: Modem, known: bool, taken: bool, name: string, value: Value)
    requires ModemOk(m) && Typed(name, value) && (known ==> Powered(m) == Some(true))
    ensures var t := Report(y, m, known, taken, name, value);
      && ModemOk(t.modem) && t.modem.index == m.index && t.modem.path == m.path
      && t.known == (if name == "Powered" then KnownAfter(m, known, taken, value.flag) else known)
      && Powered(t.modem) == (if name == "Powered" then Some(value.flag) else Powered(m))
  {
    hide UpdatePowered, KnownAfter;
    var n := Report(y, m, known, taken, name, value).modem;
    if name == "Powered" {
      PoweredKeeps(y, m, known, taken, value.flag);
      SameTasks(UpdatePowered(y, m, known, taken, value.flag).modem, n);
    } else {
      SameTasks(m, n);
    }
  }

  lemma SameTasks(m: Modem, n: Modem)
    requires TasksOk(m) && n == m.(properties := n.properties)
    ensures TasksOk(n)
  {
    assert forall id: nat :: HasAnswer(n, id) <==> HasAnswer(m, id);
  }

  // ---------- A whole reply ----------

  ghost predicate TypedList(list: seq<(string, Value)>) {
    forall p :: p in list ==> Typed(p.0, p.1)
  }

  /** The last Powered value in a list, or the one recorded before. */
  function LastPowered(before: Option<bool>, list: seq<(string, Value)>): Option<bool>
    decreases |list|
  {
    if list == [] then before
    else LastPowered(if list[0].0 == "Powered" && list[0].1.Flag? then Some(list[0].1.flag) else before, list[1..])
  }

  /** A list makes a modem announce that it is powered and not take it back. */
  predicate PowersUp(before: Option<bool>, list: seq<(string, Value)>) {
    && LastPowered(before, list) == Some(true)
    && (before != Some(true) || ("Powered", Flag(false)) in list)
  }

  lemma {:induction false} ReportAllKeeps(y: Policy, m: Modem, known: bool, taken: bool, list: seq<(string, Value)>)
    requires ModemOk(m) && TypedList(list) && (known ==> Powered(m) == Some(true))
    ensures var t := ReportAll(y, m, known, taken, list);
      && ModemOk(t.modem) && t.modem.index == m.index && t.modem.path == m.path
      && Powered(t.modem) == LastPowered(Powered(m), list)
      && (t.known <==> (known && ("Powered", Flag(false)) !in list) || (!taken && PowersUp(Powered(m), list)))
    decreases |list|
  {
    if list == [] {
    } else {
      hide ModemOk, Report;
      assert list[0] in list;
      assert list == [list[0]] + list[1..];
      if ("Powered", Flag(false)) !in list[1..] {
        StaysOn(list[1..]);
      }
      var t := Report(y, m, known, taken, list[0].0, list[0].1);
      ReportKeeps(y, m, known, taken, list[0].0, list[0].1);
      ReportAllKeeps(y, t.modem, t.known, taken, list[1..]);
    }
  }

  lemma ReportKeepsPlace(y: Policy, m: Modem, known: bool, taken: bool, name: string, value: Value)
    ensures var t := Report(y, m, known, taken, name, value); t.modem.index == m.index && t.modem.path == m.path
  {
  }

  lemma TakenStays(g: Manager, s: nat, t: Pair)
    requires s < |g.objects| && t.modem.index == g.objects[s].index
    ensures Taken(Replace(g, s, t), s) == Taken(g, s)
  {
    var h := Replace(g, s, t);
    assert forall o :: o != s ==> (o in h.known <==> o in g.known);
    assert forall o :: 0 <= o < |g.objects| && o != s ==> h.objects[o] == g.objects[o];
  }

  /** A reply is its properties reported one after the other. */
  lemma ReplyByParts(y: Policy, g: Manager, s: nat, list: seq<(string, Value)>)
    requires s < |g.objects|
    ensures ReplyTo(y, g, s, list)
         == if list == [] then g else ReplyTo(y, ReportTo(y, g, s, list[0].0, list[0].1), s, list[1..])
  {
    if list == [] {
      assert g.objects[s := g.objects[s]] == g.objects;
      assert s in g.known ==> g.known + {s} == g.known;
      assert s !in g.known ==> g.known - {s} == g.known;
    } else {
      hide Report, ReportAll;
      var t := Report(y, g.objects[s], s in g.known, Taken(g, s), list[0].0, list[0].1);
      ReportKeepsPlace(y, g.objects[s], s in g.known, Taken(g, s), list[0].0, list[0].1);
      var h := Replace(g, s, t);
      TakenStays(g, s, t);
      assert h.objects[s := ReportAll(y, t.modem, t.known, Taken(g, s), list[1..]).modem]
          == g.objects[s := ReportAll(y, t.modem, t.known, Taken(g, s), list[1..]).modem];
      assert h.known + {s} == g.known + {s} && h.known - {s} == g.known - {s};
    }
  }

  /** A modem counts as soft blocked when the Online value it reported last was
      false; one that has reported none does not. */
  lemma {:induction false} SoftIsNotOnline(y: Policy, m: Modem, known: bool, taken: bool, list: seq<(string, Value)>)
    requires TypedList(list)
    ensures !GetSoft(NewModem(m.path, m.index))
    ensures (forall p :: p in list ==> p.0 != "Online") ==>
              GetSoft(ReportAll(y, m, known, taken, list).modem) == GetSoft(m)
    ensures forall i ::
              0 <= i < |list| && list[i].0 == "Online" && (forall j :: i < j < |list| ==> list[j].0 != "Online") ==>
              GetSoft(ReportAll(y, m, known, taken, list).modem) == !list[i].1.flag
    decreases |list|
  {
    if list == [] {
    } else {
      var t := Report(y, m, known, taken, list[0].0, list[0].1);
      assert list[0] in list && list == [list[0]] + list[1..];
      SoftIsNotOnline(y, t.modem, t.known, taken, list[1..]);
      ReportedOnline(y, m, known, taken, list[0].0, list[0].1);
    }
  }

  lemma ReportedOnline(y: Policy, m: Modem, known: bool, taken: bool, name: string, value: Value)
    requires Typed(name, value)
    ensures GetSoft(Report(y, m, known, taken, name, value).modem)
         == if name == "Online" then !value.flag else GetSoft(m)
  {
  }

  // ---------- What every run keeps ----------

  /** Holds in every run, whatever removed modems still report: every object is
      right in itself, the listed ones have paths and indices of their own, and
      the arbitrator's list has only powered modems and no index twice. */
  ghost predicate Sound(g: Manager) {
    && FIRST_INDEX <= g.nextIndex
    && (forall s :: 0 <= s < |g.objects| ==> ModemOk(g.objects[s]))
    && (forall j, k :: 0 <= j < k < |g.listed| ==>
          && g.objects[g.listed[j]].path != g.objects[g.listed[k]].path
          && g.objects[g.listed[j]].index != g.objects[g.listed[k]].index)
    && (forall s :: s in g.listed ==> g.objects[s].index < g.nextIndex)
    && (forall s :: s in g.known ==> s < |g.objects| && Powered(g.objects[s]) == Some(true))
    && (forall s, o :: s in g.known && o in g.known && s != o ==> g.objects[s].index != g.objects[o].index)
    && (forall i :: i in g.foreign ==> i < FIRST_INDEX)
  }

  /** The arbitrator has exactly the listed modems that were last reported powered. */
  ghost predicate Right(g: Manager) {
    forall s :: s in g.known <==> s in g.listed && Powered(g.objects[s]) == Some(true)
  }

  /** A report of a removed modem that gets it into the arbitrator's list: it
      announces that it is powered while no device there has its index. */
  ghost predicate Intrudes(g: Manager, ev: ModemEvent)
    requires Possible(g, ev)
  {
    match ev
    case Properties(s, list) =>
      s !in g.listed && !Taken(g, s) && PowersUp(Powered(g.objects[s]), list)
    case Changed(s, name, value) =>
      s !in g.listed && !Taken(g, s) && name == "Powered" && PoweredSignal(g.objects[s], value.flag) == Some(true)
    case _ => false
  }

  /** A change of one modem, which the arbitrator has only if it is powered and
      has its index for itself. */
  lemma ReplaceSound(g: Manager, s: nat, t: Pair)
    requires Sound(g) && s < |g.objects| && ModemOk(t.modem)
    requires t.modem.path == g.objects[s].path && t.modem.index == g.objects[s].index
    requires t.known ==> Powered(t.modem) == Some(true) && (s in g.known || !Taken(g, s))
    ensures Sound(Replace(g, s, t))
  {
    hide ModemOk, Powered;
  }

  lemma NewModemOk(path: string, index: int)
    requires FIRST_INDEX <= index
    ensures ModemOk(NewModem(path, index))
  {
  }

  lemma AddSound(g: Manager, path: string)
    requires Sound(g)
    ensures Sound(AddModem(g, path))
  {
    hide Powered, ModemOk;
    if !HasPath(g, path) {
      NewModemOk(path, g.nextIndex);
      var h := AddModem(g, path);
      assert forall s :: s in h.listed ==> s in g.listed || s == |g.objects|;
    }
  }

  lemma {:induction false} AddAllSound(g: Manager, paths: seq<string>)
    requires Sound(g)
    ensures Sound(AddModems(g, paths))
    decreases |paths|
  {
    if paths == [] {
    } else {
      AddSound(g, paths[0]);
      AddAllSound(AddModem(g, paths[0]), paths[1..]);
    }
  }

  lemma RemoveSound(g: Manager, k: nat)
    requires Sound(g) && k < |g.listed|
    ensures Sound(RemoveAt(g, k))
  {
    hide ModemOk, Powered;
    var h := RemoveAt(g, k);
    assert forall j :: 0 <= j < |h.listed| ==> h.listed[j] == g.listed[if j < k then j else j + 1];
    assert forall s :: s in h.listed ==> s in g.listed;
    forall i, j | 0 <= i < j < |h.listed|
      ensures h.objects[h.listed[i]].path != h.objects[h.listed[j]].path
      ensures h.objects[h.listed[i]].index != h.objects[h.listed[j]].index
    {
      assert h.listed[i] == g.listed[if i < k then i else i + 1] && h.listed[j] == g.listed[if j < k then j else j + 1];
    }
  }

  lemma {:induction false} RemoveAllEffect(g: Manager)
    ensures RemoveAllModems(g) == g.(listed := [], known := g.known - set s | s in g.listed)
    decreases |g.listed|
  {
    if g.listed == [] {
      assert g.known - {} == g.known;
    } else {
      RemoveAllEffect(RemoveAt(g, 0));
      assert g.listed == [g.listed[0]] + g.listed[1..];
    }
  }

  lemma ReportSound(y: Policy, g: Manager, s: nat, name: string, value: Value)
    requires Sound(g) && s < |g.objects| && Typed(name, value)
    ensures Sound(ReportTo(y, g, s, name, value))
  {
    hide ModemOk, Report, Powered;
    ReportKeeps(y, g.objects[s], s in g.known, Taken(g, s), name, value);
    ReplaceSound(g, s, Report(y, g.objects[s], s in g.known, Taken(g, s), name, value));
  }

  lemma ReportAllSound(y: Policy, g: Manager, s: nat, list: seq<(string, Value)>)
    requires Sound(g) && s < |g.objects| && TypedList(list)
    ensures Sound(ReplyTo(y, g, s, list))
  {
    hide ModemOk, ReportAll, Powered;
    ReportAllKeeps(y, g.objects[s], s in g.known, Taken(g, s), list);
    if Powered(g.objects[s]) == Some(true) && ("Powered", Flag(false)) !in list {
      StaysOn(list);
    }
    ReplaceSound(g, s, ReportAll(y, g.objects[s], s in g.known, Taken(g, s), list));
  }

  lemma {:induction false} StaysOn(list: seq<(string, Value)>)
    requires ("Powered", Flag(false)) !in list
    ensures LastPowered(Some(true), list) == Some(true)
    decreases |list|
  {
    if list == [] {
    } else {
      assert list[0] in list;
      StaysOn(list[1..]);
    }
  }

  lemma SetSoftKeeps(m: Modem, blocked: bool, task: Option<nat>)
    requires ModemOk(m) && (task.Some? ==> task.value !in m.given)
    ensures ModemOk(SetSoft(m, blocked, task))
  {
    var n := SetSoft(m, blocked, task);
    assert n.properties == m.properties && n.signals == m.signals;
    forall id: nat ensures HasAnswer(n, id) <==> HasAnswer(m, id) || (m.inFlight && task == Some(id)) {
      AnswerAdded(m, n, id);
    }
  }

  lemma AnswerAdded(m: Modem, n: Modem, id: nat)
    requires |n.answered| <= |m.answered| + 1 && m.answered <= n.answered
    ensures HasAnswer(n, id) <==>
      HasAnswer(m, id) || (|n.answered| == |m.answered| + 1 && n.answered[|m.answered|].0 == id)
  {
    if i :| 0 <= i < |m.answered| && m.answered[i].0 == id {
      assert n.answered[i].0 == id;
    }
  }

  lemma ReplyKeeps(m: Modem, ok: bool)
    requires ModemOk(m)
    ensures ModemOk(OnlineReply(m, ok))
  {
    var n := OnlineReply(m, ok);
    assert n.properties == m.properties && n.signals == m.signals;
    forall id: nat ensures HasAnswer(n, id) <==> HasAnswer(m, id) || m.task == Some(id) {
      AnswerAdded(m, n, id);
    }
  }

  lemma StepKeeps(y: Policy, g: Manager, ev: ModemEvent)
    requires Sound(g) && Possible(g, ev)
    ensures Sound(Step(y, g, ev))
  {
    hide ModemOk, Report, ReportAll, TypedList;
    match ev
    case Appeared(paths) => AddAllSound(g, paths);
    case Removed(path) =>
      if HasPath(g, path) {
        RemoveSound(g, FindModem(g, path));
      }
    case Vanished => RemoveAllEffect(g);
    case Properties(s, list) => ReportAllSound(y, g, s, list);
    case Changed(s, name, value) => ReportSound(y, g, s, name, value);
    case Requested(s, blocked, task) =>
      SetSoftKeeps(g.objects[s], blocked, task);
      ReplaceSound(g, s, Pair(SetSoft(g.objects[s], blocked, task), s in g.known));
    case Replied(s, ok) =>
      ReplyKeeps(g.objects[s], ok);
      ReplaceSound(g, s, Pair(OnlineReply(g.objects[s], ok), s in g.known));
    case Foreign(_, _) =>
  }

  // ---------- What an event does to the list ----------

  ghost predicate PathListed(g: Manager, path: string) {
    exists s :: s in g.listed && g.objects[s].path == path
  }

  lemma PathFound(g: Manager, path: string)
    ensures HasPath(g, path) <==> PathListed(g, path)
  {
    if HasPath(g, path) {
      assert g.listed[FindModem(g, path)] in g.listed;
    }
    if s :| s in g.listed && g.objects[s].path == path {
      var k :| 0 <= k < |g.listed| && g.listed[k] == s;
    }
  }

  /** Of the paths that appear, those not listed yet are added, each with a new
      object, and the modems that were there are left alone. */
  lemma {:induction false} PathsAppear(g: Manager, paths: seq<string>)
    ensures var h := AddModems(g, paths);
      && g.objects <= h.objects && g.listed <= h.listed && h.known == g.known && h.foreign == g.foreign
      && (forall path :: PathListed(h, path) <==> PathListed(g, path) || path in paths)
      && h.nextIndex - g.nextIndex == |h.listed| - |g.listed| == |h.objects| - |g.objects|
    decreases |paths|
  {
    if paths == [] {
    } else {
      var m := AddModem(g, paths[0]);
      OnePathAppears(g, paths[0]);
      PathsAppear(m, paths[1..]);
      assert paths == [paths[0]] + paths[1..];
    }
  }

  lemma OnePathAppears(g: Manager, path: string)
    ensures var h := AddModem(g, path);
      && g.objects <= h.objects && g.listed <= h.listed && h.known == g.known && h.foreign == g.foreign
      && (forall p :: PathListed(h, p) <==> PathListed(g, p) || p == path)
      && h.nextIndex - g.nextIndex == |h.listed| - |g.listed| == |h.objects| - |g.objects|
  {
    PathFound(g, path);
    var h := AddModem(g, path);
    if !HasPath(g, path) {
      assert forall s :: s in h.listed <==> s in g.listed || s == |g.objects|;
      assert h.objects[|g.objects|].path == path;
      forall p ensures PathListed(h, p) <==> PathListed(g, p) || p == path {
        if s :| s in g.listed && g.objects[s].path == p {
          assert s in h.listed && h.objects[s].path == p;
        }
      }
    }
  }

  /** A removal takes the modem of that path off the list and from the arbitrator,
      if there is one; oFono's going takes all of them; no other event touches the
      list.  The objects stay. */
  lemma ListFollows(y: Policy, g: Manager, ev: ModemEvent)
    requires Sound(g) && Possible(g, ev)
    ensures var h := Step(y, g, ev);
      && (ev.Appeared? ==> forall path :: PathListed(h, path) <==> PathListed(g, path) || path in ev.paths)
      && (ev.Removed? ==>
            && h.objects == g.objects && h.nextIndex == g.nextIndex
            && (forall s :: s in h.listed <==> s in g.listed && g.objects[s].path != ev.path)
            && (forall s :: s in h.known <==> s in g.known && !(s in g.listed && g.objects[s].path == ev.path)))
      && (ev.Vanished? ==>
            && h.objects == g.objects && h.listed == [] && h.nextIndex == FIRST_INDEX
            && (forall s :: s in h.known <==> s in g.known && s !in g.listed))
      && (!ev.Appeared? && !ev.Removed? && !ev.Vanished? ==> h.listed == g.listed && h.nextIndex == g.nextIndex)
  {
    match ev
    case Appeared(paths) => PathsAppear(g, paths);
    case Vanished => RemoveAllEffect(g);
    case Removed(path) =>
      PathFound(g, path);
      if HasPath(g, path) {
        OneIsRemoved(g, FindModem(g, path));
      }
    case _ =>
  }

  lemma OneIsRemoved(g: Manager, k: nat)
    requires Sound(g) && k < |g.listed|
    ensures forall s ::
              s in RemoveAt(g, k).listed <==> s in g.listed && g.objects[s].path != g.objects[g.listed[k]].path
    ensures forall s :: s in g.listed && g.objects[s].path == g.objects[g.listed[k]].path ==> s == g.listed[k]
  {
    hide ModemOk, Powered;
    var x, a, b := g.listed[k], g.listed[..k], g.listed[k + 1..];
    assert g.listed == a + [x] + b;
    forall s | s in a || s in b ensures g.objects[s].path != g.objects[x].path {
      var j :| 0 <= j < |g.listed| && j != k && g.listed[j] == s;
    }
    assert forall s :: s in g.listed <==> s in a || s == x || s in b;
    assert forall s :: s in RemoveAt(g, k).listed <==> s in a || s in b;
  }

  // ---------- When the arbitrator is right about the modems ----------

  lemma ReplaceRight(g: Manager, s: nat, t: Pair)
    requires Right(g) && s < |g.objects|
    ensures Right(Replace(g, s, t)) <==> (t.known <==> s in g.listed && Powered(t.modem) == Some(true))
  {
    hide Powered;
    var h := Replace(g, s, t);
    assert s in h.known <==> t.known;
    assert forall o :: o != s ==> (o in h.known <==> o in g.known);
    assert forall o :: o in g.listed && o != s ==> h.objects[o] == g.objects[o];
  }

  /** While the arbitrator is right, no other device has a listed modem's index. */
  lemma ListedIndexIsFree(g: Manager, s: nat)
    requires Sound(g) && Right(g) && s in g.listed
    ensures !Taken(g, s)
  {
    hide Powered;
    forall o | o in g.listed && o != s ensures g.objects[o].index != g.objects[s].index {
      var j, k :| 0 <= j < |g.listed| && 0 <= k < |g.listed| && g.listed[j] == s && g.listed[k] == o;
    }
  }

  lemma AddAllRight(g: Manager, paths: seq<string>)
    requires Right(g) && Sound(g)
    ensures Right(AddModems(g, paths))
    decreases |paths|
  {
    if paths == [] {
    } else {
      AddRight(g, paths[0]);
      AddSound(g, paths[0]);
      AddAllRight(AddModem(g, paths[0]), paths[1..]);
    }
  }

  lemma AddRight(g: Manager, path: string)
    requires Right(g) && Sound(g)
    ensures Right(AddModem(g, path))
  {
    if !HasPath(g, path) {
      var h := AddModem(g, path);
      assert forall s :: s in h.listed <==> s in g.listed || s == |g.objects|;
    }
  }

  lemma RemoveRight(g: Manager, k: nat)
    requires Right(g) && Sound(g) && k < |g.listed|
    ensures Right(RemoveAt(g, k))
  {
    hide ModemOk, Powered;
    var h := RemoveAt(g, k);
    var x, a, b := g.listed[k], g.listed[..k], g.listed[k + 1..];
    assert g.listed == a + [x] + b;
    assert forall j :: 0 <= j < |g.listed| && j != k ==> g.listed[j] != x;
    assert x !in a && x !in b;
    assert forall s :: s in h.listed <==> s in g.listed && s != x;
  }

  /** Exactly the reports that Intrudes describes make the arbitrator wrong: a
      removed modem announces that it is powered while its index is free there. */
  lemma StaysRightExactly(y: Policy, g: Manager, ev: ModemEvent)
    requires Sound(g) && Right(g) && Possible(g, ev)
    ensures Right(Step(y, g, ev)) <==> !Intrudes(g, ev)
  {
    hide Sound, Right, Powered, ModemOk, Report, ReportAll, Taken, TypedList, PowersUp, KnownAfter;
    match ev
    case Appeared(paths) => AddAllRight(g, paths);
    case Removed(path) =>
      if HasPath(g, path) {
        RemoveRight(g, FindModem(g, path));
      }
    case Vanished => VanishRight(g);
    case Properties(s, list) => ReplyRight(y, g, s, list);
    case Changed(s, name, value) => ChangeRight(y, g, s, name, value);
    case Requested(s, blocked, task) => SamePowered(g, s, SetSoft(g.objects[s], blocked, task));
    case Replied(s, ok) => SamePowered(g, s, OnlineReply(g.objects[s], ok));
    case Foreign(_, _) => ForeignRight(y, g, ev);
  }

  lemma VanishRight(g: Manager)
    requires Right(g)
    ensures Right(Vanish(g))
  {
    RemoveAllEffect(g);
  }

  lemma ForeignRight(y: Policy, g: Manager, ev: ModemEvent)
    requires Right(g) && ev.Foreign? && Possible(g, ev)
    ensures Right(Step(y, g, ev))
  {
  }

  lemma SamePowered(g: Manager, s: nat, m: Modem)
    requires Right(g) && s < |g.objects| && m.properties == g.objects[s].properties
    ensures Right(Replace(g, s, Pair(m, s in g.known)))
  {
    ReplaceRight(g, s, Pair(m, s in g.known));
  }

  lemma ChangeRight(y: Policy, g: Manager, s: nat, name: string, value: Value)
    requires Sound(g) && Right(g) && Possible(g, Changed(s, name, value))
    ensures Right(Step(y, g, Changed(s, name, value))) <==> !Intrudes(g, Changed(s, name, value))
  {
    hide ModemOk, Report, Powered, Taken;
    var t := Report(y, g.objects[s], s in g.known, Taken(g, s), name, value);
    ReportKeeps(y, g.objects[s], s in g.known, Taken(g, s), name, value);
    ReplaceRight(g, s, t);
    if s in g.listed {
      ListedIndexIsFree(g, s);
    }
  }

  lemma ReplyRight(y: Policy, g: Manager, s: nat, list: seq<(string, Value)>)
    requires Sound(g) && Right(g) && Possible(g, Properties(s, list))
    ensures Right(Step(y, g, Properties(s, list))) <==> !Intrudes(g, Properties(s, list))
  {
    hide ModemOk, ReportAll, Powered, Taken;
    var t := ReportAll(y, g.objects[s], s in g.known, Taken(g, s), list);
    ReportAllKeeps(y, g.objects[s], s in g.known, Taken(g, s), list);
    ReplaceRight(g, s, t);
    if s in g.listed {
      ListedIndexIsFree(g, s);
      if Powered(g.objects[s]) == Some(true) && ("Powered", Flag(false)) !in list {
        StaysOn(list);
      }
    }
  }

  /** That a removed modem powers down is no news to the arbitrator, whoever has
      its index by then: a device is removed by reference. */
  lemma LateOffHarmless(y: Policy, g: Manager, s: nat)
    requires Sound(g) && Right(g) && s < |g.objects| && s !in g.listed
    ensures Step(y, g, Changed(s, "Powered", Flag(false))).known == g.known
  {
    ReportKeeps(y, g.objects[s], s in g.known, Taken(g, s), "Powered", Flag(false));
  }

  // ---------- Runs ----------

  /** A run from the start; the saved states the arbitrator goes by may change on the way. */
  ghost predicate ModemRun(states: seq<Manager>, evs: seq<ModemEvent>, policies: seq<Policy>) {
    && |states| == |evs| + 1 && |policies| == |evs|
    && states[0] == START
    && forall i :: 0 <= i < |evs| ==>
         Possible(states[i], evs[i]) && states[i + 1] == Step(policies[i], states[i], evs[i])
  }

  lemma {:induction false} RunKeeps(states: seq<Manager>, evs: seq<ModemEvent>, policies: seq<Policy>, n: nat)
    requires ModemRun(states, evs, policies) && n < |states|
    ensures Sound(states[n])
  {
    if n == 0 {
    } else {
      hide Sound, Step;
      RunKeeps(states, evs, policies, n - 1);
      StepKeeps(policies[n - 1], states[n - 1], evs[n - 1]);
    }
  }

  /** Whatever the interleaving, late reports of removed modems included: every
      modem's powered signals alternate starting with true and end with the
      recorded value, and every task it was given is answered once or waits; no
      two listed modems share an index; the arbitrator has no index twice and
      only modems that were last reported powered. */
  lemma ModemsKeepRules(states: seq<Manager>, evs: seq<ModemEvent>, policies: seq<Policy>, n: nat, s: nat)
    requires ModemRun(states, evs, policies) && n < |states| && s < |states[n].objects|
    ensures var g := states[n];
      var m := g.objects[s];
      && (forall i :: 0 <= i < |m.signals| ==> m.signals[i] == (i % 2 == 0))
      && (|m.signals| % 2 == 1 <==> Powered(m) == Some(true))
      && (forall id: nat :: id in m.given ==> (HasAnswer(m, id) <==> m.task != Some(id)))
      && (forall i, j :: 0 <= i < j < |m.answered| ==> m.answered[i].0 != m.answered[j].0)
      && (s in g.listed ==> forall o :: o in g.listed && o != s ==> g.objects[o].index != m.index)
      && (s in g.known ==> Powered(m) == Some(true))
      && (s in g.known ==> forall o :: o in g.known && o != s ==> o < |g.objects| && g.objects[o].index != m.index)
  {
    RunKeeps(states, evs, policies, n);
    var g := states[n];
    forall o | s in g.listed && o in g.listed && o != s ensures g.objects[o].index != g.objects[s].index {
      var j, k :| 0 <= j < |g.listed| && 0 <= k < |g.listed| && g.listed[j] == s && g.listed[k] == o;
    }
  }

  /** Up to any point of a run the arbitrator has had exactly the listed modems
      last reported powered, if and only if no removed modem has intruded so far. */
  lemma {:induction false} MembershipFollowsPowered(
      states: seq<Manager>, evs: seq<ModemEvent>, policies: seq<Policy>, n: nat)
    requires ModemRun(states, evs, policies) && n < |states|
    ensures (forall i :: 0 <= i <= n ==> Right(states[i]))
       <==> (forall i :: 0 <= i < n ==> !Intrudes(states[i], evs[i]))
  {
    if n == 0 {
    } else {
      hide Right, Intrudes, Step;
      MembershipFollowsPowered(states, evs, policies, n - 1);
      RunKeeps(states, evs, policies, n - 1);
      assert (forall i :: 0 <= i <= n ==> Right(states[i]))
        <==> (forall i :: 0 <= i <= n - 1 ==> Right(states[i])) && Right(states[n]);
      assert (forall i :: 0 <= i < n ==> !Intrudes(states[i], evs[i]))
        <==> (forall i :: 0 <= i < n - 1 ==> !Intrudes(states[i], evs[i])) && !Intrudes(states[n - 1], evs[n - 1]);
      if forall i :: 0 <= i <= n - 1 ==> Right(states[i]) {
        StaysRightExactly(policies[n - 1], states[n - 1], evs[n - 1]);
      }
    }
  }

  // ---------- An intrusion ----------

  /** Once oFono has been gone, the first modem to appear gets the first index again. */
  lemma IndexHandedOutAgain(g: Manager, path: string)
    ensures var h := AddModem(Vanish(g), path);
      h.listed == [|g.objects|] && h.objects == g.objects + [NewModem(path, FIRST_INDEX)]
  {
    RemoveAllEffect(g);
  }

  /** What a Powered report of one modem does to the whole. */
  lemma PowerReport(y: Policy, g: Manager, s: nat, powered: bool)
    requires Sound(g) && s < |g.objects|
    ensures var h := Step(y, g, Changed(s, "Powered", Flag(powered)));
      && Sound(h) && h.listed == g.listed && h.foreign == g.foreign && |h.objects| == |g.objects|
      && (forall o :: 0 <= o < |g.objects| ==> h.objects[o].index == g.objects[o].index)
      && (forall o :: 0 <= o < |g.objects| && o != s ==> h.objects[o] == g.objects[o])
      && Powered(h.objects[s]) == Some(powered)
      && h.known == if KnownAfter(g.objects[s], s in g.known, Taken(g, s), powered) then g.known + {s}
                    else g.known - {s}
  {
    hide ModemOk, Report, Powered, Taken, KnownAfter;
    StepKeeps(y, g, Changed(s, "Powered", Flag(powered)));
    ReportKeeps(y, g.objects[s], s in g.known, Taken(g, s), "Powered", Flag(powered));
  }

  lemma OneAppears(y: Policy, g: Manager, path: string)
    requires !HasPath(g, path)
    ensures Step(y, g, Appeared([path])) == AddModem(g, path)
  {
    assert [path][1..] == [];
    assert AddModems(g, [path]) == AddModems(AddModem(g, path), []);
  }

  /** oFono restarts under another modem, and the one from before reports late. */
  function ClashEvents(former: string, later: string): seq<ModemEvent> {
    [Appeared([former]), Vanished, Appeared([later]),
     Changed(0, "Powered", Flag(true)), Changed(1, "Powered", Flag(true)), Changed(0, "Powered", Flag(false))]
  }

  /** A run into an intrusion.  The former modem's late report gets it into the
      arbitrator's list under the later one's index; the later one is then turned
      away when it powers up, and stays out even after the former one is gone. */
  lemma RestartClash(y: Policy, former: string, later: string)
    ensures exists states: seq<Manager> ::
      && ModemRun(states, ClashEvents(former, later), [y, y, y, y, y, y])
      && Right(states[3]) && states[4].known == {0} && states[6].known == {}
      && states[6].listed == [1] && |states[6].objects| == 2 && Powered(states[6].objects[1]) == Some(true)
  {
    hide Right, Step, AddModem;
    var evs := ClashEvents(former, later);
    var one, none := AddModem(START, former), AddModem(START, former).(listed := [], nextIndex := FIRST_INDEX);
    var two := AddModem(none, later);
    ClashModems(y, former, later);
    ClashReports(y, two);
    var a := Step(y, two, evs[3]);
    var b := Step(y, a, evs[4]);
    assert ModemRun([START, one, none, two, a, b, Step(y, b, evs[5])], evs, [y, y, y, y, y, y]);
  }

  lemma ClashModems(y: Policy, former: string, later: string)
    ensures var one := AddModem(START, former);
      var none := one.(listed := [], nextIndex := FIRST_INDEX);
      var two := AddModem(none, later);
      && Step(y, START, Appeared([former])) == one && Step(y, one, Vanished) == none
      && Step(y, none, Appeared([later])) == two
      && two == Modems([NewModem(former, FIRST_INDEX), NewModem(later, FIRST_INDEX)], [1], FIRST_INDEX + 1, {}, {})
  {
    var one := AddModem(START, former);
    OneAppears(y, START, former);
    VanishesAgain(y, one);
    OneAppears(y, one.(listed := [], nextIndex := FIRST_INDEX), later);
  }

  lemma VanishesAgain(y: Policy, g: Manager)
    requires g.known == {}
    ensures Step(y, g, Vanished) == g.(listed := [], nextIndex := FIRST_INDEX)
  {
    RemoveAllEffect(g);
  }

  lemma ClashReports(y: Policy, g: Manager)
    requires |g.objects| == 2 && g == Modems(g.objects, [1], FIRST_INDEX + 1, {}, {})
    requires forall s :: 0 <= s < 2 ==> g.objects[s] == NewModem(g.objects[s].path, FIRST_INDEX)
    ensures var a := Step(y, g, Changed(0, "Powered", Flag(true)));
      var b := Step(y, a, Changed(1, "Powered", Flag(true)));
      var c := Step(y, b, Changed(0, "Powered", Flag(false)));
      && Right(g) && a.known == {0} && c.known == {}
      && c.listed == [1] && |a.objects| == |b.objects| == |c.objects| == 2 && Powered(c.objects[1]) == Some(true)
  {
    hide Step;
    NewModemOk(g.objects[0].path, FIRST_INDEX);
    NewModemOk(g.objects[1].path, FIRST_INDEX);
    PowerReport(y, g, 0, true);
    var a := Step(y, g, Changed(0, "Powered", Flag(true)));
    PowerReport(y, a, 1, true);
    var b := Step(y, a, Changed(1, "Powered", Flag(true)));
    PowerReport(y, b, 0, false);
  }

  // ---------- The in-flight guard ----------

  /** While a call is in flight every request fails at once and nothing is sent;
      otherwise the request goes out and its task waits for the answer. */
  lemma GuardHoldsRequests(m: Modem, blocked: bool, task: nat, ok: bool)
    requires TasksOk(m) && task !in m.given
    ensures var n := SetSoft(m, blocked, Some(task));
      if m.inFlight then n.sent == m.sent && n.task == m.task && n.answered == m.answered + [(task, false)]
      else n.sent == m.sent + [!blocked] && !HasAnswer(n, task)
           && OnlineReply(n, ok).answered == m.answered + [(task, ok)] && !OnlineReply(n, ok).inFlight
  {
    assert m.answered + [] == m.answered;
    assert !HasAnswer(m, task);
  }

  /** A modem that powers up with no call in flight is set to the arbitrator's
      first wish: the saved state if only persist is on, which is flight mode's own
      under strict flight mode.  If force_sync is on it is the Online value the
      modem last reported, true if none, and the saved one is lost to the guard. */
  lemma PowerUpSends(y: Policy, m: Modem)
    requires TypedProperties(m) && Powered(m) != Some(true) && !m.inFlight
    ensures var n := UpdatePowered(y, m, false, false, true).modem;
      n.sent == m.sent + (if y.cfg.forceSync
                          then ["Online" in m.properties ==> m.properties["Online"] == Flag(true)]
                          else if y.cfg.persist
                          then [!Entry(y.saved.soft, if y.cfg.strict then TYPE_ALL else TYPE_WWAN)]
                          else [])
  {
    var up := m.(signals := m.signals + [true]);
    assert AsDevice(up) == AsDevice(m);
    var asks := Greeting(y.cfg, y.saved, AsDevice(up));
    if asks != [] {
      var one := SetSoft(up, asks[0].block, None);
      InFlightDrops(one, asks[1..]);
    }
  }

  lemma {:induction false} InFlightDrops(m: Modem, asks: seq<DeviceAsk>)
    requires m.inFlight
    ensures SetSoftAll(m, asks) == m
    decreases |asks|
  {
    if asks == [] {
    } else {
      assert m.given + {} == m.given && m.answered + [] == m.answered;
      InFlightDrops(m, asks[1..]);
    }
  }

  // ---------- The arbitrator's list ----------

  /** Registering a device makes exactly its index known. */
  lemma RegisterMembers(p: Plant, d: Device, i: int)
    ensures Present(Register(p, d).devices, i) <==> Present(p.devices, i) || i == d.index
  {
    if !Present(p.devices, d.index) {
      var after := p.devices + [d];
      assert Register(p, d).devices == after;
      if Present(p.devices, i) {
        assert after[Find(p.devices, i)].index == i;
      }
      if i == d.index {
        assert after[|p.devices|].index == i;
      }
      if Present(after, i) && i != d.index {
        assert p.devices[Find(after, i)].index == i;
      }
    }
  }

  lemma UnregisterMembers(p: Plant, index: int, i: int)
    requires UniqueIndices(p.devices)
    ensures Present(Unregister(p, index).devices, i) <==> Present(p.devices, i) && i != index
  {
    if Present(p.devices, index) {
      var k := Find(p.devices, index);
      var after := p.devices[..k] + p.devices[k + 1..];
      assert Unregister(p, index).devices == after;
      if Present(p.devices, i) && i != index {
        var j := Find(p.devices, i);
        assert after[if j < k then j else j - 1].index == i;
      }
      if Present(after, i) {
        var j := Find(after, i);
        assert after[j] == p.devices[if j < k then j else j + 1];
      }
    }
  }
}
