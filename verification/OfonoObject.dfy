/** The modem and manager objects (urf-device-ofono.c, urf-ofono-manager.c), whose
    methods change their fields as the functions of OfonoModems say. */
module OfonoObject {
  import opened Common
  import opened KillswitchState
  import opened DeviceMirror
  import opened FlightMode
  import opened DeviceEvents
  import opened KillswitchObject
  import opened ArbitratorObject
  import O = OfonoModems

  class ModemDevice {
    const index: int
    const modemPath: string
    const radio: Radio
    var properties: map<string, O.Value>
    var pendingSetOnlineCb: bool
    var pendingBlockTask: Option<nat>

    // which object this is, and what it has emitted, sent and answered
    ghost const serial: nat
    ghost var signals: seq<bool>
    var sent: seq<bool>
    ghost var given: set<nat>
    var answered: seq<(nat, bool)>

    ghost function View(): O.Modem
      reads this
    {
      O.Modem(modemPath, index, properties, pendingSetOnlineCb, pendingBlockTask, signals, sent, given, answered)
    }

    /** radio is what the arbitrator is given of a modem. */
    constructor (index: int, path: string, ghost serial: nat)
      ensures View() == O.NewModem(path, index) && this.index == index && this.serial == serial
      ensures fresh(radio) && radio.View() == Device(index, TYPE_WWAN, false, false, false)
    {
      this.index, modemPath, properties := index, path, map[];
      this.serial := serial;
      radio := new Radio(Device(index, TYPE_WWAN, false, false, false));
      pendingSetOnlineCb, pendingBlockTask := false, None;
      signals, sent, given, answered := [], [], {}, [];
    }

    method GetSoft() returns (soft: bool)
      ensures soft == O.GetSoft(View())
    {
      soft := false;
      if "Online" in properties && properties["Online"].Flag? {
        soft := !properties["Online"].flag;
      }
    }

    method SetSoft(blocked: bool, task: Option<nat>)
      modifies this
      ensures View() == O.SetSoft(old(View()), blocked, task)
    {
      if task.Some? {
        given := given + {task.value};
      }
      if pendingSetOnlineCb {
        if task.Some? {
          answered := answered + [(task.value, false)];
        }
        return;
      }
      pendingBlockTask := task;
      pendingSetOnlineCb := true;
      sent := sent + [!blocked];
    }

    method SetOnlineCb(ok: bool)
      modifies this
      ensures View() == O.OnlineReply(old(View()), ok)
    {
      pendingSetOnlineCb := false;
      if pendingBlockTask.Some? {
        answered := answered + [(pendingBlockTask.value, ok)];
        pendingBlockTask := None;
      }
    }

    /** Emits a powered signal if the reported value calls for one. */
    method UpdatePowered(powered: bool) returns (signal: Option<bool>)
      modifies `signals
      ensures signal == O.PoweredSignal(old(View()), powered)
      ensures View() == old(View()).(signals := old(signals) + if signal.Some? then [signal.value] else [])
    {
      signal := None;
      if "Powered" !in properties || !properties["Powered"].Flag? {
        if powered {
          signal := Some(powered);
          signals := signals + [powered];
        }
        return;
      }
      if properties["Powered"].flag == powered {
        return;
      }
      signal := Some(powered);
      signals := signals + [powered];
    }

    method Record(name: string, value: O.Value)
      modifies `properties
      ensures View() == old(View()).(properties := old(properties)[name := value])
    {
      properties := properties[name := value];
    }

    /** The arbitrator's first requests, one after the other. */
    method TakeRequests(asks: seq<DeviceAsk>)
      modifies this
      ensures View() == O.SetSoftAll(old(View()), asks)
    {
      for i := 0 to |asks|
        invariant O.SetSoftAll(View(), asks[i..]) == O.SetSoftAll(old(View()), asks)
      {
        assert asks[i..][1..] == asks[i + 1..];
        SetSoft(asks[i].block, None);
      }
    }
  }

  ghost function ModemViews(devices: seq<ModemDevice>): (v: seq<O.Modem>)
    reads devices
    ensures |v| == |devices| && forall i :: 0 <= i < |v| ==> v[i] == devices[i].View()
  {
    seq(|devices|, i requires 0 <= i < |devices| reads devices => devices[i].View())
  }

  ghost function Serials(devices: seq<ModemDevice>): (v: seq<nat>)
    ensures |v| == |devices| && forall i :: 0 <= i < |v| ==> v[i] == devices[i].serial
  {
    seq(|devices|, i requires 0 <= i < |devices| => devices[i].serial)
  }

  class OfonoManager {
    var devices: seq<ModemDevice>
    var modemIdx: int
    const arbitrator: Arbitrator

    // all modem objects so far, the removed ones included
    ghost var objects: seq<ModemDevice>

    ghost predicate Valid()
      reads this, objects, arbitrator`devices, arbitrator.devices
      reads arbitrator.switches`devices, arbitrator.switches`state
    {
      Joined() && forall d :: d in objects ==> Shown(d)
    }

    ghost predicate Joined()
      reads this, arbitrator`devices, arbitrator.devices, arbitrator.switches`devices, arbitrator.switches`state
    {
      arbitrator.Valid() && Linked()
    }

    /** If the arbitrator has a modem, it has it as blocked as the modem is. */
    ghost predicate Shown(device: ModemDevice)
      reads device, arbitrator`devices, arbitrator.devices
    {
      device.radio in arbitrator.devices ==> device.radio.soft == O.GetSoft(device.View())
    }

    /** Every object has its own radio, and the list has no object twice. */
    ghost predicate Linked()
      reads `devices, `objects
    {
      && (forall s :: 0 <= s < |objects| ==> Wwan(objects[s]) && objects[s].serial == s)
      && (forall s, o :: 0 <= s < o < |objects| ==> objects[s].radio != objects[o].radio)
      && (forall d :: d in devices ==> Created(d))
      && (forall j, k :: 0 <= j < k < |devices| ==> devices[j] != devices[k])
    }

    ghost predicate Wwan(device: ModemDevice) {
      device.radio.index == device.index && device.radio.typ == TYPE_WWAN && !device.radio.platform
    }

    ghost predicate Created(device: ModemDevice)
      reads `objects
    {
      device.serial < |objects| && objects[device.serial] == device
    }

    /** The modem objects the arbitrator has. */
    ghost function Known(): set<nat>
      reads `objects, arbitrator`devices
    {
      set s | 0 <= s < |objects| && objects[s].radio in arbitrator.devices
    }

    /** The indices of the other devices it has. */
    ghost function Foreign(): set<int>
      reads `objects, arbitrator`devices
    {
      set r | r in arbitrator.devices && IsForeign(r) :: r.index
    }

    ghost predicate IsForeign(r: Radio)
      reads `objects
    {
      forall s :: 0 <= s < |objects| ==> objects[s].radio != r
    }

    /** What the arbitrator goes by when it adds a device. */
    ghost function Policy(): O.Policy
      reads arbitrator.config
    {
      O.Policy(arbitrator.config.options, arbitrator.config.saved)
    }

    ghost function View(): O.Manager
      requires Linked()
      reads this, objects, arbitrator`devices
    {
      ListedExist();
      O.Modems(ModemViews(objects), Serials(devices), modemIdx, Known(), Foreign())
    }

    lemma ListedExist()
      requires Linked()
      ensures forall s :: s in Serials(devices) ==> s < |objects|
    {
      forall s | s in Serials(devices) ensures s < |objects| {
        var i :| 0 <= i < |devices| && Serials(devices)[i] == s;
        assert devices[i] in devices;
      }
    }

    constructor (arbitrator: Arbitrator)
      requires arbitrator.Valid()
      ensures this.arbitrator == arbitrator && Valid() && View() == O.START.(foreign := Foreign())
    {
      this.arbitrator, devices, modemIdx, objects := arbitrator, [], O.FIRST_INDEX, [];
    }

    // ---------- The arbitrator's list ----------

    /** The arbitrator has another device under this modem's index. */
    ghost predicate Taken(device: ModemDevice)
      reads `objects, arbitrator`devices
    {
      || device.index in Foreign()
      || exists o :: o in Known() && o != device.serial && objects[o].index == device.index
    }

    lemma TakenMeans(device: ModemDevice)
      requires Linked() && Created(device)
      ensures View().objects[device.serial] == device.View()
      ensures Taken(device) <==> O.Taken(View(), device.serial)
    {
    }

    /** An index is in the arbitrator's list if it has the modem or another device under it. */
    lemma IndexListed(device: ModemDevice)
      requires Joined() && Created(device)
      ensures Present(arbitrator.View().devices, device.index)
         <==> device.serial in Known() || Taken(device)
    {
      hide Arbitrator.Mirrored, Arbitrator.Chains, Arbitrator.SweepView, ModemViews, Find;
      var list := arbitrator.View().devices;
      assert forall i :: 0 <= i < |list| ==> list[i].index == arbitrator.devices[i].index;
      if Present(list, device.index) {
        var r := arbitrator.devices[Find(list, device.index)];
        assert r.index == device.index;
        if IsForeign(r) {
          assert r.index in Foreign();
        } else {
          var o :| 0 <= o < |objects| && objects[o].radio == r;
          assert o in Known();
        }
      }
      if device.serial in Known() || Taken(device) {
        var r :| r in arbitrator.devices && r.index == device.index;
        var i :| 0 <= i < |arbitrator.devices| && arbitrator.devices[i] == r;
        assert list[i].index == device.index;
      }
    }

    /** Of all modems only this one has come to, or gone from, the arbitrator's list. */
    twostate lemma OnlyThisOne(new device: ModemDevice, known: bool)
      requires Linked() && Created(device) && objects == old(objects) && known == (device.radio in arbitrator.devices)
      requires forall r :: r != device.radio ==> (r in arbitrator.devices <==> r in old(arbitrator.devices))
      ensures Foreign() == old(Foreign())
      ensures Known() == if known then old(Known()) + {device.serial} else old(Known()) - {device.serial}
    {
    }

    /** Hands a modem to the arbitrator; asks is what that wants of it. */
    method AddDevice(device: ModemDevice, soft: bool) returns (asks: seq<DeviceAsk>)
      requires Joined() && Created(device)
      modifies arbitrator, arbitrator.switches, device.radio
      ensures Joined() && Foreign() == old(Foreign())
      ensures Known() == if old(Taken(device)) then old(Known()) else old(Known()) + {device.serial}
      ensures asks == if device.serial in old(Known()) || old(Taken(device)) then []
                      else Greeting(Policy().cfg, Policy().saved, Device(device.index, TYPE_WWAN, false, soft, false))
      ensures device.radio in arbitrator.devices ==>
                device.radio.soft == if old(device.radio in arbitrator.devices) then old(device.radio.soft) else soft
    {
      hide Arbitrator.Mirrored, Arbitrator.Chains, Arbitrator.SweepView, Views, Greeting, Taken;
      IndexListed(device);
      var other := arbitrator.FindDevice(device.index);
      if other == null {
        asks := Enlist(device, soft);
      } else {
        asks := [];
      }
    }

    method Enlist(device: ModemDevice, soft: bool) returns (asks: seq<DeviceAsk>)
      requires Joined() && Created(device) && !Present(arbitrator.View().devices, device.index)
      modifies arbitrator, arbitrator.switches, device.radio
      ensures Joined() && Foreign() == old(Foreign()) && Known() == old(Known()) + {device.serial}
      ensures device.radio.soft == soft
      ensures asks == Greeting(Policy().cfg, Policy().saved, Device(device.index, TYPE_WWAN, false, soft, false))
    {
      hide Arbitrator.Mirrored, Arbitrator.Chains, Arbitrator.SweepView, Views, Register, Greeting, Find,
           Known, Foreign;
      arbitrator.Unlisted(device.radio);
      var changed := device.radio.UpdateStates(soft, false);
      ghost var p := arbitrator.View();
      var n := |arbitrator.deviceAsks|;
      var added := arbitrator.AddDevice(device.radio);
      RegisterAsks(p, device.radio.View());
      asks := arbitrator.deviceAsks[n..];
      OnlyThisOne(device, true);
    }

    /** Takes a modem from the arbitrator, which drops this very device and no other. */
    method RemoveDevice(device: ModemDevice)
      requires Joined() && Created(device)
      modifies arbitrator, arbitrator.switches
      ensures Joined() && Foreign() == old(Foreign())
      ensures Known() == old(Known()) - {device.serial} && device.radio !in arbitrator.devices
    {
      hide Arbitrator.Mirrored, Arbitrator.Chains, Arbitrator.SweepView, Views, Unregister, Find, Known, Foreign;
      WithoutKeeps(arbitrator.devices, device.radio);
      arbitrator.RemoveDevice(device.radio);
      OnlyThisOne(device, false);
    }

    // ---------- Reports ----------

    /** device_powered_cb. */
    method DevicePowered(device: ModemDevice, powered: bool)
      requires Joined() && Created(device)
      modifies arbitrator, arbitrator.switches, device, device.radio
      ensures Joined() && Foreign() == old(Foreign()) && Known() - {device.serial} == old(Known()) - {device.serial}
      ensures O.Pair(device.View(), device.serial in Known())
           == O.DevicePowered(Policy(), old(device.View()), device.serial in old(Known()),
                              old(Taken(device)), powered)
      ensures old(Shown(device)) ==> Shown(device)
    {
      hide Arbitrator.Mirrored, Arbitrator.Wired, Known, Foreign, Greeting, Taken;
      if powered {
        var soft := device.GetSoft();
        var asks := AddDevice(device, soft);
        device.TakeRequests(asks);
      } else {
        RemoveDevice(device);
      }
    }

    /** Only this modem, and whether the arbitrator has it, may have changed. */
    twostate lemma OneReplaced(new device: ModemDevice, t: O.Pair)
      requires old(Linked()) && Linked() && Created(device)
      requires objects == old(objects) && devices == old(devices) && modemIdx == old(modemIdx)
      requires forall d :: d in objects && d != device ==> unchanged(d)
      requires Foreign() == old(Foreign()) && Known() - {device.serial} == old(Known()) - {device.serial}
      requires O.Pair(device.View(), device.serial in Known()) == t
      ensures View() == O.Replace(old(View()), device.serial, t)
    {
      hide Known, Foreign;
      ghost var s := device.serial;
      forall o ensures o in Known() <==> o in if t.known then old(Known()) + {s} else old(Known()) - {s} {
        assert o in Known() - {s} <==> o in old(Known()) - {s};
      }
      assert forall s :: 0 <= s < |objects| ==> objects[s] in objects && objects[s].serial == s;
    }

    /** update_powered, with the signal's handler. */
    method UpdatePowered(device: ModemDevice, powered: bool)
      requires Joined() && Created(device)
      modifies arbitrator, arbitrator.switches, device, device.radio
      ensures Joined() && Foreign() == old(Foreign()) && Known() - {device.serial} == old(Known()) - {device.serial}
      ensures O.Pair(device.View(), device.serial in Known())
           == O.UpdatePowered(Policy(), old(device.View()), device.serial in old(Known()), old(Taken(device)), powered)
      ensures old(Shown(device)) ==> Shown(device)
    {
      hide Arbitrator.Mirrored, Arbitrator.Wired, Known, Foreign, Taken;
      var signal := device.UpdatePowered(powered);
      if signal.Some? {
        DevicePowered(device, signal.value);
      }
    }

    /** One property a modem reports: acted on if it is Powered, then recorded. */
    method Report(device: ModemDevice, name: string, value: O.Value)
      requires Joined() && Created(device)
      modifies arbitrator, arbitrator.switches, device, device.radio
      ensures Joined()
      ensures View() == O.ReportTo(Policy(), old(View()), device.serial, name, value)
      ensures Known() - {device.serial} == old(Known()) - {device.serial}
      ensures name != "Online" && old(Shown(device)) ==> Shown(device)
    {
      hide ModemViews, Serials, Arbitrator.Valid, Known, Foreign, Taken, O.Taken, O.UpdatePowered, O.GetSoft;
      TakenMeans(device);
      if name == "Powered" && value.Flag? {
        UpdatePowered(device, value.flag);
      }
      O.OnlineAlone(device.View(), name, value);
      device.Record(name, value);
      ghost var known, taken := device.serial in old(Known()), old(Taken(device));
      OneReplaced(device, O.Report(Policy(), old(device.View()), known, taken, name, value));
    }

    /** A report of one modem leaves the others shown as they were. */
    twostate lemma OthersShown(new device: ModemDevice)
      requires old(Linked()) && Linked() && Created(device) && objects == old(objects)
      requires Known() - {device.serial} == old(Known()) - {device.serial}
      requires forall d :: d in objects && d != device ==> unchanged(d) && unchanged(d.radio)
      ensures forall d :: d in objects && d != device && old(Shown(d)) ==> Shown(d)
    {
      forall s | 0 <= s < |objects| && objects[s] != device
        ensures objects[s].radio in arbitrator.devices <==> objects[s].radio in old(arbitrator.devices)
      {
        assert s in Known() - {device.serial} <==> s in old(Known()) - {device.serial};
      }
      assert forall d :: d in objects ==> Created(d);
    }

    /** The handler of state-changed: the arbitrator sees the modem as it now is. */
    method StateChanged(device: ModemDevice)
      requires Joined() && Created(device)
      modifies device.radio, arbitrator.switches`state
      ensures Joined() && Shown(device)
    {
      hide Arbitrator.Mirrored, Arbitrator.Wired, O.GetSoft, Known, Foreign;
      if device.radio in arbitrator.devices {
        var soft := device.GetSoft();
        var changed := arbitrator.UpdateRadio(device.radio, soft, device.radio.hard);
      }
    }

    /** modem_signal_cb on PropertyChanged. */
    method PropertyChanged(device: ModemDevice, name: string, value: O.Value)
      requires Valid() && Created(device)
      modifies arbitrator, arbitrator.switches, device, device.radio
      ensures Valid() && View() == O.ReportTo(Policy(), old(View()), device.serial, name, value)
    {
      hide ModemViews, Arbitrator.Mirrored, Arbitrator.Wired, Known, Foreign, O.ReportTo, Shown;
      Report(device, name, value);
      if name == "Online" {
        StateChanged(device);
      }
      OthersShown(device);
      assert Shown(device);
    }

    /** get_properties_cb on a reply. */
    method GetPropertiesCb(device: ModemDevice, list: seq<(string, O.Value)>)
      requires Valid() && Created(device)
      modifies arbitrator, arbitrator.switches, device, device.radio
      ensures Valid() && View() == O.ReplyTo(Policy(), old(View()), device.serial, list)
    {
      hide ModemViews, Arbitrator.Valid, Known, Foreign, Policy, O.ReportTo, O.ReplyTo, Shown;
      ghost var target := O.ReplyTo(Policy(), View(), device.serial, list);
      for i := 0 to |list|
        invariant Joined() && Created(device)
        invariant O.ReplyTo(Policy(), View(), device.serial, list[i..]) == target
        invariant forall d :: d in objects && d != device ==> Shown(d)
      {
        assert list[i..][0] == list[i] && list[i..][1..] == list[i + 1..];
        O.ReplyByParts(Policy(), View(), device.serial, list[i..]);
        label before:
        Report(device, list[i].0, list[i].1);
        OthersShown@before(device);
      }
      O.ReplyByParts(Policy(), View(), device.serial, []);
      label after:
      StateChanged(device);
      OthersShown@after(device);
    }

    // ---------- The manager's list ----------

    method FindModem(path: string) returns (device: ModemDevice?)
      requires Linked()
      ensures device == null <==> !O.HasPath(View(), path)
      ensures device != null ==> O.FindModem(View(), path) < |devices| && device == devices[O.FindModem(View(), path)]
    {
      hide ModemViews, Known, Foreign, Serials;
      device := null;
      var i := 0;
      while i < |devices|
        invariant 0 <= i <= |devices|
        invariant forall j :: 0 <= j < i ==> devices[j].modemPath != path
      {
        PathOf(i);
        if devices[i].modemPath == path {
          PathsBefore(i);
          return devices[i];
        }
        i := i + 1;
      }
      PathsBefore(|devices|);
    }

    /** The list of the view names the objects of the list. */
    lemma PathOf(i: nat)
      requires Linked() && i < |devices|
      ensures View().listed[i] == devices[i].serial
      ensures View().objects[devices[i].serial].path == devices[i].modemPath
    {
      assert devices[i] in devices;
    }

    lemma PathsBefore(i: nat)
      requires Linked() && i <= |devices|
      ensures forall j :: 0 <= j < i ==> View().objects[View().listed[j]].path == devices[j].modemPath
    {
      forall j | 0 <= j < i ensures View().objects[View().listed[j]].path == devices[j].modemPath {
        PathOf(j);
      }
    }

    method AddModem(path: string)
      requires Valid()
      modifies this
      ensures Valid() && View() == O.AddModem(old(View()), path)
      ensures forall d :: d in devices ==> d in old(devices) || fresh(d)
    {
      hide ModemViews, Serials, Known, Foreign, Linked, Arbitrator.Mirrored, Arbitrator.Wired, O.FindModem;
      var known := FindModem(path);
      if known != null {
        return;
      }
      var device := new ModemDevice(modemIdx, path, |objects|);
      modemIdx := modemIdx + 1;
      objects := objects + [device];
      devices := devices + [device];
      OneAdded(device);
      NewIsUnknown(device);
    }

    /** A new modem stands last. */
    twostate lemma OneAdded(new device: ModemDevice)
      requires old(Linked())
      requires objects == old(objects) + [device] && devices == old(devices) + [device]
      requires device.serial == |old(objects)| && fresh(device) && fresh(device.radio) && Wwan(device)
      requires forall d :: d in old(objects) ==> unchanged(d)
      ensures Linked() && ModemViews(objects) == old(ModemViews(objects)) + [device.View()]
      ensures Serials(devices) == old(Serials(devices)) + [device.serial]
    {
      hide Known, Foreign;
      assert forall s :: 0 <= s < |old(objects)| ==> old(objects)[s] in old(objects);
      assert forall d :: d in old(devices) ==> old(Created(d));
    }

    /** The arbitrator does not have a new modem. */
    twostate lemma NewIsUnknown(new device: ModemDevice)
      requires arbitrator.devices == old(arbitrator.devices) && objects == old(objects) + [device]
      requires fresh(device.radio)
      ensures Known() == old(Known()) && Foreign() == old(Foreign()) && device.radio !in arbitrator.devices
    {
      assert device.radio !in arbitrator.devices;
      assert forall s :: 0 <= s < |old(objects)| ==> objects[s] == old(objects)[s];
      forall r | r in arbitrator.devices ensures IsForeign(r) <==> old(IsForeign(r)) {
      }
    }

    /** A GetModems reply. */
    method GetModemsCb(paths: seq<string>)
      requires Valid()
      modifies this
      ensures Valid() && View() == O.AddModems(old(View()), paths)
    {
      hide ModemViews, Serials, Known, Foreign, Linked, Shown;
      ghost var target := O.AddModems(View(), paths);
      for i := 0 to |paths|
        invariant Valid()
        invariant O.AddModems(View(), paths[i..]) == target
      {
        assert paths[i..][0] == paths[i] && paths[i..][1..] == paths[i + 1..];
        AddModem(paths[i]);
      }
    }

    /** The k-th modem is gone from the list; its object stays. */
    twostate lemma OneRemoved(k: nat)
      requires old(Linked()) && objects == old(objects) && k < |old(devices)|
      requires devices == old(devices)[..k] + old(devices)[k + 1..]
      requires forall d :: d in objects ==> unchanged(d)
      ensures Linked() && ModemViews(objects) == old(ModemViews(objects))
      ensures Serials(devices) == old(Serials(devices))[..k] + old(Serials(devices))[k + 1..]
    {
      hide Known, Foreign;
      assert forall s :: 0 <= s < |objects| ==> objects[s] in objects;
      assert forall d :: d in devices ==> d in old(devices);
    }

    /** Takes the k-th modem off the list and from the arbitrator. */
    method Drop(device: ModemDevice, ghost k: nat)
      requires Valid() && k < |devices| && devices[k] == device
      modifies this, arbitrator, arbitrator.switches
      ensures Valid() && |devices| == |old(devices)| - 1 && View() == O.RemoveAt(old(View()), k)
    {
      hide ModemViews, Serials, Without, Known, Foreign, Arbitrator.Mirrored, Arbitrator.Wired;
      assert Created(device);
      PathOf(k);
      WithoutAt(devices, k);
      devices := Without<ModemDevice>(devices, device);
      OneRemoved(k);
      label before:
      RemoveDevice(device);
      OthersShown@before(device);
      assert Shown(device);
      SameViews@before();
    }

    twostate lemma SameViews()
      requires objects == old(objects) && forall d :: d in objects ==> unchanged(d)
      ensures ModemViews(objects) == old(ModemViews(objects))
    {
      assert forall s :: 0 <= s < |objects| ==> objects[s] in objects;
    }

    method RemoveModem(path: string)
      requires Valid()
      modifies this, arbitrator, arbitrator.switches
      ensures Valid() && View() == O.RemoveModem(old(View()), path)
    {
      hide ModemViews, Serials, Known, Foreign, Linked, Arbitrator.Valid, Shown;
      var device := FindModem(path);
      if device != null {
        Drop(device, O.FindModem(View(), path));
      }
    }

    method RemoveAllModems()
      requires Valid()
      modifies this, arbitrator, arbitrator.switches
      ensures Valid() && View() == O.RemoveAllModems(old(View()))
    {
      hide ModemViews, Known, Foreign, Linked, Arbitrator.Valid, Shown;
      ghost var target := O.RemoveAllModems(View());
      while devices != []
        invariant Valid() && O.RemoveAllModems(View()) == target
        decreases |devices|
      {
        Drop(devices[0], 0);
      }
    }

    /** on_ofono_vanished. */
    method OfonoVanished()
      requires Valid()
      modifies this, arbitrator, arbitrator.switches
      ensures Valid() && View() == O.Vanish(old(View()))
    {
      hide ModemViews, Serials, Known, Foreign, Linked, Arbitrator.Valid, Shown, O.RemoveAllModems;
      O.RemoveAllEffect(View());
      if devices != [] {
        RemoveAllModems();
      }
      modemIdx := O.FIRST_INDEX;
    }
  }

  lemma WithoutAt(devices: seq<ModemDevice>, k: nat)
    requires k < |devices| && forall i, j :: 0 <= i < j < |devices| ==> devices[i] != devices[j]
    ensures Without(devices, devices[k]) == devices[..k] + devices[k + 1..]
  {
    hide Without;
    var d := devices[k];
    assert devices == devices[..k] + [d] + devices[k + 1..];
    assert forall i :: 0 <= i < k ==> devices[i] != d;
    WithoutMiddle(devices[..k], d, devices[k + 1..]);
  }

  /** What registering a device adds to the requests. */
  lemma RegisterAsks(p: Plant, d: Device)
    ensures Register(p, d).deviceAsks
         == p.deviceAsks + if Present(p.devices, d.index) then [] else Greeting(p.cfg, p.saved, d)
  {
  }
}
