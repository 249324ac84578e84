/** The arbitrator's device list, the per-type killswitch lists and the kernel
    event stream that keeps both up to date (urf-arbitrator.c, urf-killswitch.c). */
module DeviceMirror {
  import opened KillswitchState

  /** A kernel event; platform is what udev reports for a new device. */
  datatype KernelEvent =
    | Add(index: int, typ: int, soft: bool, hard: bool, platform: bool)
    | Del(index: int)
    | Change(index: int, soft: bool, hard: bool)

  // ---------- The arbitrator's list ----------

  /** Position of the first device with this index, or |devices|. */
  function Find(devices: seq<Device>, index: int): (k: nat)
    ensures k <= |devices|
    ensures k < |devices| ==> devices[k].index == index
    ensures forall j :: 0 <= j < k ==> devices[j].index != index
  {
    if devices == [] then 0
    else if devices[0].index == index then 0
    else 1 + Find(devices[1..], index)
  }

  predicate Present(devices: seq<Device>, index: int) {
    Find(devices, index) < |devices|
  }

  function Lookup(devices: seq<Device>, index: int): Device
    requires Present(devices, index)
  {
    devices[Find(devices, index)]
  }

  function AddDevice(devices: seq<Device>, d: Device): seq<Device> {
    if Present(devices, d.index) then devices else devices + [d]
  }

  function RemoveDevice(devices: seq<Device>, index: int): seq<Device> {
    if Present(devices, index)
    then var k := Find(devices, index); devices[..k] + devices[k + 1..]
    else devices
  }

  function UpdateDevice(devices: seq<Device>, index: int, soft: bool, hard: bool): seq<Device> {
    if Present(devices, index)
    then var k := Find(devices, index); devices[k := devices[k].(soft := soft, hard := hard)]
    else devices
  }

  function Apply(devices: seq<Device>, ev: KernelEvent): seq<Device> {
    match ev
    case Add(index, typ, soft, hard, platform) =>
      if index < 0 then devices else AddDevice(devices, Device(index, typ, platform, soft, hard))
    case Del(index) => RemoveDevice(devices, index)
    case Change(index, soft, hard) => UpdateDevice(devices, index, soft, hard)
  }

  function ApplyAll(devices: seq<Device>, evs: seq<KernelEvent>): seq<Device> {
    if evs == [] then devices
    else Apply(ApplyAll(devices, evs[..|evs| - 1]), evs[|evs| - 1])
  }

  // ---------- The killswitch lists ----------

  /** The list a killswitch holds: its devices, the newest first. */
  function Switch(devices: seq<Device>, typ: int): seq<Device> {
    if devices == [] then []
    else
      var last, older := devices[|devices| - 1], Switch(devices[..|devices| - 1], typ);
      if last.typ == typ then [last] + older else older
  }

  function SwitchState(devices: seq<Device>, typ: int): State {
    Refresh(Switch(devices, typ))
  }

  /** The devices of a type that decide its killswitch's state: its platform
      devices once one of them is blocked at all, otherwise all of them. */
  ghost predicate TypeDecides(devices: seq<Device>, typ: int, d: Device) {
    && d in devices && d.typ == typ
    && ((exists p :: p in devices && p.typ == typ && p.platform && (p.soft || p.hard)) ==> d.platform)
  }

  ghost predicate TypeHard(devices: seq<Device>, typ: int) {
    exists d :: TypeDecides(devices, typ, d) && d.hard
  }

  ghost predicate TypeSoft(devices: seq<Device>, typ: int) {
    exists d :: TypeDecides(devices, typ, d) && d.soft
  }

  ghost predicate TypePresent(devices: seq<Device>, typ: int) {
    exists d :: d in devices && d.typ == typ
  }

  /** A killswitch's state, read off the bits of the devices of its type. */
  lemma SwitchStateInBits(devices: seq<Device>, typ: int)
    ensures SwitchState(devices, typ) == HardBlocked <==> TypeHard(devices, typ)
    ensures SwitchState(devices, typ) == SoftBlocked <==> !TypeHard(devices, typ) && TypeSoft(devices, typ)
    ensures SwitchState(devices, typ) == Unblocked
       <==> TypePresent(devices, typ) && !TypeHard(devices, typ) && !TypeSoft(devices, typ)
    ensures SwitchState(devices, typ) == NoAdapter <==> !TypePresent(devices, typ)
  {
    var list := Switch(devices, typ);
    SwitchElements(devices, typ);
    RefreshInBits(list);
    assert forall d :: Decides(list, d) <==> TypeDecides(devices, typ, d);
    if list != [] {
      assert list[0] in devices && list[0].typ == typ;
    }
  }

  // ---------- Reference: a map from index to device ----------

  function Fold(m: map<int, Device>, ev: KernelEvent): map<int, Device> {
    match ev
    case Add(index, typ, soft, hard, platform) =>
      if index < 0 || index in m then m else m[index := Device(index, typ, platform, soft, hard)]
    case Del(index) => m - {index}
    case Change(index, soft, hard) =>
      if index in m then m[index := m[index].(soft := soft, hard := hard)] else m
  }

  function FoldAll(m: map<int, Device>, evs: seq<KernelEvent>): map<int, Device> {
    if evs == [] then m
    else Fold(FoldAll(m, evs[..|evs| - 1]), evs[|evs| - 1])
  }

  ghost predicate UniqueIndices(devices: seq<Device>) {
    forall i, j :: 0 <= i < j < |devices| ==> devices[i].index != devices[j].index
  }

  /** The list holds exactly the devices of the map, each once. */
  ghost predicate Mirrors(devices: seq<Device>, m: map<int, Device>) {
    && UniqueIndices(devices)
    && (forall d :: d in devices ==> d.index in m && m[d.index] == d)
    && (forall index :: index in m ==> m[index].index == index && m[index] in devices)
  }

  /** Distinct devices of one type, all of them. */
  ghost predicate SwitchMirrors(list: seq<Device>, m: map<int, Device>, typ: int) {
    && UniqueIndices(list)
    && Elements(list) == set index | index in m && m[index].typ == typ :: m[index]
  }

  // ---------- Laws of the killswitch lists ----------

  lemma {:induction false} SwitchElements(devices: seq<Device>, typ: int)
    ensures forall d :: d in Switch(devices, typ) <==> d in devices && d.typ == typ
  {
    if devices == [] {
    } else {
      var front, last := devices[..|devices| - 1], devices[|devices| - 1];
      SwitchElements(front, typ);
      assert devices == front + [last];
    }
  }

  lemma {:induction false} SwitchUnique(devices: seq<Device>, typ: int)
    requires UniqueIndices(devices)
    ensures UniqueIndices(Switch(devices, typ))
  {
    if devices == [] {
    } else {
      var front := devices[..|devices| - 1];
      SwitchUnique(front, typ);
      SwitchElements(front, typ);
    }
  }

  /** A device that arrives is put in front of its own killswitch's list only. */
  lemma SwitchAppend(devices: seq<Device>, d: Device, typ: int)
    ensures Switch(devices + [d], typ) == (if d.typ == typ then [d] else []) + Switch(devices, typ)
  {
    assert (devices + [d])[..|devices|] == devices;
  }

  lemma {:induction false} SwitchConcat(a: seq<Device>, b: seq<Device>, typ: int)
    ensures Switch(a + b, typ) == Switch(b, typ) + Switch(a, typ)
  {
    if b == [] {
      assert a + b == a;
    } else {
      var front, last := b[..|b| - 1], b[|b| - 1];
      SwitchConcat(a, front, typ);
      assert a + b == (a + front) + [last];
      SwitchAppend(a + front, last, typ);
    }
  }

  /** Removing one device leaves the order of all the others alone. */
  lemma SwitchRemove(devices: seq<Device>, k: nat, typ: int)
    requires k < |devices|
    ensures var a, b := Switch(devices[..k], typ), Switch(devices[k + 1..], typ);
      && Switch(devices, typ) == b + (if devices[k].typ == typ then [devices[k]] else []) + a
      && Switch(devices[..k] + devices[k + 1..], typ) == b + a
  {
    assert devices == (devices[..k] + [devices[k]]) + devices[k + 1..];
    SwitchConcat(devices[..k] + [devices[k]], devices[k + 1..], typ);
    SwitchAppend(devices[..k], devices[k], typ);
    SwitchConcat(devices[..k], devices[k + 1..], typ);
  }

  /** A change of one device's bits changes that device in place. */
  lemma SwitchUpdate(devices: seq<Device>, k: nat, d: Device, typ: int)
    requires k < |devices| && d.typ == devices[k].typ
    ensures var a, b := Switch(devices[..k], typ), Switch(devices[k + 1..], typ);
      && Switch(devices, typ) == b + (if d.typ == typ then [devices[k]] else []) + a
      && Switch(devices[k := d], typ) == b + (if d.typ == typ then [d] else []) + a
  {
    SwitchRemove(devices, k, typ);
    SwitchRemove(devices[k := d], k, typ);
    assert devices[k := d][..k] == devices[..k];
    assert devices[k := d][k + 1..] == devices[k + 1..];
  }

  // ---------- The mirror over whole event streams ----------

  lemma FindUnique(devices: seq<Device>, k: nat)
    requires UniqueIndices(devices) && k < |devices|
    ensures Find(devices, devices[k].index) == k
  {
  }

  lemma PresentInMap(devices: seq<Device>, m: map<int, Device>, index: int)
    requires Mirrors(devices, m)
    ensures Present(devices, index) <==> index in m
    ensures index in m ==> Lookup(devices, index) == m[index]
  {
    if index in m {
      var j :| 0 <= j < |devices| && devices[j] == m[index];
    }
  }

  lemma AddMirrors(devices: seq<Device>, m: map<int, Device>, d: Device)
    requires Mirrors(devices, m) && d.index !in m
    ensures Mirrors(devices + [d], m[d.index := d])
  {
    var after, m' := devices + [d], m[d.index := d];
    PresentInMap(devices, m, d.index);
    assert after[|devices|] == d;
    forall x | x in m' ensures m'[x].index == x && m'[x] in after {
      if x != d.index {
        assert m[x] in devices;
      }
    }
  }

  lemma RemoveMirrors(devices: seq<Device>, m: map<int, Device>, k: nat)
    requires Mirrors(devices, m) && k < |devices|
    ensures Mirrors(devices[..k] + devices[k + 1..], m - {devices[k].index})
  {
    var after, m' := devices[..k] + devices[k + 1..], m - {devices[k].index};
    assert forall i :: 0 <= i < |after| ==> after[i] == devices[if i < k then i else i + 1];
    forall x | x in m' ensures m'[x].index == x && m'[x] in after {
      var j :| 0 <= j < |devices| && devices[j] == m[x];
      assert after[if j < k then j else j - 1] == m[x];
    }
  }

  lemma UpdateMirrors(devices: seq<Device>, m: map<int, Device>, k: nat, d: Device)
    requires Mirrors(devices, m) && k < |devices| && d.index == devices[k].index
    ensures Mirrors(devices[k := d], m[d.index := d])
  {
    var after, m' := devices[k := d], m[d.index := d];
    assert after[k] == d;
    forall x | x in m' ensures m'[x].index == x && m'[x] in after {
      if x != d.index {
        var j :| 0 <= j < |devices| && devices[j] == m[x];
        assert after[j] == m[x];
      }
    }
  }

  lemma ApplyMirrors(devices: seq<Device>, m: map<int, Device>, ev: KernelEvent)
    requires Mirrors(devices, m)
    ensures Mirrors(Apply(devices, ev), Fold(m, ev))
  {
    hide Mirrors, Find;
    PresentInMap(devices, m, ev.index);
    match ev
    case Add(index, typ, soft, hard, platform) =>
      if 0 <= index && index !in m {
        AddMirrors(devices, m, Device(index, typ, platform, soft, hard));
      }
    case Del(index) =>
      if index in m {
        RemoveMirrors(devices, m, Find(devices, index));
      } else {
        assert m - {index} == m;
      }
    case Change(index, soft, hard) =>
      if index in m {
        UpdateMirrors(devices, m, Find(devices, index), m[index].(soft := soft, hard := hard));
      }
  }

  lemma SwitchMirror(devices: seq<Device>, m: map<int, Device>, typ: int)
    requires Mirrors(devices, m)
    ensures SwitchMirrors(Switch(devices, typ), m, typ)
    ensures IsAggregate(set index | index in m && m[index].typ == typ :: m[index], SwitchState(devices, typ))
  {
    SwitchUnique(devices, typ);
    SwitchElements(devices, typ);
    RefreshIsAggregate(Switch(devices, typ));
    assert Elements(Switch(devices, typ)) == set index | index in m && m[index].typ == typ :: m[index];
  }

  /** Any stream of ADD, DEL and CHANGE events leaves the list, every killswitch
      list and every killswitch state in agreement with the index map. */
  lemma {:induction false} MirrorFollowsEvents(evs: seq<KernelEvent>)
    ensures var devices, m := ApplyAll([], evs), FoldAll(map[], evs);
      && Mirrors(devices, m)
      && (forall typ :: SwitchMirrors(Switch(devices, typ), m, typ))
      && (forall typ :: IsAggregate(set index | index in m && m[index].typ == typ :: m[index],
                                    SwitchState(devices, typ)))
  {
    if evs == [] {
    } else {
      var before := evs[..|evs| - 1];
      MirrorFollowsEvents(before);
      ApplyMirrors(ApplyAll([], before), FoldAll(map[], before), evs[|evs| - 1]);
    }
    var devices, m := ApplyAll([], evs), FoldAll(map[], evs);
    forall typ
      ensures SwitchMirrors(Switch(devices, typ), m, typ)
      ensures IsAggregate(set index | index in m && m[index].typ == typ :: m[index], SwitchState(devices, typ))
    {
      SwitchMirror(devices, m, typ);
    }
  }

  /** Deleting a device that was just added restores every list and state. */
  lemma AddThenDelete(devices: seq<Device>, d: Device)
    requires !Present(devices, d.index)
    ensures RemoveDevice(AddDevice(devices, d), d.index) == devices
    ensures Switch(RemoveDevice(AddDevice(devices, d), d.index), d.typ) == Switch(devices, d.typ)
    ensures Refresh([d] + Switch(devices, d.typ)) == SwitchState(AddDevice(devices, d), d.typ)
  {
    var after := devices + [d];
    assert Find(after, d.index) == |devices| by {
      assert after[|devices|] == d;
      assert forall j :: 0 <= j < |devices| ==> after[j] == devices[j];
    }
    SwitchAppend(devices, d, d.typ);
  }

  /** Some killswitch has an adapter exactly when the arbitrator has a device. */
  lemma {:induction false} SomeAdapter(devices: seq<Device>)
    requires forall d :: d in devices ==> RadioType(d.typ)
    ensures devices != [] <==> exists typ :: RadioType(typ) && SwitchState(devices, typ) != NoAdapter
  {
    forall typ ensures SwitchState(devices, typ) == NoAdapter <==> Switch(devices, typ) == [] {
      RefreshWitness(Switch(devices, typ));
    }
    if devices != [] {
      var d := devices[|devices| - 1];
      assert d in devices;
      SwitchElements(devices, d.typ);
      assert d in Switch(devices, d.typ);
      assert RadioType(d.typ) && SwitchState(devices, d.typ) != NoAdapter;
    }
  }
}
