/** The device and killswitch objects (urf-device-kernel.c, urf-killswitch.c). */
module KillswitchObject {
  import opened Common
  import opened KillswitchState
  import opened DeviceChain

  class Radio {
    const index: int
    const typ: int
    const platform: bool
    var soft: bool
    var hard: bool

    constructor (d: Device)
      ensures View() == d
    {
      index, typ, platform := d.index, d.typ, d.platform;
      soft, hard := d.soft, d.hard;
    }

    ghost function View(): Device
      reads this
    {
      Device(index, typ, platform, soft, hard)
    }

    method GetState() returns (s: State)
      ensures s == View().State()
    {
      s := EventToState(soft, hard);
    }

    method UpdateStates(soft: bool, hard: bool) returns (changed: bool)
      modifies this
      ensures View() == old(View()).(soft := soft, hard := hard)
      ensures changed == (View() != old(View()))
    {
      changed := this.soft != soft || this.hard != hard;
      if changed {
        this.soft := soft;
        this.hard := hard;
      }
    }
  }

  ghost function Views(radios: seq<Radio>): (v: seq<Device>)
    reads radios
    ensures |v| == |radios| && forall i :: 0 <= i < |v| ==> v[i] == radios[i].View()
  {
    seq(|radios|, i requires 0 <= i < |radios| reads radios => radios[i].View())
  }

  class Killswitch {
    const typ: int
    var devices: seq<Radio>
    var state: State
    var setBlockTask: Option<Task>
    var node: nat
    var pendingBlock: bool

    constructor (typ: int)
      ensures this.typ == typ && devices == [] && state == NoAdapter && Slots() == IDLE
    {
      this.typ := typ;
      devices, state := [], NoAdapter;
      setBlockTask, node, pendingBlock := None, 0, false;
    }

    /** The pending slots; node stands for the list node of the device being asked. */
    ghost function Slots(): Chain
      reads `setBlockTask, `node, `pendingBlock
    {
      Chain(setBlockTask, node, pendingBlock)
    }

    method StateRefresh()
      modifies this`state
      ensures state == Refresh(Views(devices))
    {
      hide Peak;
      if devices == [] {
        state := NoAdapter;
        return;
      }
      var platform, other := NoAdapter, NoAdapter;
      var platformChecked := false;
      ghost var views := Views(devices);
      PeakOfNone(true);
      PeakOfNone(false);
      assert views[..0] == [];
      for i := 0 to |devices|
        invariant views == Views(devices)
        invariant platform == Peak(views[..i], true) && other == Peak(views[..i], false)
        invariant platformChecked == exists d :: d in views[..i] && d.platform
      {
        var r := devices[i];
        var s := r.GetState();
        assert views[..i + 1] == views[..i] + [views[i]];
        PeakNext(views, i, true);
        PeakNext(views, i, false);
        if r.platform {
          platformChecked := true;
          if Rank(s) > Rank(platform) { platform := s; }
        } else {
          if Rank(s) > Rank(other) { other := s; }
        }
      }
      assert views[..|devices|] == views;
      state := if platformChecked then AggregateStates(platform, other) else other;
    }

    method GetState() returns (s: State)
      modifies this`state
      ensures s == state == Refresh(Views(devices))
    {
      StateRefresh();
      s := state;
    }

    method AddDevice(r: Radio)
      modifies this`devices, this`state
      ensures devices == if r.typ != typ || r in old(devices) then old(devices) else [r] + old(devices)
      ensures state == if devices == old(devices) then old(state) else Refresh(Views(devices))
    {
      if r.typ != typ || r in devices {
        return;
      }
      devices := [r] + devices;
      StateRefresh();
    }

    method DelDevice(r: Radio)
      modifies this`devices, this`state
      ensures devices == if r.typ != typ || r !in old(devices) then old(devices) else Without(old(devices), r)
      ensures state == if r.typ != typ || r !in old(devices) then old(state) else Refresh(Views(devices))
    {
      if r.typ != typ || r !in devices {
        return;
      }
      devices := Without(devices, r);
      StateRefresh();
    }

    /** Asks the first device; the returned values are the device to ask and the task to return. */
    method SetSoftwareBlocked(block: bool, task: Option<Task>) returns (ask: Option<int>, done: Option<Done>)
      modifies this`setBlockTask, this`node, this`pendingBlock
      ensures Progress(Slots(), ask, done) == Start(old(Slots()), Views(devices), block, task)
    {
      ask, done := None, None;
      if devices != [] {
        setBlockTask := task;
        pendingBlock := block;
        node := |devices|;
        ask := Some(devices[0].index);
      } else if task.Some? {
        done := Some(Done(task.value, true));
      }
    }

    /** The callback of the device request that is pending. */
    method SoftBlockCallback(ok: bool) returns (ask: Option<int>, done: Option<Done>)
      requires 0 < node <= |devices|
      modifies this`setBlockTask, this`node, this`pendingBlock
      ensures Progress(Slots(), ask, done) == Reply(old(Slots()), Views(devices), ok)
    {
      ask, done := None, None;
      var current := |devices| - node;
      node := 0;
      if !ok {
        if setBlockTask.Some? {
          done := Some(Done(setBlockTask.value, false));
          setBlockTask := None;
        }
      } else if current + 1 == |devices| {
        if setBlockTask.Some? {
          done := Some(Done(setBlockTask.value, true));
          setBlockTask := None;
        }
      } else {
        node := |devices| - current - 1;
        ask := Some(devices[current + 1].index);
      }
    }
  }
}
