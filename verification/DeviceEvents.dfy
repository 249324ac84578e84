/** Devices coming, going and changing while requests are under way: the
    arbitrator's reactions, with the requests and the persistence writes they
    cause (urf-arbitrator.c). */
module DeviceEvents {
  import opened Common
  import opened KillswitchState
  import opened DeviceMirror
  import opened DeviceChain
  import opened Persistence
  import opened FlightMode

  /** Under force_sync, the soft state a changed device is asked to take. */
  function SyncRequest(wasHard: bool, soft: bool, hard: bool): Option<bool> {
    if hard && !soft then Some(true)
    else if hard != wasHard && !hard then Some(false)
    else None
  }

  /** The requests made of a device that has just been added. */
  function Greeting(cfg: Config, saved: Saved, d: Device): seq<DeviceAsk> {
    (if cfg.forceSync && !d.platform then [DeviceAsk(d.index, d.soft, None)] else [])
    + (if cfg.persist then [DeviceAsk(d.index, GetPersistState(cfg, saved, d.typ), None)] else [])
  }

  /** urf_arbitrator_add_device. */
  function Register(p: Plant, d: Device): Plant {
    if Present(p.devices, d.index) then p
    else p.(devices := AddDevice(p.devices, d), deviceAsks := p.deviceAsks + Greeting(p.cfg, p.saved, d))
  }

  /** remove_killswitch; urf_arbitrator_remove_device does the same to a device
      it is given, if that very device is in the list. */
  function Unregister(p: Plant, index: int): Plant {
    p.(devices := RemoveDevice(p.devices, index))
  }

  /** update_killswitch. */
  function Changed(p: Plant, index: int, soft: bool, hard: bool): Plant {
    if !Present(p.devices, index) then p
    else
      var d := Lookup(p.devices, index);
      if d.soft == soft && d.hard == hard then p
      else
        var q := p.(devices := UpdateDevice(p.devices, index, soft, hard));
        if p.cfg.forceSync
        then q.(deviceAsks := q.deviceAsks + Requested(index, SyncRequest(d.hard, soft, hard)))
        else q.(saved := SetPersistState(q.cfg, q.saved, d.typ, soft))
  }

  function Requested(index: int, block: Option<bool>): seq<DeviceAsk> {
    if block.Some? then [DeviceAsk(index, block.value, None)] else []
  }

  /** process_event. */
  function Process(p: Plant, ev: KernelEvent): Plant {
    match ev
    case Add(index, typ, soft, hard, platform) =>
      if index < 0 then p else Register(p, Device(index, typ, platform, soft, hard))
    case Del(index) => Unregister(p, index)
    case Change(index, soft, hard) => Changed(p, index, soft, hard)
  }

  /** A modem's Online property changed; its state is mirrored, nothing is asked or saved. */
  function OnlineChanged(p: Plant, index: int, soft: bool): Plant {
    if Present(p.devices, index)
    then p.(devices := UpdateDevice(p.devices, index, soft, Lookup(p.devices, index).hard))
    else p
  }

  lemma UpdateSame(devices: seq<Device>, index: int)
    requires Present(devices, index)
    ensures var d := Lookup(devices, index); UpdateDevice(devices, index, d.soft, d.hard) == devices
  {
  }

  /** The device list changes as the mirror says, whatever else an event causes;
      pending requests, the sweep and the history never notice. */
  lemma ProcessMirrors(p: Plant, ev: KernelEvent)
    ensures var q := Process(p, ev);
      && q.devices == Apply(p.devices, ev)
      && q.saved.prevSoft == p.saved.prevSoft
      && q == p.(devices := q.devices, deviceAsks := q.deviceAsks, saved := q.saved)
      && ((ev.Change? && !p.cfg.forceSync) || q.saved == p.saved)
  {
    if ev.Change? && Present(p.devices, ev.index) {
      UpdateSame(p.devices, ev.index);
    }
  }
}
