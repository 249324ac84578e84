/** The force_sync loop run on the arbitrator object: read a kernel event, let the
    arbitrator react, and turn each request it makes into a type-wide write. */
module ForceSyncObject {
  import opened Common
  import opened KillswitchState
  import opened DeviceMirror
  import opened FlightMode
  import opened DeviceEvents
  import opened ForceSync
  import opened KillswitchObject
  import opened ArbitratorObject

  class SyncLoop {
    const arbitrator: Arbitrator
    /** The kernel's devices and the events it has queued for the daemon. */
    var kernel: seq<Device>
    var queue: seq<KernelEvent>

    ghost predicate Valid()
      reads arbitrator`devices, arbitrator.devices, arbitrator.switches`devices, arbitrator.switches`state
    {
      arbitrator.Valid()
    }

    ghost function View(): Loop
      requires arbitrator.Wired()
      reads this, arbitrator, arbitrator.config, arbitrator.switches, arbitrator.devices
      reads arbitrator.initialState, arbitrator.finalState
    {
      Loop(arbitrator.View(), kernel, queue)
    }

    constructor (arbitrator: Arbitrator, kernel: seq<Device>)
      requires arbitrator.Valid()
      ensures this.arbitrator == arbitrator && Valid() && View() == Loop(arbitrator.View(), kernel, [])
    {
      this.arbitrator, this.kernel, queue := arbitrator, kernel, [];
    }

    /** A device's set_soft: a CHANGE_ALL write for its type, which the kernel accepts or not. */
    method SetSoft(typ: int, soft: bool, ok: bool)
      modifies `kernel, `queue
      ensures kernel == if ok then ChangeAll(old(kernel), typ, soft) else old(kernel)
      ensures queue == old(queue) + if ok then Notices(old(kernel), typ, soft) else []
    {
      if ok {
        kernel, queue := ChangeAll(kernel, typ, soft), queue + Notices(kernel, typ, soft);
      }
    }

    /** The write a request to a device comes down to. */
    method Carry(ask: DeviceAsk, ok: bool)
      requires Valid()
      modifies `kernel, `queue
      ensures Valid() && arbitrator.View() == old(arbitrator.View())
      ensures View() == if Present(old(View()).plant.devices, ask.index) && ok
                        then Write(old(View()), Lookup(old(View()).plant.devices, ask.index).typ, ask.block)
                        else old(View())
    {
      hide Arbitrator.Mirrored, Arbitrator.Chains, Views, ChangeAll, Notices;
      var r := arbitrator.FindDevice(ask.index);
      if r != null {
        arbitrator.Located(r);
        SetSoft(r.typ, ask.block, ok);
      }
    }

    method CarryAll(asks: seq<DeviceAsk>, ok: nat -> bool)
      requires Valid()
      modifies `kernel, `queue
      ensures Valid() && View() == WriteAll(old(View()), asks, ok)
    {
      hide Arbitrator.Mirrored, Arbitrator.Chains, Arbitrator.SweepView, Views, Write;
      ghost var target := WriteAll(View(), asks, ok);
      for i := 0 to |asks|
        invariant Valid() && WriteAll(View(), asks[i..], ok) == target
      {
        assert asks[i..][0] == asks[i] && asks[i..][1..] == asks[i + 1..];
        Carry(asks[i], ok(|asks| - 1 - i));
      }
    }

    /** One event. */
    method ServeOne(ok: nat -> bool)
      requires Valid() && queue != [] && (queue[0].Add? ==> RadioType(queue[0].typ))
      modifies this, arbitrator, arbitrator.switches, arbitrator.devices, arbitrator.config
      ensures Valid() && View() == Serve(old(View()), ok)
      ensures forall r :: r in arbitrator.devices ==> r in old(arbitrator.devices) || fresh(r)
    {
      hide Arbitrator.Mirrored, Arbitrator.Chains, Arbitrator.SweepView, Views, Write, Process;
      var e, n := queue[0], |arbitrator.deviceAsks|;
      queue := queue[1..];
      arbitrator.ProcessEvent(e);
      CarryAll(NewAsks(arbitrator.deviceAsks, n), ok);
    }

    /** Left to itself the loop comes to rest, whichever writes fail; from a state
        in which hard blocks are relieved, and if none fails, hard then implies soft. */
    method Drain(ok: nat -> nat -> bool)
      requires Valid() && Trails(View())
      modifies this, arbitrator, arbitrator.switches, arbitrator.devices, arbitrator.config
      ensures Valid() && AtRest(View())
      ensures old(Synced(View())) && AllWritten(ok) ==> Settled(View())
    {
      hide Arbitrator.Mirrored, Arbitrator.View, Serve, Triggers, ClearBits, Expected;
      var n := 0;
      while queue != []
        invariant Valid() && Trails(View())
        invariant old(Synced(View())) && AllWritten(ok) ==> Synced(View())
        invariant forall r :: r in arbitrator.devices ==> r in old(arbitrator.devices) || fresh(r)
        decreases Triggers(View().plant.devices, queue), ClearBits(kernel), |queue|
      {
        ServeCloser(View(), ok(n));
        if Synced(View()) && AllWritten(ok) {
          ServeKeeps(View(), ok(n));
        }
        assert forall i :: 0 <= i < |arbitrator.devices| ==>
                 arbitrator.devices[i] in old(arbitrator.devices) || fresh(arbitrator.devices[i]);
        ServeOne(ok(n));
        n := n + 1;
      }
      NothingExpected(View());
      if Synced(View()) {
        RestIsSettled(View());
      }
    }
  }

  lemma NothingExpected(s: Loop)
    requires Trails(s) && s.queue == []
    ensures AtRest(s)
  {
  }
}
