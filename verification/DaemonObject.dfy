/** The daemon object (urf-daemon.c): its method calls, its callbacks and the
    main-loop dispatches that run them, each shown to do what DaemonProtocol says. */
module DaemonObject {
  import opened Common
  import opened KillswitchState
  import opened DeviceMirror
  import opened DeviceChain
  import opened Persistence
  import opened FlightMode
  import opened DeviceEvents
  import opened DaemonProtocol
  import opened KillswitchObject
  import opened ArbitratorObject

  class Daemon {
    const config: ConfigFile
    const arbitrator: Arbitrator
    var invocation: Option<Call>
    var pendingBlock: bool
    var flightMode: bool
    /** The task of a BlockIdx request, kept by its device. */
    var deviceTask: Option<Task>

    // what the callers have seen
    var calls: nat
    var answers: seq<Reply>
    ghost var dropped: set<nat>
    ghost var lost: set<nat>

    ghost predicate Valid()
      reads arbitrator`devices, arbitrator.devices, arbitrator.switches`devices, arbitrator.switches`state
    {
      arbitrator.Valid() && arbitrator.config == config
    }

    ghost function View(): (w: World)
      requires arbitrator.Wired()
      reads this, arbitrator, arbitrator.config, arbitrator.switches, arbitrator.devices
      reads arbitrator.initialState, arbitrator.finalState
      ensures Shape(w.plant)
    {
      World(arbitrator.View(), invocation, pendingBlock, flightMode, deviceTask, calls, answers, dropped, lost)
    }

    /** urf_daemon_new: flight mode is what the file says. */
    constructor (config: ConfigFile)
      ensures Valid() && this.config == config
      ensures View() == Boot(config.options).(
                          plant := Boot(config.options).plant.(saved := config.saved),
                          flightMode := Persistence.GetPersistState(config.options, config.saved, TYPE_ALL))
    {
      this.config := config;
      var a := new Arbitrator(config);
      var on := config.GetPersistState(TYPE_ALL);
      arbitrator := a;
      invocation, pendingBlock, flightMode, deviceTask := None, false, on, None;
      calls, answers, dropped, lost := 0, [], {}, {};
    }

    // ---------- Callbacks ----------

    /** Answers the pending call and ends the operation. */
    method Finish(ok: bool)
      requires Valid() && invocation.Some?
      modifies `answers, `invocation
      ensures Valid() && View() == DaemonProtocol.Finish(old(View()), ok)
    {
      hide Arbitrator.Valid, Arbitrator.View;
      answers := answers + [Reply(invocation.value.id, if ok then Succeeded else Failed)];
      invocation := None;
    }

    method Persist(typ: int)
      requires Valid()
      modifies config
      ensures Valid() && View() == DaemonProtocol.Persist(old(View()), typ)
    {
      hide Arbitrator.Valid, Arbitrator.Chains, Arbitrator.SweepView, Views;
      config.SetPersistState(typ, pendingBlock);
    }

    method DeviceType(index: int) returns (typ: int)
      requires Valid() && Present(View().plant.devices, index)
      ensures typ == Lookup(View().plant.devices, index).typ
    {
      hide Refresh, SwitchRefs, UniqueIndices, Arbitrator.Chains, Arbitrator.SweepView;
      var r := arbitrator.FindDevice(index);
      arbitrator.Located(r);
      typ := r.typ;
    }

    /** block_cb, block_idx_cb and flight_mode_cb. */
    method Callback(done: Done)
      requires Valid() && invocation.Some? && !done.task.SweepTask?
      requires done.task.BlockIdxTask? ==> Present(View().plant.devices, done.task.index)
      modifies this, config
      ensures Valid() && View() == DaemonProtocol.Callback(old(View()), done)
    {
      hide Arbitrator.Valid, Arbitrator.View, DaemonProtocol.Persist, DaemonProtocol.Finish;
      match done.task
      case BlockTask(typ, _) =>
        if done.ok { Persist(typ); }
        Finish(done.ok);
      case BlockIdxTask(index, _) =>
        var typ := DeviceType(index);
        if done.ok { Persist(typ); }
        Finish(done.ok);
      case FlightModeTask(_) =>
        if done.ok {
          flightMode := pendingBlock;
          Persist(TYPE_ALL);
        }
        Finish(done.ok);
    }

    // ---------- Method calls ----------

    method Answer(id: nat, outcome: Outcome)
      requires Valid()
      modifies `answers
      ensures Valid() && View() == DaemonProtocol.Answer(old(View()), id, outcome)
    {
      hide Arbitrator.Valid, Arbitrator.View;
      answers := answers + [Reply(id, outcome)];
    }

    /** Numbers the call that has just been handled. */
    method Count()
      requires Valid()
      modifies `calls
      ensures Valid() && View() == old(View()).(calls := old(calls) + 1)
    {
      hide Arbitrator.Valid, Arbitrator.View;
      calls := calls + 1;
    }

    method Occupy(request: Request)
      requires Valid()
      modifies `invocation, `pendingBlock
      ensures Valid() && View() == DaemonProtocol.Occupy(old(View()), request)
    {
      hide Arbitrator.Valid, Arbitrator.View;
      invocation, pendingBlock := Some(Call(calls, request)), request.block;
    }

    /** A call that goes nowhere before the has-devices gate. */
    method Drop()
      requires Valid()
      modifies `dropped
      ensures Valid() && View() == old(View()).(dropped := old(dropped) + {calls})
    {
      hide Arbitrator.Valid, Arbitrator.View;
      dropped := dropped + {calls};
    }

    /** An accepted Block: done already, or handed to the killswitch of its type. */
    method StartBlock(typ: int, block: bool)
      requires Valid() && RadioType(typ)
      modifies `invocation, `pendingBlock, `answers, arbitrator, arbitrator.switches
      ensures Valid()
      ensures View() == Started(old(View()), Request.Block(typ, block))
    {
      hide Arbitrator.Valid, Arbitrator.Chains, Arbitrator.SweepView, Views, FlightMode.SetBlock, SwitchState;
      var state := arbitrator.GetState(typ);
      if (block && state == SoftBlocked) || (!block && state == Unblocked) {
        Answer(calls, Succeeded);
      } else {
        Occupy(Request.Block(typ, block));
        arbitrator.SetBlock(typ, block, Some(BlockTask(typ, arbitrator.now)));
      }
    }

    /** urf_daemon_block. */
    method Block(typ: int, block: bool, authorized: bool)
      requires Valid() && typ != TYPE_ALL
      modifies this, arbitrator, arbitrator.switches
      ensures Valid()
      ensures View() == DaemonProtocol.Method(old(View()), Request.Block(typ, block), authorized)
    {
      hide Arbitrator.Valid, Arbitrator.Chains, Arbitrator.SweepView, Views, Launch, Satisfied;
      if typ < 0 || !arbitrator.HasDevices() {
        Drop();
      } else if !authorized {
        Answer(calls, Unauthorized);
      } else if typ >= NUM_TYPES {
        Answer(calls, Invalid);
      } else if invocation.Some? {
        Answer(calls, InProgress);
      } else {
        StartBlock(typ, block);
      }
      Count();
    }

    method StateIdx(index: int) returns (s: State)
      requires Valid() && Present(View().plant.devices, index)
      ensures s == Lookup(View().plant.devices, index).State()
    {
      hide Refresh, SwitchRefs, UniqueIndices, Arbitrator.Chains, Arbitrator.SweepView;
      var r := arbitrator.FindDevice(index);
      arbitrator.Located(r);
      s := r.GetState();
    }

    /** An accepted BlockIdx: done already, or handed to the device. */
    method StartBlockIdx(index: int, block: bool)
      requires Valid() && Present(View().plant.devices, index)
      modifies `invocation, `pendingBlock, `answers, `deviceTask, arbitrator
      ensures Valid()
      ensures View() == Started(old(View()), Request.BlockIdx(index, block))
    {
      hide Arbitrator.Valid, Arbitrator.Chains, Arbitrator.SweepView, Views, Find, Present,
           DaemonProtocol.Answer, EventToState;
      var state := StateIdx(index);
      if (block && state == SoftBlocked) || (!block && state == Unblocked) {
        Answer(calls, Succeeded);
      } else {
        Occupy(Request.BlockIdx(index, block));
        deviceTask := Some(BlockIdxTask(index, arbitrator.now));
        arbitrator.SetBlockIdx(index, block);
      }
    }

    /** urf_daemon_block_idx. */
    method BlockIdx(index: int, block: bool, authorized: bool)
      requires Valid()
      modifies this, arbitrator
      ensures Valid()
      ensures View() == DaemonProtocol.Method(old(View()), Request.BlockIdx(index, block), authorized)
    {
      hide Arbitrator.Valid, Arbitrator.Chains, Arbitrator.SweepView, Views, Find, Present, Started,
           DaemonProtocol.Answer;
      if !arbitrator.HasDevices() {
        Drop();
      } else if !authorized {
        Answer(calls, Unauthorized);
      } else {
        var r := arbitrator.FindDevice(index);
        if index < 0 || r == null {
          Answer(calls, Invalid);
        } else if invocation.Some? {
          Answer(calls, InProgress);
        } else {
          StartBlockIdx(index, block);
        }
      }
      Count();
    }

    /** urf_daemon_flight_mode. */
    method SetFlightMode(block: bool, authorized: bool)
      requires Valid()
      modifies this, arbitrator, arbitrator.switches, arbitrator.initialState, arbitrator.finalState
      ensures Valid()
      ensures View() == DaemonProtocol.Method(old(View()), Request.SetFlightMode(block), authorized)
    {
      hide Arbitrator.Valid, Arbitrator.Chains, Arbitrator.SweepView, Views, BeginSweep;
      if !arbitrator.HasDevices() {
        Drop();
      } else if !authorized {
        Answer(calls, Unauthorized);
      } else if invocation.Some? {
        Answer(calls, InProgress);
      } else if flightMode == block {
        Answer(calls, Succeeded);
      } else {
        Occupy(Request.SetFlightMode(block));
        arbitrator.SetFlightMode(block, FlightModeTask(arbitrator.now));
      }
      Count();
    }

    // ---------- Main-loop dispatches ----------

    method NextDispatch()
      requires Valid()
      modifies arbitrator`now
      ensures Valid() && View() == DaemonProtocol.NextDispatch(old(View()))
    {
      hide Arbitrator.Valid, Arbitrator.Chains, Arbitrator.SweepView, Views;
      arbitrator.now := arbitrator.now + 1;
    }

    /** Runs the callback of a completing task, and the daemon's callback if that completes its task too. */
    method Complete(done: Done)
      requires Valid() && CompletionDefined(View(), done.task)
      modifies this, config, arbitrator, arbitrator.switches, arbitrator.initialState, arbitrator.finalState
      ensures Valid()
      ensures Deliverable(old(View()), FlightMode.Complete(old(View()).plant, done))
      ensures View() == Deliver(old(View()), FlightMode.Complete(old(View()).plant, done))
    {
      hide Arbitrator.Mirrored, Arbitrator.Chains, Views, SweepCallback, DaemonProtocol.Callback;
      var nested := Some(done);
      SweepCallbackNests(View().plant, done);
      if done.task.SweepTask? {
        nested := arbitrator.FlightModeCallback(done.ok);
      }
      if nested.Some? {
        Callback(nested.value);
      }
    }

    method Settle(done: Done)
      requires Valid() && CompletionDefined(View(), done.task)
      modifies this, config, arbitrator, arbitrator.switches, arbitrator.initialState, arbitrator.finalState
      ensures Valid()
      ensures View() == DaemonProtocol.Settle(old(View()), done)
    {
      hide Arbitrator.Valid, Arbitrator.Chains, Arbitrator.SweepView, Views, FlightMode.Complete, Deliver;
      var returned := arbitrator.ReturnTask(done.task, done.ok);
      if returned.Some? {
        Complete(done);
      }
    }

    /** The device a killswitch is asking answers. */
    method DeviceReply(typ: int, ok: bool)
      requires Valid() && Defined(View(), Event.DeviceReply(typ, ok))
      modifies this, config, arbitrator, arbitrator.switches, arbitrator.initialState, arbitrator.finalState
      ensures Valid() && View() == Dispatch(old(View()), Event.DeviceReply(typ, ok))
    {
      hide Arbitrator.Mirrored, Arbitrator.Chains, Views, DaemonProtocol.Settle, Switch;
      NextDispatch();
      var done := arbitrator.DeviceAnswered(typ, ok);
      if done.Some? {
        Settle(done.value);
      }
    }

    /** The device of a BlockIdx request answers. */
    method BlockIdxReply(ok: bool)
      requires Valid() && Defined(View(), Event.BlockIdxReply(ok))
      modifies this, config, arbitrator, arbitrator.switches, arbitrator.initialState, arbitrator.finalState
      ensures Valid() && View() == Dispatch(old(View()), Event.BlockIdxReply(ok))
    {
      hide Arbitrator.Mirrored, Arbitrator.Chains, Views, DaemonProtocol.Settle;
      NextDispatch();
      var done := Done(deviceTask.value, ok);
      deviceTask := None;
      Settle(done);
    }

    /** The oldest completion waiting for the main loop. */
    method RunIdle()
      requires Valid() && Defined(View(), Event.RunIdle)
      modifies this, config, arbitrator, arbitrator.switches, arbitrator.initialState, arbitrator.finalState
      ensures Valid() && View() == Dispatch(old(View()), Event.RunIdle)
    {
      hide Arbitrator.Mirrored, Arbitrator.Chains, Views, DaemonProtocol.Settle;
      NextDispatch();
      var done := arbitrator.NextIdle();
      Settle(done);
    }

    method Kernel(ev: KernelEvent)
      requires Valid() && (ev.Add? ==> RadioType(ev.typ))
      modifies config, arbitrator, arbitrator.switches, arbitrator.devices
      ensures View() == React(DaemonProtocol.NextDispatch(old(View())), Event.Kernel(ev))
      ensures Valid()
    {
      hide Arbitrator.Valid, Arbitrator.Chains, Arbitrator.SweepView, Views, Process;
      NextDispatch();
      arbitrator.ProcessEvent(ev);
    }

    /** A modem powers up: the oFono manager hands its device over. */
    method ModemOn(r: Radio)
      requires Valid() && RadioType(r.typ)
      modifies arbitrator, arbitrator.switches
      ensures View() == React(DaemonProtocol.NextDispatch(old(View())), Event.ModemOn(r.View()))
      ensures Valid()
    {
      hide Arbitrator.Valid, Arbitrator.Chains, Arbitrator.SweepView, Views, Register;
      NextDispatch();
      var added := arbitrator.AddDevice(r);
    }

    /** A modem powers down or vanishes; one the arbitrator does not have is no news to it. */
    method ModemOff(r: Radio)
      requires Valid()
      modifies arbitrator, arbitrator.switches
      ensures View() == if r in old(arbitrator.devices)
                        then React(DaemonProtocol.NextDispatch(old(View())), Event.ModemOff(r.index))
                        else DaemonProtocol.NextDispatch(old(View()))
      ensures Valid()
    {
      hide Arbitrator.Valid, Arbitrator.Chains, Arbitrator.SweepView, Views, Unregister;
      NextDispatch();
      arbitrator.RemoveDevice(r);
    }

    method ModemOnline(index: int, soft: bool)
      requires Valid()
      modifies arbitrator, arbitrator.switches, arbitrator.devices
      ensures View() == React(DaemonProtocol.NextDispatch(old(View())), Event.ModemOnline(index, soft))
      ensures Valid()
    {
      hide Arbitrator.Valid, Arbitrator.Chains, Arbitrator.SweepView, Views, OnlineChanged;
      NextDispatch();
      arbitrator.ModemOnline(index, soft);
    }
  }

  /** What Deliver needs of a turn. */
  ghost predicate Deliverable(w: World, t: Turn) {
    t.nested.Some? ==>
      && w.invocation.Some? && !t.nested.value.task.SweepTask?
      && (t.nested.value.task.BlockIdxTask? ==> Present(t.plant.devices, t.nested.value.task.index))
  }
}
