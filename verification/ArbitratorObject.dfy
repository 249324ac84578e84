/** The configuration and arbitrator objects (urf-config.c, urf-arbitrator.c),
    whose methods change their fields as the functions of FlightMode and
    DeviceEvents say. */
module ArbitratorObject {
  import opened Common
  import opened KillswitchState
  import opened DeviceMirror
  import opened DeviceChain
  import opened Persistence
  import opened FlightMode
  import opened DeviceEvents
  import opened KillswitchObject

  class ConfigFile {
    const options: Config
    var saved: Saved

    constructor (options: Config)
      ensures this.options == options && saved == EMPTY_FILE
    {
      this.options := options;
      saved := EMPTY_FILE;
    }

    method GetPersistState(typ: int) returns (state: bool)
      ensures state == Persistence.GetPersistState(options, saved, typ)
    {
      var entry := if typ == TYPE_WWAN && options.strict then TYPE_ALL else typ;
      state := entry in saved.soft && saved.soft[entry];
    }

    method GetPrevSoft(typ: int) returns (state: bool)
      ensures state == Persistence.GetPrevSoft(options, saved, typ)
    {
      if typ == TYPE_WWAN && options.strict {
        return false;
      }
      state := typ in saved.prevSoft && saved.prevSoft[typ];
    }

    method SetPersistState(typ: int, blocked: bool)
      modifies this
      ensures saved == Persistence.SetPersistState(options, old(saved), typ, blocked)
    {
      if typ == TYPE_WWAN && options.strict {
        return;
      }
      saved := saved.(soft := saved.soft[typ := blocked]);
    }

    method SetPrevSoft(typ: int, blocked: bool)
      modifies this
      ensures saved == Persistence.SetPrevSoft(options, old(saved), typ, blocked)
    {
      if typ == TYPE_WWAN && options.strict {
        return;
      }
      saved := saved.(prevSoft := saved.prevSoft[typ := blocked]);
    }
  }

  // ---------- Killswitch lists as lists of references ----------

  /** The references a killswitch of this type holds: the newest first. */
  ghost function SwitchRefs(radios: seq<Radio>, typ: int): (list: seq<Radio>)
    ensures forall r :: r in list ==> r in radios && r.typ == typ
  {
    if radios == [] then []
    else
      var last, older := radios[|radios| - 1], SwitchRefs(radios[..|radios| - 1], typ);
      if last.typ == typ then [last] + older else older
  }

  lemma {:induction false} SwitchViews(radios: seq<Radio>, typ: int)
    ensures Views(SwitchRefs(radios, typ)) == Switch(Views(radios), typ)
  {
    if radios == [] {
    } else {
      SwitchViews(radios[..|radios| - 1], typ);
      assert Views(radios)[..|radios| - 1] == Views(radios[..|radios| - 1]);
    }
  }

  lemma SwitchRefsAppend(radios: seq<Radio>, r: Radio, typ: int)
    ensures SwitchRefs(radios + [r], typ) == (if r.typ == typ then [r] else []) + SwitchRefs(radios, typ)
  {
    assert (radios + [r])[..|radios|] == radios;
  }

  lemma {:induction false} SwitchRefsConcat(a: seq<Radio>, b: seq<Radio>, typ: int)
    ensures SwitchRefs(a + b, typ) == SwitchRefs(b, typ) + SwitchRefs(a, typ)
  {
    if b == [] {
      assert a + b == a;
    } else {
      SwitchRefsConcat(a, b[..|b| - 1], typ);
      assert a + b == (a + b[..|b| - 1]) + [b[|b| - 1]];
      SwitchRefsAppend(a + b[..|b| - 1], b[|b| - 1], typ);
    }
  }

  lemma {:induction false} SwitchRefsElements(radios: seq<Radio>, typ: int)
    ensures forall r :: r in SwitchRefs(radios, typ) <==> r in radios && r.typ == typ
  {
    if radios == [] {
    } else {
      SwitchRefsElements(radios[..|radios| - 1], typ);
    }
  }

  lemma SwitchRefsSplit(a: seq<Radio>, r: Radio, b: seq<Radio>, typ: int)
    ensures SwitchRefs(a + [r] + b, typ)
         == SwitchRefs(b, typ) + (if r.typ == typ then [r] else []) + SwitchRefs(a, typ)
  {
    SwitchRefsConcat(a + [r], b, typ);
    SwitchRefsAppend(a, r, typ);
  }

  /** Dropping a reference from the arbitrator's list drops it from its killswitch's list. */
  lemma SwitchRefsWithout(a: seq<Radio>, r: Radio, b: seq<Radio>, typ: int)
    requires r !in a && r !in b
    ensures SwitchRefs(a + b, typ)
         == (if r.typ == typ then Without(SwitchRefs(a + [r] + b, typ), r) else SwitchRefs(a + [r] + b, typ))
    ensures r in SwitchRefs(a + [r] + b, typ) <==> r.typ == typ
  {
    SwitchRefsSplit(a, r, b, typ);
    SwitchRefsConcat(a, b, typ);
    if r.typ == typ {
      WithoutMiddle(SwitchRefs(b, typ), r, SwitchRefs(a, typ));
    } else {
      assert SwitchRefs(b, typ) + [] == SwitchRefs(b, typ);
    }
  }

  method NewKillswitches() returns (list: seq<Killswitch>)
    ensures |list| == NUM_TYPES - 1
    ensures forall i :: 0 <= i < |list| ==>
              && fresh(list[i]) && list[i].typ == i + 1
              && list[i].devices == [] && list[i].state == NoAdapter && list[i].Slots() == IDLE
  {
    list := [];
    for i := 1 to NUM_TYPES
      invariant |list| == i - 1
      invariant forall j :: 0 <= j < |list| ==>
                  && fresh(list[j]) && list[j].typ == j + 1
                  && list[j].devices == [] && list[j].state == NoAdapter && list[j].Slots() == IDLE
    {
      var k := new Killswitch(i);
      list := list + [k];
    }
  }

  class Arbitrator {
    const config: ConfigFile
    /** The killswitches of types 1..8; type ALL has none. */
    const killswitch: seq<Killswitch>
    ghost const switches: set<Killswitch>
    /** The task data of a flight-mode sweep. */
    const initialState: array<State>
    const finalState: array<bool>

    var devices: seq<Radio>
    var flightModeTask: Option<Task>
    var pendingBlockTask: Option<Task>
    var blockIndex: int
    var pendingBlock: bool
    ghost var mark: nat

    // the main loop, and what the arbitrator has done so far
    var now: nat
    var idle: seq<Done>
    ghost var asks: seq<Ask>
    var deviceAsks: seq<DeviceAsk>
    ghost var history: seq<Committed>

    ghost predicate Wired() {
      && |killswitch| == NUM_TYPES - 1
      && (forall i :: 0 <= i < |killswitch| ==> killswitch[i] in switches && killswitch[i].typ == i + 1)
      && initialState.Length == finalState.Length == NUM_TYPES
    }

    function At(typ: int): (k: Killswitch)
      requires Wired() && RadioType(typ)
      ensures k in switches && k.typ == typ
    {
      killswitch[typ - 1]
    }

    /** Every killswitch's list and cached state agree with the arbitrator's device list. */
    ghost predicate Mirrored()
      requires Wired()
      reads `devices, devices, switches`devices, switches`state
    {
      && UniqueIndices(Views(devices))
      && (forall r :: r in devices ==> RadioType(r.typ))
      && (forall typ :: RadioType(typ) ==>
            && At(typ).devices == SwitchRefs(devices, typ)
            && At(typ).state == Refresh(Views(SwitchRefs(devices, typ))))
    }

    ghost predicate Valid()
      reads `devices, devices, switches`devices, switches`state
    {
      Wired() && Mirrored()
    }

    ghost function Chains(): (chains: seq<Chain>)
      requires Wired()
      reads switches`setBlockTask, switches`node, switches`pendingBlock
      ensures |chains| == NUM_TYPES && chains[0] == IDLE
      ensures forall typ :: RadioType(typ) ==> chains[typ] == At(typ).Slots()
    {
      [IDLE, At(1).Slots(), At(2).Slots(), At(3).Slots(), At(4).Slots(),
             At(5).Slots(), At(6).Slots(), At(7).Slots(), At(8).Slots()]
    }

    ghost function SweepView(): Sweep
      reads `flightModeTask, `pendingBlockTask, `blockIndex, `pendingBlock, `mark, initialState, finalState
    {
      Sweep(flightModeTask, pendingBlockTask, blockIndex, pendingBlock, initialState[..], finalState[..], mark)
    }

    ghost function View(): (p: Plant)
      requires Wired()
      reads this, config, switches, devices, initialState, finalState
      ensures Shape(p)
    {
      Plant(config.options, now, Views(devices), Chains(), SweepView(), config.saved, idle, asks, deviceAsks, history)
    }

    constructor (config: ConfigFile)
      ensures Valid() && this.config == config && fresh(switches) && fresh(initialState) && fresh(finalState)
      ensures View() == Plant(config.options, 0, [], seq(NUM_TYPES, _ => IDLE), BLANK_SWEEP,
                              config.saved, [], [], [], [])
    {
      hide Chains, Views, Mirrored, Refresh;
      this.config := config;
      devices := [];
      flightModeTask, pendingBlockTask := None, None;
      blockIndex, pendingBlock, mark := 1, false, 0;
      now, idle, asks, deviceAsks, history := 0, [], [], [], [];
      initialState := new State[NUM_TYPES](_ => Unblocked);
      finalState := new bool[NUM_TYPES](_ => false);
      var list := NewKillswitches();
      killswitch := list;
      switches := Elements(list);
      new;
      EmptyLists();
      assert initialState[..] == BLANK_SWEEP.initial;
      assert finalState[..] == BLANK_SWEEP.final;
    }

    lemma EmptyLists()
      requires Wired() && devices == []
      requires forall k :: k in switches ==> k.devices == [] && k.state == NoAdapter && k.Slots() == IDLE
      ensures Valid() && Views(devices) == [] && Chains() == seq(NUM_TYPES, _ => IDLE)
    {
    }

    // ---------- Devices ----------

    method FindDevice(index: int) returns (r: Radio?)
      requires Valid()
      ensures r == null <==> !Present(Views(devices), index)
      ensures r != null ==> r in devices && devices[Find(Views(devices), index)] == r && r.index == index
    {
      hide Mirrored, SwitchRefs, Refresh;
      r := null;
      for k := 0 to |devices|
        invariant forall j :: 0 <= j < k ==> devices[j].index != index
      {
        if devices[k].index == index {
          assert Find(Views(devices), index) == k;
          return devices[k];
        }
      }
    }

    /** The list and state of one killswitch, read off the arbitrator's list. */
    lemma SwitchOf(typ: int)
      requires Valid() && RadioType(typ)
      ensures Views(At(typ).devices) == Switch(Views(devices), typ)
      ensures At(typ).state == SwitchState(Views(devices), typ)
    {
      SwitchViews(devices, typ);
    }

    predicate HasDevices(): (some: bool)
      reads `devices, devices
      ensures some <==> Views(devices) != []
    {
      devices != []
    }

    method SetBlockIdx(index: int, block: bool)
      requires Valid()
      modifies `deviceAsks
      ensures Valid()
      ensures View() == old(View()).(deviceAsks := old(deviceAsks)
                          + if Present(Views(devices), index) then [DeviceAsk(index, block, None)] else [])
    {
      hide Wired, Mirrored, Views, Chains;
      var r := FindDevice(index);
      if r != null {
        deviceAsks := deviceAsks + [DeviceAsk(index, block, None)];
      }
    }

    method GetState(typ: int) returns (s: State)
      requires Valid() && 0 <= typ < NUM_TYPES
      modifies switches`state
      ensures Valid() && View() == old(View())
      ensures s == SwitchState(Views(devices), if typ == TYPE_ALL then TYPE_WLAN else typ)
    {
      var t := if typ == TYPE_ALL then TYPE_WLAN else typ;
      hide Wired, Mirrored, Views, Chains, SwitchRefs, Switch, Refresh;
      SwitchOf(t);
      s := At(t).GetState();
      SlotsOnly();
      assert Chains() == old(Chains());
    }

    // ---------- Requests ----------

    /** A change of killswitch slots alone keeps the lists and the device views. */
    twostate lemma SlotsOnly()
      requires old(Valid()) && devices == old(devices)
      requires forall r :: r in devices ==> unchanged(r)
      requires forall k :: k in switches ==> k.devices == old(k.devices) && k.state == old(k.state)
      ensures Valid() && Views(devices) == old(Views(devices))
    {
      hide Refresh, Views, Find;
      ViewsUnchanged(devices);
      forall typ | RadioType(typ) ensures Views(SwitchRefs(devices, typ)) == old(Views(SwitchRefs(devices, typ))) {
        ViewsUnchanged(SwitchRefs(devices, typ));
      }
    }

    /** A change of one killswitch's slots changes one chain. */
    twostate lemma OneSlot(typ: int)
      requires Wired() && RadioType(typ)
      requires forall k :: k in switches && k != At(typ) ==> k.Slots() == old(k.Slots())
      ensures Chains() == old(Chains())[typ := At(typ).Slots()]
    {
      hide Chains;
    }

    /** Hands a block request to the killswitch of a type. */
    method SetBlock(typ: int, block: bool, task: Option<Task>)
      requires Valid() && RadioType(typ)
      requires task.Some? ==> task.value.born == now
      modifies `asks, `deviceAsks, `idle, At(typ)`setBlockTask, At(typ)`node, At(typ)`pendingBlock
      ensures Valid()
      ensures View() == FlightMode.SetBlock(old(View()), typ, block, task)
    {
      hide Wired, Mirrored, Views, Chains, SwitchRefs, Switch, Refresh, Start;
      SwitchOf(typ);
      ghost var p := View();
      var ask, done := At(typ).SetSoftwareBlocked(block, task);
      SlotsOnly();
      OneSlot(typ);
      ghost var s := Start(p.chains[typ], Switch(p.devices, typ), block, task);
      assert View() == p.(chains := p.chains[typ := s.chain]);
      asks := asks + [Ask(typ, block, task.Some?)];
      deviceAsks := deviceAsks + if ask.Some? then [DeviceAsk(ask.value, block, Some(typ))] else [];
      idle := idle + Listed(done);
    }

    // ---------- The flight-mode sweep ----------

    /** Fills in the task data of one type. */
    method StoreSample(i: int, state: State, wanted: bool, task: Option<Task>)
      requires Valid() && RadioType(i)
      modifies `pendingBlockTask, initialState, finalState
      ensures Valid()
      ensures View() == old(View()).(sweep := old(SweepView()).(
                          initial := old(initialState[..])[i := state], final := old(finalState[..])[i := wanted],
                          pendingBlockTask := task))
    {
      hide Mirrored, Views, Chains;
      initialState[i] := state;
      finalState[i] := wanted;
      pendingBlockTask := task;
      SlotsOnly();
    }

    /** Samples the next type; returns whether the loop may go on at once. */
    method HandleFlightModeKillswitch(block: bool) returns (goOn: bool)
      requires Valid() && RadioType(blockIndex)
      modifies `blockIndex, `pendingBlockTask, `asks, `deviceAsks, `idle, initialState, finalState, switches
      ensures Valid()
      ensures goOn == (SwitchState(Views(devices), old(blockIndex)) == NoAdapter)
      ensures View() == Sample(old(View()), block)
    {
      hide Wired, Mirrored, Views, Chains, SwitchState, FlightMode.SetBlock;
      var i, state := SampleNext();
      goOn := state == NoAdapter;
      if goOn {
        StoreSample(i, state, block, pendingBlockTask);
      } else {
        var prevSoft := config.GetPrevSoft(i);
        AskAdapter(i, state, block || prevSoft);
      }
    }

    /** Moves on to the next type and reads its state. */
    method SampleNext() returns (i: int, state: State)
      requires Valid() && RadioType(blockIndex)
      modifies `blockIndex, switches`state
      ensures Valid() && i == old(blockIndex) && state == SwitchState(old(Views(devices)), i)
      ensures View() == old(View()).(sweep := old(SweepView()).(blockIndex := i + 1))
    {
      hide Wired, Mirrored, Views, Chains, SwitchState;
      i := blockIndex;
      blockIndex := blockIndex + 1;
      state := GetState(i);
    }

    /** The part of a sweep step for a type with an adapter: store the sample, hand out a task. */
    method AskAdapter(i: int, state: State, wanted: bool)
      requires Valid() && RadioType(i)
      modifies `pendingBlockTask, `asks, `deviceAsks, `idle, initialState, finalState, switches
      ensures Valid()
      ensures View() == FlightMode.SetBlock(
                          old(View()).(sweep := old(SweepView()).(
                            initial := old(initialState[..])[i := state], final := old(finalState[..])[i := wanted],
                            pendingBlockTask := Some(SweepTask(i, old(now))))),
                          i, wanted, Some(SweepTask(i, old(now))))
    {
      hide Wired, Mirrored, Views, Chains, FlightMode.SetBlock;
      var task := Some(SweepTask(i, now));
      StoreSample(i, state, wanted, task);
      SetBlock(i, wanted, task);
    }

    /** The loop over the remaining types. */
    method RunSweep(block: bool)
      requires Valid() && 0 < blockIndex <= NUM_TYPES
      modifies `blockIndex, `pendingBlockTask, `asks, `deviceAsks, `idle, initialState, finalState, switches
      ensures Valid()
      ensures View() == Advance(old(View()), block)
    {
      hide Wired, Mirrored, Views, Chains, SwitchState, Sample;
      ghost var target := Advance(View(), block);
      SampleCounts(View(), block);
      while blockIndex < NUM_TYPES
        invariant Valid() && 0 < blockIndex <= NUM_TYPES
        invariant Advance(View(), block) == target
        decreases NUM_TYPES - blockIndex
      {
        SampleCounts(View(), block);
        var goOn := HandleFlightModeKillswitch(block);
        if !goOn {
          return;
        }
      }
    }

    method ClearSamples()
      requires Wired()
      modifies initialState, finalState
      ensures initialState[..] == BLANK_SWEEP.initial && finalState[..] == BLANK_SWEEP.final
    {
      forall i | 0 <= i < initialState.Length { initialState[i] := Unblocked; }
      forall i | 0 <= i < finalState.Length { finalState[i] := false; }
    }

    /** Fresh task data and slots for a new sweep. */
    method ResetSweep(block: bool, task: Task)
      requires Valid()
      modifies `flightModeTask, `pendingBlockTask, `pendingBlock, `blockIndex, `mark, initialState, finalState
      ensures Valid()
      ensures View() == old(View()).(sweep := BLANK_SWEEP.(flightModeTask := Some(task), pendingBlock := block,
                                                           mark := |asks|))
    {
      hide Mirrored, Views, Chains;
      ClearSamples();
      flightModeTask, pendingBlockTask, pendingBlock := Some(task), None, block;
      mark, blockIndex := |asks|, 1;
      SlotsOnly();
      assert Chains() == old(Chains());
    }

    method SetFlightMode(block: bool, task: Task)
      requires Valid() && task.born == now
      modifies `flightModeTask, `pendingBlockTask, `pendingBlock, `blockIndex, `mark, `asks, `deviceAsks, `idle
      modifies initialState, finalState, switches
      ensures Valid()
      ensures View() == BeginSweep(old(View()), block, task)
    {
      hide Wired, Mirrored, Views, Chains, Advance;
      ResetSweep(block, task);
      RunSweep(block);
      if pendingBlockTask.None? {
        idle := idle + [Done(task, true)];
        flightModeTask := None;
      }
    }

    /** Asks the types below the failed one for their sampled states again. */
    method RestoreEarlier()
      requires Valid() && blockIndex <= NUM_TYPES
      modifies `asks, `deviceAsks, `idle, switches, config
      ensures Valid()
      ensures View() == Rollback(old(View()), 1)
    {
      hide Wired, Mirrored, Views, Chains, FlightMode.SetBlock;
      ghost var target := Rollback(View(), 1);
      var i := 1;
      while i < blockIndex
        invariant Valid() && 0 < i && (i <= blockIndex || i == 1)
        invariant Rollback(View(), i) == target
        decreases blockIndex - i
      {
        var was := initialState[i];
        if was != NoAdapter {
          SetBlock(i, was != Unblocked, None);
        } else {
          config.SetPersistState(i, false);
        }
        i := i + 1;
      }
    }

    /** Writes the history and the persisted states of a sweep that succeeded. */
    method RecordHistory()
      requires Valid()
      modifies config
      ensures Valid()
      ensures View() == old(View()).(saved := Record(config.options, old(config.saved), SweepView(), 1))
    {
      hide Wired, Mirrored, Views, Chains;
      ghost var s := SweepView();
      for i := 1 to NUM_TYPES
        invariant Valid() && View() == old(View()).(saved := config.saved)
        invariant Record(config.options, config.saved, s, i) == Record(config.options, old(config.saved), s, 1)
      {
        config.SetPrevSoft(i, pendingBlock && initialState[i] == SoftBlocked);
        config.SetPersistState(i, finalState[i]);
      }
    }

    /** Returns a task: it waits for a later dispatch if this one created it,
        otherwise its callback has to run at once. */
    method ReturnTask(task: Task, ok: bool) returns (nested: Option<Done>)
      requires Valid()
      modifies `idle
      ensures Valid() && Turn(View(), nested) == Return(old(View()), Done(task, ok))
    {
      hide Mirrored, Views, Chains;
      nested := None;
      if task.born == now {
        idle := idle + [Done(task, ok)];
      } else {
        nested := Some(Done(task, ok));
      }
    }

    /** Takes the oldest waiting completion. */
    method NextIdle() returns (done: Done)
      requires Valid() && idle != []
      modifies `idle
      ensures Valid() && done == old(idle)[0] && View() == old(View()).(idle := old(idle)[1..])
    {
      hide Mirrored, Views, Chains;
      done := idle[0];
      idle := idle[1..];
    }

    method SweepFailed() returns (nested: Option<Done>)
      requires Valid() && flightModeTask.Some? && 0 < blockIndex <= NUM_TYPES
      modifies `flightModeTask, `pendingBlockTask, `blockIndex, `asks, `deviceAsks, `idle, switches, config
      ensures Valid()
      ensures Turn(View(), nested) == SweepCallback(old(View()), false)
    {
      hide Wired, Mirrored, Views, Chains, Rollback;
      var task := flightModeTask.value;
      pendingBlockTask := None;
      blockIndex := blockIndex - 1;
      RestoreEarlier();
      flightModeTask := None;
      nested := ReturnTask(task, false);
    }

    method SweepWentOn() returns (nested: Option<Done>)
      requires Valid() && flightModeTask.Some? && 0 < blockIndex <= NUM_TYPES
      modifies `flightModeTask, `pendingBlockTask, `blockIndex, `asks, `deviceAsks, `idle, `history
      modifies initialState, finalState, switches, config
      ensures Valid()
      ensures Turn(View(), nested) == SweepCallback(old(View()), true)
    {
      hide Wired, Mirrored, Views, Chains, Advance, Record;
      var task := flightModeTask.value;
      pendingBlockTask := None;
      RunSweep(pendingBlock);
      nested := None;
      if pendingBlockTask.None? {
        Conclude();
        nested := ReturnTask(task, true);
      }
    }

    /** Every type has succeeded: write the history and free the slot. */
    method Conclude()
      requires Valid()
      modifies `flightModeTask, `history, config
      ensures Valid()
      ensures View() == old(View()).(
                          saved := Record(config.options, old(config.saved), old(SweepView()), 1),
                          sweep := old(SweepView()).(flightModeTask := None),
                          history := old(history) + [Committed(pendingBlock, initialState[..], AskedSince(asks, mark))])
    {
      hide Wired, Mirrored, Views, Chains, Record;
      RecordHistory();
      history := history + [Committed(pendingBlock, initialState[..], AskedSince(asks, mark))];
      flightModeTask := None;
    }

    /** The callback of the task a killswitch was given for the sweep. */
    method FlightModeCallback(ok: bool) returns (nested: Option<Done>)
      requires Valid() && flightModeTask.Some? && 0 < blockIndex <= NUM_TYPES
      modifies `flightModeTask, `pendingBlockTask, `blockIndex, `asks, `deviceAsks, `idle, `history
      modifies initialState, finalState, switches, config
      ensures Valid()
      ensures Turn(View(), nested) == SweepCallback(old(View()), ok)
    {
      if ok {
        nested := SweepWentOn();
      } else {
        nested := SweepFailed();
      }
    }

    /** The device a killswitch is asking has answered. */
    method DeviceAnswered(typ: int, ok: bool) returns (done: Option<Done>)
      requires Valid() && RadioType(typ) && 0 < View().chains[typ].node <= |Switch(View().devices, typ)|
      modifies `deviceAsks, At(typ)`setBlockTask, At(typ)`node, At(typ)`pendingBlock
      ensures Valid()
      ensures View() == AfterAnswer(old(View()), typ, ok) && done == ChainProgress(old(View()), typ, ok).done
    {
      hide Mirrored, Views, Chains, SwitchRefs, Switch, Refresh, Reply;
      SwitchOf(typ);
      ghost var p := View();
      var block := At(typ).pendingBlock;
      var ask, returned := At(typ).SoftBlockCallback(ok);
      SlotsOnly();
      OneSlot(typ);
      assert View() == p.(chains := p.chains[typ := ChainProgress(p, typ, ok).chain]);
      deviceAsks := deviceAsks + if ask.Some? then [DeviceAsk(ask.value, block, Some(typ))] else [];
      done := returned;
    }

    // ---------- Devices coming, going and changing ----------

    /** Every killswitch but the one of type typ is as before; that one was refreshed. */
    twostate predicate OnlyRefreshed(typ: int)
      requires Wired() && RadioType(typ)
      reads switches, At(typ).devices
    {
      && At(typ).state == Refresh(Views(At(typ).devices))
      && forall k :: k in switches && k != At(typ) ==> k.state == old(k.state) && k.devices == old(k.devices)
    }

    twostate lemma AppendedViews(r: Radio)
      requires devices == old(devices) + [r]
      requires forall x :: x in old(devices) ==> unchanged(x)
      ensures Views(devices) == old(Views(devices)) + [r.View()]
    {
      assert forall i :: 0 <= i < |old(devices)| ==> old(devices)[i] in old(devices);
    }

    twostate lemma Appended(r: Radio)
      requires old(Valid()) && devices == old(devices) + [r] && RadioType(r.typ)
      requires !Present(old(Views(devices)), r.index)
      requires forall x :: x in old(devices) ==> unchanged(x)
      requires OnlyRefreshed(r.typ) && At(r.typ).devices == [r] + old(At(r.typ).devices)
      ensures Valid() && Views(devices) == old(Views(devices)) + [r.View()]
      ensures Present(Views(devices), r.index)
    {
      AppendedViews(r);
      assert UniqueIndices(Views(devices)) && Present(Views(devices), r.index) by {
        hide Refresh, SwitchRefs, Views;
        PresentLast(old(Views(devices)), r.View());
      }
      forall typ | RadioType(typ)
        ensures At(typ).devices == SwitchRefs(devices, typ)
        ensures At(typ).state == Refresh(Views(SwitchRefs(devices, typ)))
      {
        hide Refresh, Find, Views, UniqueIndices;
        SwitchRefsAppend(old(devices), r, typ);
        if typ != r.typ {
          ViewsUnchanged(At(typ).devices);
        }
      }
    }

    lemma Unlisted(r: Radio)
      requires Valid() && !Present(Views(devices), r.index)
      ensures r !in devices
    {
      forall i | 0 <= i < |devices| ensures devices[i] != r {
        assert Views(devices)[i].index == devices[i].index;
      }
    }

    method Append(r: Radio)
      requires Valid() && RadioType(r.typ) && !Present(Views(devices), r.index)
      modifies `devices, switches`devices, switches`state
      ensures Valid() && Present(Views(devices), r.index) && devices == old(devices) + [r]
      ensures View() == old(View()).(devices := old(Views(devices)) + [r.View()])
    {
      hide Mirrored, Views, Chains, SwitchRefs, Refresh, Find;
      Unlisted(r);
      SwitchLists(r.typ);
      devices := devices + [r];
      At(r.typ).AddDevice(r);
      Appended(r);
    }

    lemma SwitchLists(typ: int)
      requires Valid() && RadioType(typ)
      ensures forall r :: r in At(typ).devices <==> r in devices && r.typ == typ
    {
      SwitchRefsElements(devices, typ);
    }

    /** What a device that has just been added is asked for. */
    method Greet(r: Radio)
      requires Valid() && Present(Views(devices), r.index)
      modifies `deviceAsks
      ensures Valid()
      ensures View() == old(View()).(deviceAsks := old(deviceAsks) + Greeting(config.options, config.saved, r.View()))
    {
      hide Wired, Mirrored, Views, Chains, Find;
      if config.options.forceSync && !r.platform {
        SetBlockIdx(r.index, r.soft);
      }
      if config.options.persist {
        var saved := config.GetPersistState(r.typ);
        SetBlockIdx(r.index, saved);
      }
    }

    /** urf_arbitrator_add_device; false if the index is taken. */
    method AddDevice(r: Radio) returns (added: bool)
      requires Valid() && RadioType(r.typ)
      modifies `devices, `deviceAsks, switches`devices, switches`state
      ensures Valid() && added == !Present(old(Views(devices)), r.index)
      ensures View() == Register(old(View()), r.View())
      ensures devices == if added then old(devices) + [r] else old(devices)
    {
      hide Wired, Mirrored, Views, Chains, Find, Greeting;
      var taken := FindDevice(r.index);
      added := taken == null;
      if added {
        Append(r);
        Greet(r);
      }
    }

    twostate lemma Removed(new r: Radio, k: nat)
      requires old(Valid()) && k < |old(devices)| && old(devices)[k] == r
      requires devices == old(devices)[..k] + old(devices)[k + 1..]
      requires forall x :: x in old(devices) ==> unchanged(x)
      requires RadioType(r.typ) && OnlyRefreshed(r.typ)
      requires At(r.typ).devices == Without(old(At(r.typ).devices), r)
      ensures Valid()
      ensures Views(devices) == old(Views(devices))[..k] + old(Views(devices))[k + 1..]
    {
      RemovedViews(k);
      OldViews();
      RemoveUnique(old(Views(devices)), k);
      forall typ | RadioType(typ)
        ensures At(typ).devices == SwitchRefs(devices, typ)
        ensures At(typ).state == Refresh(Views(SwitchRefs(devices, typ)))
      {
        hide Refresh, Find, Views, UniqueIndices;
        SwitchWithout(old(devices), k, typ);
        if typ != r.typ {
          ViewsUnchanged(At(typ).devices);
        }
      }
    }

    lemma SwitchWithout(radios: seq<Radio>, k: nat, typ: int)
      requires UniqueIndices(Views(radios)) && k < |radios|
      ensures SwitchRefs(radios[..k] + radios[k + 1..], typ)
        == (if radios[k].typ == typ then Without(SwitchRefs(radios, typ), radios[k]) else SwitchRefs(radios, typ))
    {
      assert radios == radios[..k] + [radios[k]] + radios[k + 1..];
      assert forall i :: 0 <= i < |radios| ==> Views(radios)[i].index == radios[i].index;
      assert forall i :: 0 <= i < |radios| && i != k ==> radios[i].index != radios[k].index;
      SwitchRefsWithout(radios[..k], radios[k], radios[k + 1..], typ);
    }

    twostate lemma OldViews()
      requires forall x :: x in old(devices) ==> unchanged(x)
      ensures Views(old(devices)) == old(Views(devices))
    {
      assert forall i :: 0 <= i < |old(devices)| ==> old(devices)[i] in old(devices);
    }

    twostate lemma RemovedViews(k: nat)
      requires k < |old(devices)| && devices == old(devices)[..k] + old(devices)[k + 1..]
      requires forall x :: x in old(devices) ==> unchanged(x)
      ensures Views(devices) == old(Views(devices))[..k] + old(Views(devices))[k + 1..]
    {
      assert forall i :: 0 <= i < |old(devices)| ==> old(devices)[i] in old(devices);
    }

    /** remove_killswitch. */
    method RemoveKillswitch(index: int)
      requires Valid()
      modifies `devices, switches`devices, switches`state
      ensures Valid() && View() == Unregister(old(View()), index)
      ensures forall x :: x in devices ==> x in old(devices)
    {
      hide Wired, Mirrored, Views, Chains, Find;
      var r := FindDevice(index);
      if r != null {
        Forget(r, Find(Views(devices), index));
      }
    }

    /** urf_arbitrator_remove_device: drops this very device, if the list has it;
        another one under the same index stays. */
    method RemoveDevice(r: Radio)
      requires Valid()
      modifies `devices, switches`devices, switches`state
      ensures Valid() && devices == Without(old(devices), r) && r !in devices
      ensures View() == if r in old(devices) then Unregister(old(View()), r.index) else old(View())
    {
      hide Wired, Mirrored, Views, Chains, Find, Without;
      var found := FindDevice(r.index);
      if r in devices {
        Located(r);
      }
      if found != null && r in devices {
        Forget(r, Find(Views(devices), r.index));
      } else {
        WithoutNothing(devices, r);
      }
    }

    /** Takes a device out of the arbitrator's list and out of its killswitch. */
    method Forget(r: Radio, ghost k: nat)
      requires Valid() && k < |devices| && devices[k] == r
      modifies `devices, switches`devices, switches`state
      ensures Valid()
      ensures View() == old(View()).(devices := old(Views(devices))[..k] + old(Views(devices))[k + 1..])
      ensures devices == Without(old(devices), r) && r !in devices
    {
      hide Mirrored, Views, Chains, SwitchRefs, Refresh, Without;
      ListedOnce(k);
      SwitchLists(r.typ);
      devices := Without(devices, r);
      At(r.typ).DelDevice(r);
      Removed(r, k);
    }

    lemma ListedOnce(k: nat)
      requires Valid() && k < |devices|
      ensures RadioType(devices[k].typ)
      ensures Without(devices, devices[k]) == devices[..k] + devices[k + 1..]
      ensures devices[k] !in Without(devices, devices[k])
    {
      hide Refresh, SwitchRefs, Wired;
      assert forall i :: 0 <= i < |devices| ==> Views(devices)[i].index == devices[i].index;
      assert devices == devices[..k] + [devices[k]] + devices[k + 1..];
      assert forall i :: 0 <= i < k ==> devices[i].index != devices[k].index;
      WithoutMiddle(devices[..k], devices[k], devices[k + 1..]);
    }

    twostate lemma UpdatedViews(new r: Radio, k: nat)
      requires old(UniqueIndices(Views(devices))) && devices == old(devices) && k < |devices| && devices[k] == r
      requires forall x :: x in devices && x != r ==> unchanged(x)
      ensures UniqueIndices(Views(devices)) && Views(devices) == old(Views(devices))[k := r.View()]
    {
      hide Find;
      assert forall i :: 0 <= i < |devices| ==>
        devices[i] in devices && old(Views(devices))[i].index == devices[i].index;
      assert forall i :: 0 <= i < |devices| && i != k ==> devices[i] != r;
    }

    twostate lemma Updated(new r: Radio, k: nat)
      requires old(Valid()) && devices == old(devices) && k < |devices| && devices[k] == r
      requires forall x :: x in devices && x != r ==> unchanged(x)
      requires RadioType(r.typ) && OnlyRefreshed(r.typ) && At(r.typ).devices == old(At(r.typ).devices)
      ensures Valid() && Views(devices) == old(Views(devices))[k := r.View()]
    {
      UpdatedViews(r, k);
      forall typ | RadioType(typ)
        ensures At(typ).devices == SwitchRefs(devices, typ)
        ensures At(typ).state == Refresh(Views(SwitchRefs(devices, typ)))
      {
        hide Refresh, Find, Views, UniqueIndices;
        if typ != r.typ {
          ViewsUnchanged(At(typ).devices);
        }
      }
    }

    /** Overwrites a device's bits, and refreshes its killswitch if they changed. */
    method UpdateRadio(r: Radio, soft: bool, hard: bool) returns (changed: bool)
      requires Valid() && r in devices
      modifies r, switches`state
      ensures Valid() && changed == (r.View() != old(r.View()))
      ensures r.View() == old(r.View()).(soft := soft, hard := hard)
      ensures View() == old(View()).(devices := UpdateDevice(old(Views(devices)), r.index, soft, hard))
    {
      hide Mirrored, Views, Chains, SwitchRefs, Refresh, Find;
      ghost var k := Find(Views(devices), r.index);
      Located(r);
      UpdateNothing(r);
      changed := r.UpdateStates(soft, hard);
      if changed {
        At(r.typ).StateRefresh();
      } else {
        ViewsUnchanged(At(r.typ).devices);
      }
      Updated(r, k);
    }

    lemma UpdateNothing(r: Radio)
      requires Valid() && r in devices
      ensures At(r.typ).state == Refresh(Views(At(r.typ).devices))
    {
    }

    lemma Located(r: Radio)
      requires Valid() && r in devices
      ensures var k := Find(Views(devices), r.index); k < |devices| && devices[k] == r && Views(devices)[k] == r.View()
      ensures RadioType(r.typ)
    {
      hide Refresh, SwitchRefs, Wired;
      var k :| 0 <= k < |devices| && devices[k] == r;
      assert Views(devices)[k].index == r.index;
    }

    /** Keeps soft and hard blocks in step: what force_sync asks of a changed device. */
    method Synchronise(index: int, wasHard: bool, soft: bool, hard: bool)
      requires Valid() && Present(Views(devices), index)
      modifies `deviceAsks
      ensures Valid()
      ensures View() == old(View()).(deviceAsks := old(deviceAsks) + Requested(index, SyncRequest(wasHard, soft, hard)))
    {
      hide Mirrored, Views, Chains, Find;
      if hard && !soft {
        SetBlockIdx(index, true);
      } else if hard != wasHard && !hard {
        SetBlockIdx(index, false);
      }
    }

    /** update_killswitch. */
    method UpdateKillswitch(index: int, soft: bool, hard: bool)
      requires Valid()
      modifies `deviceAsks, devices, switches`state, config
      ensures Valid() && View() == Changed(old(View()), index, soft, hard)
    {
      hide Mirrored, Views, Chains, SwitchRefs, Refresh, Find, UpdateDevice, SyncRequest, Persistence.SetPersistState;
      var r := FindDevice(index);
      if r == null {
        return;
      }
      Located(r);
      StillPresent(Views(devices), index, soft, hard);
      ghost var p, d := View(), r.View();
      var wasHard := r.hard;
      var changed := UpdateRadio(r, soft, hard);
      assert changed == !(d.soft == soft && d.hard == hard) && d == Lookup(p.devices, index);
      if changed {
        if config.options.forceSync {
          Synchronise(index, wasHard, soft, hard);
        } else {
          config.SetPersistState(r.typ, soft);
        }
      } else {
        UpdateSame(p.devices, index);
      }
    }

    /** A modem's Online property changed. */
    method ModemOnline(index: int, soft: bool)
      requires Valid()
      modifies devices, switches`state
      ensures Valid() && View() == OnlineChanged(old(View()), index, soft)
    {
      hide Mirrored, Views, Chains, SwitchRefs, Refresh, UpdateDevice;
      var r := FindDevice(index);
      if r != null {
        Located(r);
        var changed := UpdateRadio(r, soft, r.hard);
      }
    }

    /** process_event. */
    method ProcessEvent(ev: KernelEvent)
      requires Valid() && (ev.Add? ==> RadioType(ev.typ))
      modifies `devices, `deviceAsks, devices, switches`devices, switches`state, config
      ensures Valid() && View() == Process(old(View()), ev)
      ensures forall x :: x in devices ==> x in old(devices) || fresh(x)
    {
      hide Mirrored, Views, Chains, Register, Unregister, Changed;
      match ev
      case Add(index, typ, soft, hard, platform) =>
        if 0 <= index {
          var r := new Radio(Device(index, typ, platform, soft, hard));
          var added := AddDevice(r);
        }
      case Del(index) => RemoveKillswitch(index);
      case Change(index, soft, hard) => UpdateKillswitch(index, soft, hard);
    }
  }

  twostate lemma ViewsUnchanged(radios: seq<Radio>)
    requires forall x :: x in radios ==> old(allocated(x)) && x.View() == old(x.View())
    ensures Views(radios) == old(Views(radios))
  {
    assert forall i :: 0 <= i < |radios| ==> radios[i] in radios;
  }

  lemma StillPresent(devices: seq<Device>, index: int, soft: bool, hard: bool)
    requires Present(devices, index)
    ensures Present(UpdateDevice(devices, index, soft, hard), index)
  {
    assert UpdateDevice(devices, index, soft, hard)[Find(devices, index)].index == index;
  }

  lemma RemoveUnique(devices: seq<Device>, k: nat)
    requires UniqueIndices(devices) && k < |devices|
    ensures UniqueIndices(devices[..k] + devices[k + 1..])
  {
  }

  lemma PresentLast(devices: seq<Device>, d: Device)
    requires UniqueIndices(devices) && !Present(devices, d.index)
    ensures UniqueIndices(devices + [d]) && Present(devices + [d], d.index)
  {
    assert (devices + [d])[|devices|].index == d.index;
  }

  lemma SampleCounts(p: Plant, block: bool)
    requires Shape(p)
    ensures RadioType(p.sweep.blockIndex) ==>
      Sample(p, block).sweep.blockIndex == p.sweep.blockIndex + 1 && Shape(Sample(p, block))
  {
  }
}
