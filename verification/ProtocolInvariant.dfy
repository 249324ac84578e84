/** What every dispatch of the daemon keeps. */
module ProtocolInvariant {
  import opened Common
  import opened KillswitchState
  import opened DeviceMirror
  import opened DeviceChain
  import opened Persistence
  import opened FlightMode
  import opened DeviceEvents
  import opened DaemonProtocol

  // ---------- The invariant ----------

  ghost predicate DevicesOk(devices: seq<Device>) {
    && UniqueIndices(devices)
    && forall d :: d in devices ==> RadioType(d.typ) && 0 <= d.index
  }

  ghost predicate ChainOk(c: Chain, devices: seq<Device>, typ: int) {
    c.node <= |Switch(devices, typ)| && (c.task.Some? ==> c.node > 0)
  }

  /** Running chains point into their killswitch's list; slot 0 is never used. */
  ghost predicate SlotsOk(p: Plant) {
    && Shape(p) && DevicesOk(p.devices) && Idle(p.chains[0])
    && forall i :: 0 <= i < NUM_TYPES ==> ChainOk(p.chains[i], p.devices, i)
  }

  ghost predicate NoSweep(p: Plant) {
    p.sweep.flightModeTask.None? && p.sweep.pendingBlockTask.None?
  }

  /** Only the killswitch of type typ has anything pending. */
  ghost predicate Only(p: Plant, typ: int)
    requires Shape(p)
  {
    forall i :: 0 <= i < NUM_TYPES && i != typ ==> Idle(p.chains[i])
  }

  /** A Block operation waits for its killswitch's chain, or for the deferred
      completion of a killswitch that had no device. */
  ghost predicate Blocking(p: Plant, typ: int, block: bool)
    requires Shape(p)
  {
    RadioType(typ) && Only(p, typ)
    && var c := p.chains[typ];
    if p.idle == []
    then c.task.Some? && c.task.value.BlockTask? && c.task.value.typ == typ && c.node > 0 && c.block == block
    else Idle(c) && |p.idle| == 1 && p.idle[0].ok && p.idle[0].task.BlockTask? && p.idle[0].task.typ == typ
  }

  /** At most one operation is in progress; the slots of all others are empty
      and pendingBlock is the argument of the call that is to be answered. */
  ghost predicate OperationOk(w: World)
    requires Shape(w.plant)
  {
    var p := w.plant;
    match w.invocation
    case None => NoSweep(p) && Untracked(p) && p.idle == [] && w.deviceTask.None?
    case Some(Call(_, Block(typ, block))) =>
      NoSweep(p) && w.deviceTask.None? && w.pendingBlock == block && Blocking(p, typ, block)
    case Some(Call(_, BlockIdx(index, block))) =>
      && NoSweep(p) && AllIdle(p) && p.idle == [] && w.pendingBlock == block
      && w.deviceTask.Some? && w.deviceTask.value.BlockIdxTask? && w.deviceTask.value.index == index
      && Present(p.devices, index)
    case Some(Call(_, SetFlightMode(block))) =>
      && Waiting(p) && p.idle == [] && w.deviceTask.None?
      && w.pendingBlock == block == p.sweep.pendingBlock && block != w.flightMode
      && p.sweep.flightModeTask.value.FlightModeTask?
  }

  /** Every stored task was created by this dispatch or an earlier one. */
  ghost predicate Dated(w: World)
    requires Shape(w.plant)
  {
    var p := w.plant;
    && (forall i :: 0 <= i < NUM_TYPES && p.chains[i].task.Some? ==> p.chains[i].task.value.born <= p.now)
    && (p.sweep.flightModeTask.Some? ==> p.sweep.flightModeTask.value.born <= p.now)
    && (w.deviceTask.Some? ==> w.deviceTask.value.born <= p.now)
    && (forall d :: d in p.idle ==> d.task.born <= p.now)
  }

  /** Whether the latest successful sweep entered flight mode and sampled the type as soft blocked. */
  ghost predicate Recalled(cfg: Config, history: seq<Committed>, typ: int) {
    && !Shielded(cfg, typ) && history != []
    && var last := history[|history| - 1];
    last.block && 0 <= typ < |last.initial| && last.initial[typ] == SoftBlocked
  }

  /** What sweep n wanted for each type, judged from the sweeps before it. */
  ghost function WantedAt(cfg: Config, history: seq<Committed>, n: nat): (r: seq<bool>)
    requires n < |history| && |history[n].initial| == NUM_TYPES
    ensures |r| == NUM_TYPES
  {
    seq(NUM_TYPES, i requires 0 <= i < NUM_TYPES =>
      history[n].block || (history[n].initial[i] != NoAdapter && Recalled(cfg, history[..n], i)))
  }

  /** Successful sweeps alternate, starting with an enter, and each asked for
      every type with an adapter, in order, what its predecessor calls for. */
  ghost predicate HistoryLaw(cfg: Config, history: seq<Committed>) {
    forall n :: 0 <= n < |history| ==>
      && |history[n].initial| == NUM_TYPES
      && history[n].block == (n % 2 == 0)
      && history[n].asks == SweepAsks(history[n].initial, WantedAt(cfg, history, n), NUM_TYPES)
  }

  /** The saved file and the flag agree with the history of successful sweeps. */
  ghost predicate HistoryOk(w: World) {
    var p := w.plant;
    && HistoryLaw(p.cfg, p.history)
    && w.flightMode == (|p.history| % 2 == 1)
    && w.flightMode == Entry(p.saved.soft, TYPE_ALL)
    && (forall typ :: RadioType(typ) ==> GetPrevSoft(p.cfg, p.saved, typ) == Recalled(p.cfg, p.history, typ))
  }

  ghost predicate Answered(answers: seq<Reply>, id: nat) {
    exists i :: 0 <= i < |answers| && answers[i].id == id
  }

  ghost predicate Pending(w: World, id: nat) {
    w.invocation.Some? && w.invocation.value.id == id
  }

  ghost function Indicator(b: bool): nat {
    if b then 1 else 0
  }

  /** In how many of these classes a call is: answered, pending, refused at the
      gate without a reply, cut off by a restart. */
  ghost function Classes(w: World, id: nat): nat {
    Indicator(Answered(w.answers, id)) + Indicator(Pending(w, id))
    + Indicator(id in w.dropped) + Indicator(id in w.lost)
  }

  /** No call is answered twice, and every call so far is in exactly one class. */
  ghost predicate AnswersOk(w: World) {
    && (forall i, j :: 0 <= i < j < |w.answers| ==> w.answers[i].id != w.answers[j].id)
    && (forall id: nat :: Classes(w, id) == Indicator(id < w.calls))
  }

  ghost predicate Core(w: World) {
    SlotsOk(w.plant) && OperationOk(w) && Dated(w) && HistoryOk(w)
  }

  ghost predicate Inv(w: World) {
    Core(w) && AnswersOk(w)
  }

  lemma BootInv(cfg: Config)
    ensures Inv(Boot(cfg))
  {
  }

  /** No assertion or dereference in a handler can fail. */
  lemma NeverUndefined(w: World, ev: Event)
    requires Inv(w) && Enabled(w, ev)
    ensures Defined(w, ev)
  {
  }

  /** A device request that is outstanding is superseded by none: until its reply
      the killswitch waits for the same device with the same task. */
  lemma OutstandingStays(w: World, ev: Event, typ: int)
    requires Inv(w) && Enabled(w, ev) && Defined(w, ev) && !ev.Restart?
    requires RadioType(typ) && w.plant.chains[typ].node > 0 && !(ev.DeviceReply? && ev.typ == typ)
    ensures |Dispatch(w, ev).plant.chains| == NUM_TYPES
    ensures Dispatch(w, ev).plant.chains[typ] == w.plant.chains[typ]
  {
    hide HistoryOk, AnswersOk, Refresh;
    if ev.DeviceReply? {
      TwoChains(w, ev.typ, typ);
    }
  }

  /** Two chains run at once only while a rollback's requests drain, which no task waits for. */
  lemma TwoChains(w: World, i: int, j: int)
    requires Inv(w) && RadioType(i) && RadioType(j) && i != j
    requires w.plant.chains[i].node > 0 && w.plant.chains[j].node > 0
    ensures w.plant.chains[i].task.None?
  {
    hide HistoryOk, AnswersOk, Refresh;
  }

  // ---------- Devices come, go and change ----------

  lemma NextDispatchCore(w: World)
    requires Core(w)
    ensures Core(NextDispatch(w))
  {
  }

  /** An event that touches only the device list, the device requests and the
      saved soft states of radio types disturbs nothing that is pending. */
  lemma DevicesMoved(w: World, q: Plant)
    requires Core(w)
    requires q == w.plant.(devices := q.devices, deviceAsks := q.deviceAsks, saved := q.saved)
    requires q.saved.prevSoft == w.plant.saved.prevSoft
    requires Entry(q.saved.soft, TYPE_ALL) == Entry(w.plant.saved.soft, TYPE_ALL)
    requires DevicesOk(q.devices)
    requires forall i :: 0 <= i < NUM_TYPES ==> ChainOk(q.chains[i], q.devices, i)
    requires w.deviceTask.Some? && w.deviceTask.value.BlockIdxTask? ==> Present(q.devices, w.deviceTask.value.index)
    ensures Core(w.(plant := q))
  {
    assert Progressed(w.plant) ==> Progressed(q);
  }

  lemma AppendKeeps(devices: seq<Device>, d: Device, c: Chain, typ: int)
    requires ChainOk(c, devices, typ)
    ensures ChainOk(c, devices + [d], typ)
  {
    SwitchAppend(devices, d, typ);
  }

  lemma RegisterCore(w: World, d: Device)
    requires Core(w) && RadioType(d.typ) && 0 <= d.index
    ensures Core(w.(plant := Register(w.plant, d)))
  {
    if !Present(w.plant.devices, d.index) {
      var q := Register(w.plant, d);
      forall i | 0 <= i < NUM_TYPES ensures ChainOk(q.chains[i], q.devices, i) {
        AppendKeeps(w.plant.devices, d, q.chains[i], i);
      }
      if w.deviceTask.Some? && w.deviceTask.value.BlockIdxTask? {
        PresentAfterAppend(w.plant.devices, d, w.deviceTask.value.index);
      }
      DevicesMoved(w, q);
    }
  }

  lemma PresentAfterAppend(devices: seq<Device>, d: Device, index: int)
    requires Present(devices, index)
    ensures Present(devices + [d], index)
  {
    assert (devices + [d])[Find(devices, index)].index == index;
  }

  lemma RemoveKeeps(devices: seq<Device>, index: int, c: Chain, typ: int)
    requires Present(devices, index) && ChainOk(c, devices, typ)
    requires Lookup(devices, index).typ == typ ==> c.node == 0
    ensures ChainOk(c, RemoveDevice(devices, index), typ)
  {
    SwitchRemove(devices, Find(devices, index), typ);
  }

  lemma RemovePresent(devices: seq<Device>, index: int, other: int)
    requires Present(devices, index) && Present(devices, other) && other != index
    ensures Present(RemoveDevice(devices, index), other)
  {
    var k, j := Find(devices, index), Find(devices, other);
    var after := devices[..k] + devices[k + 1..];
    assert RemoveDevice(devices, index) == after;
    assert after[if j < k then j else j - 1] == devices[j];
  }

  lemma RemoveDevicesOk(devices: seq<Device>, k: nat)
    requires k < |devices| && DevicesOk(devices)
    ensures DevicesOk(devices[..k] + devices[k + 1..])
  {
    var after := devices[..k] + devices[k + 1..];
    forall i, j | 0 <= i < j < |after| ensures after[i].index != after[j].index {
      assert after[i] == devices[if i < k then i else i + 1];
      assert after[j] == devices[if j < k then j else j + 1];
    }
    forall d | d in after ensures d in devices {
      var i :| 0 <= i < |after| && after[i] == d;
      assert d == devices[if i < k then i else i + 1];
    }
  }

  lemma UnregisterCore(w: World, index: int)
    requires Core(w) && MayLeave(w, index)
    ensures Core(w.(plant := Unregister(w.plant, index)))
  {
    var devices := w.plant.devices;
    if Present(devices, index) {
      var q := Unregister(w.plant, index);
      assert Lookup(devices, index) in devices;
      RemoveDevicesOk(devices, Find(devices, index));
      forall i | 0 <= i < NUM_TYPES ensures ChainOk(q.chains[i], q.devices, i) {
        RemoveKeeps(devices, index, q.chains[i], i);
      }
      if w.deviceTask.Some? && w.deviceTask.value.BlockIdxTask? {
        RemovePresent(devices, index, w.deviceTask.value.index);
      }
      DevicesMoved(w, q);
    }
  }

  lemma UpdateKeeps(w: World, q: Plant, index: int, soft: bool, hard: bool)
    requires Core(w) && Present(w.plant.devices, index)
    requires q == w.plant.(devices := q.devices, deviceAsks := q.deviceAsks, saved := q.saved)
    requires q.devices == UpdateDevice(w.plant.devices, index, soft, hard)
    requires q.saved.prevSoft == w.plant.saved.prevSoft
    requires Entry(q.saved.soft, TYPE_ALL) == Entry(w.plant.saved.soft, TYPE_ALL)
    ensures Core(w.(plant := q))
  {
    var devices, k := w.plant.devices, Find(w.plant.devices, index);
    var d := devices[k].(soft := soft, hard := hard);
    assert q.devices == devices[k := d];
    assert devices[k] in devices;
    forall i | 0 <= i < NUM_TYPES ensures ChainOk(q.chains[i], q.devices, i) {
      SwitchUpdate(devices, k, d, i);
    }
    if w.deviceTask.Some? && w.deviceTask.value.BlockIdxTask? {
      var j := Find(devices, w.deviceTask.value.index);
      assert q.devices[j].index == devices[j].index;
    }
    DevicesMoved(w, q);
  }

  lemma ChangedCore(w: World, index: int, soft: bool, hard: bool)
    requires Core(w)
    ensures Core(w.(plant := Changed(w.plant, index, soft, hard)))
  {
    var q := Changed(w.plant, index, soft, hard);
    if q != w.plant {
      var d := Lookup(w.plant.devices, index);
      assert d in w.plant.devices;
      UpdateKeeps(w, q, index, soft, hard);
    }
  }

  lemma OnlineCore(w: World, index: int, soft: bool)
    requires Core(w)
    ensures Core(w.(plant := OnlineChanged(w.plant, index, soft)))
  {
    if Present(w.plant.devices, index) {
      UpdateKeeps(w, OnlineChanged(w.plant, index, soft), index, soft, Lookup(w.plant.devices, index).hard);
    }
  }

  lemma ProcessCore(w: World, ev: KernelEvent)
    requires Core(w)
    requires ev.Add? ==> RadioType(ev.typ)
    requires ev.Del? ==> MayLeave(w, ev.index)
    ensures Core(w.(plant := Process(w.plant, ev)))
  {
    match ev
    case Add(index, typ, soft, hard, platform) =>
      if 0 <= index { RegisterCore(w, Device(index, typ, platform, soft, hard)); }
    case Del(index) => UnregisterCore(w, index);
    case Change(index, soft, hard) => ChangedCore(w, index, soft, hard);
  }

  lemma SameCalls(w: World, v: World)
    requires AnswersOk(w) && v.invocation == w.invocation && v.calls == w.calls
    requires v.answers == w.answers && v.dropped == w.dropped && v.lost == w.lost
    ensures AnswersOk(v)
  {
    forall id: nat ensures Classes(v, id) == Indicator(id < v.calls) {
      assert Classes(w, id) == Indicator(id < w.calls);
    }
  }

  lemma DeviceEventInv(w: World, ev: Event)
    requires Inv(w) && Enabled(w, ev)
    requires ev.Kernel? || ev.ModemOn? || ev.ModemOff? || ev.ModemOnline?
    ensures Inv(Dispatch(w, ev))
  {
    NextDispatchCore(w);
    SameCalls(w, Dispatch(w, ev));
    var v := NextDispatch(w);
    if ev.Kernel? {
      ProcessCore(v, ev.event);
    } else if ev.ModemOn? {
      RegisterCore(v, ev.device);
    } else if ev.ModemOff? {
      UnregisterCore(v, ev.index);
    } else {
      OnlineCore(v, ev.index, ev.soft);
    }
  }

  // ---------- Calls and answers ----------

  lemma AnsweredSnoc(answers: seq<Reply>, r: Reply, id: nat)
    ensures Answered(answers + [r], id) == (Answered(answers, id) || r.id == id)
  {
    assert (answers + [r])[|answers|] == r;
    if i :| 0 <= i < |answers| && answers[i].id == id {
      assert (answers + [r])[i].id == id;
    }
  }

  lemma AnswerNow(w: World, outcome: Outcome)
    requires AnswersOk(w)
    ensures AnswersOk(Answer(w, w.calls, outcome).(calls := w.calls + 1))
  {
    var v := Answer(w, w.calls, outcome).(calls := w.calls + 1);
    assert Classes(w, w.calls) == 0;
    forall id: nat ensures Classes(v, id) == Indicator(id < v.calls) {
      assert Classes(w, id) == Indicator(id < w.calls);
      AnsweredSnoc(w.answers, Reply(w.calls, outcome), id);
    }
  }

  lemma DropNow(w: World)
    requires AnswersOk(w)
    ensures AnswersOk(w.(dropped := w.dropped + {w.calls}, calls := w.calls + 1))
  {
    var v := w.(dropped := w.dropped + {w.calls}, calls := w.calls + 1);
    forall id: nat ensures Classes(v, id) == Indicator(id < v.calls) {
      assert Classes(w, id) == Indicator(id < w.calls);
    }
  }

  lemma OccupyAnswers(w: World, v: World, request: Request)
    requires AnswersOk(w) && w.invocation.None?
    requires v.invocation == Some(Call(w.calls, request)) && v.calls == w.calls + 1
    requires v.answers == w.answers && v.dropped == w.dropped && v.lost == w.lost
    ensures AnswersOk(v)
  {
    forall id: nat ensures Classes(v, id) == Indicator(id < v.calls) {
      assert Classes(w, id) == Indicator(id < w.calls);
    }
  }

  lemma FinishAnswers(w: World, v: World, ok: bool)
    requires AnswersOk(w) && w.invocation.Some?
    requires v.invocation.None? && v.calls == w.calls && v.dropped == w.dropped && v.lost == w.lost
    requires v.answers == w.answers + [Reply(w.invocation.value.id, if ok then Succeeded else Failed)]
    ensures AnswersOk(v)
  {
    var pending := w.invocation.value.id;
    assert Pending(w, pending) && Classes(w, pending) == Indicator(pending < w.calls);
    assert !Answered(w.answers, pending);
    forall id: nat ensures Classes(v, id) == Indicator(id < v.calls) {
      assert Classes(w, id) == Indicator(id < w.calls);
      AnsweredSnoc(w.answers, Reply(pending, if ok then Succeeded else Failed), id);
    }
  }

  // ---------- Starting an operation ----------

  lemma LaunchBlock(w: World, typ: int, block: bool)
    requires Core(w) && w.invocation.None? && AllIdle(w.plant) && RadioType(typ)
    ensures Core(Launch(w, Block(typ, block)))
  {
  }

  lemma LaunchBlockIdx(w: World, index: int, block: bool)
    requires Core(w) && w.invocation.None? && AllIdle(w.plant) && Present(w.plant.devices, index)
    ensures Core(Launch(w, BlockIdx(index, block)))
  {
  }

  /** The sweep the daemon starts: a device is present, so some killswitch has an
      adapter and the completion for "all adapters missing" is never reached. */
  lemma SweepFindsAdapter(p: Plant, block: bool, task: Task)
    requires SlotsOk(p) && AllIdle(p) && p.devices != [] && task.born == p.now && task.FlightModeTask?
    ensures var q := BeginSweep(p, block, task);
      && Waiting(q) && q.idle == p.idle && q.sweep.flightModeTask == Some(task)
      && q.sweep.pendingBlock == block && q.sweep.pendingBlockTask.value.born == p.now
      && q.cfg == p.cfg && q.now == p.now && q.devices == p.devices && q.saved == p.saved && q.history == p.history
      && q.chains[q.sweep.blockIndex - 1].node <= |Switch(p.devices, q.sweep.blockIndex - 1)|
  {
    hide Refresh, Wanted;
    var blank := BLANK_SWEEP.(flightModeTask := Some(task), pendingBlock := block, mark := |p.asks|);
    var start := p.(sweep := blank);
    assert p.asks[|p.asks|..] == [];
    assert Between(start);
    AdvanceEffect(start);
    SomeAdapter(p.devices);
    var typ :| RadioType(typ) && SwitchState(p.devices, typ) != NoAdapter;
    assert Advance(start, block).sweep.pendingBlockTask.Some?;
  }

  lemma LaunchFlightMode(w: World, block: bool)
    requires Core(w) && w.invocation.None? && AllIdle(w.plant) && w.plant.devices != [] && w.flightMode != block
    ensures Core(Launch(w, SetFlightMode(block)))
  {
    hide BeginSweep, Progressed, Refresh, HistoryLaw, Recalled;
    var v := Occupy(w, SetFlightMode(block));
    SweepFindsAdapter(v.plant, block, FlightModeTask(v.plant.now));
  }

  lemma AdmittedCore(w: World, request: Request, authorized: bool)
    requires Core(w) && w.plant.devices != [] && (request.Block? ==> 0 < request.typ)
    requires w.invocation.None? ==> AllIdle(w.plant)
    ensures Core(Admitted(w, request, authorized))
  {
    if Refusal(w, request, authorized).None? && !Satisfied(w, request) {
      match request
      case Block(typ, block) => LaunchBlock(w, typ, block);
      case BlockIdx(index, block) => LaunchBlockIdx(w, index, block);
      case SetFlightMode(block) => LaunchFlightMode(w, block);
    }
  }

  lemma InvokeAnswers(w: World, request: Request, authorized: bool)
    requires Shape(w.plant) && AnswersOk(w) && (request.Block? ==> request.typ != TYPE_ALL)
    ensures AnswersOk(Method(w, request, authorized))
  {
    if (request.Block? && request.typ < 0) || w.plant.devices == [] {
      DropNow(w);
    } else if Refusal(w, request, authorized).Some? {
      AnswerNow(w, Refusal(w, request, authorized).value);
    } else if Satisfied(w, request) {
      AnswerNow(w, Succeeded);
    } else {
      OccupyAnswers(w, Method(w, request, authorized), request);
    }
  }

  lemma InvokeInv(w: World, request: Request, authorized: bool)
    requires Inv(w) && (request.Block? ==> request.typ != TYPE_ALL)
    requires w.invocation.None? ==> AllIdle(w.plant)
    ensures Inv(Method(w, request, authorized))
  {
    InvokeAnswers(w, request, authorized);
    if !((request.Block? && request.typ < 0) || w.plant.devices == []) {
      AdmittedCore(w, request, authorized);
    }
  }

  // ---------- Ending an operation ----------

  /** Persisting an entry other than the history's keeps the history. */
  lemma PersistHistory(w: World, typ: int)
    requires HistoryOk(w) && typ != TYPE_ALL
    ensures HistoryOk(Persist(w, typ))
  {
  }

  /** The pending call has been answered, and nothing else has. */
  ghost predicate CallReplied(w: World, v: World, outcome: Outcome)
    requires w.invocation.Some?
  {
    v.invocation.None? && v.answers == w.answers + [Reply(w.invocation.value.id, outcome)] && v.calls == w.calls
  }

  ghost predicate StillPending(w: World, v: World) {
    v.invocation == w.invocation && v.answers == w.answers && v.calls == w.calls
  }

  /** The end of a Block or BlockIdx operation, once its slots are empty. */
  lemma SettleBlock(w: World, done: Done)
    requires SlotsOk(w.plant) && Dated(w) && HistoryOk(w) && AnswersOk(w)
    requires AllIdle(w.plant) && NoSweep(w.plant) && w.plant.idle == [] && w.deviceTask.None?
    requires CompletionDefined(w, done.task) && done.task.born < w.plant.now
    requires done.task.BlockTask? || done.task.BlockIdxTask?
    requires done.task.BlockTask? ==> RadioType(done.task.typ)
    ensures Inv(Settle(w, done))
    ensures CallReplied(w, Settle(w, done), if done.ok then Succeeded else Failed)
  {
    var typ := if done.task.BlockTask? then done.task.typ else Lookup(w.plant.devices, done.task.index).typ;
    if done.task.BlockIdxTask? {
      assert Lookup(w.plant.devices, done.task.index) in w.plant.devices;
    }
    PersistHistory(w, typ);
    FinishAnswers(w, Settle(w, done), done.ok);
  }

  /** The slots of a flight-mode operation once the killswitch it waited for has finished. */
  ghost predicate Arrived(w: World)
  {
    var p := w.plant;
    && SlotsOk(p) && AllIdle(p) && Progressed(p) && RadioType(p.sweep.blockIndex - 1)
    && p.idle == [] && w.deviceTask.None?
    && w.invocation.Some? && w.invocation.value.request.SetFlightMode?
    && w.invocation.value.request.block == w.pendingBlock == p.sweep.pendingBlock && w.pendingBlock != w.flightMode
    && p.sweep.flightModeTask.Some? && p.sweep.flightModeTask.value.FlightModeTask?
    && p.sweep.flightModeTask.value.born < p.now
    && HistoryOk(w) && AnswersOk(w)
  }

  /** The task a sweep waits for has come back in a later dispatch. */
  ghost predicate AwaitedDone(w: World, done: Done) {
    done.task.SweepTask? && done.task.born < w.plant.now && w.plant.sweep.pendingBlockTask == Some(done.task)
  }

  /** The sweep failed at type blockIndex - 1: earlier types are restored, flight mode and its history stay. */
  ghost predicate SweepUndone(w: World, v: World)
    requires Shape(w.plant) && w.plant.sweep.blockIndex <= NUM_TYPES && w.invocation.Some?
  {
    && CallReplied(w, v, Failed)
    && RolledBack(w.plant, v.plant, w.plant.sweep.blockIndex - 1) && v.flightMode == w.flightMode
  }

  /** The sweep has moved on to a later type. */
  ghost predicate SweepMoved(w: World, v: World) {
    && StillPending(w, v) && w.plant.sweep.blockIndex < v.plant.sweep.blockIndex
    && v.plant.history == w.plant.history && v.plant.saved == w.plant.saved && v.flightMode == w.flightMode
  }

  /** The sweep succeeded: it is entered in the history and flight mode changes. */
  ghost predicate SweepCommitted(w: World, v: World)
    requires w.invocation.Some?
  {
    && CallReplied(w, v, Succeeded)
    && |v.plant.history| == |w.plant.history| + 1 && v.plant.history[..|w.plant.history|] == w.plant.history
    && v.plant.history[|w.plant.history|].block == v.flightMode == w.invocation.value.request.block
  }

  lemma SweepFails(w: World, done: Done)
    requires Arrived(w) && AwaitedDone(w, done) && !done.ok
    ensures Inv(Settle(w, done)) && SweepUndone(w, Settle(w, done))
  {
    var v := Settle(w, done);
    FailedSweepRestores(w.plant);
    assert v.plant == SweepCallback(w.plant, false).plant;
    assert SlotsOk(v.plant);
    FinishAnswers(w, v, false);
  }

  ghost function AfterType(w: World): Plant
    requires Shape(w.plant) && 0 < w.plant.sweep.blockIndex <= NUM_TYPES
  {
    Advance(w.plant.(sweep := w.plant.sweep.(pendingBlockTask := None)), w.pendingBlock)
  }

  lemma AfterTypeEffect(w: World)
    requires Arrived(w)
    ensures Advanced(w.plant.(sweep := w.plant.sweep.(pendingBlockTask := None)), AfterType(w))
  {
    var cleared := w.plant.(sweep := w.plant.sweep.(pendingBlockTask := None));
    assert Between(cleared);
    AdvanceEffect(cleared);
  }

  lemma SweepWaitsOn(w: World, done: Done)
    requires Arrived(w) && AwaitedDone(w, done) && done.ok
    requires AfterType(w).sweep.pendingBlockTask.Some?
    ensures Settle(w, done) == w.(plant := AfterType(w))
  {
  }

  lemma SweepContinues(w: World, done: Done)
    requires Arrived(w) && AwaitedDone(w, done) && done.ok
    requires AfterType(w).sweep.pendingBlockTask.Some?
    ensures Inv(Settle(w, done)) && SweepMoved(w, Settle(w, done))
  {
    AfterTypeEffect(w);
    SweepWaitsOn(w, done);
    SameCalls(w, Settle(w, done));
  }

  /** The history loop leaves exactly the new sweep's memory in the file. */
  lemma RecordRecalls(cfg: Config, saved: Saved, s: Sweep, history: seq<Committed>, asks: seq<Ask>)
    requires |s.initial| == |s.final| == NUM_TYPES
    requires forall typ :: RadioType(typ) ==> GetPrevSoft(cfg, saved, typ) == Recalled(cfg, history, typ)
    ensures var r, longer := Record(cfg, saved, s, 1), history + [Committed(s.pendingBlock, s.initial, asks)];
      && Entry(r.soft, TYPE_ALL) == Entry(saved.soft, TYPE_ALL)
      && forall typ :: RadioType(typ) ==> GetPrevSoft(cfg, r, typ) == Recalled(cfg, longer, typ)
  {
    RecordEntry(cfg, saved, s, 1, TYPE_ALL);
    forall typ | RadioType(typ)
      ensures GetPrevSoft(cfg, Record(cfg, saved, s, 1), typ)
           == Recalled(cfg, history + [Committed(s.pendingBlock, s.initial, asks)], typ)
    {
      RecordEntry(cfg, saved, s, 1, typ);
    }
  }

  /** Appending a sweep that alternates and asked what the history calls for keeps the law. */
  lemma HistoryGrows(cfg: Config, saved: Saved, s: Sweep, history: seq<Committed>, asks: seq<Ask>)
    requires |s.initial| == |s.final| == NUM_TYPES && HistoryLaw(cfg, history)
    requires forall typ :: RadioType(typ) ==> GetPrevSoft(cfg, saved, typ) == Recalled(cfg, history, typ)
    requires forall i :: 0 < i < NUM_TYPES ==> s.final[i] == Wanted(cfg, saved, s.pendingBlock, s.initial[i], i)
    requires asks == SweepAsks(s.initial, s.final, NUM_TYPES)
    requires s.pendingBlock == (|history| % 2 == 0)
    ensures HistoryLaw(cfg, history + [Committed(s.pendingBlock, s.initial, asks)])
  {
    var longer := history + [Committed(s.pendingBlock, s.initial, asks)];
    forall n | 0 <= n < |longer|
      ensures |longer[n].initial| == NUM_TYPES && longer[n].block == (n % 2 == 0)
      ensures longer[n].asks == SweepAsks(longer[n].initial, WantedAt(cfg, longer, n), NUM_TYPES)
    {
      assert longer[..n] == history[..n];
      if n < |history| {
        assert WantedAt(cfg, longer, n) == WantedAt(cfg, history, n);
      } else {
        assert history[..n] == history;
        SweepAsksFrame(s.initial, s.initial, s.final, WantedAt(cfg, longer, n), NUM_TYPES);
      }
    }
  }

  /** The plant a successful sweep leaves: q after its last type, with the history written. */
  ghost function RecordedPlant(q: Plant): Plant
    requires Shape(q) && q.sweep.mark <= |q.asks|
  {
    q.(saved := Record(q.cfg, q.saved, q.sweep, 1),
       sweep := q.sweep.(flightModeTask := None),
       history := q.history + [Committed(q.sweep.pendingBlock, q.sweep.initial, q.asks[q.sweep.mark..])])
  }

  lemma SweepReportsSuccess(w: World, done: Done, q: Plant)
    requires Arrived(w) && AwaitedDone(w, done) && done.ok
    requires q == AfterType(w)
    requires Between(q) && q.now == w.plant.now
    ensures Settle(w, done)
         == Callback(w.(plant := RecordedPlant(q)), Done(w.plant.sweep.flightModeTask.value, true))
  {
  }

  lemma RecordedHistory(w: World, q: Plant, v: World)
    requires HistoryOk(w) && q.cfg == w.plant.cfg && q.saved == w.plant.saved && q.history == w.plant.history
    requires Between(q) && q.sweep.blockIndex == NUM_TYPES && q.sweep.pendingBlock != w.flightMode
    requires v.plant.cfg == q.cfg && v.plant.history == RecordedPlant(q).history
    requires v.plant.saved == SetPersistState(q.cfg, RecordedPlant(q).saved, TYPE_ALL, q.sweep.pendingBlock)
    requires v.flightMode == q.sweep.pendingBlock
    ensures HistoryOk(v)
  {
    var r := RecordedPlant(q);
    RecordRecalls(q.cfg, q.saved, q.sweep, q.history, q.asks[q.sweep.mark..]);
    HistoryGrows(q.cfg, q.saved, q.sweep, q.history, q.asks[q.sweep.mark..]);
    assert v.plant.saved.prevSoft == r.saved.prevSoft;
    assert forall typ :: GetPrevSoft(v.plant.cfg, v.plant.saved, typ) == GetPrevSoft(q.cfg, r.saved, typ);
    assert HistoryLaw(v.plant.cfg, v.plant.history);
  }

  lemma SweepSucceeds(w: World, done: Done)
    requires Arrived(w) && AwaitedDone(w, done) && done.ok
    requires AfterType(w).sweep.pendingBlockTask.None?
    ensures Inv(Settle(w, done)) && SweepCommitted(w, Settle(w, done))
  {
    hide HistoryOk, AnswersOk, Refresh, SweepCallback, Record, Progressed;
    AfterTypeEffect(w);
    var q := AfterType(w);
    SweepReportsSuccess(w, done, q);
    RecordedHistory(w, q, Settle(w, done));
    FinishAnswers(w, Settle(w, done), true);
  }

  lemma SettleSweep(w: World, done: Done)
    requires Arrived(w) && AwaitedDone(w, done)
    ensures Inv(Settle(w, done))
    ensures if done.ok then SweepMoved(w, Settle(w, done)) || SweepCommitted(w, Settle(w, done))
            else SweepUndone(w, Settle(w, done))
  {
    if !done.ok {
      SweepFails(w, done);
    } else if AfterType(w).sweep.pendingBlockTask.Some? {
      SweepContinues(w, done);
    } else {
      SweepSucceeds(w, done);
    }
  }

  // ---------- Replies, deferred completions, restarts ----------

  /** At the start of a dispatch every stored task is older than the dispatch. */
  ghost predicate AllOlder(w: World)
    requires Shape(w.plant)
  {
    var p := w.plant;
    && (forall i :: 0 <= i < NUM_TYPES && p.chains[i].task.Some? ==> p.chains[i].task.value.born < p.now)
    && (p.sweep.flightModeTask.Some? ==> p.sweep.flightModeTask.value.born < p.now)
    && (w.deviceTask.Some? ==> w.deviceTask.value.born < p.now)
    && (forall d :: d in p.idle ==> d.task.born < p.now)
  }

  lemma DispatchStarts(w: World)
    requires Inv(w)
    ensures Inv(NextDispatch(w)) && AllOlder(NextDispatch(w))
  {
    NextDispatchCore(w);
    SameCalls(w, NextDispatch(w));
  }

  /** A killswitch whose chain goes on, or whose untracked chain ends, returns no task. */
  lemma ChainGoesOn(w: World, typ: int, ok: bool)
    requires Core(w) && RadioType(typ) && w.plant.chains[typ].node > 0
    requires ChainProgress(w.plant, typ, ok).done.None?
    ensures Core(w.(plant := AfterAnswer(w.plant, typ, ok)))
  {
    var v := w.(plant := AfterAnswer(w.plant, typ, ok));
    assert Progressed(w.plant) ==> Progressed(v.plant);
  }

  lemma ChainEndsBlock(w: World, typ: int, ok: bool)
    requires Inv(w) && AllOlder(w) && RadioType(typ) && w.plant.chains[typ].node > 0
    requires ChainProgress(w.plant, typ, ok).done.Some? && !w.plant.chains[typ].task.value.SweepTask?
    ensures CompletionDefined(w.(plant := AfterAnswer(w.plant, typ, ok)),
                              ChainProgress(w.plant, typ, ok).done.value.task)
    ensures Inv(Settle(w.(plant := AfterAnswer(w.plant, typ, ok)), ChainProgress(w.plant, typ, ok).done.value))
  {
    var v := w.(plant := AfterAnswer(w.plant, typ, ok));
    SameCalls(w, v);
    SettleBlock(v, ChainProgress(w.plant, typ, ok).done.value);
  }

  /** The last answer a sweep waited for leaves its slots arrived. */
  lemma ChainArrives(w: World, typ: int, ok: bool)
    requires Inv(w) && AllOlder(w) && RadioType(typ) && w.plant.chains[typ].node > 0
    requires ChainProgress(w.plant, typ, ok).done.Some? && w.plant.chains[typ].task.value.SweepTask?
    ensures Arrived(w.(plant := AfterAnswer(w.plant, typ, ok)))
  {
    var v := w.(plant := AfterAnswer(w.plant, typ, ok));
    SameCalls(w, v);
    assert Waiting(w.plant);
    assert Progressed(v.plant);
    assert HistoryOk(v);
  }

  ghost predicate SweepOutcome(w: World, v: World, ok: bool)
    requires Shape(w.plant) && w.plant.sweep.blockIndex <= NUM_TYPES && w.invocation.Some?
  {
    if ok then SweepMoved(w, v) || SweepCommitted(w, v) else SweepUndone(w, v)
  }

  lemma SweepOutcomeFrame(w: World, x: World, v: World, ok: bool)
    requires Shape(w.plant) && Shape(x.plant) && w.plant.sweep.blockIndex <= NUM_TYPES && w.invocation.Some?
    requires x == w.(plant := x.plant)
    requires x.plant == w.plant.(chains := x.plant.chains, deviceAsks := x.plant.deviceAsks)
    requires SweepOutcome(x, v, ok)
    ensures SweepOutcome(w, v, ok)
  {
  }

  lemma ChainEndsSweep(w: World, typ: int, ok: bool)
    requires Inv(w) && AllOlder(w) && RadioType(typ) && w.plant.chains[typ].node > 0
    requires ChainProgress(w.plant, typ, ok).done.Some? && w.plant.chains[typ].task.value.SweepTask?
    ensures CompletionDefined(w.(plant := AfterAnswer(w.plant, typ, ok)),
                              ChainProgress(w.plant, typ, ok).done.value.task)
    ensures var v := Settle(w.(plant := AfterAnswer(w.plant, typ, ok)), ChainProgress(w.plant, typ, ok).done.value);
      && Inv(v) && w.invocation.Some? && w.plant.sweep.blockIndex <= NUM_TYPES && SweepOutcome(w, v, ok)
  {
    var x, done := w.(plant := AfterAnswer(w.plant, typ, ok)), ChainProgress(w.plant, typ, ok).done.value;
    ChainArrives(w, typ, ok);
    SettleSweep(x, done);
    SweepOutcomeFrame(w, x, Settle(x, done), ok);
  }

  lemma DeviceReplyInv(w: World, typ: int, ok: bool)
    requires Inv(w) && RadioType(typ) && w.plant.chains[typ].node > 0
    requires Defined(w, DeviceReply(typ, ok))
    ensures Inv(Dispatch(w, DeviceReply(typ, ok)))
  {
    DispatchStarts(w);
    var v := NextDispatch(w);
    if ChainProgress(v.plant, typ, ok).done.None? {
      ChainGoesOn(v, typ, ok);
      SameCalls(v, v.(plant := AfterAnswer(v.plant, typ, ok)));
    } else if v.plant.chains[typ].task.value.SweepTask? {
      ChainEndsSweep(v, typ, ok);
    } else {
      ChainEndsBlock(v, typ, ok);
    }
  }

  lemma BlockIdxReplyInv(w: World, ok: bool)
    requires Inv(w) && w.deviceTask.Some?
    requires Defined(w, BlockIdxReply(ok))
    ensures Inv(Dispatch(w, BlockIdxReply(ok)))
  {
    DispatchStarts(w);
    var v := NextDispatch(w).(deviceTask := None);
    SameCalls(w, v);
    SettleBlock(v, Done(w.deviceTask.value, ok));
  }

  lemma RunIdleInv(w: World)
    requires Inv(w) && w.plant.idle != []
    requires Defined(w, RunIdle)
    ensures Inv(Dispatch(w, RunIdle))
  {
    DispatchStarts(w);
    var u := NextDispatch(w);
    var v := u.(plant := u.plant.(idle := u.plant.idle[1..]));
    SameCalls(w, v);
    SettleBlock(v, w.plant.idle[0]);
  }

  lemma RestartInv(w: World)
    requires Inv(w)
    ensures Inv(Restarted(w))
  {
    var v := Restarted(w);
    forall id: nat ensures Classes(v, id) == Indicator(id < v.calls) {
      assert Classes(w, id) == Indicator(id < w.calls);
    }
  }

  /** Every dispatch the surroundings can cause keeps the invariant. */
  lemma DispatchInv(w: World, ev: Event)
    requires Inv(w) && Enabled(w, ev)
    ensures Defined(w, ev) && Inv(Dispatch(w, ev))
  {
    NeverUndefined(w, ev);
    DispatchStarts(w);
    match ev
    case Invoke(request, authorized) => InvokeInv(NextDispatch(w), request, authorized);
    case DeviceReply(typ, ok) => DeviceReplyInv(w, typ, ok);
    case BlockIdxReply(ok) => BlockIdxReplyInv(w, ok);
    case RunIdle => RunIdleInv(w);
    case Restart => RestartInv(NextDispatch(w));
    case _ => DeviceEventInv(w, ev);
  }

  lemma {:induction false} ExecutionInv(cfg: Config, worlds: seq<World>, evs: seq<Event>, n: nat)
    requires Execution(cfg, worlds, evs) && n < |worlds|
    ensures Inv(worlds[n])
  {
    if n == 0 {
      BootInv(cfg);
    } else {
      ExecutionInv(cfg, worlds, evs, n - 1);
      DispatchInv(worlds[n - 1], evs[n - 1]);
    }
  }
}
