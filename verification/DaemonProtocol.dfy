/** The daemon's method calls, the callbacks that answer them and the
    main-loop dispatches around them (urf-daemon.c).

    Assumptions of the code that the model makes explicit:
    - a task returned in the dispatch that created it completes in a later
      dispatch, an older task completes nested in its caller (FlightMode.Return);
    - radio types are 1..8, and no call names type ALL, which has no killswitch;
    - key presses, which issue requests outside this protocol, are off;
    - a device stays in its killswitch while that killswitch's chain runs, and a
      device named by a pending BlockIdx stays registered until its reply;
    - the untracked requests of a rollback drain before the next operation starts. */
module DaemonProtocol {
  import opened Common
  import opened KillswitchState
  import opened DeviceMirror
  import opened DeviceChain
  import opened Persistence
  import opened FlightMode
  import opened DeviceEvents

  datatype Request =
    | Block(typ: int, block: bool)
    | BlockIdx(index: int, block: bool)
    | SetFlightMode(block: bool)

  /** A method invocation; calls are numbered as they arrive. */
  datatype Call = Call(id: nat, request: Request)

  datatype Outcome = Succeeded | Failed | Unauthorized | Invalid | InProgress

  datatype Reply = Reply(id: nat, outcome: Outcome)

  /** deviceTask is the task of a BlockIdx request, held by its device.  answers
      is the log of replies; dropped are the calls refused without a reply before
      the gate, lost those a restart has cut off. */
  datatype World = World(
    plant: Plant,
    invocation: Option<Call>,
    pendingBlock: bool,
    flightMode: bool,
    deviceTask: Option<Task>,
    calls: nat,
    answers: seq<Reply>,
    dropped: set<nat>,
    lost: set<nat>)

  /** One main-loop dispatch. */
  datatype Event =
    | Invoke(request: Request, authorized: bool)
    | DeviceReply(typ: int, ok: bool)
    | BlockIdxReply(ok: bool)
    | RunIdle
    | Kernel(event: KernelEvent)
    | ModemOn(device: Device)
    | ModemOff(index: int)
    | ModemOnline(index: int, soft: bool)
    | Restart

  /** A daemon starting on an empty persistence file. */
  function Boot(cfg: Config): World {
    World(Plant(cfg, 0, [], seq(NUM_TYPES, _ => IDLE), BLANK_SWEEP, EMPTY_FILE, [], [], [], []),
          None, false, false, None, 0, [], {}, {})
  }

  // ---------- Callbacks ----------

  function Answer(w: World, id: nat, outcome: Outcome): World {
    w.(answers := w.answers + [Reply(id, outcome)])
  }

  /** Answers the pending call and ends the operation. */
  function Finish(w: World, ok: bool): World
    requires w.invocation.Some?
  {
    Answer(w, w.invocation.value.id, if ok then Succeeded else Failed).(invocation := None)
  }

  function Persist(w: World, typ: int): World {
    w.(plant := w.plant.(saved := SetPersistState(w.plant.cfg, w.plant.saved, typ, w.pendingBlock)))
  }

  /** block_cb, block_idx_cb and flight_mode_cb. */
  function Callback(w: World, done: Done): World
    requires w.invocation.Some? && !done.task.SweepTask?
    requires done.task.BlockIdxTask? ==> Present(w.plant.devices, done.task.index)
  {
    match done.task
    case BlockTask(typ, _) => Finish(if done.ok then Persist(w, typ) else w, done.ok)
    case BlockIdxTask(index, _) =>
      Finish(if done.ok then Persist(w, Lookup(w.plant.devices, index).typ) else w, done.ok)
    case FlightModeTask(_) =>
      Finish(if done.ok then Persist(w.(flightMode := w.pendingBlock), TYPE_ALL) else w, done.ok)
  }

  function Deliver(w: World, t: Turn): World
    requires t.nested.Some? ==> w.invocation.Some? && !t.nested.value.task.SweepTask?
    requires t.nested.Some? && t.nested.value.task.BlockIdxTask? ==> Present(t.plant.devices, t.nested.value.task.index)
  {
    var v := w.(plant := t.plant);
    if t.nested.Some? then Callback(v, t.nested.value) else v
  }

  // ---------- Method calls ----------

  /** The radio type whose state answers for a requested type. */
  function StateType(typ: int): int {
    if typ == TYPE_ALL then TYPE_WLAN else typ
  }

  predicate AlreadySo(state: State, block: bool) {
    (block && state == SoftBlocked) || (!block && state == Unblocked)
  }

  function Occupy(w: World, request: Request): World {
    w.(invocation := Some(Call(w.calls, request)), pendingBlock := request.block)
  }

  /** The checks every method makes in order, as far as they refuse a call. */
  function Refusal(w: World, request: Request, authorized: bool): Option<Outcome> {
    if !authorized then Some(Unauthorized)
    else if request.Block? && request.typ >= NUM_TYPES then Some(Invalid)
    else if request.BlockIdx? && (request.index < 0 || !Present(w.plant.devices, request.index)) then Some(Invalid)
    else if w.invocation.Some? then Some(InProgress)
    else None
  }

  /** Whether an accepted call finds the requested state already in place. */
  predicate Satisfied(w: World, request: Request)
    requires request.BlockIdx? ==> Present(w.plant.devices, request.index)
  {
    match request
    case Block(typ, block) => AlreadySo(SwitchState(w.plant.devices, StateType(typ)), block)
    case BlockIdx(index, block) => AlreadySo(Lookup(w.plant.devices, index).State(), block)
    case SetFlightMode(block) => w.flightMode == block
  }

  /** Starts the operation of an accepted call. */
  function Launch(w: World, request: Request): World
    requires Shape(w.plant) && (request.Block? ==> RadioType(request.typ))
  {
    var v := Occupy(w, request);
    match request
    case Block(typ, block) =>
      v.(plant := SetBlock(v.plant, typ, block, Some(BlockTask(typ, v.plant.now))))
    case BlockIdx(index, block) =>
      v.(plant := v.plant.(deviceAsks := v.plant.deviceAsks + [DeviceAsk(index, block, None)]),
         deviceTask := Some(BlockIdxTask(index, v.plant.now)))
    case SetFlightMode(block) =>
      v.(plant := BeginSweep(v.plant, block, FlightModeTask(v.plant.now)))
  }

  /** A call that no check refuses. */
  function Started(w: World, request: Request): World
    requires Shape(w.plant) && (request.Block? ==> RadioType(request.typ))
    requires request.BlockIdx? ==> Present(w.plant.devices, request.index)
  {
    if Satisfied(w, request) then Answer(w, w.calls, Succeeded) else Launch(w, request)
  }

  /** A method call that got past the has-devices gate. */
  function Admitted(w: World, request: Request, authorized: bool): World
    requires Shape(w.plant) && (request.Block? ==> 0 < request.typ)
  {
    var refusal := Refusal(w, request, authorized);
    if refusal.Some? then Answer(w, w.calls, refusal.value)
    else Started(w, request)
  }

  /** urf_daemon_block, urf_daemon_block_idx and urf_daemon_flight_mode. */
  function Method(w: World, request: Request, authorized: bool): (v: World)
    requires Shape(w.plant) && (request.Block? ==> request.typ != TYPE_ALL)
    ensures v.plant.cfg == w.plant.cfg
  {
    var v := if (request.Block? && request.typ < 0) || w.plant.devices == []
             then w.(dropped := w.dropped + {w.calls})
             else Admitted(w, request, authorized);
    v.(calls := w.calls + 1)
  }

  // ---------- Dispatches ----------

  /** urf_daemon_new on the saved file; whatever was pending is gone. */
  function Restarted(w: World): World {
    var p := w.plant.(devices := [], chains := seq(NUM_TYPES, _ => IDLE), sweep := BLANK_SWEEP, idle := []);
    World(p, None, false, GetPersistState(p.cfg, p.saved, TYPE_ALL), None, w.calls, w.answers, w.dropped,
          w.lost + if w.invocation.Some? then {w.invocation.value.id} else {})
  }

  function NextDispatch(w: World): World {
    w.(plant := w.plant.(now := w.plant.now + 1))
  }

  /** The slots and lists the handler of an event dereferences or asserts on. */
  predicate Defined(w: World, ev: Event) {
    && |w.plant.chains| == |w.plant.sweep.initial| == |w.plant.sweep.final| == NUM_TYPES
    && match ev
       case Invoke(request, _) => request.Block? ==> request.typ != TYPE_ALL
       case DeviceReply(typ, ok) =>
         && RadioType(typ) && 0 < w.plant.chains[typ].node <= |Switch(w.plant.devices, typ)|
         && (w.plant.chains[typ].task.Some? ==> CompletionDefined(w, w.plant.chains[typ].task.value))
       case BlockIdxReply(_) => w.deviceTask.Some? && CompletionDefined(w, w.deviceTask.value)
       case RunIdle => w.plant.idle != [] && CompletionDefined(w, w.plant.idle[0].task)
       case _ => true
  }

  predicate CompletionDefined(w: World, task: Task) {
    && w.invocation.Some?
    && (task.SweepTask? ==>
          && w.plant.sweep.pendingBlockTask == Some(task)
          && 0 < w.plant.sweep.blockIndex <= NUM_TYPES
          && w.plant.sweep.flightModeTask.Some? && w.plant.sweep.flightModeTask.value.FlightModeTask?)
    && (task.BlockIdxTask? ==> Present(w.plant.devices, task.index))
  }

  /** A task returned in the current dispatch: queued if new, otherwise completed nested. */
  function Settle(w: World, done: Done): (v: World)
    requires Shape(w.plant) && CompletionDefined(w, done.task)
    ensures v.plant.cfg == w.plant.cfg
  {
    var t := Return(w.plant, done);
    if t.nested.None? then w.(plant := t.plant)
    else
      var c := Complete(t.plant, t.nested.value);
      SweepCallbackNests(t.plant, t.nested.value);
      Deliver(w, c)
  }

  lemma SweepCallbackNests(p: Plant, done: Done)
    requires Shape(p)
    requires done.task.SweepTask? ==>
      && p.sweep.flightModeTask.Some? && p.sweep.flightModeTask.value.FlightModeTask?
      && 0 < p.sweep.blockIndex <= NUM_TYPES
    ensures var c := Complete(p, done);
      && (c.nested.Some? ==> !c.nested.value.task.SweepTask?)
      && (c.nested.Some? && c.nested.value.task.BlockIdxTask? ==> c == Turn(p, Some(done)))
  {
  }

  /** A device event: the kernel or the modem manager reports something. */
  function React(w: World, ev: Event): World {
    match ev
    case Kernel(event) => w.(plant := Process(w.plant, event))
    case ModemOn(d) => w.(plant := Register(w.plant, d))
    case ModemOff(index) => w.(plant := Unregister(w.plant, index))
    case ModemOnline(index, soft) => w.(plant := OnlineChanged(w.plant, index, soft))
    case _ => w
  }

  /** What one dispatch does. */
  function Dispatch(before: World, ev: Event): (after: World)
    requires Defined(before, ev)
    ensures after.plant.cfg == before.plant.cfg
  {
    var w := NextDispatch(before);
    match ev
    case Invoke(request, authorized) => Method(w, request, authorized)
    case DeviceReply(typ, ok) =>
      var r := ChainProgress(w.plant, typ, ok);
      var v := w.(plant := AfterAnswer(w.plant, typ, ok));
      if r.done.Some? then Settle(v, r.done.value) else v
    case BlockIdxReply(ok) =>
      Settle(w.(deviceTask := None), Done(w.deviceTask.value, ok))
    case RunIdle =>
      Settle(w.(plant := w.plant.(idle := w.plant.idle[1..])), w.plant.idle[0])
    case Kernel(_) => React(w, ev)
    case ModemOn(_) => React(w, ev)
    case ModemOff(_) => React(w, ev)
    case ModemOnline(_, _) => React(w, ev)
    case Restart => Restarted(w)
  }

  // ---------- What the surroundings guarantee ----------

  ghost predicate AllIdle(p: Plant)
    requires Shape(p)
  {
    forall i :: 0 <= i < NUM_TYPES ==> Idle(p.chains[i])
  }

  /** The device may leave: no chain holds it and no pending BlockIdx names it. */
  ghost predicate MayLeave(w: World, index: int)
    requires Shape(w.plant)
  {
    Present(w.plant.devices, index) ==>
      var typ := Lookup(w.plant.devices, index).typ;
      && (0 <= typ < NUM_TYPES ==> w.plant.chains[typ].node == 0)
      && (w.deviceTask.Some? && w.deviceTask.value.BlockIdxTask? ==> w.deviceTask.value.index != index)
  }

  ghost predicate Enabled(w: World, ev: Event)
    requires Shape(w.plant)
  {
    match ev
    case Invoke(request, _) =>
      && (request.Block? ==> request.typ != TYPE_ALL)
      && (w.invocation.None? ==> AllIdle(w.plant))
    case DeviceReply(typ, _) => RadioType(typ) && w.plant.chains[typ].node > 0
    case BlockIdxReply(_) => w.deviceTask.Some?
    case RunIdle => w.plant.idle != []
    case Kernel(event) => (event.Add? ==> RadioType(event.typ)) && (event.Del? ==> MayLeave(w, event.index))
    case ModemOn(d) => d.typ == TYPE_WWAN && 0 <= d.index && !d.platform && !d.hard
    case ModemOff(index) => MayLeave(w, index)
    case ModemOnline(_, _) => true
    case Restart => true
  }

  /** A run of the daemon from its first start. */
  ghost predicate Execution(cfg: Config, worlds: seq<World>, evs: seq<Event>) {
    && |worlds| == |evs| + 1 && worlds[0] == Boot(cfg)
    && forall i :: 0 <= i < |evs| ==>
         && Shape(worlds[i].plant) && Enabled(worlds[i], evs[i])
         && Defined(worlds[i], evs[i]) && worlds[i + 1] == Dispatch(worlds[i], evs[i])
  }
}
