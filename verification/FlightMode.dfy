/** The flight-mode sweep over the radio types, with its rollback and its
    history (urf-arbitrator.c), as functions on a state that holds the
    arbitrator, its killswitches and the persistence file. */
module FlightMode {
  import opened Common
  import opened KillswitchState
  import opened DeviceMirror
  import opened DeviceChain
  import opened Persistence

  /** The arbitrator's slots: the caller's task, the task handed to one
      killswitch, and the per-type samples and requests of the sweep.  mark is
      the length of the request log when the sweep began. */
  datatype Sweep = Sweep(
    flightModeTask: Option<Task>,
    pendingBlockTask: Option<Task>,
    blockIndex: int,
    pendingBlock: bool,
    initial: seq<State>,
    final: seq<bool>,
    mark: nat)

  const BLANK_SWEEP :=
    Sweep(None, None, 1, false,
          [Unblocked, Unblocked, Unblocked, Unblocked, Unblocked, Unblocked, Unblocked, Unblocked, Unblocked],
          [false, false, false, false, false, false, false, false, false], 0)

  /** One request to a killswitch; tracked when it carries a task. */
  datatype Ask = Ask(typ: int, block: bool, tracked: bool)

  /** One request to a device; chain names the killswitch whose chain it belongs to. */
  datatype DeviceAsk = DeviceAsk(index: int, block: bool, chain: Option<int>)

  /** A sweep that succeeded: its direction, what it sampled and what it asked. */
  datatype Committed = Committed(block: bool, initial: seq<State>, asks: seq<Ask>)

  /** now numbers main-loop dispatches; idle holds tasks that were returned in
      the dispatch that created them and complete in a later one. */
  datatype Plant = Plant(
    cfg: Config,
    now: nat,
    devices: seq<Device>,
    chains: seq<Chain>,
    sweep: Sweep,
    saved: Saved,
    idle: seq<Done>,
    asks: seq<Ask>,
    deviceAsks: seq<DeviceAsk>,
    history: seq<Committed>)

  /** A task that completes nested in the running dispatch is handed to its callback. */
  datatype Turn = Turn(plant: Plant, nested: Option<Done>)

  ghost predicate Shape(p: Plant) {
    && |p.chains| == NUM_TYPES
    && |p.sweep.initial| == NUM_TYPES
    && |p.sweep.final| == NUM_TYPES
  }

  /** g_task_return: a task of this dispatch waits for a later one, an older task completes at once. */
  function Return(p: Plant, done: Done): Turn {
    if done.task.born == p.now then Turn(p.(idle := p.idle + [done]), None) else Turn(p, Some(done))
  }

  function ToDevice(ask: Option<int>, block: bool, typ: int): seq<DeviceAsk> {
    if ask.Some? then [DeviceAsk(ask.value, block, Some(typ))] else []
  }

  /** urf_arbitrator_set_block; every caller passes no task or one it has just created. */
  function SetBlock(p: Plant, typ: int, block: bool, task: Option<Task>): Plant
    requires Shape(p) && RadioType(typ)
    requires task.Some? ==> task.value.born == p.now
  {
    var s := Start(p.chains[typ], Switch(p.devices, typ), block, task);
    p.(chains := p.chains[typ := s.chain],
       asks := p.asks + [Ask(typ, block, task.Some?)],
       deviceAsks := p.deviceAsks + ToDevice(s.ask, block, typ),
       idle := p.idle + Listed(s.done))
  }

  /** handle_flight_mode_killswitch. */
  function Sample(p: Plant, block: bool): Plant
    requires Shape(p) && RadioType(p.sweep.blockIndex)
  {
    var i := p.sweep.blockIndex;
    var state := SwitchState(p.devices, i);
    var wanted := block || (state != NoAdapter && GetPrevSoft(p.cfg, p.saved, i));
    var sampled := p.sweep.(blockIndex := i + 1,
                            initial := p.sweep.initial[i := state],
                            final := p.sweep.final[i := wanted]);
    if state == NoAdapter then p.(sweep := sampled)
    else
      var task := Some(SweepTask(i, p.now));
      SetBlock(p.(sweep := sampled.(pendingBlockTask := task)), i, wanted, task)
  }

  /** The loop over the remaining types, which stops at the first one with an adapter. */
  function Advance(p: Plant, block: bool): (q: Plant)
    requires Shape(p) && 0 < p.sweep.blockIndex <= NUM_TYPES
    ensures Shape(q) && q.cfg == p.cfg
    decreases NUM_TYPES - p.sweep.blockIndex
  {
    if p.sweep.blockIndex == NUM_TYPES then p
    else
      var q := Sample(p, block);
      if SwitchState(p.devices, p.sweep.blockIndex) == NoAdapter then Advance(q, block) else q
  }

  /** urf_arbitrator_flight_mode. */
  function BeginSweep(p: Plant, block: bool, task: Task): Plant
    requires Shape(p) && task.born == p.now
  {
    var blank := BLANK_SWEEP.(flightModeTask := Some(task), pendingBlock := block, mark := |p.asks|);
    var q := Advance(p.(sweep := blank), block);
    if q.sweep.pendingBlockTask.None?
    then q.(sweep := q.sweep.(flightModeTask := None), idle := q.idle + [Done(task, true)])
    else q
  }

  function RollbackOne(p: Plant, i: int): (q: Plant)
    requires Shape(p) && RadioType(i)
    ensures Shape(q) && q.sweep == p.sweep
  {
    var was := p.sweep.initial[i];
    if was != NoAdapter then SetBlock(p, i, was != Unblocked, None)
    else p.(saved := SetPersistState(p.cfg, p.saved, i, false))
  }

  /** Restores the types below the failed one, from type i on. */
  function Rollback(p: Plant, i: int): (q: Plant)
    requires Shape(p) && 0 < i && p.sweep.blockIndex <= NUM_TYPES
    ensures Shape(q) && q.cfg == p.cfg
    decreases p.sweep.blockIndex - i
  {
    if i >= p.sweep.blockIndex then p
    else Rollback(RollbackOne(p, i), i + 1)
  }

  function RecordOne(cfg: Config, saved: Saved, s: Sweep, i: int): Saved
    requires |s.initial| == |s.final| == NUM_TYPES && RadioType(i)
  {
    var prev := SetPrevSoft(cfg, saved, i, s.pendingBlock && s.initial[i] == SoftBlocked);
    SetPersistState(cfg, prev, i, s.final[i])
  }

  /** Writes the history and the new persisted states of the types from i on. */
  function Record(cfg: Config, saved: Saved, s: Sweep, i: int): Saved
    requires |s.initial| == |s.final| == NUM_TYPES && 0 < i <= NUM_TYPES
    decreases NUM_TYPES - i
  {
    if i == NUM_TYPES then saved
    else Record(cfg, RecordOne(cfg, saved, s, i), s, i + 1)
  }

  function AskedSince(asks: seq<Ask>, mark: nat): seq<Ask> {
    if mark <= |asks| then asks[mark..] else []
  }

  /** urf_arbitrator_flight_mode_cb: one killswitch has finished its part of the sweep. */
  function SweepCallback(p: Plant, ok: bool): (t: Turn)
    requires Shape(p) && p.sweep.flightModeTask.Some? && 0 < p.sweep.blockIndex <= NUM_TYPES
    ensures t.plant.cfg == p.cfg
  {
    var cleared := p.(sweep := p.sweep.(pendingBlockTask := None));
    if !ok then
      var q := Rollback(cleared.(sweep := cleared.sweep.(blockIndex := p.sweep.blockIndex - 1)), 1);
      Return(q.(sweep := q.sweep.(flightModeTask := None)), Done(p.sweep.flightModeTask.value, false))
    else
      var q := Advance(cleared, p.sweep.pendingBlock);
      if q.sweep.pendingBlockTask.Some? then Turn(q, None)
      else
        var recorded := q.(saved := Record(q.cfg, q.saved, q.sweep, 1),
                           sweep := q.sweep.(flightModeTask := None),
                           history := q.history + [Committed(q.sweep.pendingBlock, q.sweep.initial,
                                                             AskedSince(q.asks, q.sweep.mark))]);
        Return(recorded, Done(p.sweep.flightModeTask.value, true))
  }

  /** Runs the arbitrator's callback for its own tasks; the daemon's tasks go on to the daemon. */
  function Complete(p: Plant, done: Done): Turn
    requires Shape(p)
    requires done.task.SweepTask? ==> p.sweep.flightModeTask.Some? && 0 < p.sweep.blockIndex <= NUM_TYPES
  {
    if done.task.SweepTask? then SweepCallback(p, done.ok) else Turn(p, Some(done))
  }

  /** The slots of one killswitch after the device it is asking has answered. */
  function ChainProgress(p: Plant, typ: int, ok: bool): Progress
    requires Shape(p) && RadioType(typ) && 0 < p.chains[typ].node <= |Switch(p.devices, typ)|
  {
    Reply(p.chains[typ], Switch(p.devices, typ), ok)
  }

  function AfterAnswer(p: Plant, typ: int, ok: bool): (q: Plant)
    requires Shape(p) && RadioType(typ) && 0 < p.chains[typ].node <= |Switch(p.devices, typ)|
    ensures Shape(q)
  {
    var r := ChainProgress(p, typ, ok);
    p.(chains := p.chains[typ := r.chain],
       deviceAsks := p.deviceAsks + ToDevice(r.ask, p.chains[typ].block, typ))
  }

  // ---------- Laws of one sweep ----------

  /** The requests of a sweep for the types below n: one for each sampled adapter, in type order. */
  function SweepAsks(initial: seq<State>, final: seq<bool>, n: int): seq<Ask>
    requires |initial| == |final| == NUM_TYPES && n <= NUM_TYPES
  {
    if n <= 1 then []
    else SweepAsks(initial, final, n - 1)
         + (if initial[n - 1] != NoAdapter then [Ask(n - 1, final[n - 1], true)] else [])
  }

  /** The requests of a rollback from type i up to the failed type. */
  function RestoreAsks(initial: seq<State>, i: int, failed: int): seq<Ask>
    requires |initial| == NUM_TYPES && 0 < i && failed <= NUM_TYPES
    decreases failed - i
  {
    if i >= failed then []
    else (if initial[i] != NoAdapter then [Ask(i, initial[i] != Unblocked, false)] else [])
         + RestoreAsks(initial, i + 1, failed)
  }

  /** The persisted entry a rollback writes for a type that had no adapter. */
  ghost predicate Cleared(cfg: Config, initial: seq<State>, typ: int, i: int, failed: int)
    requires |initial| == NUM_TYPES
  {
    0 < i <= typ < failed <= NUM_TYPES && initial[typ] == NoAdapter && !Shielded(cfg, typ)
  }

  /** What a sweep wants for a type with an adapter. */
  function Wanted(cfg: Config, saved: Saved, block: bool, state: State, typ: int): bool {
    block || (state != NoAdapter && GetPrevSoft(cfg, saved, typ))
  }

  ghost predicate Idle(chain: Chain) {
    chain.node == 0 && chain.task.None?
  }

  /** What the sweep has sampled and asked so far, for the types below blockIndex. */
  ghost predicate Progressed(p: Plant)
    requires Shape(p)
  {
    var s := p.sweep;
    && 0 < s.blockIndex <= NUM_TYPES
    && s.mark <= |p.asks|
    && p.asks[s.mark..] == SweepAsks(s.initial, s.final, s.blockIndex)
    && (forall i :: 0 < i < s.blockIndex ==>
          s.final[i] == Wanted(p.cfg, p.saved, s.pendingBlock, s.initial[i], i))
  }

  /** A sweep between two types: nothing is pending at any killswitch. */
  ghost predicate Between(p: Plant) {
    && Shape(p) && Progressed(p)
    && p.sweep.flightModeTask.Some? && p.sweep.pendingBlockTask.None?
    && (forall i :: 0 <= i < NUM_TYPES ==> Idle(p.chains[i]))
  }

  /** A sweep waiting for one killswitch, the only one with anything pending. */
  ghost predicate Waiting(p: Plant) {
    && Shape(p) && Progressed(p)
    && p.sweep.flightModeTask.Some? && p.sweep.pendingBlockTask.Some?
    && p.sweep.pendingBlockTask.value.SweepTask?
    && var k := p.sweep.blockIndex - 1;
    && RadioType(k) && p.sweep.pendingBlockTask.value.typ == k
    && p.sweep.initial[k] != NoAdapter
    && p.chains[k].task == p.sweep.pendingBlockTask && p.chains[k].node > 0
    && p.chains[k].block == p.sweep.final[k]
    && (forall i :: 0 <= i < NUM_TYPES && i != k ==> Idle(p.chains[i]))
  }

  /** Everything a sweep step leaves alone. */
  ghost predicate SameContext(p: Plant, q: Plant) {
    && q.cfg == p.cfg && q.now == p.now && q.devices == p.devices && q.saved == p.saved
    && q.idle == p.idle && q.history == p.history && p.asks <= q.asks
    && q.sweep.flightModeTask == p.sweep.flightModeTask
    && q.sweep.pendingBlock == p.sweep.pendingBlock && q.sweep.mark == p.sweep.mark
  }

  lemma {:induction false} SweepAsksFrame(a: seq<State>, b: seq<State>, f: seq<bool>, g: seq<bool>, n: int)
    requires |a| == |b| == |f| == |g| == NUM_TYPES && n <= NUM_TYPES
    requires forall i :: 0 < i < n ==> a[i] == b[i] && f[i] == g[i]
    ensures SweepAsks(a, f, n) == SweepAsks(b, g, n)
  {
    if n <= 1 {
    } else {
      SweepAsksFrame(a, b, f, g, n - 1);
    }
  }

  lemma SampleEffect(p: Plant)
    requires Between(p) && p.sweep.blockIndex < NUM_TYPES
    ensures var q, i := Sample(p, p.sweep.pendingBlock), p.sweep.blockIndex;
      && SameContext(p, q)
      && q.sweep.blockIndex == i + 1
      && q.sweep.initial == p.sweep.initial[i := SwitchState(p.devices, i)]
      && q.sweep.initial[i] == SwitchState(p.devices, i)
      && (if SwitchState(p.devices, i) == NoAdapter then Between(q) && q.chains == p.chains
          else Waiting(q) && q.sweep.pendingBlockTask == Some(SweepTask(i, p.now))
               && q.chains[i].node == |Switch(p.devices, i)|)
  {
    hide Refresh, GetPrevSoft;
    var q, i := Sample(p, p.sweep.pendingBlock), p.sweep.blockIndex;
    RefreshWitness(Switch(p.devices, i));
    SweepAsksFrame(p.sweep.initial, q.sweep.initial, p.sweep.final, q.sweep.final, i);
    if SwitchState(p.devices, i) != NoAdapter {
      assert q.asks[q.sweep.mark..] == p.asks[p.sweep.mark..] + [Ask(i, q.sweep.final[i], true)];
    }
  }

  /** q has sampled the types p had not sampled yet, up to its own blockIndex. */
  ghost predicate SampledFurther(p: Plant, q: Plant)
    requires Shape(p) && Shape(q) && 0 < p.sweep.blockIndex && q.sweep.blockIndex <= NUM_TYPES
  {
    && p.sweep.blockIndex <= q.sweep.blockIndex
    && (forall i :: 0 <= i < p.sweep.blockIndex ==> q.sweep.initial[i] == p.sweep.initial[i])
    && (forall i :: p.sweep.blockIndex <= i < q.sweep.blockIndex ==>
          q.sweep.initial[i] == SwitchState(p.devices, i))
  }

  /** The outcome of the loop over the remaining types: it waits for the first
      killswitch with an adapter, or it has sampled every type and found none. */
  ghost predicate Advanced(p: Plant, q: Plant)
    requires Shape(p) && 0 < p.sweep.blockIndex
  {
    && Shape(q) && q.sweep.blockIndex <= NUM_TYPES && SameContext(p, q) && SampledFurther(p, q)
    && if q.sweep.pendingBlockTask.None?
       then Between(q) && q.sweep.blockIndex == NUM_TYPES && q.chains == p.chains
            && forall i :: p.sweep.blockIndex <= i < NUM_TYPES ==> SwitchState(p.devices, i) == NoAdapter
       else Waiting(q) && p.sweep.blockIndex < q.sweep.blockIndex
            && q.sweep.pendingBlockTask.value.born == p.now
            && q.chains[q.sweep.blockIndex - 1].node == |Switch(p.devices, q.sweep.blockIndex - 1)|
            && forall i :: p.sweep.blockIndex <= i < q.sweep.blockIndex - 1 ==> SwitchState(p.devices, i) == NoAdapter
  }

  lemma {:induction false} AdvanceEffect(p: Plant)
    requires Between(p)
    ensures Advanced(p, Advance(p, p.sweep.pendingBlock))
    decreases NUM_TYPES - p.sweep.blockIndex
  {
    if NUM_TYPES <= p.sweep.blockIndex {
    } else {
      SampleEffect(p);
      var m := Sample(p, p.sweep.pendingBlock);
      if SwitchState(p.devices, p.sweep.blockIndex) == NoAdapter {
        AdvanceEffect(m);
        SkipThenAdvance(p, m, Advance(m, p.sweep.pendingBlock));
      } else {
        assert Advance(p, p.sweep.pendingBlock) == m;
      }
    }
  }

  lemma SkipThenAdvance(p: Plant, m: Plant, q: Plant)
    requires Shape(p) && Shape(m) && 0 < p.sweep.blockIndex < NUM_TYPES
    requires SameContext(p, m) && m.chains == p.chains && m.sweep.blockIndex == p.sweep.blockIndex + 1
    requires SwitchState(p.devices, p.sweep.blockIndex) == NoAdapter
    requires m.sweep.initial == p.sweep.initial[p.sweep.blockIndex := NoAdapter]
    requires Advanced(m, q)
    ensures Advanced(p, q)
  {
  }

  /** The persisted entry a rollback leaves for one type. */
  lemma {:induction false} RollbackEntry(p: Plant, i: int, typ: int)
    requires Shape(p) && 0 < i && p.sweep.blockIndex <= NUM_TYPES
    ensures Rollback(p, i).saved.prevSoft == p.saved.prevSoft
    ensures Entry(Rollback(p, i).saved.soft, typ)
         == (Entry(p.saved.soft, typ) && !Cleared(p.cfg, p.sweep.initial, typ, i, p.sweep.blockIndex))
    decreases p.sweep.blockIndex - i
  {
    if p.sweep.blockIndex <= i {
    } else {
      RollbackEntry(RollbackOne(p, i), i + 1, typ);
    }
  }

  lemma {:induction false} RollbackRequests(p: Plant, i: int)
    requires Shape(p) && 0 < i && p.sweep.blockIndex <= NUM_TYPES
    ensures var q := Rollback(p, i);
      && q.cfg == p.cfg && q.now == p.now && q.devices == p.devices && q.idle == p.idle
      && q.history == p.history && q.sweep == p.sweep
      && q.asks == p.asks + RestoreAsks(p.sweep.initial, i, p.sweep.blockIndex)
    decreases p.sweep.blockIndex - i
  {
    if p.sweep.blockIndex <= i {
    } else {
      hide RollbackOne, SwitchState;
      var q, n := RollbackOne(p, i), p.sweep.blockIndex;
      RollbackOneRequest(p, i);
      RollbackRequests(q, i + 1);
      var one := if p.sweep.initial[i] == NoAdapter then [] else [Ask(i, p.sweep.initial[i] != Unblocked, false)];
      assert RestoreAsks(p.sweep.initial, i, n) == one + RestoreAsks(p.sweep.initial, i + 1, n);
      assert p.asks + (one + RestoreAsks(p.sweep.initial, i + 1, n)) == q.asks + RestoreAsks(p.sweep.initial, i + 1, n);
    }
  }

  lemma RollbackOneRequest(p: Plant, i: int)
    requires Shape(p) && RadioType(i)
    ensures var q := RollbackOne(p, i);
      && q.cfg == p.cfg && q.now == p.now && q.devices == p.devices && q.idle == p.idle
      && q.history == p.history && q.sweep == p.sweep
      && q.asks == p.asks + if p.sweep.initial[i] == NoAdapter then []
                            else [Ask(i, p.sweep.initial[i] != Unblocked, false)]
  {
  }

  lemma {:induction false} RollbackChain(p: Plant, i: int, typ: int)
    requires Shape(p) && 0 < i && p.sweep.blockIndex <= NUM_TYPES
    requires 0 <= typ < NUM_TYPES && Idle(p.chains[typ])
    ensures Rollback(p, i).chains[typ].task.None?
    ensures Rollback(p, i).chains[typ].node <= |Switch(p.devices, typ)|
    ensures !(i <= typ < p.sweep.blockIndex) ==> Rollback(p, i).chains[typ] == p.chains[typ]
    decreases p.sweep.blockIndex - i
  {
    if p.sweep.blockIndex <= i {
    } else {
      var q := RollbackOne(p, i);
      RollbackRequests(q, i + 1);
      if i == typ {
        RollbackChainFrame(q, i + 1, typ);
      } else {
        RollbackChain(q, i + 1, typ);
      }
    }
  }

  /** A rollback starts each chain at most once. */
  lemma {:induction false} RollbackChainFrame(p: Plant, i: int, typ: int)
    requires Shape(p) && 0 < i && p.sweep.blockIndex <= NUM_TYPES
    requires 0 <= typ < NUM_TYPES && !(i <= typ < p.sweep.blockIndex)
    ensures Rollback(p, i).chains[typ] == p.chains[typ]
    decreases p.sweep.blockIndex - i
  {
    if p.sweep.blockIndex <= i {
    } else {
      RollbackChainFrame(RollbackOne(p, i), i + 1, typ);
    }
  }

  /** The entries the history loop leaves for one type. */
  lemma {:induction false} RecordEntry(cfg: Config, saved: Saved, s: Sweep, i: int, typ: int)
    requires |s.initial| == |s.final| == NUM_TYPES && 0 < i <= NUM_TYPES
    ensures var r := Record(cfg, saved, s, i);
      if i <= typ < NUM_TYPES && !Shielded(cfg, typ) then
        && Entry(r.prevSoft, typ) == (s.pendingBlock && s.initial[typ] == SoftBlocked)
        && Entry(r.soft, typ) == s.final[typ]
      else
        Entry(r.prevSoft, typ) == Entry(saved.prevSoft, typ) && Entry(r.soft, typ) == Entry(saved.soft, typ)
    decreases NUM_TYPES - i
  {
    if NUM_TYPES <= i {
    } else {
      RecordEntry(cfg, RecordOne(cfg, saved, s, i), s, i + 1, typ);
    }
  }

  /** What a failed sweep leaves of p when type failed was the one that failed:
      the types below it that had an adapter are asked for their sampled state
      again, the persisted state of those that had none is cleared, and no
      history entry changes. */
  ghost predicate RolledBack(p: Plant, q: Plant, failed: int)
    requires |p.sweep.initial| == NUM_TYPES && failed <= NUM_TYPES
  {
    && q.asks == p.asks + RestoreAsks(p.sweep.initial, 1, failed)
    && q.saved.prevSoft == p.saved.prevSoft
    && (forall typ :: Entry(q.saved.soft, typ)
          == (Entry(p.saved.soft, typ) && !Cleared(p.cfg, p.sweep.initial, typ, 1, failed)))
    && q.cfg == p.cfg && q.now == p.now && q.devices == p.devices && q.idle == p.idle && q.history == p.history
  }

  /** Nothing tracked is pending at any killswitch; untracked restores may be running. */
  ghost predicate Untracked(p: Plant) {
    && Shape(p)
    && (forall j :: 0 <= j < NUM_TYPES ==>
          p.chains[j].task.None? && p.chains[j].node <= |Switch(p.devices, j)|)
    && p.chains[0].node == 0
  }

  lemma RollbackEffect(p: Plant)
    requires Shape(p) && p.sweep.blockIndex <= NUM_TYPES
    requires forall j :: 0 <= j < NUM_TYPES ==> Idle(p.chains[j])
    ensures RolledBack(p, Rollback(p, 1), p.sweep.blockIndex)
    ensures Untracked(Rollback(p, 1)) && Rollback(p, 1).sweep == p.sweep
  {
    var q := Rollback(p, 1);
    RollbackRequests(p, 1);
    RollbackEntry(p, 1, 0);
    forall typ ensures Entry(q.saved.soft, typ)
        == (Entry(p.saved.soft, typ) && !Cleared(p.cfg, p.sweep.initial, typ, 1, p.sweep.blockIndex)) {
      RollbackEntry(p, 1, typ);
    }
    forall j | 0 <= j < NUM_TYPES ensures q.chains[j].task.None? && q.chains[j].node <= |Switch(p.devices, j)| {
      RollbackChain(p, 1, j);
    }
    RollbackChain(p, 1, 0);
  }

  /** A sweep that fails at type k restores exactly the types below k, never
      asks a type above k, and reports the failure to the caller at once. */
  lemma FailedSweepRestores(p: Plant)
    requires Shape(p) && Progressed(p) && p.sweep.flightModeTask.Some?
    requires RadioType(p.sweep.blockIndex - 1)
    requires forall i :: 0 <= i < NUM_TYPES ==> Idle(p.chains[i])
    requires p.sweep.flightModeTask.value.born < p.now
    ensures var t, k := SweepCallback(p, false), p.sweep.blockIndex - 1;
      && t.nested == Some(Done(p.sweep.flightModeTask.value, false))
      && RolledBack(p, t.plant, k)
      && (forall a :: a in t.plant.asks[p.sweep.mark..] ==> a.typ <= k)
      && t.plant.sweep.flightModeTask.None? && t.plant.sweep.pendingBlockTask.None?
      && Untracked(t.plant)
  {
    hide Rollback, RestoreAsks, SweepAsks;
    var k := p.sweep.blockIndex - 1;
    var q := p.(sweep := p.sweep.(pendingBlockTask := None, blockIndex := k));
    RollbackEffect(q);
    SweepAsksTypes(p.sweep.initial, p.sweep.final, k + 1);
    RestoreAsksTypes(p.sweep.initial, 1, k);
    assert (p.asks + RestoreAsks(p.sweep.initial, 1, k))[p.sweep.mark..]
        == p.asks[p.sweep.mark..] + RestoreAsks(p.sweep.initial, 1, k);
  }

  /** Types rise strictly, so no type is asked twice; a type is asked exactly
      when an adapter was sampled, and for what the sweep wants. */
  lemma {:induction false} SweepAsksTypes(initial: seq<State>, final: seq<bool>, n: int)
    requires |initial| == |final| == NUM_TYPES && n <= NUM_TYPES
    ensures var asks := SweepAsks(initial, final, n);
      && (forall i, j :: 0 <= i < j < |asks| ==> asks[i].typ < asks[j].typ)
      && (forall a :: a in asks <==>
            0 < a.typ < n && initial[a.typ] != NoAdapter && a == Ask(a.typ, final[a.typ], true))
  {
    if n <= 1 {
    } else {
      SweepAsksTypes(initial, final, n - 1);
    }
  }

  lemma {:induction false} RestoreAsksTypes(initial: seq<State>, i: int, failed: int)
    requires |initial| == NUM_TYPES && 0 < i && failed <= NUM_TYPES
    ensures var asks := RestoreAsks(initial, i, failed);
      && (forall x, y :: 0 <= x < y < |asks| ==> asks[x].typ < asks[y].typ)
      && (forall a :: a in asks <==>
            i <= a.typ < failed && initial[a.typ] != NoAdapter && a == Ask(a.typ, initial[a.typ] != Unblocked, false))
    decreases failed - i
  {
    if failed <= i {
    } else {
      RestoreAsksTypes(initial, i + 1, failed);
    }
  }
}
