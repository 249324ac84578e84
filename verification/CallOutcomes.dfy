/** What callers of the daemon can rely on, over every run and in terms of calls,
    answers, device bits and file entries (urf-daemon.c). */
module CallOutcomes {
  import opened Common
  import opened KillswitchState
  import opened DeviceMirror
  import opened DeviceChain
  import opened Persistence
  import opened FlightMode
  import opened DeviceEvents
  import opened DaemonProtocol
  import opened ProtocolInvariant
  import opened FlightModeRuns

  // ---------- Which call an answer belongs to ----------

  /** The dispatch of event n answers the call with that number. */
  ghost predicate AnsweredAt(worlds: seq<World>, n: nat, id: nat, outcome: Outcome) {
    && n + 1 < |worlds|
    && Reply(id, outcome) in worlds[n + 1].answers && Reply(id, outcome) !in worlds[n].answers
  }

  /** The dispatch adds this answer, to the pending call or to the one that comes in. */
  ghost predicate Answers(w: World, ev: Event, v: World, id: nat, outcome: Outcome) {
    && v.answers == w.answers + [Reply(id, outcome)]
    && ((w.invocation.Some? && id == w.invocation.value.id && CallReplied(w, v, outcome))
        || (ev.Invoke? && id == w.calls))
  }

  lemma StepCalls(w: World, ev: Event)
    requires Inv(w) && Enabled(w, ev) && Defined(w, ev)
    ensures var v := Dispatch(w, ev);
      && v.calls == w.calls + (if ev.Invoke? then 1 else 0)
      && (v.invocation.None? || v.invocation == w.invocation
          || (ev.Invoke? && w.invocation.None? && v.invocation == Some(Call(w.calls, ev.request))))
      && (v.answers == w.answers || exists id, outcome :: Answers(w, ev, v, id, outcome))
  {
    var v := Dispatch(w, ev);
    if IsReply(ev) {
      ReplyCalls(w, ev);
    } else if ev.Invoke? {
      InvokeCalls(w, ev.request, ev.authorized);
    }
  }

  lemma ReplyCalls(w: World, ev: Event)
    requires Inv(w) && Enabled(w, ev) && Defined(w, ev) && IsReply(ev)
    ensures var v := Dispatch(w, ev);
      && v.calls == w.calls
      && (v.invocation.None? || v.invocation == w.invocation)
      && (v.answers == w.answers || exists id, outcome :: Answers(w, ev, v, id, outcome))
  {
    var v := Dispatch(w, ev);
    if w.invocation.Some? {
      ReplyProgresses(w, ev);
      if CallReplied(w, v, Succeeded) {
        assert Answers(w, ev, v, w.invocation.value.id, Succeeded);
      } else if CallReplied(w, v, Failed) {
        assert Answers(w, ev, v, w.invocation.value.id, Failed);
      }
    } else {
      assert ev.DeviceReply?;
      RestoresDrain(w, ev.typ, ev.ok);
    }
  }

  lemma InvokeCalls(w: World, request: Request, authorized: bool)
    requires Inv(w) && Enabled(w, Invoke(request, authorized))
    ensures var ev := Invoke(request, authorized);
      var v := Dispatch(w, ev);
      && v.calls == w.calls + 1
      && (v.invocation == w.invocation || (w.invocation.None? && v.invocation == Some(Call(w.calls, request))))
      && (v.answers == w.answers || exists id, outcome :: Answers(w, ev, v, id, outcome))
  {
    var ev := Invoke(request, authorized);
    var v := Dispatch(w, ev);
    if v.answers != w.answers {
      var last := v.answers[|w.answers|];
      assert Answers(w, ev, v, last.id, last.outcome);
    }
  }

  lemma PendingIsOlder(w: World)
    requires Inv(w) && w.invocation.Some?
    ensures w.invocation.value.id < w.calls
  {
    assert Classes(w, w.invocation.value.id) == Indicator(w.invocation.value.id < w.calls);
  }

  lemma {:induction false} CallsGrow(cfg: Config, worlds: seq<World>, evs: seq<Event>, i: nat, n: nat)
    requires Execution(cfg, worlds, evs) && i < n < |worlds| && i < |evs| && evs[i].Invoke?
    ensures worlds[i].calls < worlds[n].calls
    decreases n - i
  {
    hide Execution, Inv, Dispatch, Enabled, Defined;
    RunLength(cfg, worlds, evs);
    RunStep(cfg, worlds, evs, n - 1);
    StepCalls(worlds[n - 1], evs[n - 1]);
    if n == i + 1 {
    } else {
      CallsGrow(cfg, worlds, evs, i, n - 1);
    }
  }

  /** While a call is pending, what is pending is what its caller asked for. */
  lemma {:induction false} PendingIsThatCall(cfg: Config, worlds: seq<World>, evs: seq<Event>, i: nat, n: nat)
    requires Execution(cfg, worlds, evs) && i < n < |worlds| && i < |evs| && evs[i].Invoke?
    requires worlds[n].invocation.Some? && worlds[n].invocation.value.id == worlds[i].calls
    ensures worlds[n].invocation.value.request == evs[i].request
    decreases n - i
  {
    hide Execution, Inv, Dispatch, Enabled, Defined;
    RunLength(cfg, worlds, evs);
    RunStep(cfg, worlds, evs, n - 1);
    StepCalls(worlds[n - 1], evs[n - 1]);
    if n == i + 1 {
      if worlds[i].invocation.Some? {
        PendingIsOlder(worlds[i]);
      }
    } else {
      CallsGrow(cfg, worlds, evs, i, n - 1);
      if worlds[n].invocation == worlds[n - 1].invocation {
        PendingIsThatCall(cfg, worlds, evs, i, n - 1);
      }
    }
  }

  /** An answer to call i comes at once, or from the reply that ends its operation. */
  lemma AnswerComes(cfg: Config, worlds: seq<World>, evs: seq<Event>, i: nat, n: nat, outcome: Outcome)
    requires Execution(cfg, worlds, evs) && i <= n < |evs| && evs[i].Invoke?
    requires AnsweredAt(worlds, n, worlds[i].calls, outcome)
    ensures Inv(worlds[n]) && Enabled(worlds[n], evs[n]) && Defined(worlds[n], evs[n])
    ensures worlds[n + 1] == Dispatch(worlds[n], evs[n]) && Inv(worlds[n + 1])
    ensures worlds[n + 1].answers == worlds[n].answers + [Reply(worlds[i].calls, outcome)]
    ensures n > i ==>
      && worlds[n].invocation == Some(Call(worlds[i].calls, evs[i].request))
      && CallReplied(worlds[n], worlds[n + 1], outcome)
  {
    hide Execution, Inv, Dispatch, Enabled, Defined, CallReplied;
    RunStep(cfg, worlds, evs, n);
    StepCalls(worlds[n], evs[n]);
    var id, o :| Answers(worlds[n], evs[n], worlds[n + 1], id, o);
    assert Reply(id, o) == Reply(worlds[i].calls, outcome);
    if n > i {
      CallsGrow(cfg, worlds, evs, i, n);
      PendingIsThatCall(cfg, worlds, evs, i, n);
    }
  }

  // ---------- Flight mode ----------

  /** A flight-mode call that is answered with success leaves flight mode as the
      caller asked, in memory and in the file, whether it is answered at once or
      in the end. */
  lemma FlightModeIsAsAsked(cfg: Config, worlds: seq<World>, evs: seq<Event>, i: nat, n: nat, block: bool)
    requires Execution(cfg, worlds, evs) && i <= n < |evs|
    requires evs[i].Invoke? && evs[i].request == SetFlightMode(block)
    requires AnsweredAt(worlds, n, worlds[i].calls, Succeeded)
    ensures worlds[n + 1].flightMode == block && Entry(worlds[n + 1].plant.saved.soft, TYPE_ALL) == block
  {
    AnswerComes(cfg, worlds, evs, i, n, Succeeded);
    if n > i {
      AwaitedSuccess(worlds[n], evs[n]);
    } else {
      AnsweredAtOnce(worlds[n], evs[n].request, evs[n].authorized);
    }
  }

  lemma AnsweredAtOnce(w: World, request: Request, authorized: bool)
    requires Inv(w) && Enabled(w, Invoke(request, authorized)) && request.SetFlightMode?
    requires Dispatch(w, Invoke(request, authorized)).answers == w.answers + [Reply(w.calls, Succeeded)]
    ensures Dispatch(w, Invoke(request, authorized)).flightMode == request.block
  {
    var v := Dispatch(w, Invoke(request, authorized));
    assert v.answers[|w.answers|] == Reply(w.calls, Succeeded);
  }

  lemma OneOutcome(answers: seq<Reply>, id: nat, a: Outcome, b: Outcome)
    requires answers + [Reply(id, a)] == answers + [Reply(id, b)]
    ensures a == b
  {
    assert (answers + [Reply(id, a)])[|answers|] == Reply(id, a);
    assert (answers + [Reply(id, b)])[|answers|] == Reply(id, b);
  }

  /** What answers a pending flight-mode call with success is a sweep that commits. */
  lemma AwaitedSuccess(w: World, ev: Event)
    requires Inv(w) && Enabled(w, ev) && Defined(w, ev)
    requires w.invocation.Some? && w.invocation.value.request.SetFlightMode?
    requires CallReplied(w, Dispatch(w, ev), Succeeded)
    ensures SweepCommitted(w, Dispatch(w, ev))
  {
    ReplyOnly(w, ev, Succeeded);
    AwaitedReplyOnly(w);
    var ok :| ev == AwaitedReply(w, ok);
    SweepReply(w, ok);
    if !ok {
      OneOutcome(w.answers, w.invocation.value.id, Succeeded, Failed);
    }
  }

  /** Only a reply ends an operation. */
  lemma ReplyOnly(w: World, ev: Event, outcome: Outcome)
    requires Inv(w) && Enabled(w, ev) && Defined(w, ev) && w.invocation.Some?
    requires CallReplied(w, Dispatch(w, ev), outcome)
    ensures IsReply(ev)
  {
  }

  /** The first type that has a device. */
  ghost predicate FirstPresent(devices: seq<Device>, typ: int) {
    RadioType(typ) && TypePresent(devices, typ) && forall k :: RadioType(k) && k < typ ==> !TypePresent(devices, k)
  }

  /** Whether the latest enter found the killswitch soft blocked; under strict
      flight mode nothing is remembered of WWAN. */
  ghost predicate WasSoft(cfg: Config, history: seq<Committed>, typ: int) {
    && !(typ == TYPE_WWAN && cfg.strict)
    && history != [] && history[|history| - 1].block
    && 0 <= typ < |history[|history| - 1].initial| && history[|history| - 1].initial[typ] == SoftBlocked
  }

  lemma {:induction false} NoAsksYet(initial: seq<State>, final: seq<bool>, n: int)
    requires |initial| == |final| == NUM_TYPES && n <= NUM_TYPES
    requires forall i :: 0 < i < n ==> initial[i] == NoAdapter
    ensures SweepAsks(initial, final, n) == []
  {
    if n <= 1 {
    } else {
      NoAsksYet(initial, final, n - 1);
    }
  }

  /** A sweep that has found the first adapter has asked its type and no other. */
  lemma OnlyAsk(q: Plant, typ: int)
    requires Shape(q) && Progressed(q) && RadioType(typ) && q.sweep.blockIndex == typ + 1
    requires q.sweep.initial[typ] != NoAdapter && forall i :: 0 < i < typ ==> q.sweep.initial[i] == NoAdapter
    ensures q.asks[q.sweep.mark..]
         == [Ask(typ, q.sweep.pendingBlock || GetPrevSoft(q.cfg, q.saved, typ), true)]
  {
    hide GetPrevSoft;
    NoAsksYet(q.sweep.initial, q.sweep.final, typ);
  }

  lemma FirstAdapter(p: Plant, q: Plant, typ: int)
    requires Shape(p) && 0 < p.sweep.blockIndex && Advanced(p, q) && q.sweep.pendingBlockTask.Some?
    requires p.sweep.blockIndex == 1 && typ == q.sweep.blockIndex - 1
    ensures FirstPresent(p.devices, typ) && q.sweep.initial[typ] != NoAdapter
    ensures forall i :: 0 < i < typ ==> q.sweep.initial[i] == NoAdapter
  {
    hide Refresh, Progressed, TypePresent, SwitchState;
    forall k | RadioType(k) && k <= typ ensures TypePresent(p.devices, k) <==> k == typ {
      SwitchStateInBits(p.devices, k);
    }
  }

  lemma FirstRequest(p: Plant, block: bool, task: Task)
    requires SlotsOk(p) && AllIdle(p) && p.devices != [] && task.born == p.now && task.FlightModeTask?
    ensures exists typ ::
              && FirstPresent(p.devices, typ)
              && BeginSweep(p, block, task).asks == p.asks + [Ask(typ, block || GetPrevSoft(p.cfg, p.saved, typ), true)]
  {
    SweepFindsAdapter(p, block, task);
    hide Refresh, GetPrevSoft, SwitchState, FirstPresent, Switch;
    var blank := BLANK_SWEEP.(flightModeTask := Some(task), pendingBlock := block, mark := |p.asks|);
    var start, q := p.(sweep := blank), BeginSweep(p, block, task);
    assert p.asks[|p.asks|..] == [];
    assert Between(start);
    AdvanceEffect(start);
    assert q == Advance(start, block);
    var typ := q.sweep.blockIndex - 1;
    FirstAdapter(start, q, typ);
    OnlyAsk(q, typ);
    assert q.asks == q.asks[..|p.asks|] + q.asks[|p.asks|..];
  }

  lemma Launched(w: World, block: bool)
    requires Inv(w) && Enabled(w, Invoke(SetFlightMode(block), true))
    requires w.plant.devices != [] && w.invocation.None? && w.flightMode != block
    ensures var u, v := NextDispatch(w).plant, Dispatch(w, Invoke(SetFlightMode(block), true));
      && v.invocation == Some(Call(w.calls, SetFlightMode(block))) && v.answers == w.answers
      && v.flightMode == w.flightMode && v.plant == BeginSweep(u, block, FlightModeTask(u.now))
      && SlotsOk(u) && AllIdle(u)
  {
  }

  /** A flight-mode call that asks for a change, with a device there and nothing
      pending, is not answered but becomes the pending one, and the first type
      with a device is asked at once: to be blocked, or as it was before. */
  lemma FlightModeStarts(cfg: Config, worlds: seq<World>, evs: seq<Event>, n: nat, block: bool)
    requires Execution(cfg, worlds, evs) && n < |evs| && evs[n] == Invoke(SetFlightMode(block), true)
    requires worlds[n].plant.devices != [] && worlds[n].invocation.None? && worlds[n].flightMode != block
    ensures n + 1 < |worlds|
    ensures var w, v := worlds[n], worlds[n + 1];
      && v.invocation == Some(Call(w.calls, SetFlightMode(block))) && v.answers == w.answers
      && v.flightMode == w.flightMode && v.plant.saved == w.plant.saved
      && exists typ ::
           && FirstPresent(w.plant.devices, typ)
           && v.plant.asks == w.plant.asks + [Ask(typ, block || WasSoft(cfg, w.plant.history, typ), true)]
  {
    RunStep(cfg, worlds, evs, n);
    ExecutionConfig(cfg, worlds, evs, n);
    StartsSweep(worlds[n], block);
  }

  lemma StartsSweep(w: World, block: bool)
    requires Inv(w) && Enabled(w, Invoke(SetFlightMode(block), true))
    requires w.plant.devices != [] && w.invocation.None? && w.flightMode != block
    ensures var v := Dispatch(w, Invoke(SetFlightMode(block), true));
      && v.invocation == Some(Call(w.calls, SetFlightMode(block))) && v.answers == w.answers
      && v.flightMode == w.flightMode && v.plant.saved == w.plant.saved && v.plant.history == w.plant.history
      && exists typ ::
           && FirstPresent(w.plant.devices, typ)
           && v.plant.asks == w.plant.asks + [Ask(typ, block || WasSoft(w.plant.cfg, w.plant.history, typ), true)]
  {
    hide Dispatch, BeginSweep, Enabled;
    Launched(w, block);
    var u := NextDispatch(w).plant;
    SweepFindsAdapter(u, block, FlightModeTask(u.now));
    FirstRequest(u, block, FlightModeTask(u.now));
    assert forall typ :: RadioType(typ) ==> GetPrevSoft(u.cfg, u.saved, typ) == WasSoft(u.cfg, u.history, typ);
  }

  /** Without any device a sweep asks nothing, and its task is returned with success
      in a later dispatch; the daemon never starts such a sweep. */
  lemma SweepOfNothing(p: Plant, block: bool, task: Task)
    requires SlotsOk(p) && AllIdle(p) && p.devices == [] && task.born == p.now && task.FlightModeTask?
    ensures var q := BeginSweep(p, block, task);
      && q.asks == p.asks && q.chains == p.chains && q.saved == p.saved && q.history == p.history
      && q.idle == p.idle + [Done(task, true)] && q.sweep.flightModeTask.None? && q.sweep.pendingBlockTask.None?
  {
    hide Refresh;
    var blank := BLANK_SWEEP.(flightModeTask := Some(task), pendingBlock := block, mark := |p.asks|);
    var start := p.(sweep := blank);
    assert p.asks[|p.asks|..] == [];
    assert Between(start);
    AdvanceEffect(start);
    var q := Advance(start, block);
    forall k ensures SwitchState(p.devices, k) == NoAdapter {
      SwitchStateInBits(p.devices, k);
    }
    if q.sweep.pendingBlockTask.None? {
      NoAsksYet(q.sweep.initial, q.sweep.final, NUM_TYPES);
      assert q.asks == q.asks[..|p.asks|] + q.asks[|p.asks|..];
    }
  }

  /** Replies that move a sweep on leave flag, file and history alone. */
  lemma GoingOn(w: World)
    requires Inv(w) && w.invocation.Some? && w.invocation.value.request.SetFlightMode?
    requires Enabled(w, AwaitedReply(w, true)) && Dispatch(w, AwaitedReply(w, true)).invocation.Some?
    ensures var v := Dispatch(w, AwaitedReply(w, true));
      v.plant.history == w.plant.history && v.flightMode == w.flightMode && v.plant.saved == w.plant.saved
  {
    var ev := AwaitedReply(w, true);
    NeverUndefined(w, ev);
    DispatchStarts(w);
    var u, typ := NextDispatch(w), w.plant.sweep.blockIndex - 1;
    var done := ChainProgress(u.plant, typ, true).done;
    if done.Some? {
      ChainEndsSweep(u, typ, true);
      assert Dispatch(w, ev) == Settle(u.(plant := AfterAnswer(u.plant, typ, true)), done.value);
    }
  }

  /** If every device complies, a pending flight-mode operation changes flight mode,
      enters one more sweep in the history and answers its call with success. */
  lemma {:induction false} CompliantSweep(w: World, n: nat)
    requires Inv(w) && w.invocation.Some? && w.invocation.value.request.SetFlightMode?
    ensures var v := RunToEnd(w, _ => true, n);
      && CallReplied(w, v, Succeeded)
      && v.flightMode == w.invocation.value.request.block
      && |v.plant.history| == |w.plant.history| + 1
    decreases TypesLeft(w), NodesLeft(w)
  {
    hide Enabled, Dispatch;
    var ev := AwaitedReply(w, true);
    AwaitedReplyOnly(w);
    assert Enabled(w, ev);
    SweepReply(w, true);
    var v := Dispatch(w, ev);
    if v.invocation.None? {
      assert RunToEnd(w, _ => true, n) == v;
    } else {
      GoingOn(w);
      CompliantSweep(v, n + 1);
    }
  }

  /** From either mode: asking for the other one with a device there and nothing
      pending, and having every device comply, ends in the other mode. */
  lemma FlightModeSwitches(cfg: Config, worlds: seq<World>, evs: seq<Event>, n: nat, block: bool)
    requires Execution(cfg, worlds, evs) && n < |evs| && evs[n] == Invoke(SetFlightMode(block), true)
    requires worlds[n].plant.devices != [] && worlds[n].invocation.None? && worlds[n].flightMode != block
    ensures n + 1 < |worlds| && Inv(worlds[n + 1]) && worlds[n + 1].invocation.Some?
    ensures var v := RunToEnd(worlds[n + 1], _ => true, 0);
      && v.flightMode == block && Entry(v.plant.saved.soft, TYPE_ALL) == block && v.invocation.None?
      && |v.plant.history| == |worlds[n].plant.history| + 1
      && v.answers == worlds[n].answers + [Reply(worlds[n].calls, Succeeded)]
  {
    hide Execution, Dispatch, Enabled;
    FlightModeStarts(cfg, worlds, evs, n, block);
    RunStep(cfg, worlds, evs, n);
    StartsSweep(worlds[n], block);
    CompliantSweep(worlds[n + 1], 0);
  }

  // ---------- What a Block leaves in the file ----------

  /** At most the soft entry of one type differs, and it is the given value; WWAN
      has no entry of its own under strict flight mode. */
  ghost predicate EntrySet(cfg: Config, before: Saved, after: Saved, typ: int, value: bool) {
    && (typ == TYPE_WWAN && cfg.strict ==> after == before)
    && (!(typ == TYPE_WWAN && cfg.strict) ==> Entry(after.soft, typ) == value)
    && (forall k :: k != typ ==> Entry(after.soft, k) == Entry(before.soft, k))
    && (forall k :: Entry(after.prevSoft, k) == Entry(before.prevSoft, k))
  }

  /** The call concerns the type: it names it, or names a device of it. */
  ghost predicate Concerns(devices: seq<Device>, request: Request, typ: int) {
    match request
    case Block(t, _) => t == typ
    case BlockIdx(index, _) => exists d :: d in devices && d.index == index && d.typ == typ
    case SetFlightMode(_) => false
  }

  lemma SettleSaves(w: World, done: Done, typ: int)
    requires Shape(w.plant) && UniqueIndices(w.plant.devices) && CompletionDefined(w, done.task)
    requires done.task.born < w.plant.now && (done.task.BlockTask? || done.task.BlockIdxTask?)
    requires done.task.BlockTask? ==> done.task.typ == typ
    requires done.task.BlockIdxTask? ==> exists d :: d in w.plant.devices && d.index == done.task.index && d.typ == typ
    ensures var v := Settle(w, done);
      if done.ok then EntrySet(w.plant.cfg, w.plant.saved, v.plant.saved, typ, w.pendingBlock)
      else v.plant.saved == w.plant.saved
  {
    if done.task.BlockIdxTask? {
      var d :| d in w.plant.devices && d.index == done.task.index && d.typ == typ;
      var k :| 0 <= k < |w.plant.devices| && w.plant.devices[k] == d;
      FindUnique(w.plant.devices, k);
    }
  }

  /** The dispatch that ends a Block or BlockIdx operation. */
  lemma EndingSaves(w: World, ev: Event, outcome: Outcome, typ: int)
    requires Inv(w) && Enabled(w, ev) && Defined(w, ev) && w.invocation.Some?
    requires Concerns(w.plant.devices, w.invocation.value.request, typ)
    requires CallReplied(w, Dispatch(w, ev), outcome) && outcome in {Succeeded, Failed}
    ensures var v, b := Dispatch(w, ev), w.invocation.value.request.block;
      if outcome == Succeeded then EntrySet(w.plant.cfg, w.plant.saved, v.plant.saved, typ, b)
      else v.plant.saved == w.plant.saved
  {
    var v, request := Dispatch(w, ev), w.invocation.value.request;
    ReplyOnly(w, ev, outcome);
    hide HistoryOk, AnswersOk, Refresh, EntrySet;
    DispatchStarts(w);
    if ev.DeviceReply? {
      ChainEnding(w, ev.typ, ev.ok, outcome, typ);
    } else if ev.RunIdle? {
      var u := NextDispatch(w);
      var x := u.(plant := u.plant.(idle := u.plant.idle[1..]));
      SettleSaves(x, w.plant.idle[0], typ);
      SettledAs(x, w.plant.idle[0], outcome);
    } else {
      var x := NextDispatch(w).(deviceTask := None);
      SettleSaves(x, Done(w.deviceTask.value, ev.ok), typ);
      SettledAs(x, Done(w.deviceTask.value, ev.ok), outcome);
    }
  }

  lemma SettledAs(w: World, done: Done, outcome: Outcome)
    requires Shape(w.plant) && CompletionDefined(w, done.task) && done.task.born < w.plant.now
    requires done.task.BlockTask? || done.task.BlockIdxTask?
    requires CallReplied(w, Settle(w, done), outcome)
    ensures outcome == if done.ok then Succeeded else Failed
  {
    OneOutcome(w.answers, w.invocation.value.id, outcome, if done.ok then Succeeded else Failed);
  }

  lemma ChainEnding(w: World, k: int, ok: bool, outcome: Outcome, typ: int)
    requires Inv(w) && Enabled(w, DeviceReply(k, ok)) && Defined(w, DeviceReply(k, ok)) && w.invocation.Some?
    requires Concerns(w.plant.devices, w.invocation.value.request, typ)
    requires CallReplied(w, Dispatch(w, DeviceReply(k, ok)), outcome) && outcome in {Succeeded, Failed}
    ensures var v, b := Dispatch(w, DeviceReply(k, ok)), w.invocation.value.request.block;
      if outcome == Succeeded then EntrySet(w.plant.cfg, w.plant.saved, v.plant.saved, typ, b)
      else v.plant.saved == w.plant.saved
  {
    hide HistoryOk, AnswersOk, Refresh, EntrySet;
    DispatchStarts(w);
    var u := NextDispatch(w);
    var x, done := u.(plant := AfterAnswer(u.plant, k, ok)), ChainProgress(u.plant, k, ok).done;
    assert w.invocation.value.request.Block?;
    assert done.Some?;
    assert Dispatch(w, DeviceReply(k, ok)) == Settle(x, done.value);
    SettleSaves(x, done.value, typ);
    SettledAs(x, done.value, outcome);
  }

  /** A Block or BlockIdx that is answered with success at the end of its operation
      leaves the asked state in the file, for its type and no other; one that
      fails leaves the file alone. */
  lemma BlockIsSaved(cfg: Config, worlds: seq<World>, evs: seq<Event>, i: nat, n: nat, typ: int, outcome: Outcome)
    requires Execution(cfg, worlds, evs) && i < n < |evs| && evs[i].Invoke?
    requires Concerns(worlds[n].plant.devices, evs[i].request, typ)
    requires AnsweredAt(worlds, n, worlds[i].calls, outcome)
    ensures outcome in {Succeeded, Failed}
    ensures var before, after := worlds[n].plant.saved, worlds[n + 1].plant.saved;
      if outcome == Succeeded then EntrySet(cfg, before, after, typ, evs[i].request.block) else after == before
  {
    hide EntrySet;
    AnswerComes(cfg, worlds, evs, i, n, outcome);
    ExecutionConfig(cfg, worlds, evs, n);
    ReplyOutcome(worlds[n], evs[n], outcome);
    EndingSaves(worlds[n], evs[n], outcome, typ);
  }

  lemma ReplyOutcome(w: World, ev: Event, outcome: Outcome)
    requires Inv(w) && Enabled(w, ev) && Defined(w, ev) && w.invocation.Some?
    requires CallReplied(w, Dispatch(w, ev), outcome)
    ensures outcome in {Succeeded, Failed}
  {
    ReplyOnly(w, ev, outcome);
    ReplyProgresses(w, ev);
    if CallReplied(w, Dispatch(w, ev), Succeeded) {
      OneOutcome(w.answers, w.invocation.value.id, outcome, Succeeded);
    } else {
      OneOutcome(w.answers, w.invocation.value.id, outcome, Failed);
    }
  }

  /** What the file tells of a type: WWAN goes with flight mode under strict flight mode. */
  ghost function SavedFor(cfg: Config, saved: Saved, typ: int): bool {
    Entry(saved.soft, if typ == TYPE_WWAN && cfg.strict then TYPE_ALL else typ)
  }

  /** A device that is new is asked, under force_sync, for the soft state it came
      with unless it is a platform device, and then, under persist, for what the
      file tells of its type. */
  lemma NewDeviceIsAsked(cfg: Config, worlds: seq<World>, evs: seq<Event>, n: nat)
    requires Execution(cfg, worlds, evs) && n < |evs|
    requires evs[n].Kernel? && evs[n].event.Add? && 0 <= evs[n].event.index
    requires forall d :: d in worlds[n].plant.devices ==> d.index != evs[n].event.index
    ensures n + 1 < |worlds| && worlds[n + 1].plant.saved == worlds[n].plant.saved
    ensures var add := evs[n].event;
      worlds[n + 1].plant.deviceAsks == worlds[n].plant.deviceAsks
        + (if cfg.forceSync && !add.platform then [DeviceAsk(add.index, add.soft, None)] else [])
        + (if cfg.persist then [DeviceAsk(add.index, SavedFor(cfg, worlds[n].plant.saved, add.typ), None)] else [])
  {
    RunStep(cfg, worlds, evs, n);
    ExecutionConfig(cfg, worlds, evs, n);
  }

  /** A change of a device's bits is answered by a request under force_sync, and
      saved otherwise; bits that are repeated cause nothing. */
  lemma ChangeIsHandled(cfg: Config, worlds: seq<World>, evs: seq<Event>, n: nat, d: Device, soft: bool, hard: bool)
    requires Execution(cfg, worlds, evs) && n < |evs| && d in worlds[n].plant.devices
    requires evs[n] == Kernel(Change(d.index, soft, hard))
    ensures n + 1 < |worlds|
    ensures var before, after := worlds[n].plant.saved, worlds[n + 1].plant.saved;
      if cfg.forceSync || (d.soft == soft && d.hard == hard) then after == before
      else EntrySet(cfg, before, after, d.typ, soft)
    ensures worlds[n + 1].plant.deviceAsks == worlds[n].plant.deviceAsks
              + if !cfg.forceSync || (d.soft == soft && d.hard == hard) then []
                else if hard && !soft then [DeviceAsk(d.index, true, None)]
                else if d.hard && !hard then [DeviceAsk(d.index, false, None)]
                else []
  {
    hide Execution, Inv, Enabled, Defined;
    RunStep(cfg, worlds, evs, n);
    ExecutionConfig(cfg, worlds, evs, n);
    InvShape(worlds[n]);
    ChangeReaction(worlds[n], d, soft, hard);
  }

  lemma ChangeReaction(w: World, d: Device, soft: bool, hard: bool)
    requires UniqueIndices(w.plant.devices) && d in w.plant.devices && Defined(w, Kernel(Change(d.index, soft, hard)))
    ensures var cfg, p, q := w.plant.cfg, w.plant, Dispatch(w, Kernel(Change(d.index, soft, hard))).plant;
      && (if cfg.forceSync || (d.soft == soft && d.hard == hard) then q.saved == p.saved
          else EntrySet(cfg, p.saved, q.saved, d.typ, soft))
      && q.deviceAsks == p.deviceAsks
           + if !cfg.forceSync || (d.soft == soft && d.hard == hard) then []
             else if hard && !soft then [DeviceAsk(d.index, true, None)]
             else if d.hard && !hard then [DeviceAsk(d.index, false, None)]
             else []
  {
    IndexPresent(w.plant.devices, d.index);
  }

  /** So is a modem that powers up. */
  lemma NewModemIsAsked(cfg: Config, worlds: seq<World>, evs: seq<Event>, n: nat)
    requires Execution(cfg, worlds, evs) && n < |evs| && evs[n].ModemOn?
    requires forall d :: d in worlds[n].plant.devices ==> d.index != evs[n].device.index
    ensures n + 1 < |worlds| && worlds[n + 1].plant.saved == worlds[n].plant.saved
    ensures var d := evs[n].device;
      worlds[n + 1].plant.deviceAsks == worlds[n].plant.deviceAsks
        + (if cfg.forceSync then [DeviceAsk(d.index, d.soft, None)] else [])
        + (if cfg.persist then [DeviceAsk(d.index, SavedFor(cfg, worlds[n].plant.saved, TYPE_WWAN), None)] else [])
  {
    RunStep(cfg, worlds, evs, n);
    ExecutionConfig(cfg, worlds, evs, n);
  }

  /** An event about an index that is taken, unknown or given up, or a modem's Online value. */
  ghost predicate Quiet(devices: seq<Device>, ev: Event) {
    match ev
    case Kernel(Add(index, _, _, _, _)) => index < 0 || exists d :: d in devices && d.index == index
    case Kernel(Del(_)) => true
    case Kernel(Change(index, _, _)) => forall d :: d in devices ==> d.index != index
    case ModemOn(m) => exists d :: d in devices && d.index == m.index
    case ModemOff(_) => true
    case ModemOnline(_, _) => true
    case _ => false
  }

  /** Such events ask nothing of any device and save nothing; all they may change
      is the device list. */
  lemma QuietEvents(cfg: Config, worlds: seq<World>, evs: seq<Event>, n: nat)
    requires Execution(cfg, worlds, evs) && n < |evs| && Quiet(worlds[n].plant.devices, evs[n])
    ensures n + 1 < |worlds|
    ensures var v := worlds[n + 1];
      v == worlds[n].(plant := worlds[n].plant.(now := worlds[n].plant.now + 1, devices := v.plant.devices))
  {
    hide Execution, Inv, Enabled, Defined, Quiet;
    RunStep(cfg, worlds, evs, n);
    InvShape(worlds[n]);
    QuietReaction(worlds[n], evs[n]);
  }

  lemma QuietReaction(w: World, ev: Event)
    requires Defined(w, ev) && UniqueIndices(w.plant.devices) && Quiet(w.plant.devices, ev)
    ensures var v := Dispatch(w, ev); v == w.(plant := w.plant.(now := w.plant.now + 1, devices := v.plant.devices))
  {
    if ev.ModemOn? {
      IndexPresent(w.plant.devices, ev.device.index);
    } else if ev.Kernel? {
      IndexPresent(w.plant.devices, ev.event.index);
    }
  }

  /** A Block outlives a restart: the first device of the type that appears in the
      daemon that starts on the file is asked last for what the Block asked for. */
  lemma BlockOutlivesRestart(cfg: Config, worlds: seq<World>, evs: seq<Event>, i: nat, n: nat)
    requires Execution(cfg, worlds, evs) && i < n && n + 2 < |evs| && cfg.persist
    requires evs[i].Invoke? && evs[i].request.Block? && AnsweredAt(worlds, n, worlds[i].calls, Succeeded)
    requires evs[n + 1].Restart? && evs[n + 2].Kernel? && evs[n + 2].event.Add? && 0 <= evs[n + 2].event.index
    requires evs[n + 2].event.typ == evs[i].request.typ && !(evs[i].request.typ == TYPE_WWAN && cfg.strict)
    ensures n + 3 < |worlds|
    ensures var asks := worlds[n + 3].plant.deviceAsks;
      asks != [] && asks[|asks| - 1] == DeviceAsk(evs[n + 2].event.index, evs[i].request.block, None)
  {
    hide Execution, Inv, Dispatch, Enabled, Defined;
    RunLength(cfg, worlds, evs);
    BlockIsSaved(cfg, worlds, evs, i, n, evs[i].request.typ, Succeeded);
    RunStep(cfg, worlds, evs, n + 1);
    StartsAgain(worlds[n + 1]);
    NewDeviceIsAsked(cfg, worlds, evs, n + 2);
  }

  /** A daemon that starts again has no devices yet, and the file as it was. */
  lemma StartsAgain(w: World)
    requires Defined(w, Restart)
    ensures Dispatch(w, Restart).plant.devices == [] && Dispatch(w, Restart).plant.saved == w.plant.saved
  {
  }

  /** A task never completes in the dispatch that created it: returned there, it is
      queued and nothing else happens; returned later, it completes at once. */
  lemma NothingCompletesTooEarly(w: World, done: Done)
    requires Shape(w.plant) && CompletionDefined(w, done.task)
    ensures done.task.born == w.plant.now ==> Settle(w, done) == w.(plant := w.plant.(idle := w.plant.idle + [done]))
    ensures done.task.born != w.plant.now && !done.task.SweepTask? ==>
              Settle(w, done).invocation.None? && Settle(w, done).plant.idle == w.plant.idle
  {
  }

  // ---------- How a call is judged when it comes in ----------

  /** The call names something the daemon has. */
  ghost predicate Sensible(devices: seq<Device>, request: Request) {
    match request
    case Block(typ, _) => typ < NUM_TYPES
    case BlockIdx(index, _) => 0 <= index && exists d :: d in devices && d.index == index
    case SetFlightMode(_) => true
  }

  /** The radios, or flight mode, are as the caller wants them. */
  ghost predicate AlreadyThere(w: World, request: Request) {
    match request
    case Block(typ, block) =>
      var t := if typ == TYPE_ALL then TYPE_WLAN else typ;
      TypePresent(w.plant.devices, t) && !TypeHard(w.plant.devices, t) && TypeSoft(w.plant.devices, t) == block
    case BlockIdx(index, block) =>
      exists d :: d in w.plant.devices && d.index == index && !d.hard && d.soft == block
    case SetFlightMode(block) => w.flightMode == block
  }

  /** The dispatch does nothing but count the call and, perhaps, answer it. */
  ghost predicate Untouched(w: World, v: World) {
    v == w.(plant := w.plant.(now := w.plant.now + 1), calls := w.calls + 1, answers := v.answers, dropped := v.dropped)
  }

  /** A call is judged by these questions in this order; only one that passes them
      all starts an operation, and any other changes nothing. */
  lemma CallIsJudged(cfg: Config, worlds: seq<World>, evs: seq<Event>, n: nat)
    requires Execution(cfg, worlds, evs) && n < |evs| && evs[n].Invoke?
    ensures n + 1 < |worlds|
    ensures var w, v, request, id := worlds[n], worlds[n + 1], evs[n].request, worlds[n].calls;
      if w.plant.devices == [] || (request.Block? && request.typ < 0)
      then Untouched(w, v) && v.answers == w.answers && v.dropped == w.dropped + {id}
      else if !evs[n].authorized
      then Untouched(w, v) && v.answers == w.answers + [Reply(id, Unauthorized)] && v.dropped == w.dropped
      else if !Sensible(w.plant.devices, request)
      then Untouched(w, v) && v.answers == w.answers + [Reply(id, Invalid)] && v.dropped == w.dropped
      else if w.invocation.Some?
      then Untouched(w, v) && v.answers == w.answers + [Reply(id, InProgress)] && v.dropped == w.dropped
      else if AlreadyThere(w, request)
      then Untouched(w, v) && v.answers == w.answers + [Reply(id, Succeeded)] && v.dropped == w.dropped
      else v.invocation == Some(Call(id, request)) && v.answers == w.answers && v.dropped == w.dropped
  {
    RunStep(cfg, worlds, evs, n);
    JudgedSo(worlds[n], evs[n].request, evs[n].authorized);
  }

  lemma JudgedSo(w: World, request: Request, authorized: bool)
    requires Inv(w) && Enabled(w, Invoke(request, authorized))
    ensures var v, id := Dispatch(w, Invoke(request, authorized)), w.calls;
      if w.plant.devices == [] || (request.Block? && request.typ < 0)
      then Untouched(w, v) && v.answers == w.answers && v.dropped == w.dropped + {id}
      else if !authorized
      then Untouched(w, v) && v.answers == w.answers + [Reply(id, Unauthorized)] && v.dropped == w.dropped
      else if !Sensible(w.plant.devices, request)
      then Untouched(w, v) && v.answers == w.answers + [Reply(id, Invalid)] && v.dropped == w.dropped
      else if w.invocation.Some?
      then Untouched(w, v) && v.answers == w.answers + [Reply(id, InProgress)] && v.dropped == w.dropped
      else if AlreadyThere(w, request)
      then Untouched(w, v) && v.answers == w.answers + [Reply(id, Succeeded)] && v.dropped == w.dropped
      else v.invocation == Some(Call(id, request)) && v.answers == w.answers && v.dropped == w.dropped
  {
    hide Inv, BeginSweep, SetBlock, Refresh, TypeDecides, AlreadyThere, SwitchState;
    InvShape(w);
    if request.BlockIdx? {
      IndexPresent(w.plant.devices, request.index);
    }
    if !(request.Block? && request.typ < 0) && authorized && Sensible(w.plant.devices, request) {
      SatisfiedMeans(w, request);
    }
  }

  lemma InvShape(w: World)
    requires Inv(w)
    ensures Shape(w.plant) && UniqueIndices(w.plant.devices)
  {
  }

  lemma IndexPresent(devices: seq<Device>, index: int)
    requires UniqueIndices(devices)
    ensures Present(devices, index) <==> exists d :: d in devices && d.index == index
    ensures forall d :: d in devices && d.index == index ==> Present(devices, index) && Lookup(devices, index) == d
  {
    forall d | d in devices && d.index == index ensures Present(devices, index) && Lookup(devices, index) == d {
      var k :| 0 <= k < |devices| && devices[k] == d;
      FindUnique(devices, k);
    }
    if Present(devices, index) {
      assert Lookup(devices, index) in devices;
    }
  }

  lemma SatisfiedMeans(w: World, request: Request)
    requires UniqueIndices(w.plant.devices) && Sensible(w.plant.devices, request)
    ensures request.BlockIdx? ==> Present(w.plant.devices, request.index)
    ensures Satisfied(w, request) <==> AlreadyThere(w, request)
  {
    match request
    case Block(typ, _) => SwitchStateInBits(w.plant.devices, if typ == TYPE_ALL then TYPE_WLAN else typ);
    case BlockIdx(index, _) => IndexPresent(w.plant.devices, index);
    case SetFlightMode(_) =>
  }

  /** What an accepted Block or BlockIdx asks at once: the killswitch and the first
      device it lists, or the device that was named. */
  lemma AcceptedAsks(cfg: Config, worlds: seq<World>, evs: seq<Event>, n: nat)
    requires Execution(cfg, worlds, evs) && n < |evs| && evs[n].Invoke? && !evs[n].request.SetFlightMode?
    requires n + 1 < |worlds| && worlds[n].invocation.None? && worlds[n + 1].invocation.Some?
    ensures var w, v, request := worlds[n], worlds[n + 1], evs[n].request;
      && v.plant.asks == w.plant.asks + (if request.Block? then [Ask(request.typ, request.block, true)] else [])
      && (request.BlockIdx? ==>
            v.plant.deviceAsks == w.plant.deviceAsks + [DeviceAsk(request.index, request.block, None)])
      && (request.Block? && Switch(w.plant.devices, request.typ) != [] ==>
            v.plant.deviceAsks == w.plant.deviceAsks
              + [DeviceAsk(Switch(w.plant.devices, request.typ)[0].index, request.block, Some(request.typ))])
  {
    RunStep(cfg, worlds, evs, n);
  }
}
