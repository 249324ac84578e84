/** What whole runs of the daemon guarantee: undoing flight mode, answering
    every call, and finishing every operation. */
module FlightModeRuns {
  import opened Common
  import opened KillswitchState
  import opened DeviceMirror
  import opened DeviceChain
  import opened Persistence
  import opened FlightMode
  import opened DeviceEvents
  import opened DaemonProtocol
  import opened ProtocolInvariant

  // ---------- Leaving flight mode undoes entering it ----------

  /** The requests of one successful sweep: types rise strictly, exactly the
      types with a sampled adapter are asked, each for the given block state. */
  ghost predicate AskedExactly(sweep: Committed, wanted: int -> bool)
    requires |sweep.initial| == NUM_TYPES
  {
    && (forall i, j :: 0 <= i < j < |sweep.asks| ==> sweep.asks[i].typ < sweep.asks[j].typ)
    && (forall a :: a in sweep.asks <==>
          RadioType(a.typ) && sweep.initial[a.typ] != NoAdapter && a == Ask(a.typ, wanted(a.typ), true))
  }

  /** Whatever Block calls, device events, failed sweeps and restarts lie
      between: every successful exit follows a successful enter, and asks each
      present type to be blocked exactly when that enter sampled it as soft
      blocked.  WWAN under strict flight mode is always unblocked. */
  lemma ExitUndoesEnter(cfg: Config, worlds: seq<World>, evs: seq<Event>, n: nat, k: nat)
    requires Execution(cfg, worlds, evs) && n < |worlds|
    requires k < |worlds[n].plant.history| && !worlds[n].plant.history[k].block
    ensures var h := worlds[n].plant.history;
      && k > 0 && h[k - 1].block
      && |h[k - 1].initial| == |h[k].initial| == NUM_TYPES
      && AskedExactly(h[k], typ => 0 <= typ < NUM_TYPES && !Shielded(cfg, typ) && h[k - 1].initial[typ] == SoftBlocked)
  {
    ExecutionInv(cfg, worlds, evs, n);
    ExecutionConfig(cfg, worlds, evs, n);
    ExitInHistory(cfg, worlds[n].plant.history, k);
  }

  lemma ExitInHistory(cfg: Config, h: seq<Committed>, k: nat)
    requires HistoryLaw(cfg, h) && k < |h| && !h[k].block
    ensures k > 0 && h[k - 1].block
    ensures |h[k - 1].initial| == |h[k].initial| == NUM_TYPES
    ensures AskedExactly(h[k], typ =>
              0 <= typ < NUM_TYPES && !Shielded(cfg, typ) && h[k - 1].initial[typ] == SoftBlocked)
  {
    SweepAsksTypes(h[k].initial, WantedAt(cfg, h, k), NUM_TYPES);
    assert h[..k][k - 1] == h[k - 1];
  }

  /** A successful enter asks every present type to be blocked. */
  lemma EnterBlocksAll(cfg: Config, worlds: seq<World>, evs: seq<Event>, n: nat, k: nat)
    requires Execution(cfg, worlds, evs) && n < |worlds|
    requires k < |worlds[n].plant.history| && worlds[n].plant.history[k].block
    ensures var h := worlds[n].plant.history; |h[k].initial| == NUM_TYPES && AskedExactly(h[k], _ => true)
  {
    ExecutionInv(cfg, worlds, evs, n);
    ExecutionConfig(cfg, worlds, evs, n);
    var h := worlds[n].plant.history;
    SweepAsksTypes(h[k].initial, WantedAt(cfg, h, k), NUM_TYPES);
  }

  lemma {:induction false} ExecutionConfig(cfg: Config, worlds: seq<World>, evs: seq<Event>, n: nat)
    requires Execution(cfg, worlds, evs) && n < |worlds|
    ensures worlds[n].plant.cfg == cfg
  {
    if n == 0 {
    } else {
      ExecutionConfig(cfg, worlds, evs, n - 1);
    }
  }

  // ---------- Every operation ends ----------

  ghost function TypesLeft(w: World): int {
    if w.invocation.Some? && w.invocation.value.request.SetFlightMode? then NUM_TYPES - w.plant.sweep.blockIndex else 0
  }

  /** Devices left in the chain the pending operation waits for. */
  ghost function NodesLeft(w: World): nat
    requires Shape(w.plant)
  {
    var typ :=
      if w.invocation.None? then 0
      else match w.invocation.value.request
           case Block(typ, _) => typ
           case BlockIdx(_, _) => 0
           case SetFlightMode(_) => w.plant.sweep.blockIndex - 1;
    if RadioType(typ) then w.plant.chains[typ].node else 0
  }

  ghost predicate IsReply(ev: Event) {
    ev.DeviceReply? || ev.BlockIdxReply? || ev.RunIdle?
  }

  ghost predicate Closer(w: World, v: World)
    requires Shape(w.plant) && Shape(v.plant)
  {
    TypesLeft(v) < TypesLeft(w) || (TypesLeft(v) == TypesLeft(w) && NodesLeft(v) < NodesLeft(w))
  }

  /** The operation is nearer its end: fewer types left, or fewer devices in the current chain. */
  ghost predicate Nearer(w: World, v: World)
    requires Shape(w.plant) && Shape(v.plant)
  {
    StillPending(w, v) && Closer(w, v)
  }

  /** The reply the pending operation is waiting for. */
  ghost function AwaitedReply(w: World, ok: bool): Event
    requires w.invocation.Some?
  {
    match w.invocation.value.request
    case Block(typ, _) => if w.plant.idle == [] then DeviceReply(typ, ok) else RunIdle
    case BlockIdx(_, _) => BlockIdxReply(ok)
    case SetFlightMode(_) => DeviceReply(w.plant.sweep.blockIndex - 1, ok)
  }

  /** A pending operation is never stuck: exactly one reply is awaited. */
  lemma AwaitedReplyOnly(w: World)
    requires Inv(w) && w.invocation.Some?
    ensures forall ok :: Enabled(w, AwaitedReply(w, ok)) && IsReply(AwaitedReply(w, ok))
    ensures forall ev :: IsReply(ev) && Enabled(w, ev) ==> exists ok :: ev == AwaitedReply(w, ok)
  {
    forall ev | IsReply(ev) && Enabled(w, ev) ensures exists ok :: ev == AwaitedReply(w, ok) {
      if ev.RunIdle? {
        assert ev == AwaitedReply(w, true);
      } else {
        assert ev == AwaitedReply(w, ev.ok);
      }
    }
  }

  /** The awaited reply of a flight-mode operation: after a failure the earlier
      types are restored and flight mode and its history stay as they were;
      after a success the sweep goes on to a later device or type, or commits. */
  lemma SweepReply(w: World, ok: bool)
    requires Inv(w) && w.invocation.Some? && w.invocation.value.request.SetFlightMode?
    requires Enabled(w, AwaitedReply(w, ok))
    ensures Defined(w, AwaitedReply(w, ok)) && Inv(Dispatch(w, AwaitedReply(w, ok)))
    ensures w.plant.sweep.blockIndex <= NUM_TYPES
    ensures var v, u := Dispatch(w, AwaitedReply(w, ok)), NextDispatch(w);
      if ok then Nearer(w, v) || SweepCommitted(w, v) else SweepUndone(u, v)
  {
    NeverUndefined(w, AwaitedReply(w, ok));
    DispatchStarts(w);
    var u, v := NextDispatch(w), Dispatch(w, AwaitedReply(w, ok));
    var typ := w.plant.sweep.blockIndex - 1;
    var done := ChainProgress(u.plant, typ, ok).done;
    if done.None? {
      ChainGoesOn(u, typ, ok);
      SameCalls(u, v);
    } else {
      ChainEndsSweep(u, typ, ok);
      assert v == Settle(u.(plant := AfterAnswer(u.plant, typ, ok)), done.value);
    }
  }

  lemma BlockReply(w: World, ok: bool)
    requires Inv(w) && w.invocation.Some? && !w.invocation.value.request.SetFlightMode?
    requires Enabled(w, AwaitedReply(w, ok))
    ensures Defined(w, AwaitedReply(w, ok)) && Inv(Dispatch(w, AwaitedReply(w, ok)))
    ensures var v := Dispatch(w, AwaitedReply(w, ok));
      Nearer(w, v) || CallReplied(w, v, Succeeded) || CallReplied(w, v, Failed)
  {
    NeverUndefined(w, AwaitedReply(w, ok));
    DispatchStarts(w);
    var u := NextDispatch(w);
    hide HistoryOk, AnswersOk, Refresh;
    match w.invocation.value.request
    case BlockIdx(_, _) =>
      SameCalls(u, u.(deviceTask := None));
      SettleBlock(u.(deviceTask := None), Done(w.deviceTask.value, ok));
    case Block(typ, _) =>
      if w.plant.idle != [] {
        var v := u.(plant := u.plant.(idle := u.plant.idle[1..]));
        SameCalls(u, v);
        SettleBlock(v, w.plant.idle[0]);
      } else {
        BlockChainReply(w, ok);
      }
  }

  /** A device of the chain a Block waits for has answered. */
  lemma BlockChainReply(w: World, ok: bool)
    requires Inv(w) && w.invocation.Some? && w.invocation.value.request.Block? && w.plant.idle == []
    requires Enabled(w, AwaitedReply(w, ok)) && Defined(w, AwaitedReply(w, ok))
    ensures Inv(Dispatch(w, AwaitedReply(w, ok)))
    ensures var v := Dispatch(w, AwaitedReply(w, ok));
      Nearer(w, v) || CallReplied(w, v, Succeeded) || CallReplied(w, v, Failed)
  {
    DispatchStarts(w);
    var u, typ := NextDispatch(w), w.invocation.value.request.typ;
    hide HistoryOk, AnswersOk, Refresh;
    if ChainProgress(u.plant, typ, ok).done.None? {
      ChainGoesOn(u, typ, ok);
      SameCalls(u, u.(plant := AfterAnswer(u.plant, typ, ok)));
    } else {
      ChainEndsBlock(u, typ, ok);
    }
  }

  /** Any reply answers the pending call or brings it nearer its end. */
  lemma ReplyProgresses(w: World, ev: Event)
    requires Inv(w) && w.invocation.Some? && IsReply(ev) && Enabled(w, ev)
    ensures Defined(w, ev) && Inv(Dispatch(w, ev))
    ensures var v := Dispatch(w, ev); Nearer(w, v) || CallReplied(w, v, Succeeded) || CallReplied(w, v, Failed)
  {
    AwaitedReplyOnly(w);
    var ok :| ev == AwaitedReply(w, ok);
    if w.invocation.value.request.SetFlightMode? {
      SweepReply(w, ok);
    } else {
      BlockReply(w, ok);
    }
  }

  /** Another call arriving during an operation is refused and changes nothing else. */
  lemma BusyRefuses(w: World, request: Request, authorized: bool)
    requires Inv(w) && w.invocation.Some? && w.plant.devices != []
    requires request.Block? ==> 0 < request.typ
    ensures var outcome := Refusal(w, request, authorized);
      && outcome.Some? && outcome.value in {Unauthorized, Invalid, InProgress}
      && Dispatch(w, Invoke(request, authorized))
         == NextDispatch(w).(calls := w.calls + 1, answers := w.answers + [Reply(w.calls, outcome.value)])
  {
  }

  /** Device events neither help nor delay the pending operation. */
  lemma OthersWait(w: World, ev: Event)
    requires Inv(w) && w.invocation.Some? && Enabled(w, ev)
    requires ev.Kernel? || ev.ModemOn? || ev.ModemOff? || ev.ModemOnline?
    ensures Defined(w, ev)
    ensures var v := Dispatch(w, ev);
      && StillPending(w, v) && v.plant.sweep == w.plant.sweep
      && v.plant.chains == w.plant.chains && v.plant.idle == w.plant.idle
  {
    var p := NextDispatch(w).plant;
    var q := React(NextDispatch(w), ev).plant;
    if ev.Kernel? {
      ProcessMirrors(p, ev.event);
    }
    assert q == p.(devices := q.devices, deviceAsks := q.deviceAsks, saved := q.saved);
  }

  /** Serving the awaited replies, whatever their outcomes, ends any pending
      operation; the call that is pending at the start is answered exactly then. */
  ghost function RunToEnd(w: World, outcomes: nat -> bool, n: nat): (v: World)
    requires Inv(w) && w.invocation.Some?
    ensures Inv(v) && (CallReplied(w, v, Succeeded) || CallReplied(w, v, Failed))
    decreases TypesLeft(w), NodesLeft(w)
  {
    AwaitedReplyOnly(w);
    ReplyProgresses(w, AwaitedReply(w, outcomes(n)));
    var v := Dispatch(w, AwaitedReply(w, outcomes(n)));
    if v.invocation.None? then v else RunToEnd(v, outcomes, n + 1)
  }

  // ---------- While a call is pending, over whole runs ----------

  ghost predicate NotFarther(w: World, v: World)
    requires Shape(w.plant) && Shape(v.plant)
  {
    TypesLeft(v) < TypesLeft(w) || (TypesLeft(v) == TypesLeft(w) && NodesLeft(v) <= NodesLeft(w))
  }

  lemma StepNotFarther(w: World, ev: Event)
    requires Inv(w) && w.invocation.Some? && Enabled(w, ev) && Defined(w, ev)
    requires Inv(Dispatch(w, ev)) && Dispatch(w, ev).invocation == w.invocation
    ensures NotFarther(w, Dispatch(w, ev))
    ensures IsReply(ev) ==> Nearer(w, Dispatch(w, ev))
  {
    if IsReply(ev) {
      ReplyProgresses(w, ev);
    } else if ev.Invoke? {
      RefusedLeavesPlant(w, ev.request, ev.authorized);
    } else if !ev.Restart? {
      OthersWait(w, ev);
    }
  }

  lemma RefusedLeavesPlant(w: World, request: Request, authorized: bool)
    requires Inv(w) && w.invocation.Some? && Enabled(w, Invoke(request, authorized))
    ensures Dispatch(w, Invoke(request, authorized)).plant == NextDispatch(w).plant
  {
    if !(request.Block? && request.typ < 0) && w.plant.devices != [] {
      BusyRefuses(w, request, authorized);
    }
  }

  /** One step of a run. */
  lemma RunStep(cfg: Config, worlds: seq<World>, evs: seq<Event>, n: nat)
    requires Execution(cfg, worlds, evs) && n < |evs|
    ensures |worlds| == |evs| + 1
    ensures Inv(worlds[n]) && Enabled(worlds[n], evs[n]) && Defined(worlds[n], evs[n])
    ensures worlds[n + 1] == Dispatch(worlds[n], evs[n]) && Inv(worlds[n + 1])
  {
    ExecutionInv(cfg, worlds, evs, n);
    ExecutionInv(cfg, worlds, evs, n + 1);
  }

  lemma RunLength(cfg: Config, worlds: seq<World>, evs: seq<Event>)
    requires Execution(cfg, worlds, evs)
    ensures |worlds| == |evs| + 1
  {
  }

  /** From world i to world j the same call is pending. */
  ghost predicate PendingThrough(worlds: seq<World>, i: nat, j: nat)
    requires i <= j < |worlds|
  {
    worlds[i].invocation.Some? && forall m :: i <= m <= j ==> worlds[m].invocation == worlds[i].invocation
  }

  /** However other events are interleaved, a pending operation never moves away
      from its end, and every reply brings it nearer. */
  lemma {:induction false} PendingProgress(cfg: Config, worlds: seq<World>, evs: seq<Event>, i: nat, j: nat)
    requires Execution(cfg, worlds, evs) && i <= j < |worlds| && PendingThrough(worlds, i, j)
    ensures Inv(worlds[i]) && Inv(worlds[j]) && NotFarther(worlds[i], worlds[j])
    ensures (exists m :: i <= m < j && IsReply(evs[m])) ==> Closer(worlds[i], worlds[j])
    decreases j - i
  {
    hide Execution, Inv, Dispatch, Enabled, Defined, TypesLeft, NodesLeft, IsReply, StillPending;
    RunLength(cfg, worlds, evs);
    ExecutionInv(cfg, worlds, evs, i);
    if i == j {
    } else {
      PendingProgress(cfg, worlds, evs, i, j - 1);
      RunStep(cfg, worlds, evs, j - 1);
      StepNotFarther(worlds[j - 1], evs[j - 1]);
    }
  }

  // ---------- The restores of a failed sweep drain ----------

  /** Devices left in all chains. */
  ghost function Running(chains: seq<Chain>): nat {
    if chains == [] then 0 else chains[0].node + Running(chains[1..])
  }

  lemma {:induction false} RunningDrops(chains: seq<Chain>, k: nat, c: Chain)
    requires k < |chains| && c.node < chains[k].node
    ensures Running(chains[k := c]) < Running(chains)
  {
    if k == 0 {
      assert chains[k := c][1..] == chains[1..];
    } else {
      assert chains[k := c][1..] == chains[1..][k - 1 := c];
      RunningDrops(chains[1..], k - 1, c);
    }
  }

  /** One reply to an untracked restore: it shortens one chain, starts no other,
      and answers no call. */
  lemma RestoresDrain(w: World, typ: int, ok: bool)
    requires Inv(w) && w.invocation.None? && Enabled(w, DeviceReply(typ, ok))
    ensures Defined(w, DeviceReply(typ, ok))
    ensures var v := Dispatch(w, DeviceReply(typ, ok));
      && StillPending(w, v) && v.plant.asks == w.plant.asks && v.plant.saved == w.plant.saved
      && v.plant.chains[typ].node < w.plant.chains[typ].node
      && v.plant.chains == w.plant.chains[typ := v.plant.chains[typ]]
  {
  }

  /** Outside an operation every event leaves the chains running at most as long
      as they were, and a reply shortens them. */
  lemma RestoreStep(w: World, ev: Event)
    requires Inv(w) && w.invocation.None? && Enabled(w, ev) && !ev.Invoke? && !ev.Restart?
    ensures Defined(w, ev)
    ensures var v := Dispatch(w, ev);
      && StillPending(w, v)
      && Running(v.plant.chains) + (if ev.DeviceReply? then 1 else 0) <= Running(w.plant.chains)
  {
    NeverUndefined(w, ev);
    if ev.DeviceReply? {
      RestoresDrain(w, ev.typ, ev.ok);
      RunningDrops(w.plant.chains, ev.typ, Dispatch(w, ev).plant.chains[ev.typ]);
    } else if ev.Kernel? {
      ProcessMirrors(NextDispatch(w).plant, ev.event);
    }
  }

  ghost function Replies(evs: seq<Event>): nat {
    if evs == [] then 0
    else Replies(evs[..|evs| - 1]) + (if evs[|evs| - 1].DeviceReply? then 1 else 0)
  }

  /** While no call comes in, the killswitches serve at most as many replies as
      their chains had devices left, whatever else happens. */
  lemma {:induction false} RestoresBounded(cfg: Config, worlds: seq<World>, evs: seq<Event>, i: nat, j: nat)
    requires Execution(cfg, worlds, evs) && i <= j < |worlds| && worlds[i].invocation.None?
    requires forall m :: i <= m < j ==> !evs[m].Invoke? && !evs[m].Restart?
    ensures StillPending(worlds[i], worlds[j])
    ensures Running(worlds[j].plant.chains) + Replies(evs[i..j]) <= Running(worlds[i].plant.chains)
    decreases j - i
  {
    hide Execution, Inv, Dispatch, Enabled, Defined, Running;
    RunLength(cfg, worlds, evs);
    if i == j {
    } else {
      RestoresBounded(cfg, worlds, evs, i, j - 1);
      RunStep(cfg, worlds, evs, j - 1);
      RestoreStep(worlds[j - 1], evs[j - 1]);
      assert evs[i..j][..j - 1 - i] == evs[i..j - 1];
    }
  }

  /** A killswitch that still has restores to serve. */
  ghost function Busy(w: World): (typ: int)
    requires Inv(w) && w.invocation.None? && !AllIdle(w.plant)
    ensures RadioType(typ) && w.plant.chains[typ].node > 0
  {
    var typ :| 0 <= typ < NUM_TYPES && !Idle(w.plant.chains[typ]);
    typ
  }

  lemma DrainStep(w: World, ok: bool)
    requires Inv(w) && w.invocation.None? && !AllIdle(w.plant)
    ensures var ev := DeviceReply(Busy(w), ok);
      && Defined(w, ev)
      && var v := Dispatch(w, ev);
      && Inv(v) && StillPending(w, v) && Running(v.plant.chains) < Running(w.plant.chains)
      && v.plant.saved == w.plant.saved && v.plant.asks == w.plant.asks
  {
    var ev := DeviceReply(Busy(w), ok);
    RestoreStep(w, ev);
    RestoresDrain(w, Busy(w), ok);
    DispatchInv(w, ev);
  }

  /** As long as a chain runs some reply is possible; serving replies, whatever
      their outcomes, leaves every killswitch idle, so that a call may come in. */
  ghost function DrainAll(w: World, outcomes: nat -> bool, n: nat): (v: World)
    requires Inv(w) && w.invocation.None?
    ensures Inv(v) && AllIdle(v.plant) && StillPending(w, v)
    ensures v.plant.saved == w.plant.saved && v.plant.asks == w.plant.asks
    decreases Running(w.plant.chains)
  {
    if AllIdle(w.plant) then w
    else
      DrainStep(w, outcomes(n));
      DrainAll(Dispatch(w, DeviceReply(Busy(w), outcomes(n))), outcomes, n + 1)
  }

  // ---------- Calls and answers ----------

  /** In every state of every run each call is in exactly one class: answered
      once, pending, refused at the has-devices gate, or cut off by a restart;
      and a pending call's argument is what its callback will read. */
  lemma CallsAnsweredOnce(cfg: Config, worlds: seq<World>, evs: seq<Event>, n: nat)
    requires Execution(cfg, worlds, evs) && n < |worlds|
    ensures AnswersOk(worlds[n])
    ensures worlds[n].invocation.Some? ==> worlds[n].pendingBlock == worlds[n].invocation.value.request.block
  {
    ExecutionInv(cfg, worlds, evs, n);
  }

  // ---------- The flag, the file and new modems ----------

  /** The flight-mode flag always equals the persisted ALL entry, restarts included. */
  lemma FlagMatchesFile(cfg: Config, worlds: seq<World>, evs: seq<Event>, n: nat)
    requires Execution(cfg, worlds, evs) && n < |worlds|
    ensures worlds[n].flightMode == GetPersistState(cfg, worlds[n].plant.saved, TYPE_ALL)
  {
    ExecutionInv(cfg, worlds, evs, n);
    ExecutionConfig(cfg, worlds, evs, n);
  }

  /** With persistence on, force_sync off and strict flight mode on, a modem that
      powers up is asked, once, for exactly the committed flight mode. */
  lemma NewModemTakesFlightMode(cfg: Config, worlds: seq<World>, evs: seq<Event>, n: nat)
    requires Execution(cfg, worlds, evs) && n < |evs| && evs[n].ModemOn?
    requires cfg.persist && !cfg.forceSync && cfg.strict
    requires !Present(worlds[n].plant.devices, evs[n].device.index)
    ensures worlds[n + 1].plant.deviceAsks
         == worlds[n].plant.deviceAsks + [DeviceAsk(evs[n].device.index, worlds[n].flightMode, None)]
  {
    FlagMatchesFile(cfg, worlds, evs, n);
    ExecutionConfig(cfg, worlds, evs, n);
  }

  // ---------- The completion that skips the history ----------

  /** The completion for "all adapters missing", which would change flight mode
      without recording a history, is never queued. */
  lemma AllMissingUnreachable(cfg: Config, worlds: seq<World>, evs: seq<Event>, n: nat)
    requires Execution(cfg, worlds, evs) && n < |worlds|
    ensures forall done :: done in worlds[n].plant.idle ==> !done.task.FlightModeTask?
    ensures worlds[n].plant.devices != [] ==>
      exists typ :: RadioType(typ) && SwitchState(worlds[n].plant.devices, typ) != NoAdapter
  {
    ExecutionInv(cfg, worlds, evs, n);
    SomeAdapter(worlds[n].plant.devices);
  }
}
