/** A pending operation run to its end on the daemon object: the awaited replies
    are served one after the other, whatever their outcomes. */
module OperationRun {
  import opened Common
  import opened KillswitchState
  import opened FlightMode
  import opened DaemonProtocol
  import opened ProtocolInvariant
  import opened FlightModeRuns
  import opened KillswitchObject
  import opened ArbitratorObject
  import opened DaemonObject

  /** Serves the reply the pending operation waits for. */
  method ServeAwaited(d: Daemon, ok: bool)
    requires d.Valid() && Inv(d.View()) && d.invocation.Some?
    modifies d, d.config, d.arbitrator, d.arbitrator.switches, d.arbitrator.initialState, d.arbitrator.finalState
    ensures d.Valid()
    ensures Defined(old(d.View()), AwaitedReply(old(d.View()), ok))
    ensures d.View() == Dispatch(old(d.View()), AwaitedReply(old(d.View()), ok))
  {
    hide Arbitrator.Mirrored, Arbitrator.Chains, Views, Inv, Defined, Dispatch;
    AwaitedReplyOnly(d.View());
    NeverUndefined(d.View(), AwaitedReply(d.View(), ok));
    match d.invocation.value.request
    case Block(typ, _) =>
      if d.arbitrator.idle == [] {
        d.DeviceReply(typ, ok);
      } else {
        d.RunIdle();
      }
    case BlockIdx(_, _) => d.BlockIdxReply(ok);
    case SetFlightMode(_) => d.DeviceReply(d.arbitrator.blockIndex - 1, ok);
  }

  /** Ends any pending operation; its caller gets exactly one answer. */
  method FinishOperation(d: Daemon, outcomes: nat -> bool)
    requires d.Valid() && Inv(d.View()) && d.invocation.Some?
    modifies d, d.config, d.arbitrator, d.arbitrator.switches, d.arbitrator.initialState, d.arbitrator.finalState
    ensures d.Valid() && Inv(d.View())
    ensures CallReplied(old(d.View()), d.View(), Succeeded) || CallReplied(old(d.View()), d.View(), Failed)
  {
    hide Arbitrator.Mirrored, Arbitrator.View, Inv, CallReplied, Dispatch, Defined, Nearer, RunToEnd;
    ghost var target := RunToEnd(d.View(), outcomes, 0);
    var n := 0;
    while d.invocation.Some?
      invariant d.Valid() && Inv(d.View())
      invariant if d.invocation.Some? then RunToEnd(d.View(), outcomes, n) == target else d.View() == target
      decreases d.invocation.Some?, TypesLeft(d.View()), NodesLeft(d.View())
    {
      var ok := outcomes(n);
      RunUnfolds(d.View(), outcomes, n);
      ServeAwaited(d, ok);
      n := n + 1;
    }
  }

  /** One turn of RunToEnd. */
  lemma RunUnfolds(w: World, outcomes: nat -> bool, n: nat)
    requires Inv(w) && w.invocation.Some?
    ensures Defined(w, AwaitedReply(w, outcomes(n)))
    ensures var v := Dispatch(w, AwaitedReply(w, outcomes(n)));
      && Inv(v)
      && RunToEnd(w, outcomes, n) == (if v.invocation.None? then v else RunToEnd(v, outcomes, n + 1))
      && (v.invocation.Some? ==>
            TypesLeft(v) < TypesLeft(w) || (TypesLeft(v) == TypesLeft(w) && NodesLeft(v) < NodesLeft(w)))
      && 0 <= TypesLeft(w)
  {
    AwaitedReplyOnly(w);
    ReplyProgresses(w, AwaitedReply(w, outcomes(n)));
  }

  /** Serves the restores a failed sweep left behind, until every killswitch is idle. */
  method DrainRestores(d: Daemon, outcomes: nat -> bool)
    requires d.Valid() && Inv(d.View()) && d.invocation.None?
    modifies d, d.config, d.arbitrator, d.arbitrator.switches, d.arbitrator.initialState, d.arbitrator.finalState
    ensures d.Valid() && Inv(d.View()) && AllIdle(d.View().plant)
    ensures StillPending(old(d.View()), d.View())
  {
    hide Arbitrator.Mirrored, Arbitrator.View, Arbitrator.Chains, Inv, Dispatch, Defined, Running;
    var typ, n := 1, 0;
    while typ < NUM_TYPES
      invariant 0 < typ <= NUM_TYPES && d.Valid() && Inv(d.View()) && d.invocation.None?
      invariant StillPending(old(d.View()), d.View())
      invariant forall i :: 0 < i < typ ==> d.View().plant.chains[i].node == 0
      decreases Running(d.View().plant.chains), NUM_TYPES - typ
    {
      NodeOf(d, typ);
      if d.arbitrator.At(typ).node > 0 {
        RestoreServed(d.View(), typ, outcomes(n));
        d.DeviceReply(typ, outcomes(n));
        n := n + 1;
      } else {
        typ := typ + 1;
      }
    }
    NothingRuns(d.View());
  }

  lemma NodeOf(d: Daemon, typ: int)
    requires d.Valid() && RadioType(typ)
    ensures d.View().plant.chains[typ].node == d.arbitrator.At(typ).node
  {
  }

  lemma RestoreServed(w: World, typ: int, ok: bool)
    requires Inv(w) && w.invocation.None? && RadioType(typ) && w.plant.chains[typ].node > 0
    ensures var ev := DeviceReply(typ, ok);
      && Defined(w, ev)
      && var v := Dispatch(w, ev);
      && Inv(v) && StillPending(w, v) && Running(v.plant.chains) < Running(w.plant.chains)
      && (forall i :: 0 < i < NUM_TYPES && i != typ ==> v.plant.chains[i] == w.plant.chains[i])
  {
    RestoreStep(w, DeviceReply(typ, ok));
    RestoresDrain(w, typ, ok);
    DispatchInv(w, DeviceReply(typ, ok));
  }

  lemma NothingRuns(w: World)
    requires Inv(w) && w.invocation.None?
    requires forall i :: 0 < i < NUM_TYPES ==> w.plant.chains[i].node == 0
    ensures AllIdle(w.plant)
  {
  }
}
