/** What the devices themselves are asked in a run: an operation that succeeds has
    asked every device its killswitches listed, in order, each once. */
module DeviceRequests {
  import opened Common
  import opened KillswitchState
  import opened DeviceMirror
  import opened DeviceChain
  import opened Persistence
  import opened FlightMode
  import opened DeviceEvents
  import opened DaemonProtocol
  import opened ProtocolInvariant
  import opened FlightModeRuns

  // ---------- The requests of one chain in the log ----------

  /** The requests that belong to the chain of one killswitch. */
  function ChainAsks(asks: seq<DeviceAsk>, typ: int): seq<DeviceAsk>
    decreases |asks|
  {
    if asks == [] then []
    else (if asks[0].chain == Some(typ) then [asks[0]] else []) + ChainAsks(asks[1..], typ)
  }

  /** One request to each device of a list, in order. */
  function Requests(list: seq<int>, block: bool, typ: int): (r: seq<DeviceAsk>)
    ensures |r| == |list| && forall i :: 0 <= i < |r| ==> r[i] == DeviceAsk(list[i], block, Some(typ))
  {
    seq(|list|, i requires 0 <= i < |list| => DeviceAsk(list[i], block, Some(typ)))
  }

  lemma {:induction false} ChainAsksConcat(a: seq<DeviceAsk>, b: seq<DeviceAsk>, typ: int)
    ensures ChainAsks(a + b, typ) == ChainAsks(a, typ) + ChainAsks(b, typ)
    decreases |a|
  {
    if a == [] {
      assert a + b == b;
    } else {
      var first := if a[0].chain == Some(typ) then [a[0]] else [];
      assert (a + b)[0] == a[0] && (a + b)[1..] == a[1..] + b;
      ChainAsksConcat(a[1..], b, typ);
      assert first + (ChainAsks(a[1..], typ) + ChainAsks(b, typ)) == first + ChainAsks(a[1..], typ) + ChainAsks(b, typ);
    }
  }

  lemma {:induction false} NoChainAsks(asks: seq<DeviceAsk>, typ: int)
    requires forall i :: 0 <= i < |asks| ==> asks[i].chain != Some(typ)
    ensures ChainAsks(asks, typ) == []
    decreases |asks|
  {
    if asks == [] {
    } else {
      NoChainAsks(asks[1..], typ);
    }
  }

  /** A longer log: what is new comes last. */
  lemma LaterAsks(before: seq<DeviceAsk>, after: seq<DeviceAsk>, since: nat, typ: int)
    requires since <= |before| && before <= after
    ensures ChainAsks(after[since..], typ) == ChainAsks(before[since..], typ) + ChainAsks(after[|before|..], typ)
  {
    assert after[since..] == before[since..] + after[|before|..];
    ChainAsksConcat(before[since..], after[|before|..], typ);
  }

  /** The last n devices a killswitch lists. */
  function Tail(devices: seq<Device>, typ: int, n: nat): seq<int> {
    var all := Indices(Switch(devices, typ));
    if n <= |all| then all[|all| - n..] else []
  }

  /** How many devices of its list a chain has asked when n nodes are left. */
  function Reached(list: seq<int>, n: nat): nat
    requires n <= |list|
    ensures Reached(list, n) <= |list|
  {
    if n == 0 then |list| else |list| - n + 1
  }

  /** Since the log had that length, the chain of a killswitch has asked the devices
      of the list, in order, down to the one it waits for; the nodes it has left
      are the rest of the list. */
  ghost predicate Heard(p: Plant, typ: int, list: seq<int>, block: bool, since: nat)
    requires Shape(p) && RadioType(typ)
  {
    var n := p.chains[typ].node;
    && since <= |p.deviceAsks|
    && n <= |list| && n <= |Switch(p.devices, typ)|
    && Tail(p.devices, typ, n) == list[|list| - n..]
    && (n > 0 ==> p.chains[typ].block == block)
    && ChainAsks(p.deviceAsks[since..], typ) == Requests(list[..Reached(list, n)], block, typ)
  }

  ghost predicate Silent(p: Plant, typ: int, since: nat) {
    since <= |p.deviceAsks| && ChainAsks(p.deviceAsks[since..], typ) == []
  }

  // ---------- Events that are no replies ----------

  /** The requests, chains and nodes an event leaves alone. */
  ghost predicate Aside(p: Plant, q: Plant)
    requires Shape(p) && Shape(q)
  {
    && q.chains == p.chains && q.sweep == p.sweep && q.asks == p.asks && q.history == p.history
    && p.deviceAsks <= q.deviceAsks
    && (forall i :: |p.deviceAsks| <= i < |q.deviceAsks| ==> q.deviceAsks[i].chain.None?)
    && (forall typ :: RadioType(typ) && p.chains[typ].node <= |Switch(p.devices, typ)| ==>
          && p.chains[typ].node <= |Switch(q.devices, typ)|
          && Tail(q.devices, typ, p.chains[typ].node) == Tail(p.devices, typ, p.chains[typ].node))
  }

  lemma HeardAside(p: Plant, q: Plant, typ: int, list: seq<int>, block: bool, since: nat)
    requires Shape(p) && Shape(q) && RadioType(typ) && Aside(p, q)
    ensures Heard(p, typ, list, block, since) ==> Heard(q, typ, list, block, since)
    ensures Silent(p, typ, since) ==> Silent(q, typ, since)
  {
    if since <= |p.deviceAsks| {
      LaterAsks(p.deviceAsks, q.deviceAsks, since, typ);
      NoChainAsks(q.deviceAsks[|p.deviceAsks|..], typ);
    }
  }

  lemma IndicesConcat(a: seq<Device>, b: seq<Device>)
    ensures Indices(a + b) == Indices(a) + Indices(b)
  {
  }

  /** What is put in front does not touch the tail. */
  lemma LongerTail(front: seq<int>, all: seq<int>, n: nat)
    requires n <= |all|
    ensures (front + all)[|front + all| - n..] == all[|all| - n..]
  {
  }

  lemma TailAppend(devices: seq<Device>, d: Device, typ: int, n: nat)
    requires n <= |Switch(devices, typ)|
    ensures n <= |Switch(devices + [d], typ)| && Tail(devices + [d], typ, n) == Tail(devices, typ, n)
  {
    hide Indices, Switch;
    var list := Switch(devices, typ);
    SwitchAppend(devices, d, typ);
    if d.typ == typ {
      IndicesConcat([d], list);
      LongerTail(Indices([d]), Indices(list), n);
    } else {
      assert [] + list == list;
    }
  }

  lemma TailRemove(devices: seq<Device>, index: int, typ: int, n: nat)
    requires n <= |Switch(devices, typ)|
    requires Present(devices, index) && Lookup(devices, index).typ == typ ==> n == 0
    ensures n <= |Switch(RemoveDevice(devices, index), typ)|
    ensures Tail(RemoveDevice(devices, index), typ, n) == Tail(devices, typ, n)
  {
    hide Indices, Switch, Find, Tail;
    if Present(devices, index) {
      var k := Find(devices, index);
      if Lookup(devices, index).typ != typ {
        SwitchWithoutOther(devices, k, typ);
        SameTail(devices, RemoveDevice(devices, index), typ, n);
      } else {
        EmptyTail(devices, typ);
        EmptyTail(RemoveDevice(devices, index), typ);
      }
    }
  }

  lemma SwitchWithoutOther(devices: seq<Device>, k: nat, typ: int)
    requires k < |devices| && devices[k].typ != typ
    ensures Switch(devices[..k] + devices[k + 1..], typ) == Switch(devices, typ)
  {
    hide Switch;
    SwitchRemove(devices, k, typ);
    assert Switch(devices[k + 1..], typ) + [] == Switch(devices[k + 1..], typ);
  }

  lemma SameTail(devices: seq<Device>, others: seq<Device>, typ: int, n: nat)
    requires Switch(others, typ) == Switch(devices, typ)
    ensures Tail(others, typ, n) == Tail(devices, typ, n)
  {
  }

  lemma EmptyTail(devices: seq<Device>, typ: int)
    ensures Tail(devices, typ, 0) == []
  {
  }

  lemma TailUpdate(devices: seq<Device>, index: int, soft: bool, hard: bool, typ: int, n: nat)
    requires n <= |Switch(devices, typ)|
    ensures n <= |Switch(UpdateDevice(devices, index, soft, hard), typ)|
    ensures Tail(UpdateDevice(devices, index, soft, hard), typ, n) == Tail(devices, typ, n)
  {
    if Present(devices, index) {
      var k := Find(devices, index);
      var d := devices[k].(soft := soft, hard := hard);
      SwitchUpdate(devices, k, d, typ);
      assert Indices(Switch(devices[k := d], typ)) == Indices(Switch(devices, typ));
    }
  }

  /** How an event of a device changes the list. */
  ghost predicate ListEvent(p: Plant, q: Plant, typ: int, n: nat) {
    || q.devices == p.devices
    || (exists d :: q.devices == p.devices + [d])
    || (exists index :: q.devices == RemoveDevice(p.devices, index)
          && (Present(p.devices, index) && Lookup(p.devices, index).typ == typ ==> n == 0))
    || (exists index, soft, hard :: q.devices == UpdateDevice(p.devices, index, soft, hard))
  }

  lemma ListEventTail(p: Plant, q: Plant, typ: int, n: nat)
    requires ListEvent(p, q, typ, n) && n <= |Switch(p.devices, typ)|
    ensures n <= |Switch(q.devices, typ)| && Tail(q.devices, typ, n) == Tail(p.devices, typ, n)
  {
    if q.devices != p.devices {
      if d :| q.devices == p.devices + [d] {
        TailAppend(p.devices, d, typ, n);
      } else if index :| (
          && q.devices == RemoveDevice(p.devices, index)
          && (Present(p.devices, index) && Lookup(p.devices, index).typ == typ ==> n == 0)) {
        TailRemove(p.devices, index, typ, n);
      } else {
        var index, soft, hard :| q.devices == UpdateDevice(p.devices, index, soft, hard);
        TailUpdate(p.devices, index, soft, hard, typ, n);
      }
    }
  }

  lemma ReactLists(w: World, ev: Event, typ: int)
    requires Inv(w) && Enabled(w, ev) && RadioType(typ)
    requires ev.Kernel? || ev.ModemOn? || ev.ModemOff? || ev.ModemOnline?
    ensures ListEvent(w.plant, React(NextDispatch(w), ev).plant, typ, w.plant.chains[typ].node)
  {
    var p, q := NextDispatch(w).plant, React(NextDispatch(w), ev).plant;
    match ev
    case Kernel(event) =>
      ProcessMirrors(p, event);
      match event {
        case Add(index, t, soft, hard, platform) =>
          assert q.devices == p.devices || q.devices == p.devices + [Device(index, t, platform, soft, hard)];
        case Del(index) => assert q.devices == RemoveDevice(p.devices, index);
        case Change(index, soft, hard) => assert q.devices == UpdateDevice(p.devices, index, soft, hard);
      }
    case ModemOn(d) => assert q.devices == p.devices || q.devices == p.devices + [d];
    case ModemOff(index) => assert q.devices == RemoveDevice(p.devices, index);
    case ModemOnline(index, soft) =>
      assert q.devices == p.devices
          || q.devices == UpdateDevice(p.devices, index, soft, Lookup(p.devices, index).hard);
  }

  lemma ReactKeepsSlots(w: World, ev: Event)
    requires Shape(w.plant)
    ensures var p, q := w.plant, React(NextDispatch(w), ev).plant;
      && q.chains == p.chains && q.sweep == p.sweep && q.asks == p.asks && q.history == p.history
      && p.deviceAsks <= q.deviceAsks
      && (forall i :: |p.deviceAsks| <= i < |q.deviceAsks| ==> q.deviceAsks[i].chain.None?)
  {
    if ev.Kernel? {
      ProcessMirrors(NextDispatch(w).plant, ev.event);
    }
  }

  lemma ReactAside(w: World, ev: Event)
    requires Inv(w) && Enabled(w, ev)
    requires ev.Kernel? || ev.ModemOn? || ev.ModemOff? || ev.ModemOnline?
    ensures Defined(w, ev) && Shape(Dispatch(w, ev).plant) && Aside(w.plant, Dispatch(w, ev).plant)
  {
    NeverUndefined(w, ev);
    DispatchReacts(w, ev);
    hide Inv, Enabled, Defined, React, Dispatch, Tail, Switch, ListEvent;
    var p, q := w.plant, React(NextDispatch(w), ev).plant;
    ReactKeepsSlots(w, ev);
    forall typ | RadioType(typ) && p.chains[typ].node <= |Switch(p.devices, typ)|
      ensures p.chains[typ].node <= |Switch(q.devices, typ)|
      ensures Tail(q.devices, typ, p.chains[typ].node) == Tail(p.devices, typ, p.chains[typ].node)
    {
      ReactLists(w, ev, typ);
      ListEventTail(p, q, typ, p.chains[typ].node);
    }
  }

  lemma DispatchReacts(w: World, ev: Event)
    requires Inv(w) && Defined(w, ev)
    requires ev.Kernel? || ev.ModemOn? || ev.ModemOff? || ev.ModemOnline?
    ensures Dispatch(w, ev) == React(NextDispatch(w), ev) && Shape(w.plant)
  {
  }

  /** While a call is pending, everything but a reply leaves its requests alone. */
  lemma OthersAside(w: World, ev: Event)
    requires Inv(w) && w.invocation.Some? && Enabled(w, ev) && Defined(w, ev) && !IsReply(ev)
    requires Dispatch(w, ev).invocation == w.invocation
    ensures Shape(Dispatch(w, ev).plant) && Aside(w.plant, Dispatch(w, ev).plant)
  {
    if ev.Invoke? {
      RefusedLeavesPlant(w, ev.request, ev.authorized);
    } else if !ev.Restart? {
      ReactAside(w, ev);
    }
  }

  // ---------- One reply ----------

  /** A device that complies: the chain goes on to the next one, or is through. */
  lemma HeardReply(p: Plant, typ: int, list: seq<int>, block: bool, since: nat)
    requires Shape(p) && RadioType(typ) && Heard(p, typ, list, block, since) && p.chains[typ].node > 0
    ensures Heard(AfterAnswer(p, typ, true), typ, list, block, since)
  {
    var q, n, all := AfterAnswer(p, typ, true), p.chains[typ].node, Indices(Switch(p.devices, typ));
    LaterAsks(p.deviceAsks, q.deviceAsks, since, typ);
    if n > 1 {
      assert all[|all| - n..][1] == all[|all| - n + 1];
      assert q.deviceAsks[|p.deviceAsks|..] == [DeviceAsk(all[|all| - n + 1], block, Some(typ))];
      OneAsk(DeviceAsk(list[|list| - n + 1], block, Some(typ)), typ);
      assert list[..|list| - n + 2] == list[..|list| - n + 1] + [list[|list| - n + 1]];
      RequestsSnoc(list[..|list| - n + 1], list[|list| - n + 1], block, typ);
      assert all[|all| - n + 1..] == all[|all| - n..][1..];
      assert list[|list| - n + 1..] == list[|list| - n..][1..];
    } else {
      assert q.deviceAsks[|p.deviceAsks|..] == [];
      assert list[..|list|] == list;
      assert all[|all|..] == list[|list|..];
    }
  }

  lemma OneAsk(a: DeviceAsk, typ: int)
    requires a.chain == Some(typ)
    ensures ChainAsks([a], typ) == [a]
  {
    assert [a][1..] == [];
  }

  lemma RequestsSnoc(list: seq<int>, index: int, block: bool, typ: int)
    ensures Requests(list + [index], block, typ) == Requests(list, block, typ) + [DeviceAsk(index, block, Some(typ))]
  {
  }

  /** The other chains do not notice. */
  lemma OthersHear(p: Plant, q: Plant, typ: int, other: int, list: seq<int>, block: bool, since: nat)
    requires Shape(p) && Shape(q) && RadioType(typ) && RadioType(other) && other != typ
    requires q.devices == p.devices && q.chains[other] == p.chains[other] && p.deviceAsks <= q.deviceAsks
    requires forall i :: |p.deviceAsks| <= i < |q.deviceAsks| ==> q.deviceAsks[i].chain == Some(typ)
    ensures Heard(p, other, list, block, since) ==> Heard(q, other, list, block, since)
    ensures Silent(p, other, since) ==> Silent(q, other, since)
  {
    if since <= |p.deviceAsks| {
      LaterAsks(p.deviceAsks, q.deviceAsks, since, other);
      NoChainAsks(q.deviceAsks[|p.deviceAsks|..], other);
    }
  }

  /** A request to an idle killswitch asks its first device. */
  lemma StartAsks(p: Plant, typ: int, block: bool, task: Option<Task>)
    requires Shape(p) && RadioType(typ) && Idle(p.chains[typ])
    requires task.Some? ==> task.value.born == p.now
    ensures var q, list := SetBlock(p, typ, block, task), Indices(Switch(p.devices, typ));
      && q.devices == p.devices && q.chains[typ].node == |list| == |Switch(p.devices, typ)|
      && (list != [] ==> q.chains[typ].block == block)
      && q.deviceAsks == p.deviceAsks + if list == [] then [] else [DeviceAsk(list[0], block, Some(typ))]
  {
    hide Switch;
  }

  lemma HeardStart(p: Plant, typ: int, block: bool, task: Option<Task>, since: nat)
    requires Shape(p) && RadioType(typ) && Idle(p.chains[typ]) && Silent(p, typ, since)
    requires task.Some? ==> task.value.born == p.now
    ensures Heard(SetBlock(p, typ, block, task), typ, Indices(Switch(p.devices, typ)), block, since)
  {
    hide ChainAsks, Switch, Indices, SetBlock;
    var q, list := SetBlock(p, typ, block, task), Indices(Switch(p.devices, typ));
    StartAsks(p, typ, block, task);
    LaterAsks(p.deviceAsks, q.deviceAsks, since, typ);
    if list == [] {
      assert q.deviceAsks[|p.deviceAsks|..] == [];
      NoChainAsks([], typ);
    } else {
      assert q.deviceAsks[|p.deviceAsks|..] == [DeviceAsk(list[0], block, Some(typ))];
      OneAsk(DeviceAsk(list[0], block, Some(typ)), typ);
      assert list[..1] == [] + [list[0]];
      RequestsSnoc([], list[0], block, typ);
      assert list[0..] == list;
    }
  }

  // ---------- A Block operation ----------

  /** The devices a killswitch lists. */
  function Listing(p: Plant, typ: int): seq<int> {
    Indices(Switch(p.devices, typ))
  }

  ghost predicate BlockPending(w: World, typ: int, block: bool) {
    RadioType(typ) && w.invocation.Some? && w.invocation.value.request == Block(typ, block)
  }

  lemma BlockLaunched(w: World, typ: int, block: bool, authorized: bool)
    requires Inv(w) && Enabled(w, Invoke(Block(typ, block), authorized)) && w.invocation.None?
    requires var v := Dispatch(w, Invoke(Block(typ, block), authorized)); v.invocation.Some?
    ensures RadioType(typ) && Shape(w.plant) && Idle(w.plant.chains[typ])
    ensures var u := NextDispatch(w).plant;
      Dispatch(w, Invoke(Block(typ, block), authorized)).plant == SetBlock(u, typ, block, Some(BlockTask(typ, u.now)))
  {
  }

  lemma SilentNow(p: Plant, typ: int)
    ensures Silent(p, typ, |p.deviceAsks|)
  {
    NoChainAsks(p.deviceAsks[|p.deviceAsks|..], typ);
  }

  lemma BlockStarts(w: World, typ: int, block: bool, authorized: bool)
    requires Inv(w) && Enabled(w, Invoke(Block(typ, block), authorized)) && w.invocation.None?
    requires var v := Dispatch(w, Invoke(Block(typ, block), authorized)); v.invocation.Some?
    ensures RadioType(typ)
    ensures var v := Dispatch(w, Invoke(Block(typ, block), authorized));
      Shape(v.plant) && Heard(v.plant, typ, Listing(w.plant, typ), block, |w.plant.deviceAsks|)
  {
    hide Heard, Inv, Enabled, Dispatch, SetBlock, Switch, Indices, Silent;
    BlockLaunched(w, typ, block, authorized);
    var u := NextDispatch(w).plant;
    SilentNow(u, typ);
    HeardStart(u, typ, block, Some(BlockTask(typ, u.now)), |w.plant.deviceAsks|);
    SetBlockShape(u, typ, block, Some(BlockTask(typ, u.now)));
  }

  lemma SetBlockShape(p: Plant, typ: int, block: bool, task: Option<Task>)
    requires Shape(p) && RadioType(typ) && (task.Some? ==> task.value.born == p.now)
    ensures Shape(SetBlock(p, typ, block, task))
  {
  }

  /** A reply that leaves a Block pending comes from a device that complied. */
  lemma BlockReplied(w: World, ev: Event, typ: int, block: bool)
    requires Inv(w) && Enabled(w, ev) && Defined(w, ev) && IsReply(ev) && BlockPending(w, typ, block)
    requires Dispatch(w, ev).invocation == w.invocation
    ensures ev == DeviceReply(typ, true) && w.plant.chains[typ].node > 0
    ensures Dispatch(w, ev).plant == AfterAnswer(NextDispatch(w).plant, typ, true)
  {
    AwaitedReplyOnly(w);
    var ok :| ev == AwaitedReply(w, ok);
    BlockReply(w, ok);
    DispatchStarts(w);
    var u := NextDispatch(w);
    if w.plant.idle == [] && ChainProgress(u.plant, typ, ok).done.Some? {
      ChainEndsBlock(u, typ, ok);
    }
  }

  lemma HeardNextDispatch(w: World, typ: int, list: seq<int>, block: bool, since: nat)
    requires Shape(w.plant) && RadioType(typ) && Heard(w.plant, typ, list, block, since)
    ensures Heard(NextDispatch(w).plant, typ, list, block, since)
  {
  }

  lemma BlockGoesOn(w: World, ev: Event, typ: int, block: bool, list: seq<int>, since: nat)
    requires Inv(w) && Enabled(w, ev) && Defined(w, ev) && BlockPending(w, typ, block)
    requires Heard(w.plant, typ, list, block, since)
    requires Dispatch(w, ev).invocation == w.invocation
    ensures Shape(Dispatch(w, ev).plant) && Heard(Dispatch(w, ev).plant, typ, list, block, since)
  {
    InvShape(w);
    hide Heard, Inv, Enabled, Defined, Dispatch;
    if IsReply(ev) {
      BlockReplied(w, ev, typ, block);
      HeardNextDispatch(w, typ, list, block, since);
      HeardReply(NextDispatch(w).plant, typ, list, block, since);
    } else {
      OthersAside(w, ev);
      HeardAside(w.plant, Dispatch(w, ev).plant, typ, list, block, since);
    }
  }

  lemma InvShape(w: World)
    requires Inv(w)
    ensures Shape(w.plant)
  {
  }

  /** A Block that succeeds has asked every listed device. */
  lemma BlockSucceeds(w: World, ev: Event, typ: int, block: bool, list: seq<int>, since: nat)
    requires Inv(w) && Enabled(w, ev) && Defined(w, ev) && BlockPending(w, typ, block)
    requires Heard(w.plant, typ, list, block, since)
    requires CallReplied(w, Dispatch(w, ev), Succeeded)
    ensures since <= |Dispatch(w, ev).plant.deviceAsks|
    ensures ChainAsks(Dispatch(w, ev).plant.deviceAsks[since..], typ) == Requests(list, block, typ)
  {
    BlockEnds(w, ev, typ, block);
    var u := NextDispatch(w);
    HeardNextDispatch(w, typ, list, block, since);
    if ev.DeviceReply? {
      HeardReply(u.plant, typ, list, block, since);
    }
    assert list[..|list|] == list;
  }

  /** How a Block ends well: with the last device's reply, or with the queued
      completion of a killswitch that has no device. */
  lemma BlockEnds(w: World, ev: Event, typ: int, block: bool)
    requires Inv(w) && Enabled(w, ev) && Defined(w, ev) && BlockPending(w, typ, block)
    requires CallReplied(w, Dispatch(w, ev), Succeeded)
    ensures ev == RunIdle || ev == DeviceReply(typ, true)
    ensures ev.RunIdle? ==> w.plant.chains[typ].node == 0
    ensures ev.DeviceReply? ==> w.plant.chains[typ].node == 1
    ensures Dispatch(w, ev).plant.deviceAsks == w.plant.deviceAsks
  {
    if IsReply(ev) {
      AwaitedReplyOnly(w);
      var ok :| ev == AwaitedReply(w, ok);
      if w.plant.idle == [] {
        LastReply(w, typ, block, ok);
      }
    }
  }

  lemma LastReply(w: World, typ: int, block: bool, ok: bool)
    requires Inv(w) && BlockPending(w, typ, block) && w.plant.idle == [] && w.plant.chains[typ].node > 0
    requires Defined(w, DeviceReply(typ, ok)) && CallReplied(w, Dispatch(w, DeviceReply(typ, ok)), Succeeded)
    ensures ok && w.plant.chains[typ].node == 1
    ensures Dispatch(w, DeviceReply(typ, ok)).plant.deviceAsks == w.plant.deviceAsks
  {
    DispatchStarts(w);
    var u := NextDispatch(w);
    var v, done := u.(plant := AfterAnswer(u.plant, typ, ok)), ChainProgress(u.plant, typ, ok).done;
    assert done.Some?;
    SameCalls(u, v);
    SettleBlock(v, done.value);
    assert Dispatch(w, DeviceReply(typ, ok)) == Settle(v, done.value);
    assert Settle(v, done.value).answers[|w.answers|].outcome == (if ok then Succeeded else Failed);
  }

  /** From its start in step i up to world n a Block has been pending. */
  ghost predicate BlockRun(worlds: seq<World>, evs: seq<Event>, i: nat, n: nat, typ: int, block: bool) {
    && i < n < |worlds| && i < |evs|
    && evs[i].Invoke? && evs[i].request == Block(typ, block) && worlds[i].invocation.None?
    && PendingThrough(worlds, i + 1, n)
  }

  lemma {:induction false} BlockRunHeard(
      cfg: Config, worlds: seq<World>, evs: seq<Event>, i: nat, n: nat, typ: int, block: bool)
    requires Execution(cfg, worlds, evs) && BlockRun(worlds, evs, i, n, typ, block)
    ensures BlockPending(worlds[n], typ, block) && Shape(worlds[n].plant)
    ensures Heard(worlds[n].plant, typ, Listing(worlds[i].plant, typ), block, |worlds[i].plant.deviceAsks|)
    decreases n - i
  {
    hide Execution, Inv, Dispatch, Enabled, Defined, Heard, Listing;
    RunLength(cfg, worlds, evs);
    if n == i + 1 {
      RunStep(cfg, worlds, evs, i);
      BlockStarts(worlds[i], typ, block, evs[i].authorized);
      BlockOccupies(worlds[i], typ, block, evs[i].authorized);
    } else {
      BlockRunHeard(cfg, worlds, evs, i, n - 1, typ, block);
      RunStep(cfg, worlds, evs, n - 1);
      BlockGoesOn(worlds[n - 1], evs[n - 1], typ, block, Listing(worlds[i].plant, typ), |worlds[i].plant.deviceAsks|);
    }
  }

  lemma BlockOccupies(w: World, typ: int, block: bool, authorized: bool)
    requires Inv(w) && Enabled(w, Invoke(Block(typ, block), authorized)) && w.invocation.None?
    requires Dispatch(w, Invoke(Block(typ, block), authorized)).invocation.Some?
    ensures BlockPending(Dispatch(w, Invoke(Block(typ, block), authorized)), typ, block)
  {
  }

  /** In every run, whatever happens meanwhile: when a Block is answered with
      success, its killswitch has asked every device it listed when the call came
      in, in order, each once, for the wanted state, and none besides. */
  lemma BlockAsksEveryDevice(cfg: Config, worlds: seq<World>, evs: seq<Event>, i: nat, n: nat, typ: int, block: bool)
    requires Execution(cfg, worlds, evs) && BlockRun(worlds, evs, i, n, typ, block) && n < |evs|
    requires n + 1 < |worlds| && CallReplied(worlds[n], worlds[n + 1], Succeeded)
    ensures |worlds[i].plant.deviceAsks| <= |worlds[n + 1].plant.deviceAsks|
    ensures ChainAsks(worlds[n + 1].plant.deviceAsks[|worlds[i].plant.deviceAsks|..], typ)
         == Requests(Listing(worlds[i].plant, typ), block, typ)
  {
    hide Execution, Inv, Dispatch, Enabled, Defined, Heard, Listing, CallReplied;
    BlockRunHeard(cfg, worlds, evs, i, n, typ, block);
    RunStep(cfg, worlds, evs, n);
    BlockSucceeds(worlds[n], evs[n], typ, block, Listing(worlds[i].plant, typ), |worlds[i].plant.deviceAsks|);
  }

  // ---------- A sweep ----------

  /** The chains of the sampled types with an adapter have been heard, the others are silent. */
  ghost predicate SweepHeard(p: Plant, lists: seq<seq<int>>, since: nat)
    requires Shape(p)
  {
    && |lists| == NUM_TYPES
    && forall typ :: RadioType(typ) ==> TypeHeard(p, typ, lists[typ], since)
  }

  ghost predicate TypeHeard(p: Plant, typ: int, list: seq<int>, since: nat)
    requires Shape(p) && RadioType(typ)
  {
    if typ < p.sweep.blockIndex && p.sweep.initial[typ] != NoAdapter
    then list != [] && Heard(p, typ, list, p.sweep.final[typ], since)
    else Silent(p, typ, since) && (typ < p.sweep.blockIndex ==> list == [])
  }

  /** The lists a sweep goes by once it has sampled further: what each killswitch lists then. */
  function Renewed(lists: seq<seq<int>>, p: Plant, from: int): (r: seq<seq<int>>)
    requires |lists| == NUM_TYPES
    ensures |r| == NUM_TYPES
    ensures forall typ :: 0 <= typ < NUM_TYPES ==> r[typ] == if typ < from then lists[typ] else Listing(p, typ)
  {
    seq(NUM_TYPES, typ requires 0 <= typ < NUM_TYPES => if typ < from then lists[typ] else Listing(p, typ))
  }

  /** One type is sampled: its chain starts on what its killswitch lists now. */
  lemma SampleHeard(p: Plant, lists: seq<seq<int>>, since: nat)
    requires Between(p) && p.sweep.blockIndex < NUM_TYPES && SweepHeard(p, lists, since)
    ensures var q := Sample(p, p.sweep.pendingBlock);
      Shape(q) && SweepHeard(q, lists[p.sweep.blockIndex := Listing(p, p.sweep.blockIndex)], since)
  {
    hide TypeHeard, Refresh, Switch, Listing;
    var q, i := Sample(p, p.sweep.pendingBlock), p.sweep.blockIndex;
    SampleEffect(p);
    forall typ | RadioType(typ)
      ensures TypeHeard(q, typ, lists[i := Listing(p, i)][typ], since)
    {
      SampleHearsType(p, lists, since, typ);
    }
  }

  lemma SampleHearsType(p: Plant, lists: seq<seq<int>>, since: nat, typ: int)
    requires Between(p) && p.sweep.blockIndex < NUM_TYPES && SweepHeard(p, lists, since) && RadioType(typ)
    ensures var q := Sample(p, p.sweep.pendingBlock);
      Shape(q) && TypeHeard(q, typ, lists[p.sweep.blockIndex := Listing(p, p.sweep.blockIndex)][typ], since)
  {
    assert RadioType(p.sweep.blockIndex);
    hide Progressed, Refresh, Heard, Silent, Switch, Indices;
    var q, i := Sample(p, p.sweep.pendingBlock), p.sweep.blockIndex;
    assert TypeHeard(p, typ, lists[typ], since);
    ListingWitness(p, i);
    if SwitchState(p.devices, i) == NoAdapter {
      HeardSame(p, q, typ, lists[typ], since);
    } else {
      var r := p.(sweep := q.sweep);
      HeardSame(p, r, typ, lists[typ], since);
      if typ == i {
        HeardStart(r, i, q.sweep.final[i], Some(SweepTask(i, p.now)), since);
      } else {
        StartTagged(r, i, q.sweep.final[i], Some(SweepTask(i, p.now)));
        OthersHear(r, q, i, typ, lists[typ], q.sweep.final[typ], since);
      }
    }
  }

  lemma ListingWitness(p: Plant, typ: int)
    ensures Listing(p, typ) == [] <==> SwitchState(p.devices, typ) == NoAdapter
  {
    RefreshWitness(Switch(p.devices, typ));
  }

  /** Only the sweep's own slots differ. */
  lemma HeardSame(p: Plant, q: Plant, typ: int, list: seq<int>, since: nat)
    requires Shape(p) && Shape(q) && RadioType(typ)
    requires q == p.(sweep := q.sweep)
    ensures forall block :: Heard(p, typ, list, block, since) ==> Heard(q, typ, list, block, since)
    ensures Silent(p, typ, since) ==> Silent(q, typ, since)
  {
  }

  lemma StartTagged(p: Plant, typ: int, block: bool, task: Option<Task>)
    requires Shape(p) && RadioType(typ) && (task.Some? ==> task.value.born == p.now)
    ensures var q := SetBlock(p, typ, block, task);
      && q.devices == p.devices && p.deviceAsks <= q.deviceAsks
      && (forall i :: |p.deviceAsks| <= i < |q.deviceAsks| ==> q.deviceAsks[i].chain == Some(typ))
      && (forall i :: 0 <= i < NUM_TYPES && i != typ ==> q.chains[i] == p.chains[i])
  {
  }

  /** So are all the types the loop samples. */
  lemma {:induction false} AdvanceHeard(p: Plant, lists: seq<seq<int>>, since: nat)
    requires Between(p) && SweepHeard(p, lists, since)
    ensures var q := Advance(p, p.sweep.pendingBlock);
      SweepHeard(q, Renewed(lists, p, p.sweep.blockIndex), since)
    decreases NUM_TYPES - p.sweep.blockIndex
  {
    var i := p.sweep.blockIndex;
    if i == NUM_TYPES {
      ListsUpTo(p, lists, Renewed(lists, p, i), since);
    } else {
      var m, next := Sample(p, p.sweep.pendingBlock), lists[i := Listing(p, i)];
      SampleEffect(p);
      SampleHeard(p, lists, since);
      RenewedNext(p, m, lists);
      if SwitchState(p.devices, i) == NoAdapter {
        AdvanceHeard(m, next, since);
      } else {
        ListsUpTo(m, next, Renewed(lists, p, i), since);
      }
      hide Sample, SweepHeard, Between, Waiting, SwitchState;
      AdvanceUnfolds(p);
    }
  }

  lemma AdvanceUnfolds(p: Plant)
    requires Between(p) && p.sweep.blockIndex < NUM_TYPES
    ensures var m := Sample(p, p.sweep.pendingBlock);
      Advance(p, p.sweep.pendingBlock)
        == if SwitchState(p.devices, p.sweep.blockIndex) == NoAdapter then Advance(m, p.sweep.pendingBlock) else m
  {
  }

  lemma RenewedNext(p: Plant, m: Plant, lists: seq<seq<int>>)
    requires |lists| == NUM_TYPES && RadioType(p.sweep.blockIndex) && m.devices == p.devices
    ensures var i := p.sweep.blockIndex;
      && Renewed(lists[i := Listing(p, i)], m, i + 1) == Renewed(lists, p, i)
      && forall typ :: RadioType(typ) && typ < i + 1 ==> Renewed(lists, p, i)[typ] == lists[i := Listing(p, i)][typ]
  {
  }

  /** Only the lists of the sampled types matter. */
  lemma ListsUpTo(p: Plant, lists: seq<seq<int>>, others: seq<seq<int>>, since: nat)
    requires Shape(p) && SweepHeard(p, lists, since) && |others| == NUM_TYPES
    requires forall typ :: RadioType(typ) && typ < p.sweep.blockIndex ==> others[typ] == lists[typ]
    ensures SweepHeard(p, others, since)
  {
    forall typ | RadioType(typ) ensures TypeHeard(p, typ, others[typ], since) {
      assert TypeHeard(p, typ, lists[typ], since);
    }
  }

  ghost predicate SweepPending(w: World, block: bool) {
    w.invocation.Some? && w.invocation.value.request == SetFlightMode(block)
  }

  const NO_LISTS: seq<seq<int>> := [[], [], [], [], [], [], [], [], []]

  lemma SweepLaunched(w: World, block: bool, authorized: bool)
    requires Inv(w) && Enabled(w, Invoke(SetFlightMode(block), authorized)) && w.invocation.None?
    requires Dispatch(w, Invoke(SetFlightMode(block), authorized)).invocation.Some?
    ensures var u, v := NextDispatch(w).plant, Dispatch(w, Invoke(SetFlightMode(block), authorized));
      && Shape(w.plant) && SweepPending(v, block)
      && v.plant == BeginSweep(u, block, FlightModeTask(u.now))
      && SlotsOk(u) && AllIdle(u) && u.devices != []
  {
  }

  /** A sweep starts with every killswitch silent. */
  lemma BeginHeard(p: Plant, block: bool, task: Task)
    requires SlotsOk(p) && AllIdle(p) && p.devices != [] && task.born == p.now && task.FlightModeTask?
    ensures var q := BeginSweep(p, block, task);
      Shape(q) && SweepHeard(q, Renewed(NO_LISTS, p, 1), |p.deviceAsks|)
  {
    SweepFindsAdapter(p, block, task);
    hide Refresh, Wanted;
    var start := p.(sweep := BLANK_SWEEP.(flightModeTask := Some(task), pendingBlock := block, mark := |p.asks|));
    assert p.asks[|p.asks|..] == [];
    assert Between(start);
    forall typ | RadioType(typ) ensures TypeHeard(start, typ, NO_LISTS[typ], |p.deviceAsks|) {
      SilentNow(start, typ);
    }
    AdvanceHeard(start, NO_LISTS, |p.deviceAsks|);
    assert Renewed(NO_LISTS, start, 1) == Renewed(NO_LISTS, p, 1);
    assert BeginSweep(p, block, task) == Advance(start, block);
  }

  lemma SweepStarts(w: World, block: bool, authorized: bool)
    requires Inv(w) && Enabled(w, Invoke(SetFlightMode(block), authorized)) && w.invocation.None?
    requires Dispatch(w, Invoke(SetFlightMode(block), authorized)).invocation.Some?
    ensures var v := Dispatch(w, Invoke(SetFlightMode(block), authorized));
      && SweepPending(v, block) && Shape(v.plant)
      && SweepHeard(v.plant, Renewed(NO_LISTS, w.plant, 1), |w.plant.deviceAsks|)
  {
    hide Inv, Enabled, Dispatch, BeginSweep, SweepHeard, SlotsOk;
    SweepLaunched(w, block, authorized);
    var u := NextDispatch(w).plant;
    BeginHeard(u, block, FlightModeTask(u.now));
    assert Renewed(NO_LISTS, u, 1) == Renewed(NO_LISTS, w.plant, 1);
  }

  // ---------- A reply during a sweep ----------

  /** The reply of a device that complied, to a sweep that does not fail by it. */
  ghost predicate Complied(w: World, ev: Event, block: bool) {
    && Inv(w) && Enabled(w, ev) && Defined(w, ev) && IsReply(ev) && SweepPending(w, block)
    && (Dispatch(w, ev).invocation == w.invocation || CallReplied(w, Dispatch(w, ev), Succeeded))
  }

  lemma CompliedReply(w: World, ev: Event, block: bool)
    requires Complied(w, ev, block)
    ensures var k := w.plant.sweep.blockIndex - 1;
      && Shape(w.plant) && RadioType(k) && ev == DeviceReply(k, true)
      && 0 < w.plant.chains[k].node <= |Switch(w.plant.devices, k)|
      && w.plant.sweep.initial[k] != NoAdapter && w.plant.sweep.pendingBlock == w.pendingBlock
  {
    AwaitedReplyOnly(w);
    var ok :| ev == AwaitedReply(w, ok);
    SweepReply(w, ok);
    OneOutcome(w.answers, w.invocation.value.id, Succeeded, Failed);
  }

  lemma OneOutcome(answers: seq<Reply>, id: nat, a: Outcome, b: Outcome)
    ensures answers + [Reply(id, a)] == answers + [Reply(id, b)] ==> a == b
  {
    assert (answers + [Reply(id, a)])[|answers|] == Reply(id, a);
    assert (answers + [Reply(id, b)])[|answers|] == Reply(id, b);
  }

  /** The world in which a chain's last device has complied. */
  function Arrival(w: World, k: int): World
    requires Shape(w.plant) && RadioType(k) && 0 < w.plant.chains[k].node <= |Switch(w.plant.devices, k)|
  {
    var u := NextDispatch(w);
    u.(plant := AfterAnswer(u.plant, k, true))
  }

  lemma SameTypeGoesOn(w: World, k: int, block: bool)
    requires Inv(w) && SweepPending(w, block) && k == w.plant.sweep.blockIndex - 1 && RadioType(k)
    requires 1 < w.plant.chains[k].node <= |Switch(w.plant.devices, k)| && Defined(w, DeviceReply(k, true))
    ensures Dispatch(w, DeviceReply(k, true)) == Arrival(w, k)
  {
  }

  lemma TypeIsThrough(w: World, k: int, block: bool)
    requires Inv(w) && SweepPending(w, block) && k == w.plant.sweep.blockIndex - 1 && RadioType(k)
    requires w.plant.chains[k].node == 1 <= |Switch(w.plant.devices, k)| && Defined(w, DeviceReply(k, true))
    ensures Arrived(Arrival(w, k)) && Arrival(w, k).plant.sweep == w.plant.sweep
    ensures var done := Done(w.plant.sweep.pendingBlockTask.value, true);
      && w.plant.sweep.pendingBlockTask.Some?
      && done.task.SweepTask? && done.task.born < Arrival(w, k).plant.now
      && CompletionDefined(Arrival(w, k), done.task)
      && Dispatch(w, DeviceReply(k, true)) == Settle(Arrival(w, k), done)
  {
    DispatchStarts(w);
    ChainArrives(NextDispatch(w), k, true);
  }

  lemma ArrivalHeard(w: World, k: int, lists: seq<seq<int>>, since: nat)
    requires Shape(w.plant) && RadioType(k) && 0 < w.plant.chains[k].node <= |Switch(w.plant.devices, k)|
    requires k < w.plant.sweep.blockIndex && w.plant.sweep.initial[k] != NoAdapter
    requires SweepHeard(w.plant, lists, since)
    ensures SweepHeard(Arrival(w, k).plant, lists, since)
  {
    hide Heard, Silent, Switch, Indices;
    var u, q := NextDispatch(w).plant, Arrival(w, k).plant;
    AnswerTagged(u, k);
    forall typ | RadioType(typ) ensures TypeHeard(q, typ, lists[typ], since) {
      assert TypeHeard(w.plant, typ, lists[typ], since);
      HeardNow(w, typ, lists[typ], since);
      if typ == k {
        HeardReply(u, k, lists[k], u.sweep.final[k], since);
      } else {
        OthersHear(u, q, k, typ, lists[typ], u.sweep.final[typ], since);
      }
    }
  }

  lemma HeardNow(w: World, typ: int, list: seq<int>, since: nat)
    requires Shape(w.plant) && RadioType(typ)
    ensures forall block ::
              Heard(w.plant, typ, list, block, since) ==> Heard(NextDispatch(w).plant, typ, list, block, since)
    ensures Silent(w.plant, typ, since) ==> Silent(NextDispatch(w).plant, typ, since)
  {
  }

  lemma AnswerTagged(p: Plant, typ: int)
    requires Shape(p) && RadioType(typ) && 0 < p.chains[typ].node <= |Switch(p.devices, typ)|
    ensures var q := AfterAnswer(p, typ, true);
      && q.devices == p.devices && q.sweep == p.sweep && p.deviceAsks <= q.deviceAsks
      && (forall i :: |p.deviceAsks| <= i < |q.deviceAsks| ==> q.deviceAsks[i].chain == Some(typ))
      && (forall i :: 0 <= i < NUM_TYPES && i != typ ==> q.chains[i] == p.chains[i])
  {
  }

  /** The sweep after the type it waited for: the loop has sampled further. */
  lemma FurtherHeard(x: World, lists: seq<seq<int>>, since: nat)
    requires Arrived(x) && SweepHeard(x.plant, lists, since)
    ensures SweepHeard(AfterType(x), Renewed(lists, x.plant, x.plant.sweep.blockIndex), since)
  {
    var cleared := x.plant.(sweep := x.plant.sweep.(pendingBlockTask := None));
    assert Between(cleared);
    forall typ | RadioType(typ) ensures TypeHeard(cleared, typ, lists[typ], since) {
      assert TypeHeard(x.plant, typ, lists[typ], since);
      HeardSame(x.plant, cleared, typ, lists[typ], since);
    }
    AdvanceHeard(cleared, lists, since);
    assert Renewed(lists, cleared, x.plant.sweep.blockIndex) == Renewed(lists, x.plant, x.plant.sweep.blockIndex);
  }

  /** The lists a sweep goes by after an event. */
  function NextLists(w: World, ev: Event, lists: seq<seq<int>>): (next: seq<seq<int>>)
    requires Shape(w.plant) && |lists| == NUM_TYPES
    ensures |next| == NUM_TYPES
  {
    if Renews(w, ev) then Renewed(lists, w.plant, w.plant.sweep.blockIndex) else lists
  }

  /** A chain's last device replies. */
  predicate Renews(w: World, ev: Event)
    requires Shape(w.plant)
  {
    ev.DeviceReply? && RadioType(ev.typ) && w.plant.chains[ev.typ].node == 1
  }

  lemma ReplyHeard(w: World, ev: Event, block: bool, lists: seq<seq<int>>, since: nat)
    requires Complied(w, ev, block) && SweepHeard(w.plant, lists, since)
    requires Dispatch(w, ev).invocation == w.invocation
    ensures Shape(Dispatch(w, ev).plant) && SweepHeard(Dispatch(w, ev).plant, NextLists(w, ev, lists), since)
  {
    hide Inv, Enabled, Defined, TypeHeard, Dispatch, Settle, Arrived, Switch, AfterAnswer, Listing;
    var k := w.plant.sweep.blockIndex - 1;
    CompliedReply(w, ev, block);
    DispatchInv(w, ev);
    InvShape(Dispatch(w, ev));
    ArrivalHeard(w, k, lists, since);
    if w.plant.chains[k].node > 1 {
      SameTypeGoesOn(w, k, block);
    } else {
      TypeIsThrough(w, k, block);
      var x, done := Arrival(w, k), Done(w.plant.sweep.pendingBlockTask.value, true);
      ThroughGoesOn(x, done);
      FurtherHeard(x, lists, since);
      SameListing(w, k);
      SameRenewed(x.plant, w.plant, lists, k + 1);
    }
  }

  lemma SameRenewed(p: Plant, q: Plant, lists: seq<seq<int>>, from: int)
    requires |lists| == NUM_TYPES && p.devices == q.devices
    ensures Renewed(lists, p, from) == Renewed(lists, q, from)
  {
  }

  lemma SameListing(w: World, k: int)
    requires Shape(w.plant) && RadioType(k) && 0 < w.plant.chains[k].node <= |Switch(w.plant.devices, k)|
    ensures Arrival(w, k).plant.devices == w.plant.devices && Arrival(w, k).plant.sweep == w.plant.sweep
  {
  }

  lemma ThroughGoesOn(x: World, done: Done)
    requires Arrived(x) && AwaitedDone(x, done) && done.ok
    requires CompletionDefined(x, done.task) && Settle(x, done).invocation.Some?
    ensures Settle(x, done).plant == AfterType(x)
  {
    AfterTypeEffect(x);
    if AfterType(x).sweep.pendingBlockTask.Some? {
      SweepWaitsOn(x, done);
    }
  }

  lemma SweepGoesOn(w: World, ev: Event, block: bool, lists: seq<seq<int>>, since: nat)
    requires Inv(w) && Enabled(w, ev) && Defined(w, ev) && SweepPending(w, block) && Shape(w.plant)
    requires SweepHeard(w.plant, lists, since) && Dispatch(w, ev).invocation == w.invocation
    ensures Shape(Dispatch(w, ev).plant) && SweepHeard(Dispatch(w, ev).plant, NextLists(w, ev, lists), since)
  {
    hide Inv, Enabled, Defined, Dispatch;
    if IsReply(ev) {
      ReplyHeard(w, ev, block, lists, since);
    } else {
      OthersAside(w, ev);
      forall typ | RadioType(typ) ensures TypeHeard(Dispatch(w, ev).plant, typ, lists[typ], since) {
        assert TypeHeard(w.plant, typ, lists[typ], since);
        HeardAside(w.plant, Dispatch(w, ev).plant, typ, lists[typ], w.plant.sweep.final[typ], since);
      }
    }
  }

  // ---------- A sweep that commits ----------

  /** Whether some request names the type. */
  ghost predicate Asked(asks: seq<Ask>, typ: int) {
    exists a :: a in asks && a.typ == typ
  }

  /** Every request of the sweep has reached every device of its list; a killswitch
      the sweep did not ask lists nothing and has asked nothing. */
  ghost predicate AskedThrough(asks: seq<Ask>, log: seq<DeviceAsk>, lists: seq<seq<int>>) {
    && |lists| == NUM_TYPES
    && (forall a :: a in asks ==>
          && RadioType(a.typ) && lists[a.typ] != []
          && ChainAsks(log, a.typ) == Requests(lists[a.typ], a.block, a.typ))
    && (forall typ :: RadioType(typ) && !Asked(asks, typ) ==> lists[typ] == [] && ChainAsks(log, typ) == [])
  }

  lemma AllTypesThrough(q: Plant, lists: seq<seq<int>>, since: nat)
    requires Between(q) && q.sweep.blockIndex == NUM_TYPES && SweepHeard(q, lists, since)
    ensures since <= |q.deviceAsks| && AskedThrough(q.asks[q.sweep.mark..], q.deviceAsks[since..], lists)
  {
    hide ChainAsks, Switch, Indices, Tail, Requests, Waiting, Refresh, Wanted, SwitchState;
    var asks := q.asks[q.sweep.mark..];
    assert asks == SweepAsks(q.sweep.initial, q.sweep.final, NUM_TYPES);
    SweepAsksTypes(q.sweep.initial, q.sweep.final, NUM_TYPES);
    assert TypeHeard(q, 1, lists[1], since);
    forall a | a in asks
      ensures RadioType(a.typ) && lists[a.typ] != []
      ensures ChainAsks(q.deviceAsks[since..], a.typ) == Requests(lists[a.typ], a.block, a.typ)
    {
      assert TypeHeard(q, a.typ, lists[a.typ], since);
      assert Idle(q.chains[a.typ]);
      assert lists[a.typ][..|lists[a.typ]|] == lists[a.typ];
    }
    forall typ | RadioType(typ) && !Asked(asks, typ)
      ensures lists[typ] == [] && ChainAsks(q.deviceAsks[since..], typ) == []
    {
      assert TypeHeard(q, typ, lists[typ], since);
      assert Ask(typ, q.sweep.final[typ], true) !in asks;
    }
  }

  lemma ThroughCommits(x: World, done: Done)
    requires Arrived(x) && AwaitedDone(x, done) && done.ok
    requires CompletionDefined(x, done.task) && Settle(x, done).invocation.None?
    ensures var q, v := AfterType(x), Settle(x, done);
      && Between(q) && q.sweep.blockIndex == NUM_TYPES
      && v.plant.deviceAsks == q.deviceAsks
      && |v.plant.history| == |x.plant.history| + 1
      && v.plant.history[|x.plant.history|].asks == q.asks[q.sweep.mark..]
  {
    AfterTypeEffect(x);
    if AfterType(x).sweep.pendingBlockTask.None? {
      SweepReportsSuccess(x, done, AfterType(x));
    }
  }

  lemma SweepCommits(w: World, ev: Event, block: bool, lists: seq<seq<int>>, since: nat)
    requires Complied(w, ev, block) && SweepHeard(w.plant, lists, since)
    requires CallReplied(w, Dispatch(w, ev), Succeeded)
    ensures Renews(w, ev)
    ensures var v := Dispatch(w, ev);
      && |v.plant.history| == |w.plant.history| + 1 && since <= |v.plant.deviceAsks|
      && AskedThrough(v.plant.history[|w.plant.history|].asks, v.plant.deviceAsks[since..], NextLists(w, ev, lists))
  {
    hide Inv, Enabled, Defined, TypeHeard, Dispatch, Settle, Arrived, Switch, AfterAnswer, AskedThrough,
         CompletionDefined, Between, AfterType, Listing;
    var k := w.plant.sweep.blockIndex - 1;
    CompliedReply(w, ev, block);
    CompliedLast(w, ev, block);
    ArrivalHeard(w, k, lists, since);
    TypeIsThrough(w, k, block);
    var x, done := Arrival(w, k), Done(w.plant.sweep.pendingBlockTask.value, true);
    ThroughCommits(x, done);
    FurtherHeard(x, lists, since);
    SameListing(w, k);
    SameRenewed(x.plant, w.plant, lists, k + 1);
    AllTypesThrough(AfterType(x), Renewed(lists, w.plant, k + 1), since);
    SameHistory(w, k);
  }

  lemma SameHistory(w: World, k: int)
    requires Shape(w.plant) && RadioType(k) && 0 < w.plant.chains[k].node <= |Switch(w.plant.devices, k)|
    ensures Arrival(w, k).plant.history == w.plant.history
  {
  }

  /** The reply that ends a sweep comes from the last device of a chain. */
  lemma CompliedLast(w: World, ev: Event, block: bool)
    requires Complied(w, ev, block) && CallReplied(w, Dispatch(w, ev), Succeeded)
    requires var k := w.plant.sweep.blockIndex - 1;
      && Shape(w.plant) && RadioType(k) && ev == DeviceReply(k, true)
      && 0 < w.plant.chains[k].node <= |Switch(w.plant.devices, k)|
    ensures w.plant.chains[w.plant.sweep.blockIndex - 1].node == 1
  {
    var k := w.plant.sweep.blockIndex - 1;
    if w.plant.chains[k].node > 1 {
      SameTypeGoesOn(w, k, block);
    }
  }

  // ---------- Sweeps in runs ----------

  /** From its start in step i up to world n a flight-mode operation has been pending. */
  ghost predicate SweepRun(worlds: seq<World>, evs: seq<Event>, i: nat, n: nat, block: bool) {
    && i < n < |worlds| && i < |evs|
    && evs[i].Invoke? && evs[i].request == SetFlightMode(block) && worlds[i].invocation.None?
    && PendingThrough(worlds, i + 1, n)
  }

  /** The dispatch of world m takes the sweep past the type: it samples it and,
      if there is an adapter, starts its chain. */
  ghost predicate Passes(worlds: seq<World>, i: nat, n: nat, m: nat, typ: int)
    requires n < |worlds|
  {
    && i <= m <= n
    && (m > i ==> worlds[m].plant.sweep.blockIndex <= typ)
    && (m < n ==> typ < worlds[m + 1].plant.sweep.blockIndex)
  }

  /** The list is what the killswitch listed when the sweep reached it. */
  ghost predicate ListedThen(worlds: seq<World>, i: nat, n: nat, typ: int, list: seq<int>)
    requires n < |worlds|
  {
    exists m: nat :: Passes(worlds, i, n, m, typ) && list == Listing(worlds[m].plant, typ)
  }

  /** So are the lists of all types below a bound. */
  ghost predicate Reaches(worlds: seq<World>, i: nat, n: nat, lists: seq<seq<int>>, bound: int)
    requires n < |worlds|
  {
    && |lists| == NUM_TYPES
    && forall typ :: RadioType(typ) && typ < bound ==> ListedThen(worlds, i, n, typ, lists[typ])
  }

  lemma {:induction false} SweepRunHeard(cfg: Config, worlds: seq<World>, evs: seq<Event>, i: nat, n: nat, block: bool)
    requires Execution(cfg, worlds, evs) && SweepRun(worlds, evs, i, n, block)
    ensures SweepPending(worlds[n], block) && Shape(worlds[n].plant)
    ensures exists lists ::
              && Reaches(worlds, i, n - 1, lists, worlds[n].plant.sweep.blockIndex)
              && SweepHeard(worlds[n].plant, lists, |worlds[i].plant.deviceAsks|)
    decreases n - i
  {
    hide Execution, Inv, Dispatch, Enabled, Defined, SweepHeard, Listing;
    RunLength(cfg, worlds, evs);
    if n == i + 1 {
      RunStep(cfg, worlds, evs, i);
      SweepStarts(worlds[i], block, evs[i].authorized);
      var lists := Renewed(NO_LISTS, worlds[i].plant, 1);
      forall typ | RadioType(typ) ensures ListedThen(worlds, i, i, typ, lists[typ]) {
        assert Passes(worlds, i, i, i, typ);
      }
    } else {
      SweepRunHeard(cfg, worlds, evs, i, n - 1, block);
      var lists :|
        && Reaches(worlds, i, n - 2, lists, worlds[n - 1].plant.sweep.blockIndex)
        && SweepHeard(worlds[n - 1].plant, lists, |worlds[i].plant.deviceAsks|);
      RunStep(cfg, worlds, evs, n - 1);
      SweepGoesOn(worlds[n - 1], evs[n - 1], block, lists, |worlds[i].plant.deviceAsks|);
      IndexMoves(worlds[n - 1], evs[n - 1], block);
      ReachesOn(worlds, i, n - 1, evs[n - 1], lists);
    }
  }

  /** The next dispatch takes the sweep past further types, or past none. */
  lemma ReachesOn(worlds: seq<World>, i: nat, n: nat, ev: Event, lists: seq<seq<int>>)
    requires i < n < |worlds| && Shape(worlds[n].plant)
    requires Reaches(worlds, i, n - 1, lists, worlds[n].plant.sweep.blockIndex)
    ensures Reaches(worlds, i, n, NextLists(worlds[n], ev, lists),
                    if Renews(worlds[n], ev) then NUM_TYPES else worlds[n].plant.sweep.blockIndex)
  {
    hide Listing;
    var next := NextLists(worlds[n], ev, lists);
    forall typ | RadioType(typ) && (Renews(worlds[n], ev) || typ < worlds[n].plant.sweep.blockIndex)
      ensures ListedThen(worlds, i, n, typ, next[typ])
    {
      if typ < worlds[n].plant.sweep.blockIndex {
        assert ListedThen(worlds, i, n - 1, typ, lists[typ]);
        var m: nat :| Passes(worlds, i, n - 1, m, typ) && lists[typ] == Listing(worlds[m].plant, typ);
        assert Passes(worlds, i, n, m, typ);
      } else {
        assert Passes(worlds, i, n, n, typ);
      }
    }
  }

  /** Only the reply of a chain's last device moves a sweep on. */
  lemma IndexMoves(w: World, ev: Event, block: bool)
    requires Inv(w) && Enabled(w, ev) && Defined(w, ev) && SweepPending(w, block) && Shape(w.plant)
    requires Dispatch(w, ev).invocation == w.invocation
    ensures Renews(w, ev) || Dispatch(w, ev).plant.sweep.blockIndex == w.plant.sweep.blockIndex
  {
    hide Inv, Enabled, Defined, Dispatch;
    if IsReply(ev) {
      var k := w.plant.sweep.blockIndex - 1;
      CompliedReply(w, ev, block);
      if w.plant.chains[k].node > 1 {
        SameTypeGoesOn(w, k, block);
        SameListing(w, k);
      }
    } else {
      OthersAside(w, ev);
    }
  }

  /** A sweep passes a type once, so its list is fixed by the run. */
  lemma PassesOnce(
      cfg: Config, worlds: seq<World>, evs: seq<Event>, i: nat, n: nat, block: bool, typ: int, m: nat, k: nat)
    requires Execution(cfg, worlds, evs) && SweepRun(worlds, evs, i, n, block)
    requires Passes(worlds, i, n, m, typ) && Passes(worlds, i, n, k, typ)
    ensures m == k
  {
    hide Execution;
    if m < k {
      IndexRises(cfg, worlds, evs, i, n, block, m + 1, k);
    } else if k < m {
      IndexRises(cfg, worlds, evs, i, n, block, k + 1, m);
    }
  }

  lemma IndexRises(cfg: Config, worlds: seq<World>, evs: seq<Event>, i: nat, n: nat, block: bool, m: nat, k: nat)
    requires Execution(cfg, worlds, evs) && SweepRun(worlds, evs, i, n, block) && i < m <= k <= n
    ensures worlds[m].plant.sweep.blockIndex <= worlds[k].plant.sweep.blockIndex
  {
    hide Execution, Inv;
    SweepRunHeard(cfg, worlds, evs, i, n, block);
    PendingProgress(cfg, worlds, evs, m, k);
  }

  /** In every run, whatever happens meanwhile: when a flight-mode operation is
      answered with success, each killswitch it asked has asked every device it
      listed when the sweep reached it, in order, each once, for the state the
      sweep wanted of its type, and none besides; the killswitches it did not ask
      listed nothing then, and have asked nothing. */
  lemma SweepAsksEveryDevice(cfg: Config, worlds: seq<World>, evs: seq<Event>, i: nat, n: nat, block: bool)
    requires Execution(cfg, worlds, evs) && SweepRun(worlds, evs, i, n, block) && n < |evs|
    requires n + 1 < |worlds| && CallReplied(worlds[n], worlds[n + 1], Succeeded)
    ensures |worlds[n + 1].plant.history| == |worlds[n].plant.history| + 1
    ensures |worlds[i].plant.deviceAsks| <= |worlds[n + 1].plant.deviceAsks|
    ensures exists lists :: Reaches(worlds, i, n, lists, NUM_TYPES)
              && AskedThrough(worlds[n + 1].plant.history[|worlds[n].plant.history|].asks,
                              worlds[n + 1].plant.deviceAsks[|worlds[i].plant.deviceAsks|..], lists)
  {
    hide Execution, Inv, Dispatch, Enabled, Defined, SweepHeard, Listing, CallReplied, AskedThrough;
    SweepRunHeard(cfg, worlds, evs, i, n, block);
    var since := |worlds[i].plant.deviceAsks|;
    var lists :|
      && Reaches(worlds, i, n - 1, lists, worlds[n].plant.sweep.blockIndex)
      && SweepHeard(worlds[n].plant, lists, since);
    RunStep(cfg, worlds, evs, n);
    AnsweredByReply(worlds[n], evs[n]);
    SweepCommits(worlds[n], evs[n], block, lists, since);
    ReachesOn(worlds, i, n, evs[n], lists);
  }

  /** Only a reply answers a pending call with success. */
  lemma AnsweredByReply(w: World, ev: Event)
    requires Inv(w) && Enabled(w, ev) && Defined(w, ev) && w.invocation.Some?
    requires CallReplied(w, Dispatch(w, ev), Succeeded)
    ensures IsReply(ev)
  {
  }
}
