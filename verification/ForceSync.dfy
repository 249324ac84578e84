/** The feedback loop of force_sync (urf-arbitrator.c, urf-device-kernel.c): the
    daemon answers an event of a device by writing to the kernel, the write
    changes every device of that type, and each change comes back as an event.

    All devices are the kernel's; they may be plugged in and unplugged, and a
    write may fail. */
module ForceSync {
  import opened Common
  import opened KillswitchState
  import opened DeviceMirror
  import opened Persistence
  import opened FlightMode
  import opened DeviceEvents

  /** The arbitrator, the kernel's own view of the devices, and the events on
      their way from the kernel to the daemon. */
  datatype Loop = Loop(plant: Plant, kernel: seq<Device>, queue: seq<KernelEvent>)

  // ---------- The kernel ----------

  function Written(d: Device, typ: int, soft: bool): Device {
    if d.typ == typ then d.(soft := soft) else d
  }

  /** A CHANGE_ALL write sets the soft block of every device of a type. */
  function ChangeAll(kernel: seq<Device>, typ: int, soft: bool): (after: seq<Device>)
    ensures |after| == |kernel| && forall k :: 0 <= k < |kernel| ==> after[k] == Written(kernel[k], typ, soft)
  {
    if kernel == [] then [] else [Written(kernel[0], typ, soft)] + ChangeAll(kernel[1..], typ, soft)
  }

  /** It queues a CHANGE for each device that changed. */
  function Notices(kernel: seq<Device>, typ: int, soft: bool): (evs: seq<KernelEvent>)
    ensures forall e :: e in evs ==> e.Change?
  {
    if kernel == [] then []
    else
      (if Written(kernel[0], typ, soft) != kernel[0] then [Change(kernel[0].index, soft, kernel[0].hard)] else [])
      + Notices(kernel[1..], typ, soft)
  }

  function Write(s: Loop, typ: int, soft: bool): Loop {
    s.(kernel := ChangeAll(s.kernel, typ, soft), queue := s.queue + Notices(s.kernel, typ, soft))
  }

  /** Each request to a device becomes a write for the device's type; ok tells
      which of them the kernel accepts, counted from the last one. */
  function WriteAll(s: Loop, asks: seq<DeviceAsk>, ok: nat -> bool): Loop
    decreases |asks|
  {
    if asks == [] then s
    else if Present(s.plant.devices, asks[0].index) && ok(|asks| - 1)
    then WriteAll(Write(s, Lookup(s.plant.devices, asks[0].index).typ, asks[0].block), asks[1..], ok)
    else WriteAll(s, asks[1..], ok)
  }

  // ---------- Steps ----------

  /** The requests made since there were n of them. */
  function NewAsks(asks: seq<DeviceAsk>, n: nat): seq<DeviceAsk> {
    if n <= |asks| then asks[n..] else []
  }

  /** The daemon has read one event but not yet written. */
  function Read(s: Loop): Loop
    requires s.queue != []
  {
    Loop(Process(s.plant, s.queue[0]), s.kernel, s.queue[1..])
  }

  /** What it wants written. */
  function Wishes(s: Loop): seq<DeviceAsk>
    requires s.queue != []
  {
    NewAsks(Read(s).plant.deviceAsks, |s.plant.deviceAsks|)
  }

  /** The daemon reads one event, updates its mirror and writes what it wants changed. */
  function Serve(s: Loop, ok: nat -> bool): Loop
    requires s.queue != []
  {
    WriteAll(Read(s), Wishes(s), ok)
  }

  /** What happens: the daemon serves an event; somebody else flips the bits of the
      k-th device, or the kernel just repeats them; a device comes or goes. */
  datatype LoopStep =
    | Daemon(ok: nat -> bool)
    | Outside(k: nat, soft: bool, hard: bool)
    | PlugIn(device: Device)
    | Unplug(k: nat)

  ghost predicate Possible(s: Loop, step: LoopStep) {
    match step
    case Daemon(_) => s.queue != []
    case Outside(k, _, _) => k < |s.kernel|
    case PlugIn(d) => RadioType(d.typ) && 0 <= d.index && !Present(s.kernel, d.index)
    case Unplug(k) => k < |s.kernel|
  }

  /** What the kernel reports of a step of the surroundings. */
  function Report(s: Loop, step: LoopStep): KernelEvent
    requires !step.Daemon? && (step.Outside? || step.Unplug? ==> step.k < |s.kernel|)
  {
    match step
    case Outside(k, soft, hard) => Change(s.kernel[k].index, soft, hard)
    case PlugIn(d) => Add(d.index, d.typ, d.soft, d.hard, d.platform)
    case Unplug(k) => Del(s.kernel[k].index)
  }

  function Take(s: Loop, step: LoopStep): Loop
    requires Possible(s, step)
  {
    match step
    case Daemon(ok) => Serve(s, ok)
    case Outside(k, soft, hard) =>
      s.(kernel := s.kernel[k := s.kernel[k].(soft := soft, hard := hard)], queue := s.queue + [Report(s, step)])
    case PlugIn(d) => s.(kernel := s.kernel + [d], queue := s.queue + [Report(s, step)])
    case Unplug(k) => s.(kernel := s.kernel[..k] + s.kernel[k + 1..], queue := s.queue + [Report(s, step)])
  }

  // ---------- The mirror trails the kernel ----------

  /** The mirrored devices once the queue has been read. */
  function Expected(devices: seq<Device>, queue: seq<KernelEvent>): seq<Device>
    decreases |queue|
  {
    if queue == [] then devices else Expected(Apply(devices, queue[0]), queue[1..])
  }

  /** An event after which the daemon may clear soft blocks: a new device, or a
      hard block that is lifted. */
  predicate Trigger(devices: seq<Device>, e: KernelEvent) {
    e.Add? || (e.Change? && Present(devices, e.index) && Lookup(devices, e.index).hard && !e.hard)
  }

  /** How many such events the queue holds. */
  function Triggers(devices: seq<Device>, queue: seq<KernelEvent>): nat
    decreases |queue|
  {
    if queue == [] then 0
    else (if Trigger(devices, queue[0]) then 1 else 0) + Triggers(Apply(devices, queue[0]), queue[1..])
  }

  /** Reading the queue turns the mirror into exactly the kernel's state. */
  ghost predicate Trails(s: Loop) {
    && s.plant.cfg.forceSync
    && UniqueIndices(s.plant.devices)
    && Expected(s.plant.devices, s.queue) == s.kernel
    && forall i :: 0 <= i < |s.queue| && s.queue[i].Add? ==> RadioType(s.queue[i].typ)
  }

  lemma ApplyUnique(devices: seq<Device>, e: KernelEvent)
    requires UniqueIndices(devices)
    ensures UniqueIndices(Apply(devices, e))
  {
  }

  lemma {:induction false} ExpectedUnique(devices: seq<Device>, queue: seq<KernelEvent>)
    requires UniqueIndices(devices)
    ensures UniqueIndices(Expected(devices, queue))
    decreases |queue|
  {
    if queue == [] {
    } else {
      ApplyUnique(devices, queue[0]);
      ExpectedUnique(Apply(devices, queue[0]), queue[1..]);
    }
  }

  lemma {:induction false} ExpectedConcat(devices: seq<Device>, a: seq<KernelEvent>, b: seq<KernelEvent>)
    ensures Expected(devices, a + b) == Expected(Expected(devices, a), b)
    ensures Triggers(devices, a + b) == Triggers(devices, a) + Triggers(Expected(devices, a), b)
    decreases |a|
  {
    if a == [] {
      assert a + b == b;
    } else {
      assert (a + b)[1..] == a[1..] + b;
      ExpectedConcat(Apply(devices, a[0]), a[1..], b);
    }
  }

  lemma ExpectedOne(devices: seq<Device>, e: KernelEvent)
    ensures Expected(devices, [e]) == Apply(devices, e)
  {
    assert [e][1..] == [];
  }

  /** One event tells the mirror what a write did to one device. */
  lemma HeadTold(before: seq<Device>, d: Device, rest: seq<Device>, typ: int, soft: bool)
    requires UniqueIndices(before + [d] + rest)
    ensures var all, after := before + [d] + rest, before + [Written(d, typ, soft)] + rest;
      && UniqueIndices(after)
      && Apply(all, Change(d.index, Written(d, typ, soft).soft, d.hard)) == after
      && !Trigger(all, Change(d.index, Written(d, typ, soft).soft, d.hard))
  {
    var all, after := before + [d] + rest, before + [Written(d, typ, soft)] + rest;
    FindUnique(all, |before|);
    assert all[|before|] == d;
    assert all[|before| := Written(d, typ, soft)] == after;
    assert forall i :: 0 <= i < |all| ==> all[i].index == after[i].index;
  }

  /** The events of a write tell exactly what the write did, and trigger nothing. */
  lemma {:induction false} NoticesTell(before: seq<Device>, kernel: seq<Device>, typ: int, soft: bool)
    requires UniqueIndices(before + kernel)
    ensures Expected(before + kernel, Notices(kernel, typ, soft)) == before + ChangeAll(kernel, typ, soft)
    ensures Triggers(before + kernel, Notices(kernel, typ, soft)) == 0
    decreases |kernel|
  {
    hide UniqueIndices, Apply, Trigger;
    if kernel == [] {
      assert before + ChangeAll(kernel, typ, soft) == before + kernel;
    } else {
      assert before + kernel == before + [kernel[0]] + kernel[1..];
      HeadTold(before, kernel[0], kernel[1..], typ, soft);
      NoticesTell(before + [Written(kernel[0], typ, soft)], kernel[1..], typ, soft);
      NoticesStep(before, kernel, typ, soft);
    }
  }

  lemma NoticesStep(before: seq<Device>, kernel: seq<Device>, typ: int, soft: bool)
    requires kernel != [] && UniqueIndices(before + kernel)
    requires var all := before + [Written(kernel[0], typ, soft)] + kernel[1..];
      var notices := Notices(kernel[1..], typ, soft);
      && Expected(all, notices) == before + [Written(kernel[0], typ, soft)] + ChangeAll(kernel[1..], typ, soft)
      && Triggers(all, notices) == 0
    ensures Expected(before + kernel, Notices(kernel, typ, soft)) == before + ChangeAll(kernel, typ, soft)
    ensures Triggers(before + kernel, Notices(kernel, typ, soft)) == 0
  {
    hide UniqueIndices, Apply, Trigger, Expected, Triggers, ChangeAll, Notices;
    var d, rest, w := kernel[0], kernel[1..], Written(kernel[0], typ, soft);
    assert before + kernel == before + [d] + rest;
    HeadTold(before, d, rest, typ, soft);
    WriteUnfolds(kernel, typ, soft);
    assert before + ([w] + ChangeAll(rest, typ, soft)) == before + [w] + ChangeAll(rest, typ, soft);
    if w != d {
      ExpectedCons(before + kernel, Change(d.index, soft, d.hard), Notices(rest, typ, soft));
    } else {
      assert [] + Notices(rest, typ, soft) == Notices(rest, typ, soft);
    }
  }

  lemma WriteUnfolds(kernel: seq<Device>, typ: int, soft: bool)
    requires kernel != []
    ensures var d, w := kernel[0], Written(kernel[0], typ, soft);
      && ChangeAll(kernel, typ, soft) == [w] + ChangeAll(kernel[1..], typ, soft)
      && Notices(kernel, typ, soft)
         == (if w != d then [Change(d.index, soft, d.hard)] else []) + Notices(kernel[1..], typ, soft)
      && (w != d ==> w.soft == soft)
  {
  }

  lemma ExpectedCons(devices: seq<Device>, e: KernelEvent, queue: seq<KernelEvent>)
    ensures Expected(devices, [e] + queue) == Expected(Apply(devices, e), queue)
    ensures Triggers(devices, [e] + queue)
         == (if Trigger(devices, e) then 1 else 0) + Triggers(Apply(devices, e), queue)
  {
    assert ([e] + queue)[1..] == queue;
  }

  lemma KernelUnique(s: Loop)
    requires Trails(s)
    ensures UniqueIndices(s.kernel)
  {
    ExpectedUnique(s.plant.devices, s.queue);
  }

  /** A write keeps the mirror trailing and adds no trigger. */
  lemma WriteTrails(s: Loop, typ: int, soft: bool)
    requires Trails(s)
    ensures Trails(Write(s, typ, soft))
    ensures Triggers(s.plant.devices, Write(s, typ, soft).queue) == Triggers(s.plant.devices, s.queue)
  {
    hide UniqueIndices, ChangeAll, Expected, Triggers;
    var notices := Notices(s.kernel, typ, soft);
    KernelUnique(s);
    ExpectedConcat(s.plant.devices, s.queue, notices);
    assert [] + s.kernel == s.kernel && [] + ChangeAll(s.kernel, typ, soft) == ChangeAll(s.kernel, typ, soft);
    NoticesTell([], s.kernel, typ, soft);
    forall i | |s.queue| <= i < |s.queue + notices| ensures (s.queue + notices)[i].Change? {
      assert (s.queue + notices)[i] == notices[i - |s.queue|];
    }
  }

  lemma {:induction false} WriteAllTrails(s: Loop, asks: seq<DeviceAsk>, ok: nat -> bool)
    requires Trails(s)
    ensures var t := WriteAll(s, asks, ok);
      && Trails(t) && t.plant == s.plant && s.queue <= t.queue
      && (forall i :: |s.queue| <= i < |t.queue| ==> t.queue[i].Change?)
      && Triggers(t.plant.devices, t.queue) == Triggers(s.plant.devices, s.queue)
    decreases |asks|
  {
    if asks == [] {
    } else {
      if Present(s.plant.devices, asks[0].index) && ok(|asks| - 1) {
        var typ := Lookup(s.plant.devices, asks[0].index).typ;
        WriteTrails(s, typ, asks[0].block);
        WriteAllTrails(Write(s, typ, asks[0].block), asks[1..], ok);
      } else {
        WriteAllTrails(s, asks[1..], ok);
      }
    }
  }

  lemma ReadTrails(s: Loop)
    requires Trails(s) && s.queue != []
    ensures Trails(Read(s)) && Read(s).plant.devices == Apply(s.plant.devices, s.queue[0])
    ensures Triggers(s.plant.devices, s.queue)
         == (if Trigger(s.plant.devices, s.queue[0]) then 1 else 0) + Triggers(Read(s).plant.devices, s.queue[1..])
  {
    ProcessMirrors(s.plant, s.queue[0]);
    ApplyUnique(s.plant.devices, s.queue[0]);
  }

  /** What an event makes the daemon write: the synchronisation rule on a change,
      the first requests of a new device. */
  lemma WishesOf(s: Loop)
    requires s.queue != [] && s.plant.cfg.forceSync
    ensures var e, devices := s.queue[0], s.plant.devices;
      Wishes(s) == match e
                   case Change(index, soft, hard) =>
                     if !Present(devices, index) then []
                     else
                       var d := Lookup(devices, index);
                       if d.soft == soft && d.hard == hard then []
                       else Requested(index, SyncRequest(d.hard, soft, hard))
                   case Add(index, typ, soft, hard, platform) =>
                     if index < 0 || Present(devices, index) then []
                     else Greeting(s.plant.cfg, s.plant.saved, Device(index, typ, platform, soft, hard))
                   case Del(_) => []
  {
  }

  // ---------- The measure ----------

  /** How many soft bits are clear in the kernel. */
  function ClearBits(kernel: seq<Device>): nat {
    if kernel == [] then 0 else (if kernel[0].soft then 0 else 1) + ClearBits(kernel[1..])
  }

  /** Setting soft blocks leaves fewer clear bits, unless nothing changes at all. */
  lemma {:induction false} BlockingClears(kernel: seq<Device>, typ: int)
    ensures Notices(kernel, typ, true) == [] ==> ChangeAll(kernel, typ, true) == kernel
    ensures ClearBits(ChangeAll(kernel, typ, true)) <= ClearBits(kernel)
    ensures Notices(kernel, typ, true) != [] ==> ClearBits(ChangeAll(kernel, typ, true)) < ClearBits(kernel)
  {
    if kernel == [] {
    } else {
      BlockingClears(kernel[1..], typ);
      assert ChangeAll(kernel, typ, true)[1..] == ChangeAll(kernel[1..], typ, true);
      assert kernel == [kernel[0]] + kernel[1..];
    }
  }

  /** The lexicographic order on (triggers left, clear bits, queue length). */
  ghost predicate Closer(t: Loop, s: Loop) {
    var n, m := Triggers(s.plant.devices, s.queue), Triggers(t.plant.devices, t.queue);
    || m < n
    || (m == n && ClearBits(t.kernel) < ClearBits(s.kernel))
    || (m == n && ClearBits(t.kernel) == ClearBits(s.kernel) && |t.queue| < |s.queue|)
  }

  /** An event that is no trigger makes the daemon set soft blocks or nothing. */
  lemma QuietWish(s: Loop)
    requires s.queue != [] && s.plant.cfg.forceSync && !Trigger(s.plant.devices, s.queue[0])
    ensures Wishes(s) == [] || (|Wishes(s)| == 1 && Wishes(s)[0].block)
  {
    WishesOf(s);
  }

  /** Every event the daemon serves brings the loop closer to rest, whether or
      not its writes succeed. */
  lemma ServeCloser(s: Loop, ok: nat -> bool)
    requires Trails(s) && s.queue != []
    ensures Trails(Serve(s, ok)) && Closer(Serve(s, ok), s)
  {
    var r := Read(s);
    ReadTrails(s);
    WriteAllTrails(r, Wishes(s), ok);
    if !Trigger(s.plant.devices, s.queue[0]) {
      QuietWish(s);
      if Wishes(s) != [] {
        var ask := Wishes(s)[0];
        assert Wishes(s)[1..] == [];
        if Present(r.plant.devices, ask.index) && ok(0) {
          var typ := Lookup(r.plant.devices, ask.index).typ;
          assert Serve(s, ok) == WriteAll(Write(r, typ, true), [], ok) == Write(r, typ, true);
          BlockingClears(s.kernel, typ);
        } else {
          assert Serve(s, ok) == WriteAll(r, [], ok) == r;
        }
      }
    }
  }

  /** The daemon serves events i up to n; ok(k) is the fate of the writes of event k. */
  function ServeMany(s: Loop, i: nat, n: nat, ok: nat -> nat -> bool): Loop
    decreases n - i
  {
    if i >= n || s.queue == [] then s else ServeMany(Serve(s, ok(i)), i + 1, n, ok)
  }

  /** At rest: nothing is on its way, and the mirror is the kernel's state. */
  ghost predicate AtRest(s: Loop) {
    s.plant.cfg.forceSync && UniqueIndices(s.plant.devices) && s.queue == [] && s.kernel == s.plant.devices
  }

  /** A hard block is not matched by a soft block. */
  predicate Unmatched(d: Device) {
    d.hard && !d.soft
  }

  /** At rest, and hard implies soft. */
  ghost predicate Settled(s: Loop) {
    AtRest(s) && forall d :: d in s.kernel ==> !Unmatched(d)
  }

  ghost predicate AllWritten(ok: nat -> nat -> bool) {
    forall i, k :: ok(i)(k)
  }

  // ---------- Hard implies soft ----------

  /** The event shows the device in a different state, or gone. */
  predicate Shows(d: Device, e: KernelEvent) {
    || (e.Change? && e.index == d.index && (e.soft != d.soft || e.hard != d.hard))
    || (e.Del? && e.index == d.index)
  }

  ghost predicate Relieved(d: Device, queue: seq<KernelEvent>) {
    exists i :: 0 <= i < |queue| && Shows(d, queue[i])
  }

  /** Wherever the mirror shows an unmatched hard block, a different state is
      already on its way, and no unmatched device is about to be added. */
  ghost predicate Synced(s: Loop) {
    && Trails(s)
    && (forall d :: d in s.plant.devices && Unmatched(d) ==> Relieved(d, s.queue))
    && (forall i :: 0 <= i < |s.queue| && s.queue[i].Add? ==> !(s.queue[i].hard && !s.queue[i].soft))
  }

  lemma RelievedLonger(d: Device, a: seq<KernelEvent>, b: seq<KernelEvent>)
    requires Relieved(d, a) && a <= b
    ensures Relieved(d, b)
  {
    var i :| 0 <= i < |a| && Shows(d, a[i]);
    assert b[i] == a[i];
  }

  /** A device that no event shows differently is still there in the end. */
  lemma {:induction false} Lingers(devices: seq<Device>, queue: seq<KernelEvent>, d: Device)
    requires UniqueIndices(devices) && d in devices && !Relieved(d, queue)
    ensures d in Expected(devices, queue)
    decreases |queue|
  {
    if queue == [] {
    } else {
      assert !Shows(d, queue[0]);
      OneLingers(devices, queue[0], d);
      ApplyUnique(devices, queue[0]);
      forall i | 0 <= i < |queue[1..]| ensures !Shows(d, queue[1..][i]) {
        assert queue[1..][i] == queue[i + 1];
      }
      Lingers(Apply(devices, queue[0]), queue[1..], d);
    }
  }

  lemma OneLingers(devices: seq<Device>, e: KernelEvent, d: Device)
    requires UniqueIndices(devices) && d in devices && !Shows(d, e)
    ensures d in Apply(devices, e)
  {
    var k :| 0 <= k < |devices| && devices[k] == d;
    FindUnique(devices, k);
    match e
    case Add(_, _, _, _, _) =>
      assert (devices + [Device(e.index, e.typ, e.platform, e.soft, e.hard)])[k] == d;
    case Del(index) =>
      if Present(devices, index) {
        var j := Find(devices, index);
        assert RemoveDevice(devices, index)[if k < j then k else k - 1] == d;
      }
    case Change(index, soft, hard) =>
      if Present(devices, index) {
        assert UpdateDevice(devices, index, soft, hard)[k] == d;
      }
  }

  /** After a write that sets the soft blocks of a type, every unmatched hard
      block of that type in the mirror is relieved. */
  lemma BlockRelieves(s: Loop, typ: int, d: Device)
    requires Trails(s) && d in s.plant.devices && Unmatched(d) && d.typ == typ
    ensures Relieved(d, Write(s, typ, true).queue)
  {
    var t := Write(s, typ, true);
    WriteTrails(s, typ, true);
    forall k | 0 <= k < |t.kernel| ensures t.kernel[k] != d {
      assert t.kernel[k] == Written(s.kernel[k], typ, true);
    }
    if !Relieved(d, t.queue) {
      Lingers(t.plant.devices, t.queue, d);
    }
  }

  /** Where a mirrored device comes from when an event has been read. */
  lemma ReadDevices(devices: seq<Device>, e: KernelEvent, d: Device)
    requires UniqueIndices(devices) && d in Apply(devices, e)
    ensures || (d in devices && !Shows(d, e))
            || (e.Change? && Present(devices, e.index) && Shows(Lookup(devices, e.index), e)
                && d == Lookup(devices, e.index).(soft := e.soft, hard := e.hard))
            || (e.Add? && 0 <= e.index && !Present(devices, e.index)
                && d == Device(e.index, e.typ, e.platform, e.soft, e.hard))
  {
    var after := Apply(devices, e);
    var k :| 0 <= k < |after| && after[k] == d;
    if e.Del? && Present(devices, e.index) {
      var j := Find(devices, e.index);
      var i := if k < j then k else k + 1;
      assert devices[i] == d && devices[i].index != devices[j].index;
    } else if e.Del? {
      assert d.index != e.index;
    } else if e.Change? && Present(devices, e.index) {
      var j := Find(devices, e.index);
      if k != j {
        assert devices[k] == d && devices[k].index != devices[j].index;
      }
    } else if e.Change? {
      assert d.index != e.index;
    }
  }

  /** A changed device that is left with an unmatched hard block is written to. */
  lemma ChangedWish(s: Loop, d: Device)
    requires Trails(s) && s.queue != [] && s.queue[0].Change? && Present(s.plant.devices, s.queue[0].index)
    requires Shows(Lookup(s.plant.devices, s.queue[0].index), s.queue[0])
    requires d == Lookup(s.plant.devices, s.queue[0].index).(soft := s.queue[0].soft, hard := s.queue[0].hard)
    requires Unmatched(d)
    ensures forall ok: nat -> bool :: ok(0) ==> Serve(s, ok) == Write(Read(s), d.typ, true)
  {
    var e, devices := s.queue[0], s.plant.devices;
    var r, k := Read(s), Find(devices, e.index);
    WishesOf(s);
    ReadTrails(s);
    assert r.plant.devices[k] == d;
    FindUnique(r.plant.devices, k);
    assert Wishes(s) == Requested(e.index, Some(true));
    assert Wishes(s)[1..] == [];
    forall ok: nat -> bool | ok(0) ensures Serve(s, ok) == Write(r, d.typ, true) {
      assert WriteAll(r, Wishes(s), ok) == WriteAll(Write(r, d.typ, true), [], ok);
    }
  }

  /** Serving an event whose writes succeed keeps every unmatched hard block relieved. */
  lemma ServeKeeps(s: Loop, ok: nat -> bool)
    requires Synced(s) && s.queue != [] && forall k :: ok(k)
    ensures Synced(Serve(s, ok))
  {
    var e, r, t := s.queue[0], Read(s), Serve(s, ok);
    ReadTrails(s);
    WriteAllTrails(r, Wishes(s), ok);
    forall d | d in t.plant.devices && Unmatched(d) ensures Relieved(d, t.queue) {
      ReadDevices(s.plant.devices, e, d);
      if d in s.plant.devices && !Shows(d, e) {
        StillRelieved(d, s.queue);
        RelievedLonger(d, r.queue, t.queue);
      } else {
        assert !e.Add?;
        ChangedWish(s, d);
        BlockRelieves(r, d.typ, d);
      }
    }
    AddsShrink(s, t);
  }

  lemma StillRelieved(d: Device, queue: seq<KernelEvent>)
    requires Relieved(d, queue) && !Shows(d, queue[0])
    ensures Relieved(d, queue[1..])
  {
    var i :| 0 <= i < |queue| && Shows(d, queue[i]);
    assert queue[1..][i - 1] == queue[i];
  }

  lemma AddsShrink(s: Loop, t: Loop)
    requires Synced(s) && s.queue != [] && s.queue[1..] <= t.queue
    requires forall i :: |s.queue| - 1 <= i < |t.queue| ==> t.queue[i].Change?
    ensures forall i :: 0 <= i < |t.queue| && t.queue[i].Add? ==> !(t.queue[i].hard && !t.queue[i].soft)
  {
    forall i | 0 <= i < |t.queue| && t.queue[i].Add? ensures !(t.queue[i].hard && !t.queue[i].soft) {
      assert t.queue[i] == s.queue[1..][i] == s.queue[i + 1];
    }
  }

  /** The surroundings keep the mirror trailing, whatever they do. */
  lemma SurroundingsTrail(s: Loop, step: LoopStep)
    requires Trails(s) && Possible(s, step) && !step.Daemon?
    ensures Trails(Take(s, step))
  {
    var e := Report(s, step);
    KernelUnique(s);
    ExpectedConcat(s.plant.devices, s.queue, [e]);
    ExpectedOne(s.kernel, e);
    if step.Outside? || step.Unplug? {
      FindUnique(s.kernel, step.k);
    }
  }

  /** They keep hard blocks relieved unless they plug in an unmatched device. */
  lemma SurroundingsKeep(s: Loop, step: LoopStep)
    requires Synced(s) && Possible(s, step) && !step.Daemon?
    requires step.PlugIn? ==> !Unmatched(step.device)
    ensures Synced(Take(s, step))
  {
    var t := Take(s, step);
    SurroundingsTrail(s, step);
    forall d | d in t.plant.devices && Unmatched(d) ensures Relieved(d, t.queue) {
      RelievedLonger(d, s.queue, t.queue);
    }
  }

  // ---------- Whole runs ----------

  lemma RestIsSettled(s: Loop)
    requires Synced(s) && s.queue == []
    ensures Settled(s)
  {
  }

  /** Once nobody else interferes the daemon's reactions come to an end, from
      any state in which the mirror trails the kernel and whichever writes fail.
      If hard blocks are relieved and all writes succeed, hard then implies soft. */
  lemma {:induction false} LoopDrains(s: Loop, i: nat, ok: nat -> nat -> bool)
    requires Trails(s)
    ensures exists n: nat ::
              && AtRest(ServeMany(s, i, n, ok))
              && (Synced(s) && AllWritten(ok) ==> Settled(ServeMany(s, i, n, ok)))
    decreases Triggers(s.plant.devices, s.queue), ClearBits(s.kernel), |s.queue|
  {
    if s.queue == [] {
      if Synced(s) {
        RestIsSettled(s);
      }
      assert ServeMany(s, i, i, ok) == s;
    } else {
      var t := Serve(s, ok(i));
      ServeCloser(s, ok(i));
      if Synced(s) && AllWritten(ok) {
        ServeKeeps(s, ok(i));
      }
      LoopDrains(t, i + 1, ok);
      var n: nat :|
        && AtRest(ServeMany(t, i + 1, n, ok))
        && (Synced(t) && AllWritten(ok) ==> Settled(ServeMany(t, i + 1, n, ok)));
      DrainsLater(s, i, n, ok);
    }
  }

  lemma DrainsLater(s: Loop, i: nat, n: nat, ok: nat -> nat -> bool)
    requires s.queue != [] && AtRest(ServeMany(Serve(s, ok(i)), i + 1, n, ok))
    ensures exists m: nat :: ServeMany(s, i, m, ok) == ServeMany(Serve(s, ok(i)), i + 1, n, ok)
  {
    var t := Serve(s, ok(i));
    if n > i {
      assert ServeMany(s, i, n, ok) == ServeMany(t, i + 1, n, ok);
    } else {
      assert ServeMany(t, i + 1, n, ok) == t == ServeMany(t, i + 1, i + 1, ok);
      assert ServeMany(s, i, i + 1, ok) == t;
    }
  }

  /** Left to itself the loop comes to rest, and then hard implies soft or not. */
  ghost predicate ComesTo(s: Loop, i: nat, ok: nat -> nat -> bool, settled: bool) {
    exists n: nat :: AtRest(ServeMany(s, i, n, ok)) && (Settled(ServeMany(s, i, n, ok)) <==> settled)
  }

  lemma ComesLater(s: Loop, i: nat, ok: nat -> nat -> bool, settled: bool)
    requires s.queue != [] && ComesTo(Serve(s, ok(i)), i + 1, ok, settled)
    ensures ComesTo(s, i, ok, settled)
  {
    var t := Serve(s, ok(i));
    var n: nat :| AtRest(ServeMany(t, i + 1, n, ok)) && (Settled(ServeMany(t, i + 1, n, ok)) <==> settled);
    DrainsLater(s, i, n, ok);
  }

  lemma SyncedSettles(s: Loop, i: nat, ok: nat -> nat -> bool)
    requires Synced(s) && AllWritten(ok)
    ensures ComesTo(s, i, ok, true)
  {
    LoopDrains(s, i, ok);
  }

  lemma RestsAlready(s: Loop, i: nat, ok: nat -> nat -> bool)
    requires AtRest(s)
    ensures ComesTo(s, i, ok, Settled(s))
  {
    assert ServeMany(s, i, i, ok) == s;
  }

  ghost predicate LoopRun(states: seq<Loop>, steps: seq<LoopStep>) {
    && |states| == |steps| + 1
    && AtRest(states[0])
    && forall i :: 0 <= i < |steps| ==> Possible(states[i], steps[i]) && states[i + 1] == Take(states[i], steps[i])
  }

  /** The daemon's writes succeed, and a device that is plugged in is soft blocked if hard blocked. */
  ghost predicate Benign(steps: seq<LoopStep>) {
    forall i :: 0 <= i < |steps| ==>
      && (steps[i].Daemon? ==> forall k :: steps[i].ok(k))
      && (steps[i].PlugIn? ==> !Unmatched(steps[i].device))
  }

  lemma {:induction false} RunTrails(states: seq<Loop>, steps: seq<LoopStep>, n: nat)
    requires LoopRun(states, steps) && n < |states|
    ensures Trails(states[n])
  {
    if n == 0 {
    } else {
      RunTrails(states, steps, n - 1);
      if steps[n - 1].Daemon? {
        ServeCloser(states[n - 1], steps[n - 1].ok);
      } else {
        SurroundingsTrail(states[n - 1], steps[n - 1]);
      }
    }
  }

  lemma {:induction false} RunSynced(states: seq<Loop>, steps: seq<LoopStep>, n: nat)
    requires LoopRun(states, steps) && Settled(states[0]) && Benign(steps) && n < |states|
    ensures Synced(states[n])
  {
    if n == 0 {
    } else {
      RunSynced(states, steps, n - 1);
      if steps[n - 1].Daemon? {
        ServeKeeps(states[n - 1], steps[n - 1].ok);
      } else {
        SurroundingsKeep(states[n - 1], steps[n - 1]);
      }
    }
  }

  /** Whatever happened before, devices coming and going and writes failing
      included: left to itself the loop comes to rest. */
  lemma AlwaysComesToRest(states: seq<Loop>, steps: seq<LoopStep>, n: nat, ok: nat -> nat -> bool)
    requires LoopRun(states, steps) && n < |states|
    ensures exists m: nat :: AtRest(ServeMany(states[n], 0, m, ok))
  {
    RunTrails(states, steps, n);
    LoopDrains(states[n], 0, ok);
  }

  /** If hard implied soft at the start, writes succeed and no unmatched device is
      plugged in, hard then implies soft again, however the kernel's bits were flipped in between. */
  lemma SettlesAgain(states: seq<Loop>, steps: seq<LoopStep>, n: nat, ok: nat -> nat -> bool)
    requires LoopRun(states, steps) && Settled(states[0]) && Benign(steps) && AllWritten(ok) && n < |states|
    ensures exists m: nat :: Settled(ServeMany(states[n], 0, m, ok))
  {
    RunSynced(states, steps, n);
    LoopDrains(states[n], 0, ok);
  }

  // ---------- A device that comes with an unmatched hard block ----------

  /** The blocks the daemon writes for a device it adds, in order. */
  function FirstBlocks(s: Loop, d: Device): seq<bool> {
    (if !d.platform then [d.soft] else [])
    + (if s.plant.cfg.persist then [GetPersistState(s.plant.cfg, s.plant.saved, d.typ)] else [])
  }

  /** Its type is written blocked at once; or it is written unblocked, and a hard
      blocked device of that type makes the daemon block the type again. */
  ghost predicate Rescued(s: Loop, d: Device) {
    || true in FirstBlocks(s, d)
    || (FirstBlocks(s, d) != [] && exists e :: e in s.kernel && e.typ == d.typ && e.hard)
  }

  /** The daemon is being told that all devices of a type were unblocked; every
      unmatched device is of that type. */
  ghost predicate Unblocking(s: Loop, typ: int) {
    && Trails(s)
    && (forall i :: 0 <= i < |s.queue| ==> Unblocks(s.plant.devices, s.queue[i], typ))
    && (forall i, j :: 0 <= i < j < |s.queue| ==> s.queue[i].index != s.queue[j].index)
    && (forall d :: d in s.plant.devices && Unmatched(d) ==> d.typ == typ)
  }

  predicate Unblocks(devices: seq<Device>, e: KernelEvent, typ: int) {
    && e.Change? && !e.soft && Present(devices, e.index)
    && Lookup(devices, e.index).typ == typ && Lookup(devices, e.index).soft && Lookup(devices, e.index).hard == e.hard
  }

  ghost predicate HardEvent(queue: seq<KernelEvent>) {
    exists i :: 0 <= i < |queue| && queue[i].Change? && queue[i].hard
  }

  ghost predicate SomeUnmatched(devices: seq<Device>) {
    exists d :: d in devices && Unmatched(d)
  }

  /** A hard blocked device that was unblocked makes the daemon block its type. */
  lemma HardUnblockedRelieves(s: Loop, typ: int, ok: nat -> bool)
    requires Unblocking(s, typ) && s.queue != [] && s.queue[0].hard && ok(0)
    ensures Synced(Serve(s, ok))
  {
    var e, r := s.queue[0], Read(s);
    var d := Lookup(s.plant.devices, e.index).(soft := false, hard := true);
    assert Unblocks(s.plant.devices, e, typ);
    ReadTrails(s);
    ChangedWish(s, d);
    WriteTrails(r, typ, true);
    forall x | x in r.plant.devices && Unmatched(x) ensures Relieved(x, Write(r, typ, true).queue) {
      ReadDevices(s.plant.devices, e, x);
      BlockRelieves(r, typ, x);
    }
    forall i | 0 <= i < |Write(r, typ, true).queue| ensures Write(r, typ, true).queue[i].Change? {
      QueueChanges(s, typ, i);
    }
  }

  lemma QueueChanges(s: Loop, typ: int, i: nat)
    requires Unblocking(s, typ) && s.queue != [] && i < |Write(Read(s), typ, true).queue|
    ensures Write(Read(s), typ, true).queue[i].Change?
  {
    var rest, notices := s.queue[1..], Notices(s.kernel, typ, true);
    if i < |rest| {
      assert (rest + notices)[i] == s.queue[i + 1] && Unblocks(s.plant.devices, s.queue[i + 1], typ);
    } else {
      assert (rest + notices)[i] == notices[i - |rest|];
    }
  }

  /** One that is not hard blocked leaves the daemon content. */
  lemma SoftUnblockedPasses(s: Loop, typ: int, ok: nat -> bool)
    requires Unblocking(s, typ) && s.queue != [] && !s.queue[0].hard
    ensures Serve(s, ok) == Read(s) && Unblocking(Read(s), typ)
    ensures HardEvent(s.queue) <==> HardEvent(s.queue[1..])
    ensures SomeUnmatched(s.plant.devices) <==> SomeUnmatched(Read(s).plant.devices)
  {
    var e, r := s.queue[0], Read(s);
    assert Unblocks(s.plant.devices, e, typ);
    ReadTrails(s);
    WishesOf(s);
    assert Wishes(s) == [];
    hide Find, Unblocks, Process, WriteAll;
    forall i | 0 <= i < |r.queue| ensures Unblocks(r.plant.devices, r.queue[i], typ) {
      assert r.queue[i] == s.queue[i + 1];
      OtherUnblocks(s.plant.devices, e, r.queue[i], typ);
    }
    assert Unblocks(s.plant.devices, e, typ);
    SameUnmatched(s.plant.devices, e, typ);
    HardHead([e], s.queue[1..]);
    assert [e] + s.queue[1..] == s.queue;
  }

  lemma OtherUnblocks(devices: seq<Device>, e: KernelEvent, other: KernelEvent, typ: int)
    requires Unblocks(devices, e, typ) && Unblocks(devices, other, typ) && e.index != other.index
    requires UniqueIndices(devices)
    ensures Unblocks(Apply(devices, e), other, typ)
  {
    var j := Find(devices, other.index);
    ApplyUnique(devices, e);
    assert Apply(devices, e)[j] == devices[j];
    FindUnique(Apply(devices, e), j);
  }

  lemma SameUnmatched(devices: seq<Device>, e: KernelEvent, typ: int)
    requires Unblocks(devices, e, typ) && !e.hard && UniqueIndices(devices)
    ensures forall d :: d in Apply(devices, e) && Unmatched(d) ==> d in devices
    ensures SomeUnmatched(devices) <==> SomeUnmatched(Apply(devices, e))
  {
    forall d | d in Apply(devices, e) && Unmatched(d) ensures d in devices {
      ReadDevices(devices, e, d);
    }
    if d :| d in devices && Unmatched(d) {
      var j :| 0 <= j < |devices| && devices[j] == d;
      assert Apply(devices, e)[j] == d;
    }
  }

  lemma {:induction false} UnblockingDrains(s: Loop, typ: int, i: nat, ok: nat -> nat -> bool)
    requires Unblocking(s, typ) && AllWritten(ok)
    ensures ComesTo(s, i, ok, HardEvent(s.queue) || !SomeUnmatched(s.plant.devices))
    decreases |s.queue|
  {
    if s.queue == [] {
      RestsAlready(s, i, ok);
    } else {
      assert Unblocks(s.plant.devices, s.queue[0], typ);
      if s.queue[0].hard {
        HardUnblockedRelieves(s, typ, ok(i));
        SyncedSettles(Serve(s, ok(i)), i + 1, ok);
      } else {
        SoftUnblockedPasses(s, typ, ok(i));
        UnblockingDrains(Serve(s, ok(i)), typ, i + 1, ok);
      }
      ComesLater(s, i, ok, HardEvent(s.queue) || !SomeUnmatched(s.plant.devices));
    }
  }

  /** The events of a write that clears soft blocks: one for each device of the type that had its own set. */
  lemma {:induction false} UnblockingNotices(kernel: seq<Device>, typ: int)
    requires UniqueIndices(kernel)
    ensures var evs := Notices(kernel, typ, false);
      && (forall i :: 0 <= i < |evs| ==> Unblocks(kernel, evs[i], typ))
      && (forall i, j :: 0 <= i < j < |evs| ==> evs[i].index != evs[j].index)
  {
    if kernel == [] {
    } else {
      hide Unblocks, Notices, ChangeAll;
      var d, rest, evs := kernel[0], kernel[1..], Notices(kernel[1..], typ, false);
      UnblockingNotices(rest, typ);
      WriteUnfolds(kernel, typ, false);
      var head := if Written(d, typ, false) != d then [Change(d.index, false, d.hard)] else [];
      forall i | 0 <= i < |evs| ensures Unblocks(kernel, evs[i], typ) && evs[i].index != d.index {
        UnblocksLater(kernel, evs[i], typ);
      }
      if head != [] {
        HeadUnblocks(kernel, typ);
      }
      forall i | 0 <= i < |head + evs| ensures Unblocks(kernel, (head + evs)[i], typ) {
        assert i >= |head| ==> (head + evs)[i] == evs[i - |head|];
      }
    }
  }

  lemma UnblocksLater(kernel: seq<Device>, e: KernelEvent, typ: int)
    requires kernel != [] && UniqueIndices(kernel) && Unblocks(kernel[1..], e, typ)
    ensures Unblocks(kernel, e, typ) && e.index != kernel[0].index
  {
    var k := Find(kernel[1..], e.index);
    assert kernel[k + 1] == kernel[1..][k];
    FindUnique(kernel, k + 1);
  }

  lemma HeadUnblocks(kernel: seq<Device>, typ: int)
    requires kernel != [] && UniqueIndices(kernel) && Written(kernel[0], typ, false) != kernel[0]
    ensures Unblocks(kernel, Change(kernel[0].index, false, kernel[0].hard), typ)
  {
    FindUnique(kernel, 0);
  }

  lemma {:induction false} HardNotices(kernel: seq<Device>, typ: int)
    ensures HardEvent(Notices(kernel, typ, false)) <==> exists e :: e in kernel && e.typ == typ && e.soft && e.hard
  {
    if kernel == [] {
    } else {
      var d := kernel[0];
      HardNotices(kernel[1..], typ);
      WriteUnfolds(kernel, typ, false);
      HardHead(if Written(d, typ, false) != d then [Change(d.index, false, d.hard)] else [],
               Notices(kernel[1..], typ, false));
      assert forall e :: e in kernel <==> e == d || e in kernel[1..];
    }
  }

  lemma HardHead(head: seq<KernelEvent>, evs: seq<KernelEvent>)
    requires |head| <= 1
    ensures HardEvent(head + evs) <==> HardEvent(evs) || (head != [] && head[0].Change? && head[0].hard)
  {
    if HardEvent(evs) {
      var i :| 0 <= i < |evs| && evs[i].Change? && evs[i].hard;
      assert (head + evs)[|head| + i] == evs[i];
    }
    if head != [] && head[0].Change? && head[0].hard {
      assert (head + evs)[0] == head[0];
    }
    if HardEvent(head + evs) {
      var i :| 0 <= i < |head + evs| && (head + evs)[i].Change? && (head + evs)[i].hard;
      assert i >= |head| ==> (head + evs)[i] == evs[i - |head|];
    }
  }

  /** Writing a state again does nothing. */
  lemma {:induction false} WriteTwice(kernel: seq<Device>, typ: int, soft: bool)
    ensures ChangeAll(ChangeAll(kernel, typ, soft), typ, soft) == ChangeAll(kernel, typ, soft)
    ensures Notices(ChangeAll(kernel, typ, soft), typ, soft) == []
  {
    if kernel == [] {
    } else {
      WriteTwice(kernel[1..], typ, soft);
      assert ChangeAll(kernel, typ, soft)[1..] == ChangeAll(kernel[1..], typ, soft);
    }
  }

  function WriteBlocks(s: Loop, typ: int, blocks: seq<bool>): Loop
    decreases |blocks|
  {
    if blocks == [] then s else WriteBlocks(Write(s, typ, blocks[0]), typ, blocks[1..])
  }

  lemma {:induction false} AsksAreBlocks(s: Loop, asks: seq<DeviceAsk>, d: Device, blocks: seq<bool>, ok: nat -> bool)
    requires |asks| == |blocks| && (forall k :: ok(k)) && Present(s.plant.devices, d.index)
    requires Lookup(s.plant.devices, d.index).typ == d.typ
    requires forall i :: 0 <= i < |asks| ==> asks[i].index == d.index && asks[i].block == blocks[i]
    ensures WriteAll(s, asks, ok) == WriteBlocks(s, d.typ, blocks)
    decreases |asks|
  {
    if asks == [] {
    } else {
      AsksAreBlocks(Write(s, d.typ, blocks[0]), asks[1..], d, blocks[1..], ok);
    }
  }

  /** How the daemon adds the new device. */
  lemma PlugInServed(s: Loop, d: Device, ok: nat -> bool)
    requires Settled(s) && Possible(s, PlugIn(d)) && forall k :: ok(k)
    ensures var t, r := Take(s, PlugIn(d)), Read(Take(s, PlugIn(d)));
      && r.kernel == r.plant.devices == s.kernel + [d] && r.queue == [] && Trails(r)
      && Serve(t, ok) == WriteBlocks(r, d.typ, FirstBlocks(s, d))
  {
    var t := Take(s, PlugIn(d));
    var r := Read(t);
    SurroundingsTrail(s, PlugIn(d));
    ReadTrails(t);
    WishesOf(t);
    ExpectedOne(s.kernel, t.queue[0]);
    FindUnique(r.plant.devices, |s.kernel|);
    AsksAreBlocks(r, Wishes(t), d, FirstBlocks(s, d), ok);
  }

  /** A write that blocks the type comes last, or none does. */
  lemma LastBlock(s: Loop, d: Device, r: Loop)
    requires Unmatched(d)
    ensures true in FirstBlocks(s, d) ==>
      exists x ::
        && (x == r || x == Write(r, d.typ, false))
        && WriteBlocks(r, d.typ, FirstBlocks(s, d)) == Write(x, d.typ, true)
    ensures true !in FirstBlocks(s, d) && FirstBlocks(s, d) != [] ==>
      WriteBlocks(r, d.typ, FirstBlocks(s, d)) == Write(r, d.typ, false)
  {
    var blocks := FirstBlocks(s, d);
    assert |blocks| <= 2;
    WriteTwice(r.kernel, d.typ, false);
    if |blocks| == 1 {
      OneBlock(r, d.typ, blocks[0]);
      assert blocks == [blocks[0]];
    } else if |blocks| == 2 {
      assert blocks == [false, blocks[1]] && blocks[1..] == [blocks[1]];
      OneBlock(Write(r, d.typ, false), d.typ, blocks[1]);
      assert WriteBlocks(r, d.typ, blocks) == WriteBlocks(Write(r, d.typ, false), d.typ, [blocks[1]]);
      assert Write(r, d.typ, false).queue + [] == Write(r, d.typ, false).queue;
    }
  }

  lemma OneBlock(s: Loop, typ: int, block: bool)
    ensures WriteBlocks(s, typ, [block]) == Write(s, typ, block)
  {
    assert [block][1..] == [];
    assert WriteBlocks(s, typ, [block]) == WriteBlocks(Write(s, typ, block), typ, []);
  }

  /** If the type is blocked at once, the new device is relieved. */
  lemma BlockedAtOnce(s: Loop, d: Device, r: Loop, x: Loop)
    requires Settled(s) && Unmatched(d) && Trails(r) && r.plant.devices == s.kernel + [d] && r.queue == []
    requires x == r || x == Write(r, d.typ, false)
    ensures Synced(Write(x, d.typ, true))
  {
    var t := Write(x, d.typ, true);
    WriteTrails(r, d.typ, false);
    WriteTrails(x, d.typ, true);
    forall e | e in t.plant.devices && Unmatched(e) ensures Relieved(e, t.queue) {
      BlockRelieves(x, d.typ, d);
    }
    forall i | 0 <= i < |t.queue| ensures t.queue[i].Change? {
      assert t.queue[i] in x.queue || t.queue[i] in Notices(x.kernel, d.typ, true);
      assert x.queue == [] || x.queue == r.queue + Notices(r.kernel, d.typ, false);
    }
  }

  /** If it is only unblocked, the devices that this unblocks decide. */
  lemma UnblockedAtOnce(s: Loop, d: Device, r: Loop)
    requires Settled(s) && Unmatched(d) && Trails(r) && r.plant.devices == r.kernel == s.kernel + [d] && r.queue == []
    ensures var t := Write(r, d.typ, false);
      && Unblocking(t, d.typ) && SomeUnmatched(t.plant.devices)
      && (HardEvent(t.queue) <==> exists e :: e in s.kernel && e.typ == d.typ && e.hard)
  {
    var t := Write(r, d.typ, false);
    WriteTrails(r, d.typ, false);
    UnblockingNotices(r.kernel, d.typ);
    HardNotices(r.kernel, d.typ);
    assert t.queue == Notices(r.kernel, d.typ, false);
    assert forall e :: e in r.kernel <==> e in s.kernel || e == d;
    assert d in t.plant.devices;
  }

  /** Plugged into a settled system and left to the daemon, a device leaves it with
      hard implying soft exactly if it came that way itself, or is rescued. */
  lemma PlugInExactly(s: Loop, d: Device, ok: nat -> nat -> bool)
    requires Settled(s) && Possible(s, PlugIn(d)) && AllWritten(ok)
    ensures ComesTo(Take(s, PlugIn(d)), 0, ok, !Unmatched(d) || Rescued(s, d))
  {
    if Unmatched(d) {
      UnmatchedPlugIn(s, d, ok);
      ComesLater(Take(s, PlugIn(d)), 0, ok, Rescued(s, d));
    } else {
      SurroundingsKeep(s, PlugIn(d));
      SyncedSettles(Take(s, PlugIn(d)), 0, ok);
    }
  }

  lemma UnmatchedPlugIn(s: Loop, d: Device, ok: nat -> nat -> bool)
    requires Settled(s) && Possible(s, PlugIn(d)) && AllWritten(ok) && Unmatched(d)
    ensures ComesTo(Serve(Take(s, PlugIn(d)), ok(0)), 1, ok, Rescued(s, d))
  {
    hide ComesTo, WriteBlocks, Trails, ChangeAll, Notices, ServeMany, WriteAll, FirstBlocks;
    var r, v, blocks := Read(Take(s, PlugIn(d))), Serve(Take(s, PlugIn(d)), ok(0)), FirstBlocks(s, d);
    PlugInServed(s, d, ok(0));
    LastBlock(s, d, r);
    if true in blocks {
      var x :| (x == r || x == Write(r, d.typ, false)) && v == Write(x, d.typ, true);
      BlockedAtOnce(s, d, r, x);
      SyncedSettles(v, 1, ok);
    } else if blocks != [] {
      UnblockedAtOnce(s, d, r);
      UnblockingDrains(v, d.typ, 1, ok);
    } else {
      NothingWritten(s, d, r);
      RestsAlready(r, 1, ok);
    }
  }

  lemma NothingWritten(s: Loop, d: Device, r: Loop)
    requires Unmatched(d) && Trails(r) && r.kernel == r.plant.devices == s.kernel + [d] && r.queue == []
    ensures AtRest(r) && !Settled(r) && WriteBlocks(r, d.typ, []) == r
  {
    assert d in r.kernel;
  }
}
