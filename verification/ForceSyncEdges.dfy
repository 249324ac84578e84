/** The rule of force_sync on the kernel's own bits (urf-arbitrator.c): what one
    change makes of a whole type, and where the loop ends when a hardware switch
    is turned back on. */
module ForceSyncEdges {
  import opened Common
  import opened KillswitchState
  import opened DeviceMirror
  import opened FlightMode
  import opened DeviceEvents
  import opened ForceSync

  /** The soft blocks of one type are all as given, and everything else is as before. */
  ghost predicate TypeSet(before: seq<Device>, after: seq<Device>, typ: int, soft: bool) {
    && |after| == |before|
    && forall k :: 0 <= k < |before| ==>
         after[k] == if before[k].typ == typ then before[k].(soft := soft) else before[k]
  }

  lemma WriteSets(kernel: seq<Device>, typ: int, soft: bool, after: seq<Device>)
    ensures TypeSet(kernel, after, typ, soft) <==> after == ChangeAll(kernel, typ, soft)
  {
  }

  /** What the daemon makes of a change of a mirrored device.  A hard block that has
      no soft block beside it blocks the whole type, a hard block that is lifted
      unblocks the whole type, and any other change is none of its business. */
  lemma ChangeServed(s: Loop, ok: nat -> bool, d: Device, soft: bool, hard: bool)
    requires Trails(s) && s.queue != [] && d in s.plant.devices && s.queue[0] == Change(d.index, soft, hard)
    ensures var t, repeated := Serve(s, ok), d.soft == soft && d.hard == hard;
      if !repeated && ok(0) && hard && !soft then TypeSet(s.kernel, t.kernel, d.typ, true)
      else if !repeated && ok(0) && d.hard && !hard then TypeSet(s.kernel, t.kernel, d.typ, false)
      else t.kernel == s.kernel && t.queue == s.queue[1..]
  {
    hide Read, Serve, Trails, Wishes;
    var r := Read(s);
    MirroredChange(s, d, soft, hard);
    if Wishes(s) == [] {
      assert WriteAll(r, Wishes(s), ok) == r;
    } else {
      var block := Wishes(s)[0].block;
      WriteSets(s.kernel, d.typ, block, ChangeAll(s.kernel, d.typ, block));
      assert Wishes(s)[1..] == [];
      assert WriteAll(r, Wishes(s), ok)
          == if ok(0) then WriteAll(Write(r, d.typ, block), [], ok) else WriteAll(r, [], ok);
    }
    ServeUnfolds(s, ok);
  }

  lemma ServeUnfolds(s: Loop, ok: nat -> bool)
    requires s.queue != []
    ensures Serve(s, ok) == WriteAll(Read(s), Wishes(s), ok)
    ensures Read(s).kernel == s.kernel && Read(s).queue == s.queue[1..]
  {
  }

  /** What the daemon wants of a changed device, once it has read of the change. */
  lemma MirroredChange(s: Loop, d: Device, soft: bool, hard: bool)
    requires Trails(s) && s.queue != [] && d in s.plant.devices && s.queue[0] == Change(d.index, soft, hard)
    ensures Wishes(s) == if d.soft == soft && d.hard == hard then []
                         else if hard && !soft then [DeviceAsk(d.index, true, None)]
                         else if d.hard && !hard then [DeviceAsk(d.index, false, None)]
                         else []
    ensures Present(Read(s).plant.devices, d.index) && Lookup(Read(s).plant.devices, d.index).typ == d.typ
  {
    var devices, r := s.plant.devices, Read(s);
    var k :| 0 <= k < |devices| && devices[k] == d;
    FindUnique(devices, k);
    WishesOf(s);
    ReadTrails(s);
    assert r.plant.devices[k] == d.(soft := soft, hard := hard);
    FindUnique(r.plant.devices, k);
  }

  // ---------- Events that leave hard blocks alone ----------

  /** A change of a device of the type that leaves its hard block as mirrored. */
  predicate Calm(devices: seq<Device>, e: KernelEvent, typ: int) {
    && e.Change? && Present(devices, e.index)
    && Lookup(devices, e.index).typ == typ && Lookup(devices, e.index).hard == e.hard
  }

  ghost predicate AllCalm(s: Loop, typ: int) {
    Trails(s) && forall i :: 0 <= i < |s.queue| ==> Calm(s.plant.devices, s.queue[i], typ)
  }

  /** Apart from soft blocks the lists are the same. */
  ghost predicate SameRadios(a: seq<Device>, b: seq<Device>) {
    |a| == |b| && forall k :: 0 <= k < |a| ==> b[k] == a[k].(soft := b[k].soft)
  }

  lemma CalmApply(devices: seq<Device>, e: KernelEvent, typ: int)
    requires Calm(devices, e, typ)
    ensures SameRadios(devices, Apply(devices, e))
  {
  }

  lemma StaysCalm(a: seq<Device>, b: seq<Device>, e: KernelEvent, typ: int)
    requires UniqueIndices(a) && SameRadios(a, b) && Calm(a, e, typ)
    ensures UniqueIndices(b) && Calm(b, e, typ)
  {
    forall i, j | 0 <= i < j < |b| ensures b[i].index != b[j].index {
      assert a[i].index == b[i].index && a[j].index == b[j].index;
    }
    FindUnique(b, Find(a, e.index));
  }

  /** A calm queue leads to a kernel that differs from the mirror in soft blocks only. */
  lemma {:induction false} CalmExpected(devices: seq<Device>, queue: seq<KernelEvent>, typ: int)
    requires UniqueIndices(devices) && forall i :: 0 <= i < |queue| ==> Calm(devices, queue[i], typ)
    ensures SameRadios(devices, Expected(devices, queue))
    decreases |queue|
  {
    if queue == [] {
    } else {
      var next := Apply(devices, queue[0]);
      CalmApply(devices, queue[0], typ);
      ApplyUnique(devices, queue[0]);
      forall i | 0 <= i < |queue[1..]| ensures Calm(next, queue[1..][i], typ) {
        StaysCalm(devices, next, queue[i + 1], typ);
      }
      CalmExpected(next, queue[1..], typ);
    }
  }

  lemma {:induction false} NoticesFrom(kernel: seq<Device>, typ: int, soft: bool)
    ensures forall e :: e in Notices(kernel, typ, soft) ==>
              exists k ::
                0 <= k < |kernel| && kernel[k].typ == typ && e == Change(kernel[k].index, soft, kernel[k].hard)
  {
    if kernel == [] {
    } else {
      NoticesFrom(kernel[1..], typ, soft);
      WriteUnfolds(kernel, typ, soft);
      forall e | e in Notices(kernel, typ, soft)
        ensures exists k ::
                  0 <= k < |kernel| && kernel[k].typ == typ && e == Change(kernel[k].index, soft, kernel[k].hard)
      {
        if e in Notices(kernel[1..], typ, soft) {
          var k :| 0 <= k < |kernel[1..]| && kernel[1..][k].typ == typ
                && e == Change(kernel[1..][k].index, soft, kernel[1..][k].hard);
          assert kernel[k + 1] == kernel[1..][k];
        } else {
          assert kernel[0].typ == typ && e == Change(kernel[0].index, soft, kernel[0].hard);
        }
      }
    }
  }

  lemma CalmRead(s: Loop, typ: int)
    requires AllCalm(s, typ) && s.queue != []
    ensures AllCalm(Read(s), typ)
  {
    var e, r := s.queue[0], Read(s);
    ReadTrails(s);
    CalmApply(s.plant.devices, e, typ);
    forall i | 0 <= i < |r.queue| ensures Calm(r.plant.devices, r.queue[i], typ) {
      assert r.queue[i] == s.queue[i + 1];
      StaysCalm(s.plant.devices, r.plant.devices, r.queue[i], typ);
    }
  }

  lemma CalmWrite(s: Loop, typ: int, soft: bool)
    requires AllCalm(s, typ)
    ensures AllCalm(Write(s, typ, soft), typ)
  {
    var t, notices := Write(s, typ, soft), Notices(s.kernel, typ, soft);
    WriteTrails(s, typ, soft);
    CalmExpected(s.plant.devices, s.queue, typ);
    NoticesFrom(s.kernel, typ, soft);
    forall i | 0 <= i < |t.queue| ensures Calm(t.plant.devices, t.queue[i], typ) {
      if i >= |s.queue| {
        assert t.queue[i] == notices[i - |s.queue|] && t.queue[i] in notices;
        var k :| 0 <= k < |s.kernel| && s.kernel[k].typ == typ
              && t.queue[i] == Change(s.kernel[k].index, soft, s.kernel[k].hard);
        assert s.plant.devices[k].index == s.kernel[k].index;
        FindUnique(s.plant.devices, k);
      }
    }
  }

  ghost predicate HardOf(kernel: seq<Device>, typ: int) {
    exists d :: d in kernel && d.typ == typ && d.hard
  }

  lemma CalmHard(s: Loop, typ: int)
    requires AllCalm(s, typ) && s.queue != [] && s.queue[0].hard
    ensures HardOf(s.kernel, typ)
  {
    CalmExpected(s.plant.devices, s.queue, typ);
    assert Calm(s.plant.devices, s.queue[0], typ);
    var k := Find(s.plant.devices, s.queue[0].index);
    assert s.kernel[k].typ == typ && s.kernel[k].hard;
  }

  /** Serving a calm event blocks the type, which takes a hard blocked device, or writes nothing. */
  lemma CalmServe(s: Loop, typ: int, ok: nat -> bool)
    requires AllCalm(s, typ) && s.queue != []
    ensures var t := Serve(s, ok);
      && AllCalm(t, typ)
      && ((t.kernel == s.kernel && t.queue == s.queue[1..])
          || (HardOf(s.kernel, typ) && t == Write(Read(s), typ, true)))
  {
    var e, r := s.queue[0], Read(s);
    assert Calm(s.plant.devices, e, typ);
    var d := Lookup(s.plant.devices, e.index);
    CalmRead(s, typ);
    CalmWrite(r, typ, true);
    WishesOf(s);
    if Wishes(s) == [] {
      assert Serve(s, ok) == r;
    } else {
      CalmHard(s, typ);
      assert Wishes(s) == [DeviceAsk(e.index, true, None)] && Wishes(s)[1..] == [];
      FindUnique(r.plant.devices, Find(s.plant.devices, e.index));
      assert Serve(s, ok) == if ok(0) then WriteAll(Write(r, typ, true), [], ok) else WriteAll(r, [], ok);
    }
  }

  lemma CalmStep(s: Loop, typ: int, ok: nat -> bool, base: seq<Device>, soft: bool)
    requires AllCalm(s, typ) && s.queue != [] && s.kernel == ChangeAll(base, typ, soft)
    ensures var t := Serve(s, ok);
      && AllCalm(t, typ)
      && ((t.kernel == s.kernel && |t.queue| < |s.queue|)
          || (!soft && HardOf(base, typ) && t.kernel == ChangeAll(base, typ, true)))
  {
    hide AllCalm, HardOf, Serve, ChangeAll, Notices;
    CalmServe(s, typ, ok);
    WriteTwice(base, typ, true);
    BlockedFrom(base, typ, soft);
    WriteSets(base, typ, soft, s.kernel);
    HardBase(base, s.kernel, typ, soft);
  }

  /** Where a calm loop comes to rest: as the last write left the type, or blocked,
      which takes a hard blocked device. */
  ghost predicate RestsAs(s: Loop, i: nat, n: nat, ok: nat -> nat -> bool, base: seq<Device>, typ: int, soft: bool) {
    var v := ServeMany(s, i, n, ok);
    && AtRest(v)
    && (v.kernel == ChangeAll(base, typ, soft) || (HardOf(base, typ) && v.kernel == ChangeAll(base, typ, true)))
  }

  lemma {:induction false} CalmRests(s: Loop, typ: int, i: nat, ok: nat -> nat -> bool, base: seq<Device>, soft: bool)
    requires AllCalm(s, typ) && s.kernel == ChangeAll(base, typ, soft)
    ensures exists n: nat :: RestsAs(s, i, n, ok, base, typ, soft)
    decreases if soft then 0 else 1, |s.queue|
  {
    hide HardOf, Serve, ChangeAll, Notices;
    if s.queue == [] {
      assert ServeMany(s, i, i, ok) == s;
      assert RestsAs(s, i, i, ok, base, typ, soft);
    } else {
      var t := Serve(s, ok(i));
      CalmStep(s, typ, ok(i), base, soft);
      var now := if t.kernel == s.kernel && |t.queue| < |s.queue| then soft else true;
      CalmRests(t, typ, i + 1, ok, base, now);
      var n: nat :| RestsAs(t, i + 1, n, ok, base, typ, now);
      DrainsLater(s, i, n, ok);
      var m: nat :| ServeMany(s, i, m, ok) == ServeMany(t, i + 1, n, ok);
      assert RestsAs(s, i, m, ok, base, typ, soft);
    }
  }

  lemma BlockedFrom(base: seq<Device>, typ: int, soft: bool)
    ensures ChangeAll(ChangeAll(base, typ, soft), typ, true) == ChangeAll(base, typ, true)
  {
  }

  lemma HardBase(base: seq<Device>, kernel: seq<Device>, typ: int, soft: bool)
    requires TypeSet(base, kernel, typ, soft)
    ensures HardOf(base, typ) <==> HardOf(kernel, typ)
  {
    if d :| d in base && d.typ == typ && d.hard {
      var k :| 0 <= k < |base| && base[k] == d;
      assert kernel[k].typ == typ && kernel[k].hard;
    }
    if d :| d in kernel && d.typ == typ && d.hard {
      var k :| 0 <= k < |kernel| && kernel[k] == d;
      assert base[k].typ == typ && base[k].hard;
    }
  }

  // ---------- A hardware switch is turned back on ----------

  /** Two points at which the same service is at rest are the same. */
  lemma {:induction false} RestsOnce(s: Loop, i: nat, n: nat, m: nat, ok: nat -> nat -> bool)
    requires ServeMany(s, i, n, ok).queue == [] && ServeMany(s, i, m, ok).queue == []
    ensures ServeMany(s, i, n, ok) == ServeMany(s, i, m, ok)
    decreases n + m - i
  {
    if s.queue == [] || (i >= n && i >= m) {
    } else {
      RestsOnce(Serve(s, ok(i)), i + 1, n, m, ok);
    }
  }

  /** In a settled system a hard block of the k-th device is lifted and the daemon
      is left alone.  It comes to rest with the device's type unblocked if no
      device of it is hard blocked any more, and blocked otherwise; the hard
      blocks, and the devices of other types, are as the switch left them. */
  lemma LiftedBlock(s: Loop, k: nat, soft: bool, ok: nat -> nat -> bool)
    requires Settled(s) && k < |s.kernel| && s.kernel[k].hard && AllWritten(ok)
    ensures var t, typ := Take(s, Outside(k, soft, false)), s.kernel[k].typ;
      exists n: nat ::
        && AtRest(ServeMany(t, 0, n, ok))
        && TypeSet(t.kernel, ServeMany(t, 0, n, ok).kernel, typ, HardOf(t.kernel, typ))
  {
    hide ChangeAll, HardOf, Serve, ServeMany, Unblocking, AllCalm, HardEvent, Write, Settled;
    var t, typ := Take(s, Outside(k, soft, false)), s.kernel[k].typ;
    LiftServed(s, k, soft, ok(0));
    LiftRests(Serve(t, ok(0)), t.kernel, typ, ok);
    var n: nat :|
      && AtRest(ServeMany(Serve(t, ok(0)), 1, n, ok))
      && ServeMany(Serve(t, ok(0)), 1, n, ok).kernel == ChangeAll(t.kernel, typ, HardOf(t.kernel, typ));
    WriteSets(t.kernel, typ, HardOf(t.kernel, typ), ServeMany(Serve(t, ok(0)), 1, n, ok).kernel);
    DrainsLater(t, 0, n, ok);
  }

  lemma LiftRests(u: Loop, base: seq<Device>, typ: int, ok: nat -> nat -> bool)
    requires Unblocking(u, typ) && AllCalm(u, typ) && AllWritten(ok) && u.kernel == ChangeAll(base, typ, false)
    requires HardEvent(u.queue) <==> HardOf(base, typ)
    ensures exists n: nat ::
              && AtRest(ServeMany(u, 1, n, ok))
              && ServeMany(u, 1, n, ok).kernel == ChangeAll(base, typ, HardOf(base, typ))
  {
    hide ChangeAll, Serve, ServeMany, Unblocking, AllCalm, HardEvent;
    CalmRests(u, typ, 1, ok, base, false);
    var n: nat :| RestsAs(u, 1, n, ok, base, typ, false);
    if HardOf(base, typ) {
      UnblockingDrains(u, typ, 1, ok);
      var m: nat :| AtRest(ServeMany(u, 1, m, ok)) && Settled(ServeMany(u, 1, m, ok));
      RestsOnce(u, 1, n, m, ok);
      HardStaysClear(base, typ, ServeMany(u, 1, n, ok));
    }
  }

  lemma HardStaysClear(base: seq<Device>, typ: int, v: Loop)
    requires Settled(v) && HardOf(base, typ)
    ensures v.kernel != ChangeAll(base, typ, false)
  {
    var e :| e in base && e.typ == typ && e.hard;
    var j :| 0 <= j < |base| && base[j] == e;
    var after := ChangeAll(base, typ, false);
    assert after[j] in after && Unmatched(after[j]);
  }

  /** The event is read, and the type is written unblocked. */
  lemma LiftRead(s: Loop, k: nat, soft: bool, ok: nat -> bool)
    requires Settled(s) && k < |s.kernel| && s.kernel[k].hard && ok(0)
    ensures var t, typ := Take(s, Outside(k, soft, false)), s.kernel[k].typ;
      && Trails(Read(t)) && Read(t).queue == [] && Read(t).plant.devices == Read(t).kernel == t.kernel
      && Serve(t, ok) == Write(Read(t), typ, false)
  {
    var t, d := Take(s, Outside(k, soft, false)), s.kernel[k];
    var r := Read(t);
    SurroundingsTrail(s, Outside(k, soft, false));
    ReadTrails(t);
    FindUnique(s.kernel, k);
    WishesOf(t);
    assert Wishes(t) == [DeviceAsk(d.index, false, None)] && Wishes(t)[1..] == [];
    assert r.plant.devices[k] == d.(soft := soft, hard := false);
    FindUnique(r.plant.devices, k);
    assert Serve(t, ok) == WriteAll(Write(r, d.typ, false), [], ok);
  }

  lemma LiftServed(s: Loop, k: nat, soft: bool, ok: nat -> bool)
    requires Settled(s) && k < |s.kernel| && s.kernel[k].hard && ok(0)
    ensures var t, typ := Take(s, Outside(k, soft, false)), s.kernel[k].typ;
      var u := Serve(t, ok);
      && u.kernel == ChangeAll(t.kernel, typ, false) && Unblocking(u, typ) && AllCalm(u, typ)
      && (HardEvent(u.queue) <==> HardOf(t.kernel, typ))
  {
    hide Serve, ChangeAll, Notices, Unblocks, Calm, HardEvent;
    var t, typ := Take(s, Outside(k, soft, false)), s.kernel[k].typ;
    var r := Read(t);
    LiftRead(s, k, soft, ok);
    WriteTrails(r, typ, false);
    UnblockingNotices(r.kernel, typ);
    HardNotices(r.kernel, typ);
    CalmWrite(r, typ, false);
    assert Write(r, typ, false).queue == Notices(r.kernel, typ, false);
    LiftMatched(s, k, soft);
  }

  lemma LiftMatched(s: Loop, k: nat, soft: bool)
    requires Settled(s) && k < |s.kernel| && s.kernel[k].hard
    ensures forall d :: d in Take(s, Outside(k, soft, false)).kernel ==> !Unmatched(d)
  {
  }
}
