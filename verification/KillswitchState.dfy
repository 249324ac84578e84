/** States of radios and killswitches, and how a killswitch combines the
    states of its devices (urf-utils.c, urf-killswitch.c). */
module KillswitchState {

  datatype State = NoAdapter | Unblocked | SoftBlocked | HardBlocked

  /** The kernel's radio types; slot 0 (ALL) names no killswitch. */
  const TYPE_ALL := 0
  const TYPE_WLAN := 1
  const TYPE_WWAN := 5
  const NUM_TYPES := 9

  predicate RadioType(typ: int) {
    TYPE_ALL < typ < NUM_TYPES
  }

  /** What the daemon mirrors of one radio device. */
  datatype Device = Device(index: int, typ: int, platform: bool, soft: bool, hard: bool) {
    function State(): State {
      EventToState(soft, hard)
    }
  }

  /** The numeric value of the C enumeration. */
  function Rank(s: State): int {
    match s
    case NoAdapter => -1
    case Unblocked => 0
    case SoftBlocked => 1
    case HardBlocked => 2
  }

  function EventToState(soft: bool, hard: bool): State {
    if hard then HardBlocked else if soft then SoftBlocked else Unblocked
  }

  function AggregateStates(platform: State, nonPlatform: State): State {
    if platform == Unblocked && nonPlatform != NoAdapter then nonPlatform else platform
  }

  /** The running maximum kept over the devices that are (or are not) platform devices. */
  function Peak(devices: seq<Device>, platform: bool): State {
    if devices == [] then NoAdapter
    else
      var last := devices[|devices| - 1];
      var before := Peak(devices[..|devices| - 1], platform);
      if last.platform == platform && Rank(last.State()) > Rank(before) then last.State() else before
  }

  /** The state a refresh leaves in a killswitch holding these devices. */
  function Refresh(devices: seq<Device>): State {
    if devices == [] then NoAdapter
    else if exists d :: d in devices && d.platform
    then AggregateStates(Peak(devices, true), Peak(devices, false))
    else Peak(devices, false)
  }

  // ---------- What the aggregate means ----------

  /** s is the highest state found in group, and NoAdapter for an empty group. */
  ghost predicate IsMaximum(group: set<Device>, s: State) {
    && (group == {} ==> s == NoAdapter)
    && (group != {} ==> exists d :: d in group && d.State() == s)
    && (forall d :: d in group ==> Rank(d.State()) <= Rank(s))
  }

  ghost function PlatformDevices(devices: set<Device>): set<Device> {
    set d | d in devices && d.platform
  }

  /** A blocked platform device hides every other device; otherwise all devices count. */
  ghost predicate IsAggregate(devices: set<Device>, s: State) {
    if exists d :: d in devices && d.platform && d.State() != Unblocked
    then IsMaximum(PlatformDevices(devices), s)
    else IsMaximum(devices, s)
  }

  ghost function Elements<T>(xs: seq<T>): set<T> {
    set x | x in xs
  }

  ghost function Group(devices: seq<Device>, platform: bool): set<Device> {
    set d | d in devices && d.platform == platform
  }

  lemma PeakOfNone(platform: bool)
    ensures Peak([], platform) == NoAdapter
  {
  }

  /** One more device. */
  lemma PeakNext(devices: seq<Device>, i: nat, platform: bool)
    requires i < |devices|
    ensures Peak(devices[..i + 1], platform)
         == (if devices[i].platform == platform && Rank(devices[i].State()) > Rank(Peak(devices[..i], platform))
             then devices[i].State() else Peak(devices[..i], platform))
  {
    assert devices[..i + 1][..i] == devices[..i];
  }

  lemma {:induction false} PeakIsMaximum(devices: seq<Device>, platform: bool)
    ensures IsMaximum(Group(devices, platform), Peak(devices, platform))
  {
    if devices == [] {
    } else {
      var front, last := devices[..|devices| - 1], devices[|devices| - 1];
      PeakIsMaximum(front, platform);
      assert Group(devices, platform)
          == Group(front, platform) + (if last.platform == platform then {last} else {}) by {
        assert devices == front + [last];
      }
      if last.platform == platform {
        assert last in Group(devices, platform);
      }
    }
  }

  lemma MaximumIsUnique(group: set<Device>, s: State, t: State)
    requires IsMaximum(group, s) && IsMaximum(group, t)
    ensures s == t
  {
    assert Rank(s) == Rank(t);
  }

  /** The loop in the killswitch computes exactly the documented priority. */
  lemma RefreshIsAggregate(devices: seq<Device>)
    ensures IsAggregate(Elements(devices), Refresh(devices))
  {
    var all := Elements(devices);
    var p, n := Peak(devices, true), Peak(devices, false);
    PeakIsMaximum(devices, true);
    PeakIsMaximum(devices, false);
    assert Group(devices, true) == PlatformDevices(all);
    if devices == [] {
      assert all == {};
    } else {
      assert devices[0] in all;
      assert all == Group(devices, true) + Group(devices, false);
      if d :| d in devices && d.platform {
        assert d in Group(devices, true);
      } else {
        assert all == Group(devices, false);
      }
    }
  }

  lemma AggregateIsUnique(devices: set<Device>, s: State, t: State)
    requires IsAggregate(devices, s) && IsAggregate(devices, t)
    ensures s == t
  {
    if exists d :: d in devices && d.platform && d.State() != Unblocked {
      MaximumIsUnique(PlatformDevices(devices), s, t);
    } else {
      MaximumIsUnique(devices, s, t);
    }
  }

  /** Only the set of devices matters, not the order the killswitch lists them in. */
  lemma RefreshIgnoresOrder(a: seq<Device>, b: seq<Device>)
    requires Elements(a) == Elements(b)
    ensures Refresh(a) == Refresh(b)
  {
    RefreshIsAggregate(a);
    RefreshIsAggregate(b);
    AggregateIsUnique(Elements(a), Refresh(a), Refresh(b));
  }

  /** NoAdapter marks exactly the killswitches without devices, and any other
      state is the state of some device in the list. */
  lemma RefreshWitness(devices: seq<Device>)
    ensures Refresh(devices) == NoAdapter <==> devices == []
    ensures devices != [] ==> exists d :: d in devices && d.State() == Refresh(devices)
  {
    RefreshIsAggregate(devices);
    if devices != [] {
      assert devices[0] in Elements(devices);
      if exists d :: d in Elements(devices) && d.platform && d.State() != Unblocked {
        assert PlatformDevices(Elements(devices)) != {};
        var d :| d in PlatformDevices(Elements(devices)) && d.State() == Refresh(devices);
      } else {
        var d :| d in Elements(devices) && d.State() == Refresh(devices);
      }
    }
  }

  // ---------- The same in terms of the two bits ----------

  /** The devices that decide: the platform devices once one of them is blocked at
      all, otherwise every device. */
  ghost predicate Decides(devices: seq<Device>, d: Device) {
    d in devices && ((exists p :: p in devices && p.platform && (p.soft || p.hard)) ==> d.platform)
  }

  ghost predicate SomeHard(devices: seq<Device>) {
    exists d :: Decides(devices, d) && d.hard
  }

  ghost predicate SomeSoft(devices: seq<Device>) {
    exists d :: Decides(devices, d) && d.soft
  }

  /** A killswitch is hard blocked if a deciding device is hard blocked, its soft
      block set or not; else soft blocked if one is soft blocked; else unblocked. */
  lemma RefreshInBits(devices: seq<Device>)
    ensures Refresh(devices) == HardBlocked <==> SomeHard(devices)
    ensures Refresh(devices) == SoftBlocked <==> !SomeHard(devices) && SomeSoft(devices)
    ensures Refresh(devices) == Unblocked <==> devices != [] && !SomeHard(devices) && !SomeSoft(devices)
    ensures Refresh(devices) == NoAdapter <==> devices == []
  {
    var all, s := Elements(devices), Refresh(devices);
    RefreshIsAggregate(devices);
    RefreshWitness(devices);
    var group := if exists d :: d in all && d.platform && d.State() != Unblocked then PlatformDevices(all) else all;
    assert forall d :: d in group <==> Decides(devices, d);
    assert IsMaximum(group, s);
    if devices != [] {
      assert devices[0] in all;
      assert group != {};
    }
  }
}
