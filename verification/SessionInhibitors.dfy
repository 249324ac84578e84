/** Key inhibitors of the session checker (urf-session-checker-logind.c): the list
    of inhibitors, the seats with their active sessions, and the cached flag.

    The bus and logind proxies exist; the session of a caller and the random
    numbers drawn are inputs. */
module SessionInhibitors {
  import opened Common

  datatype Inhibitor = Inhibitor(cookie: int, session: string, busName: string, reason: string)

  /** A seat; it may have no active session. */
  datatype Seat = Seat(path: string, active: Option<string>)

  /** The checker's fields, newest inhibitor first. */
  datatype Checker = Checker(seats: seq<Seat>, inhibitors: seq<Inhibitor>, inhibit: bool)

  const MAX_INT := 0x7fff_ffff

  // ---------- Searches ----------

  function FindBySid(list: seq<Inhibitor>, session: string): Option<Inhibitor> {
    if list == [] then None
    else if list[0].session == session then Some(list[0])
    else FindBySid(list[1..], session)
  }

  function FindByBusName(list: seq<Inhibitor>, busName: string): Option<Inhibitor> {
    if list == [] then None
    else if list[0].busName == busName then Some(list[0])
    else FindByBusName(list[1..], busName)
  }

  function FindByCookie(list: seq<Inhibitor>, cookie: int): Option<Inhibitor> {
    if cookie == 0 || list == [] then None
    else if list[0].cookie == cookie then Some(list[0])
    else FindByCookie(list[1..], cookie)
  }

  function IsInhibited(seats: seq<Seat>, list: seq<Inhibitor>): bool {
    seats != []
    && ((seats[0].active.Some? && FindBySid(list, seats[0].active.value).Some?) || IsInhibited(seats[1..], list))
  }

  /** The first of the drawn numbers that no inhibitor uses. */
  function FirstFree(list: seq<Inhibitor>, draws: seq<int>): (cookie: int)
    requires exists d :: d in draws && FindByCookie(list, d).None?
    ensures cookie in draws && FindByCookie(list, cookie).None?
  {
    if FindByCookie(list, draws[0]).None? then draws[0] else FirstFree(list, draws[1..])
  }

  // ---------- Operations ----------

  function Refreshed(c: Checker): Checker {
    c.(inhibit := IsInhibited(c.seats, c.inhibitors))
  }

  /** Random numbers as g_random_int_range(1, G_MAXINT) gives them, one of them unused. */
  ghost predicate FairDraws(c: Checker, draws: seq<int>) {
    && (forall d :: d in draws ==> 1 <= d < MAX_INT)
    && (exists d :: d in draws && FindByCookie(c.inhibitors, d).None?)
  }

  /** urf_session_checker_inhibit: the new state and the cookie the caller gets. */
  function AfterInhibit(
      c: Checker, busName: string, session: Option<string>, reason: string, draws: seq<int>): (Checker, int)
    requires FairDraws(c, draws)
  {
    var known := FindByBusName(c.inhibitors, busName);
    if known.Some? then (c, known.value.cookie)
    else if session.None? then (c, 0)
    else
      var cookie := FirstFree(c.inhibitors, draws);
      (Refreshed(c.(inhibitors := [Inhibitor(cookie, session.value, busName, reason)] + c.inhibitors)), cookie)
  }

  function Remove(c: Checker, i: Inhibitor): Checker {
    Refreshed(c.(inhibitors := Without(c.inhibitors, i)))
  }

  function AfterUninhibit(c: Checker, cookie: int): Checker {
    var i := FindByCookie(c.inhibitors, cookie);
    if i.None? then c else Remove(c, i.value)
  }

  /** A bus name changes hands; one that loses its owner has left the bus. */
  function OwnerChanged(c: Checker, oldOwner: string, newOwner: string): Checker {
    if newOwner == "" && oldOwner != "" && FindByBusName(c.inhibitors, oldOwner).Some?
    then Remove(c, FindByBusName(c.inhibitors, oldOwner).value)
    else c
  }

  function ActiveChanged(c: Checker, k: nat, active: Option<string>): Checker
    requires k < |c.seats|
  {
    Refreshed(c.(seats := c.seats[k := c.seats[k].(active := active)]))
  }

  /** A new seat is monitored from now on; the flag is left alone. */
  function SeatAdded(c: Checker, seat: Seat): Checker {
    if exists s :: s in c.seats && s.path == seat.path then c else c.(seats := [seat] + c.seats)
  }

  function WithoutSeat(seats: seq<Seat>, path: string): seq<Seat> {
    if seats == [] then [] else if seats[0].path == path then seats[1..] else [seats[0]] + WithoutSeat(seats[1..], path)
  }

  function SeatRemoved(c: Checker, path: string): Checker {
    c.(seats := WithoutSeat(c.seats, path))
  }

  // ---------- What the flag means ----------

  /** Some seat's active session has an inhibitor. */
  ghost predicate SomeoneInhibits(c: Checker) {
    exists s, i :: s in c.seats && i in c.inhibitors && s.active == Some(i.session)
  }

  ghost predicate FlagOk(c: Checker) {
    c.inhibit <==> SomeoneInhibits(c)
  }

  ghost predicate ListOk(list: seq<Inhibitor>) {
    && (forall i :: i in list ==> 1 <= i.cookie < MAX_INT)
    && (forall j, k :: 0 <= j < k < |list| ==>
          list[j].cookie != list[k].cookie && list[j].busName != list[k].busName)
  }

  ghost predicate CheckerOk(c: Checker) {
    FlagOk(c) && ListOk(c.inhibitors)
  }

  lemma {:induction false} SidMeans(list: seq<Inhibitor>, session: string)
    ensures FindBySid(list, session).Some? <==> exists i :: i in list && i.session == session
  {
    if list == [] {
    } else {
      SidMeans(list[1..], session);
      assert forall i :: i in list <==> i == list[0] || i in list[1..];
    }
  }

  lemma {:induction false} BusNameMeans(list: seq<Inhibitor>, busName: string)
    ensures FindByBusName(list, busName).Some? ==>
      FindByBusName(list, busName).value in list && FindByBusName(list, busName).value.busName == busName
    ensures FindByBusName(list, busName).None? ==> forall i :: i in list ==> i.busName != busName
  {
    if list == [] {
    } else {
      BusNameMeans(list[1..], busName);
      assert forall i :: i in list <==> i == list[0] || i in list[1..];
    }
  }

  lemma {:induction false} CookieMeans(list: seq<Inhibitor>, cookie: int)
    ensures FindByCookie(list, cookie).Some? ==>
      FindByCookie(list, cookie).value in list && FindByCookie(list, cookie).value.cookie == cookie
    ensures cookie != 0 && FindByCookie(list, cookie).None? ==> forall i :: i in list ==> i.cookie != cookie
  {
    if list == [] {
    } else {
      CookieMeans(list[1..], cookie);
      assert forall i :: i in list <==> i == list[0] || i in list[1..];
    }
  }

  lemma {:induction false} InhibitedMeans(seats: seq<Seat>, list: seq<Inhibitor>)
    ensures IsInhibited(seats, list) <==> exists s, i :: s in seats && i in list && s.active == Some(i.session)
  {
    if seats == [] {
    } else {
      InhibitedMeans(seats[1..], list);
      if seats[0].active.Some? {
        SidMeans(list, seats[0].active.value);
      }
      assert forall s :: s in seats <==> s == seats[0] || s in seats[1..];
    }
  }

  /** Recomputing the flag always makes it right. */
  lemma RefreshRepairs(c: Checker)
    ensures FlagOk(Refreshed(c))
  {
    InhibitedMeans(c.seats, c.inhibitors);
  }

  lemma {:induction false} DropKeeps(list: seq<Inhibitor>, i: Inhibitor)
    requires ListOk(list)
    ensures ListOk(Without(list, i))
    ensures forall x :: x in Without(list, i) <==> x in list && x != i
  {
    if list == [] {
    } else {
      var rest := Without(list[1..], i);
      DropKeeps(list[1..], i);
      forall k | 0 <= k < |rest| ensures rest[k].cookie != list[0].cookie && rest[k].busName != list[0].busName {
        assert rest[k] in list[1..];
      }
      assert forall x :: x in list <==> x == list[0] || x in list[1..];
      assert list[0] !in list[1..];
    }
  }

  lemma RemoveKeeps(c: Checker, i: Inhibitor)
    requires ListOk(c.inhibitors)
    ensures CheckerOk(Remove(c, i))
  {
    DropKeeps(c.inhibitors, i);
    RefreshRepairs(c.(inhibitors := Without(c.inhibitors, i)));
  }

  lemma InhibitKeeps(c: Checker, busName: string, session: Option<string>, reason: string, draws: seq<int>)
    requires CheckerOk(c) && FairDraws(c, draws)
    ensures CheckerOk(AfterInhibit(c, busName, session, reason, draws).0)
  {
    if FindByBusName(c.inhibitors, busName).None? && session.Some? {
      var cookie := FirstFree(c.inhibitors, draws);
      var list := [Inhibitor(cookie, session.value, busName, reason)] + c.inhibitors;
      BusNameMeans(c.inhibitors, busName);
      CookieMeans(c.inhibitors, cookie);
      assert forall i :: i in list <==> i == list[0] || i in c.inhibitors;
      RefreshRepairs(c.(inhibitors := list));
    }
  }

  // ---------- Runs ----------

  datatype SessionEvent =
    | Inhibiting(busName: string, session: Option<string>, reason: string, draws: seq<int>)
    | Uninhibiting(cookie: int)
    | OwnerChanges(oldOwner: string, newOwner: string)
    | ActiveChanges(k: nat, active: Option<string>)

  ghost predicate Possible(c: Checker, ev: SessionEvent) {
    match ev
    case Inhibiting(_, _, _, draws) => FairDraws(c, draws)
    case ActiveChanges(k, _) => k < |c.seats|
    case _ => true
  }

  function Step(c: Checker, ev: SessionEvent): Checker
    requires Possible(c, ev)
  {
    match ev
    case Inhibiting(busName, session, reason, draws) => AfterInhibit(c, busName, session, reason, draws).0
    case Uninhibiting(cookie) => AfterUninhibit(c, cookie)
    case OwnerChanges(oldOwner, newOwner) => OwnerChanged(c, oldOwner, newOwner)
    case ActiveChanges(k, active) => ActiveChanged(c, k, active)
  }

  lemma StepKeeps(c: Checker, ev: SessionEvent)
    requires CheckerOk(c) && Possible(c, ev)
    ensures CheckerOk(Step(c, ev))
  {
    match ev
    case Inhibiting(busName, session, reason, draws) => InhibitKeeps(c, busName, session, reason, draws);
    case Uninhibiting(cookie) =>
      if FindByCookie(c.inhibitors, cookie).Some? {
        RemoveKeeps(c, FindByCookie(c.inhibitors, cookie).value);
      }
    case OwnerChanges(oldOwner, _) =>
      if FindByBusName(c.inhibitors, oldOwner).Some? {
        RemoveKeeps(c, FindByBusName(c.inhibitors, oldOwner).value);
      }
    case ActiveChanges(k, active) => RefreshRepairs(c.(seats := c.seats[k := c.seats[k].(active := active)]));
  }

  ghost predicate SessionRun(states: seq<Checker>, evs: seq<SessionEvent>) {
    && |states| == |evs| + 1
    && states[0].inhibitors == [] && !states[0].inhibit
    && forall i :: 0 <= i < |evs| ==> Possible(states[i], evs[i]) && states[i + 1] == Step(states[i], evs[i])
  }

  /** As long as the seats stay the same: the flag says whether some seat's active
      session has an inhibitor, cookies are distinct and non-zero, and no bus name
      has two inhibitors. */
  lemma {:induction false} FlagIsRight(states: seq<Checker>, evs: seq<SessionEvent>, n: nat)
    requires SessionRun(states, evs) && n < |states|
    ensures CheckerOk(states[n])
  {
    if n == 0 {
    } else {
      FlagIsRight(states, evs, n - 1);
      StepKeeps(states[n - 1], evs[n - 1]);
    }
  }

  // ---------- What an event does to the list ----------

  /** A caller without an inhibitor gets a new one under a cookie nobody has; giving
      a cookie back drops the inhibitor of that cookie, and a name that leaves the
      bus drops the inhibitor of that name.  All other inhibitors remain, and no
      other event changes the list. */
  lemma ListFollows(c: Checker, ev: SessionEvent)
    requires CheckerOk(c) && Possible(c, ev)
    ensures ev.Inhibiting? && ev.session.Some? && (forall i :: i in c.inhibitors ==> i.busName != ev.busName) ==>
      var cookie := AfterInhibit(c, ev.busName, ev.session, ev.reason, ev.draws).1;
      && (forall i :: i in c.inhibitors ==> i.cookie != cookie)
      && (exists k :: 0 <= k < |ev.draws| && ev.draws[k] == cookie
            && forall j :: 0 <= j < k ==> exists i :: i in c.inhibitors && i.cookie == ev.draws[j])
      && (forall i :: i in Step(c, ev).inhibitors
            <==> i in c.inhibitors || i == Inhibitor(cookie, ev.session.value, ev.busName, ev.reason))
    ensures ev.Inhibiting? && (ev.session.None? || exists i :: i in c.inhibitors && i.busName == ev.busName) ==>
      Step(c, ev) == c
    ensures ev.Uninhibiting? ==>
      forall i :: i in Step(c, ev).inhibitors <==> i in c.inhibitors && i.cookie != ev.cookie
    ensures ev.OwnerChanges? ==>
      forall i :: i in Step(c, ev).inhibitors
        <==> i in c.inhibitors && !(i.busName == ev.oldOwner && ev.oldOwner != "" && ev.newOwner == "")
    ensures ev.ActiveChanges? ==>
      && Step(c, ev).inhibitors == c.inhibitors
      && Step(c, ev).seats == c.seats[ev.k := Seat(c.seats[ev.k].path, ev.active)]
    ensures !ev.ActiveChanges? ==> Step(c, ev).seats == c.seats
  {
    match ev
    case Inhibiting(busName, session, reason, draws) =>
      BusNameMeans(c.inhibitors, busName);
      if session.Some? && FindByBusName(c.inhibitors, busName).None? {
        CookieMeans(c.inhibitors, FirstFree(c.inhibitors, draws));
        FirstFreeMeans(c.inhibitors, draws);
      }
    case Uninhibiting(cookie) =>
      CookieMeans(c.inhibitors, cookie);
      if FindByCookie(c.inhibitors, cookie).Some? {
        DropKeeps(c.inhibitors, FindByCookie(c.inhibitors, cookie).value);
        OneOfEach(c.inhibitors);
      }
    case OwnerChanges(oldOwner, _) =>
      BusNameMeans(c.inhibitors, oldOwner);
      if FindByBusName(c.inhibitors, oldOwner).Some? {
        DropKeeps(c.inhibitors, FindByBusName(c.inhibitors, oldOwner).value);
        OneOfEach(c.inhibitors);
      }
    case ActiveChanges(_, _) =>
  }

  /** The cookie is the first number drawn that no inhibitor has. */
  lemma {:induction false} FirstFreeMeans(list: seq<Inhibitor>, draws: seq<int>)
    requires exists d :: d in draws && FindByCookie(list, d).None?
    ensures exists k :: 0 <= k < |draws| && draws[k] == FirstFree(list, draws)
              && forall j :: 0 <= j < k ==> exists i :: i in list && i.cookie == draws[j]
  {
    CookieMeans(list, draws[0]);
    if FindByCookie(list, draws[0]).None? {
      assert draws[0] == FirstFree(list, draws);
    } else {
      FirstFreeMeans(list, draws[1..]);
      var k :| 0 <= k < |draws[1..]| && draws[1..][k] == FirstFree(list, draws[1..])
            && forall j :: 0 <= j < k ==> exists i :: i in list && i.cookie == draws[1..][j];
      assert draws[k + 1] == FirstFree(list, draws);
      forall j | 0 <= j < k + 1 ensures exists i :: i in list && i.cookie == draws[j] {
        if j == 0 {
          assert FindByCookie(list, draws[0]).value.cookie == draws[0];
        } else {
          assert draws[j] == draws[1..][j - 1];
        }
      }
    }
  }

  lemma OneOfEach(list: seq<Inhibitor>)
    requires ListOk(list)
    ensures forall i, j :: i in list && j in list && (i.cookie == j.cookie || i.busName == j.busName) ==> i == j
  {
    forall i, j | i in list && j in list && (i.cookie == j.cookie || i.busName == j.busName) ensures i == j {
      var m, n :| 0 <= m < |list| && 0 <= n < |list| && list[m] == i && list[n] == j;
    }
  }

  // ---------- Undoing an inhibition ----------

  /** Giving the cookie back restores everything, if the caller had no inhibitor before. */
  lemma UninhibitUndoes(c: Checker, busName: string, session: Option<string>, reason: string, draws: seq<int>)
    requires CheckerOk(c) && FairDraws(c, draws) && FindByBusName(c.inhibitors, busName).None?
    ensures var (d, cookie) := AfterInhibit(c, busName, session, reason, draws); AfterUninhibit(d, cookie) == c
  {
    if session.Some? {
      var (d, cookie) := AfterInhibit(c, busName, session, reason, draws);
      assert 1 <= cookie;
      assert d.inhibitors[0].cookie == cookie && d.inhibitors[1..] == c.inhibitors;
      InhibitedMeans(c.seats, c.inhibitors);
    }
  }

  /** Inhibiting twice is inhibiting once: the caller gets the same cookie again. */
  lemma InhibitTwice(c: Checker, busName: string, session: Option<string>, reason: string, draws: seq<int>,
                     session': Option<string>, reason': string, draws': seq<int>)
    requires CheckerOk(c) && FairDraws(c, draws) && session.Some?
    requires FairDraws(AfterInhibit(c, busName, session, reason, draws).0, draws')
    ensures var once := AfterInhibit(c, busName, session, reason, draws);
      AfterInhibit(once.0, busName, session', reason', draws') == once
  {
  }

  // ---------- Seats that come and go ----------

  /** The handlers of seats do not recompute the flag.  It stays right after a new
      seat exactly when it was set already or the seat's session has no inhibitor,
      and after a removal exactly when it was clear or another seat keeps it set. */
  lemma SeatChangesLeaveFlag(c: Checker, seat: Seat, path: string)
    requires FlagOk(c) && forall s :: s in c.seats ==> s.path != seat.path
    ensures FlagOk(SeatAdded(c, seat)) <==> c.inhibit || !IsInhibited([seat], c.inhibitors)
    ensures FlagOk(SeatRemoved(c, path)) <==> !c.inhibit || IsInhibited(WithoutSeat(c.seats, path), c.inhibitors)
  {
    InhibitedMeans(c.seats, c.inhibitors);
    InhibitedMeans([seat], c.inhibitors);
    InhibitedMeans([seat] + c.seats, c.inhibitors);
    assert forall s :: s in [seat] + c.seats <==> s == seat || s in c.seats;
    InhibitedMeans(WithoutSeat(c.seats, path), c.inhibitors);
    WithoutSeatSubset(c.seats, path);
  }

  /** A run after which the flag goes stale: one inhibitor, then a seat appears
      on which its session is active; or that seat goes away again. */
  lemma SeatChangesCanMislead(session: string, busName: string, reason: string, path: string)
    ensures var seat, evs := Seat(path, Some(session)), [Inhibiting(busName, Some(session), reason, [1])];
      && (exists states: seq<Checker> :: SessionRun(states, evs) && states[0].seats == []
            && CheckerOk(states[1]) && !FlagOk(SeatAdded(states[1], seat)))
      && (exists states: seq<Checker> :: SessionRun(states, evs) && states[0].seats == [seat]
            && CheckerOk(states[1]) && !FlagOk(SeatRemoved(states[1], path)))
  {
    MisledRun([], session, busName, reason, Seat(path, Some(session)));
    MisledRun([Seat(path, Some(session))], session, busName, reason, Seat(path, Some(session)));
  }

  lemma MisledRun(seats: seq<Seat>, session: string, busName: string, reason: string, seat: Seat)
    requires seat.active == Some(session) && (seats == [] || seats == [seat])
    ensures var evs := [Inhibiting(busName, Some(session), reason, [1])];
      exists states: seq<Checker> :: SessionRun(states, evs) && states[0].seats == seats && CheckerOk(states[1])
        && !FlagOk(if seats == [] then SeatAdded(states[1], seat) else SeatRemoved(states[1], seat.path))
  {
    var c, ev := Checker(seats, [], false), Inhibiting(busName, Some(session), reason, [1]);
    assert 1 in [1];
    var d := Step(c, ev);
    InhibitKeeps(c, busName, Some(session), reason, [1]);
    assert d.inhibitors[0].session == session;
    InhibitedMeans(d.seats, d.inhibitors);
    if seats == [] {
      assert seat in SeatAdded(d, seat).seats && d.inhibitors[0] in SeatAdded(d, seat).inhibitors;
    } else {
      assert seat in d.seats && SeatRemoved(d, seat.path).seats == [];
    }
    assert SessionRun([c, d], [ev]);
  }

  lemma {:induction false} WithoutSeatSubset(seats: seq<Seat>, path: string)
    ensures forall s :: s in WithoutSeat(seats, path) ==> s in seats
  {
    if seats == [] {
    } else {
      WithoutSeatSubset(seats[1..], path);
    }
  }

  // ---------- The checker object ----------

  class SessionChecker {
    var seats: seq<Seat>
    var inhibitors: seq<Inhibitor>
    var inhibit: bool

    ghost function View(): Checker
      reads this
    {
      Checker(seats, inhibitors, inhibit)
    }

    constructor (seats: seq<Seat>)
      ensures View() == Checker(seats, [], false)
    {
      this.seats, inhibitors, inhibit := seats, [], false;
    }

    method FindInhibitorBySid(session: string) returns (i: Option<Inhibitor>)
      ensures i == FindBySid(inhibitors, session)
    {
      var item := 0;
      while item < |inhibitors|
        invariant 0 <= item <= |inhibitors|
        invariant FindBySid(inhibitors[item..], session) == FindBySid(inhibitors, session)
      {
        if inhibitors[item].session == session {
          return Some(inhibitors[item]);
        }
        item := item + 1;
      }
      i := None;
    }

    method FindInhibitorByBusName(busName: string) returns (i: Option<Inhibitor>)
      ensures i == FindByBusName(inhibitors, busName)
    {
      var item := 0;
      while item < |inhibitors|
        invariant 0 <= item <= |inhibitors|
        invariant FindByBusName(inhibitors[item..], busName) == FindByBusName(inhibitors, busName)
      {
        if inhibitors[item].busName == busName {
          return Some(inhibitors[item]);
        }
        item := item + 1;
      }
      i := None;
    }

    method FindInhibitorByCookie(cookie: int) returns (i: Option<Inhibitor>)
      ensures i == FindByCookie(inhibitors, cookie)
    {
      if cookie == 0 {
        return None;
      }
      var item := 0;
      while item < |inhibitors|
        invariant 0 <= item <= |inhibitors|
        invariant FindByCookie(inhibitors[item..], cookie) == FindByCookie(inhibitors, cookie)
      {
        if inhibitors[item].cookie == cookie {
          return Some(inhibitors[item]);
        }
        item := item + 1;
      }
      i := None;
    }

    method ComputeInhibited() returns (yes: bool)
      ensures yes == IsInhibited(seats, inhibitors)
    {
      var item := 0;
      while item < |seats|
        invariant 0 <= item <= |seats|
        invariant IsInhibited(seats[item..], inhibitors) == IsInhibited(seats, inhibitors)
      {
        if seats[item].active.Some? {
          var i := FindInhibitorBySid(seats[item].active.value);
          if i.Some? {
            return true;
          }
        }
        item := item + 1;
      }
      yes := false;
    }

    /** Draws until a number is free. */
    method GenerateUniqueCookie(draws: seq<int>) returns (cookie: int)
      requires FairDraws(View(), draws)
      ensures cookie == FirstFree(inhibitors, draws)
    {
      var next := 0;
      cookie := draws[0];
      next := 1;
      var used := FindInhibitorByCookie(cookie);
      while used.Some?
        invariant 1 <= next <= |draws| && cookie == draws[next - 1]
        invariant used == FindByCookie(inhibitors, cookie)
        invariant exists d :: d in draws[next - 1..] && FindByCookie(inhibitors, d).None?
        invariant FirstFree(inhibitors, draws[next - 1..]) == FirstFree(inhibitors, draws)
        decreases |draws| - next
      {
        cookie := draws[next];
        next := next + 1;
        used := FindInhibitorByCookie(cookie);
      }
    }

    method Inhibit(busName: string, session: Option<string>, reason: string, draws: seq<int>) returns (cookie: int)
      requires FairDraws(View(), draws)
      modifies this
      ensures (View(), cookie) == AfterInhibit(old(View()), busName, session, reason, draws)
    {
      var known := FindInhibitorByBusName(busName);
      if known.Some? {
        return known.value.cookie;
      }
      if session.None? {
        return 0;
      }
      cookie := GenerateUniqueCookie(draws);
      inhibitors := [Inhibitor(cookie, session.value, busName, reason)] + inhibitors;
      inhibit := ComputeInhibited();
    }

    method RemoveInhibitor(i: Inhibitor)
      modifies this
      ensures View() == Remove(old(View()), i)
    {
      inhibitors := Without(inhibitors, i);
      inhibit := ComputeInhibited();
    }

    method Uninhibit(cookie: int)
      modifies this
      ensures View() == AfterUninhibit(old(View()), cookie)
    {
      var i := FindInhibitorByCookie(cookie);
      if i.Some? {
        RemoveInhibitor(i.value);
      }
    }

    method BusOwnerChanged(oldOwner: string, newOwner: string)
      modifies this
      ensures View() == OwnerChanged(old(View()), oldOwner, newOwner)
    {
      if |newOwner| == 0 && |oldOwner| > 0 {
        var i := FindInhibitorByBusName(oldOwner);
        if i.Some? {
          RemoveInhibitor(i.value);
        }
      }
    }

    /** A seat reports a new active session. */
    method SeatActiveChanged(k: nat, active: Option<string>)
      requires k < |seats|
      modifies this
      ensures View() == ActiveChanged(old(View()), k, active)
    {
      seats := seats[k := seats[k].(active := active)];
      inhibit := ComputeInhibited();
    }
  }
}
