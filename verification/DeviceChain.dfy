/** Asynchronous tasks, and the chain with which a killswitch asks its devices
    one after the other (urf-killswitch.c). */
module DeviceChain {
  import opened Common
  import opened KillswitchState

  /** The owner of a pending GTask; born is the main-loop dispatch that created it. */
  datatype Task =
    | SweepTask(typ: int, born: nat)
    | BlockTask(typ: int, born: nat)
    | BlockIdxTask(index: int, born: nat)
    | FlightModeTask(born: nat)

  /** A task together with the outcome it was returned with. */
  datatype Done = Done(task: Task, ok: bool)

  /** The pending slots of a killswitch.  node counts the list nodes from the
      device now being asked to the end of the list, and is 0 when no device
      request is pending.  Devices are only ever prepended while a chain runs,
      so counting from the end names the raw list node the code holds. */
  datatype Chain = Chain(task: Option<Task>, node: nat, block: bool)

  const IDLE := Chain(None, 0, false)

  /** New slots, the device that is asked next, and the task that is returned. */
  datatype Progress = Progress(chain: Chain, ask: Option<int>, done: Option<Done>)

  function Returned(task: Option<Task>, ok: bool): Option<Done> {
    if task.Some? then Some(Done(task.value, ok)) else None
  }

  function Start(chain: Chain, list: seq<Device>, block: bool, task: Option<Task>): Progress {
    if list == [] then Progress(chain, None, Returned(task, true))
    else Progress(Chain(task, |list|, block), Some(list[0].index), None)
  }

  function Reply(chain: Chain, list: seq<Device>, ok: bool): Progress
    requires 0 < chain.node <= |list|
  {
    if !ok || chain.node == 1
    then Progress(chain.(task := None, node := 0), None, Returned(chain.task, ok))
    else Progress(chain.(node := chain.node - 1), Some(list[|list| - chain.node + 1].index), None)
  }

  // ---------- One chain over every interleaving of replies and arrivals ----------

  /** A device answers, a device arrives, or a listed device changes its bits. */
  datatype ChainEvent = Replied(ok: bool) | Prepended(device: Device) | Flipped(k: nat, soft: bool, hard: bool)

  datatype ChainRun = ChainRun(list: seq<Device>, chain: Chain, asked: seq<int>, returned: seq<Done>)

  function Begin(list: seq<Device>, block: bool, task: Option<Task>): ChainRun {
    var p := Start(IDLE, list, block, task);
    ChainRun(list, p.chain, Listed(p.ask), Listed(p.done))
  }

  /** A reply reaches the chain only while a device request is pending. */
  function Step(r: ChainRun, ev: ChainEvent): ChainRun
    requires r.chain.node <= |r.list|
    ensures Step(r, ev).chain.node <= |Step(r, ev).list|
  {
    match ev
    case Prepended(d) => r.(list := [d] + r.list)
    case Flipped(k, soft, hard) =>
      if k < |r.list| then r.(list := r.list[k := r.list[k].(soft := soft, hard := hard)]) else r
    case Replied(ok) =>
      if r.chain.node == 0 then r
      else
        var p := Reply(r.chain, r.list, ok);
        r.(chain := p.chain, asked := r.asked + Listed(p.ask), returned := r.returned + Listed(p.done))
  }

  function Steps(r: ChainRun, evs: seq<ChainEvent>): ChainRun
    requires r.chain.node <= |r.list|
    ensures Steps(r, evs).chain.node <= |Steps(r, evs).list|
  {
    if evs == [] then r else Step(Steps(r, evs[..|evs| - 1]), evs[|evs| - 1])
  }

  /** The answers among the events. */
  function Answers(evs: seq<ChainEvent>): seq<bool> {
    if evs == [] then []
    else Answers(evs[..|evs| - 1]) + (if evs[|evs| - 1].Replied? then [evs[|evs| - 1].ok] else [])
  }

  /** Number of answers before the first failure. */
  function Successes(answers: seq<bool>): (n: nat)
    ensures n <= |answers|
    ensures forall i :: 0 <= i < n ==> answers[i]
    ensures n < |answers| ==> !answers[n]
  {
    if answers == [] || !answers[0] then 0 else 1 + Successes(answers[1..])
  }

  function Indices(list: seq<Device>): (r: seq<int>)
    ensures |r| == |list| && forall i :: 0 <= i < |r| ==> r[i] == list[i].index
  {
    seq(|list|, i requires 0 <= i < |list| => list[i].index)
  }

  lemma {:induction false} SuccessesPrefix(answers: seq<bool>, n: nat)
    requires n <= |answers| && (forall i :: 0 <= i < n ==> answers[i]) && (n < |answers| ==> !answers[n])
    ensures Successes(answers) == n
  {
    if n == 0 {
    } else {
      SuccessesPrefix(answers[1..], n - 1);
    }
  }

  lemma SuccessesSnoc(answers: seq<bool>, ok: bool)
    ensures Successes(answers + [ok])
         == if Successes(answers) == |answers| && ok then |answers| + 1 else Successes(answers)
  {
    var n := Successes(answers);
    SuccessesPrefix(answers + [ok], if n == |answers| && ok then n + 1 else n);
  }

  /** What a chain has done after any events: it asks the devices the list held
      at the start, in order, each once, stopping at the first failure; devices
      that arrive meanwhile are not asked; a task is returned once, with the
      chain's outcome. */
  ghost predicate ChainOutcome(list: seq<Device>, block: bool, task: Option<Task>, answers: seq<bool>, r: ChainRun) {
    var n := Successes(answers);
    && |list| <= |r.list| && Indices(r.list)[|r.list| - |list|..] == Indices(list)
    && (if |list| <= n then
          r.asked == Indices(list) && r.chain.node == 0 && r.returned == Listed(Returned(task, true))
        else
          && r.asked == Indices(list)[..n + 1]
          && (if n < |answers|
              then r.chain.node == 0 && r.returned == Listed(Returned(task, false))
              else r.chain == Chain(task, |list| - n, block) && r.returned == []))
  }

  lemma {:induction false} ChainAsksPrefix(list: seq<Device>, block: bool, task: Option<Task>, evs: seq<ChainEvent>)
    ensures ChainOutcome(list, block, task, Answers(evs), Steps(Begin(list, block, task), evs))
  {
    if evs == [] {
      assert list != [] ==> Indices(list)[..1] == [list[0].index];
      assert list == [] ==> Indices(list) == [];
    } else {
      var before, ev := evs[..|evs| - 1], evs[|evs| - 1];
      ChainAsksPrefix(list, block, task, before);
      ChainStep(list, block, task, Answers(before), Steps(Begin(list, block, task), before), ev);
    }
  }

  lemma IndicesOfPrepended(d: Device, list: seq<Device>)
    ensures Indices([d] + list) == [d.index] + Indices(list)
  {
  }

  lemma IndicesOfFlipped(list: seq<Device>, k: nat, soft: bool, hard: bool)
    requires k < |list|
    ensures Indices(list[k := list[k].(soft := soft, hard := hard)]) == Indices(list)
  {
  }

  lemma PrependKeepsTail(x: int, longer: seq<int>, list: seq<int>)
    requires |list| <= |longer| && longer[|longer| - |list|..] == list
    ensures ([x] + longer)[|longer| + 1 - |list|..] == list
  {
  }

  lemma ChainArrival(list: seq<Device>, block: bool, task: Option<Task>, answers: seq<bool>, r: ChainRun, d: Device)
    requires r.chain.node <= |r.list| && ChainOutcome(list, block, task, answers, r)
    ensures ChainOutcome(list, block, task, answers + [], Step(r, Prepended(d)))
  {
    hide Indices, Successes;
    assert answers + [] == answers;
    IndicesOfPrepended(d, r.list);
    PrependKeepsTail(d.index, Indices(r.list), Indices(list));
  }

  lemma ChainFlip(list: seq<Device>, block: bool, task: Option<Task>, answers: seq<bool>, r: ChainRun, ev: ChainEvent)
    requires r.chain.node <= |r.list| && ChainOutcome(list, block, task, answers, r) && ev.Flipped?
    ensures ChainOutcome(list, block, task, answers + [], Step(r, ev))
  {
    hide Indices, Successes;
    assert answers + [] == answers;
    if ev.k < |r.list| {
      IndicesOfFlipped(r.list, ev.k, ev.soft, ev.hard);
    }
  }

  lemma ChainStep(list: seq<Device>, block: bool, task: Option<Task>, answers: seq<bool>, r: ChainRun, ev: ChainEvent)
    requires r.chain.node <= |r.list|
    requires ChainOutcome(list, block, task, answers, r)
    ensures ChainOutcome(list, block, task, answers + (if ev.Replied? then [ev.ok] else []), Step(r, ev))
  {
    hide Indices, Successes;
    if ev.Prepended? {
      ChainArrival(list, block, task, answers, r, ev.device);
    } else if ev.Flipped? {
      ChainFlip(list, block, task, answers, r, ev);
    } else if r.chain.node == 0 {
      SuccessesSnoc(answers, ev.ok);
    } else {
      ChainReply(list, block, task, answers, r, ev.ok);
    }
  }

  lemma ChainReply(list: seq<Device>, block: bool, task: Option<Task>, answers: seq<bool>, r: ChainRun, ok: bool)
    requires 0 < r.chain.node <= |r.list|
    requires ChainOutcome(list, block, task, answers, r)
    ensures ChainOutcome(list, block, task, answers + [ok], Step(r, Replied(ok)))
  {
    hide Indices, Successes;
    var n, asked := Successes(answers), Indices(list);
    SuccessesSnoc(answers, ok);
    assert n == |answers| && r.chain == Chain(task, |list| - n, block);
    if ok && n + 1 < |list| {
      var suffix := Indices(r.list)[|r.list| - |list|..];
      assert suffix[n + 1] == Indices(r.list)[|r.list| - r.chain.node + 1] == asked[n + 1];
      assert asked[..n + 1] + [asked[n + 1]] == asked[..n + 2];
    } else {
      assert ok ==> asked[..n + 1] == asked;
    }
  }
}
