# A verified model of urfkilld

urfkilld is the daemon that blocks and unblocks radios. This project models its
four parts that are hard to get right and proves what they guarantee over whole
runs and over all inputs.

**The flight-mode protocol.** A method call drives a sweep over the radio types
1..8; each type runs a chain over its devices, and each device replies later.
A failed sweep rolls back, a successful one records per type what it found, so
that leaving flight mode can undo entering it.

- `Common`: optional values and removal from a list, shared by all modules.
- `KillswitchState`, `DeviceMirror`: device and killswitch states; the device
  list, the per-type lists and the kernel events that change them.
- `DeviceChain`: asynchronous tasks and the chain over a device list.
- `Persistence`, `FlightMode`, `DeviceEvents`: the persistence file, the sweep,
  the reactions to device events, as functions on one state.
- `DaemonProtocol`: the daemon's calls and callbacks, and a run as a sequence of
  main-loop dispatches. `ProtocolInvariant` proves the invariant of every run,
  `FlightModeRuns` the results about whole runs, `DeviceRequests` what the devices
  themselves are asked in a run, `CallOutcomes` what callers can rely on, stated on
  calls, answers, device bits and file entries alone.
- `KillswitchObject`, `ArbitratorObject`, `DaemonObject`: the same code as
  objects whose methods change fields in place, with the source's loops. Each
  method's contract equates the new state with the function above, so that what
  is proved of the functions holds of the objects. `OperationRun` runs a pending
  operation to its end on the daemon object.

**The force_sync loop** (`ForceSync`, `ForceSyncEdges`, `ForceSyncObject`). The
daemon answers a device event with a type-wide write, which comes back as further
events. `ForceSyncEdges` states the rule on the kernel's bits.

**The profile parser** (`MatchRule`, `ProfileParser`, `ProfileCache`,
`ProfileMeaning`, `ProfileOrder`). SAX handlers with two counters and one slot
against a recursive evaluation of the document tree; the string matcher; the cache
file. `ProfileMeaning` and `ProfileOrder` state the outcome on literal names,
letters and file names.

**Modems and inhibitors** (`OfonoModems`, `OfonoObject`, `SessionInhibitors`).
Two smaller state machines with invariants over every run.

`dafny verify dfyconfig.toml` checks the whole project.

## Conventions

A GTask returned in the main-loop dispatch that created it completes in a later
dispatch; an older one completes nested in its caller. `Task.born` and
`Plant.now` carry this rule, and `FlightMode.Return` states it. A run
(`DaemonProtocol.Execution`) starts on an empty persistence file and interleaves
freely: calls with any arguments, authorised or not; replies with any outcome;
kernel events; modems; restarts. `DaemonProtocol.Enabled` holds what the
surroundings have to guarantee:

- radio types are 1..8 and no call names type ALL, whose slot has no killswitch;
- a device stays in its killswitch while that killswitch's chain runs, and a
  device named by a pending BlockIdx stays registered until its reply, because
  the code holds a raw list node and asserts that it finds the device again;
- the untracked requests of a rollback have drained before the next operation
  starts (`FlightModeRuns.DrainAll` shows that they drain whatever the replies,
  `FlightModeRuns.RestoresBounded` that at most as many replies are served as the
  chains have devices left);
- key handling is off, since a key press issues an untracked request outside the
  single-operation guard;
- writing the persistence file succeeds.

A run also records that each dispatch meets what its handler dereferences or
asserts (`DaemonProtocol.Defined`); `ProtocolInvariant.NeverUndefined` shows that
this follows from the rest and leaves out no run.

Authorisation is an input. Replies to callers are entries of a log, as are the
requests made of killswitches and devices.

Where the code and its documentation differ the model follows the code:

- the profile document type lists one rule attribute after the other as if they
  could be combined; of several the last one counts, and an attribute the scan
  does not know spoils the rule (`ProfileParser.ScanReadsPairs`,
  `ProfileParser.UnknownAttributeRejects`); it does not list `suffix_outof`,
  which the code accepts;
- a text that reaches the handler in several chunks is judged chunk by chunk
  (`ProfileParser.CutFreelyWhenWordless` says exactly when that matters);
- `contains_not` does not hold on empty strings, where `contains` does not hold
  either (`MatchRule.ContainsNotNegates`);
- the seat handlers leave the cached inhibit flag stale
  (`SessionInhibitors.SeatChangesLeaveFlag` says exactly when);
- what a removed modem still reports reaches the arbitrator, because the handler
  of its signal stays connected (`OfonoModems.StaysRightExactly` says exactly when
  that does harm, `OfonoModems.RestartClash` what it comes to);
- under force_sync a device that arrives hard blocked but not soft blocked may
  stay so (`ForceSync.PlugInExactly` says exactly when).

## Model

| member | source | states |
|---|---|---|
| `FlightModeRuns.ExitUndoesEnter` | src/urf-arbitrator.c:296-322 | Over every run from an empty file: each successful exit is preceded by a successful enter, and asks exactly the types with an adapter, in rising order, each to be blocked if and only if that enter sampled it soft blocked; WWAN under strict flight mode is always unblocked |
| `FlightModeRuns.EnterBlocksAll` | src/urf-arbitrator.c:192-216 | Over every run, a successful enter asks exactly the types with an adapter, in rising order, each to be blocked |
| `FlightModeRuns.SweepReply` | src/urf-arbitrator.c:232-323 | The awaited reply of a sweep: a success brings the operation nearer its end or commits flag, file, history and reply together; a failure restores the earlier types, answers the call and leaves flag and history alone |
| `FlightModeRuns.BlockReply` | src/urf-daemon.c:234-279 | The awaited reply of a Block or BlockIdx answers the call or brings the chain nearer its end |
| `FlightModeRuns.AwaitedReplyOnly` | src/urf-daemon.c:233-279 | A pending operation is never stuck, and exactly one reply can reach it |
| `FlightModeRuns.ReplyProgresses` | src/urf-arbitrator.c:296-322 | Every reply answers the pending call or lowers the pair (types left, devices left in the chain) |
| `FlightModeRuns.RunToEnd` | src/urf-arbitrator.c:330-368 | Serving the awaited replies, whatever their outcomes and however long the device lists, ends with the pending call answered once |
| `FlightModeRuns.PendingProgress` | src/urf-arbitrator.c:296-322 | Over every run, while a call stays pending: the pair (types left, devices left in the chain) never rises, whatever events come in between, and falls with every reply |
| `FlightModeRuns.OthersWait` | src/urf-arbitrator.c:551-658 | Device events neither end nor delay a pending operation |
| `FlightModeRuns.BusyRefuses` | src/urf-daemon.c:318-325 | A call during an operation is refused with an error and changes nothing else |
| `FlightModeRuns.DrainAll` | src/urf-arbitrator.c:272-282 | Serving replies, whatever their outcomes, brings the chains a rollback started to an end: every killswitch becomes idle, no call is answered, nothing more is asked or saved |
| `FlightModeRuns.RestoresBounded` | src/urf-arbitrator.c:272-282 | In every run, while no call comes in, at most as many replies are served as the chains had devices left, whatever else happens |
| `FlightModeRuns.RestoresDrain` | src/urf-arbitrator.c:272-282 | One reply to a restore shortens one chain, starts no other, and touches no call, request or file |
| `FlightModeRuns.CallsAnsweredOnce` | src/urf-daemon.c:284-361 | In every state of every run each call is in exactly one class (answered once, pending, dropped at the gate, cut off by a restart) and pending_block is the pending call's argument |
| `FlightModeRuns.FlagMatchesFile` | src/urf-daemon.c:577-584 | flight_mode equals the persisted ALL entry in every state of every run, restarts included |
| `FlightModeRuns.NewModemTakesFlightMode` | src/urf-arbitrator.c:454-464 | With persist and strict flight mode on and force_sync off, a modem that powers up is asked, once, for the committed flight mode |
| `FlightModeRuns.AllMissingUnreachable` | src/urf-arbitrator.c:361-367 | The completion for missing adapters is never queued in any run, because a device in the list always gives some killswitch a state |
| `ProtocolInvariant.ExecutionInv` | src/urf-daemon.c:284-679 | One invariant of every run: slots, lists and flags agree with the one operation in progress, with the history of successful sweeps and with the log of replies |
| `ProtocolInvariant.DispatchInv` | src/urf-daemon.c:233-679 | Every dispatch keeps that invariant |
| `ProtocolInvariant.NeverUndefined` | src/urf-arbitrator.c:242-261 | In a state that satisfies the invariant no assertion of a callback fails and no slot it dereferences is empty: the completing task is pending_block_task, the flight-mode task is there, the device of a BlockIdx is found |
| `ProtocolInvariant.OutstandingStays` | src/urf-killswitch.c:253-257 | No dispatch supersedes an outstanding device request: until its reply the killswitch waits for the same device with the same task, so the reply is that of pending_device_task |
| `ProtocolInvariant.SweepFindsAdapter` | src/urf-arbitrator.c:330-368 | A sweep the daemon starts always waits for some adapter |
| `ProtocolInvariant.SettleSweep` | src/urf-arbitrator.c:232-323 | A completed killswitch task of a sweep undoes it, moves it on or commits it |
| `ProtocolInvariant.HistoryGrows` | src/urf-arbitrator.c:301-318 | Appending a successful sweep keeps the law of the history: enters and exits alternate and each asks what its predecessor calls for |
| `ProtocolInvariant.RecordRecalls` | src/urf-arbitrator.c:301-318 | After the recording loop prev-soft is set exactly for the types an enter sampled as soft blocked |
| `ProtocolInvariant.DeviceEventInv` | src/urf-arbitrator.c:427-658 | Devices that come, go or change disturb nothing that is pending |
| `ProtocolInvariant.RestartInv` | src/urf-daemon.c:1181-1190 | A daemon started again on the saved file satisfies the invariant |
| `ProtocolInvariant.InvokeInv` | src/urf-daemon.c:284-361 | A method call keeps the invariant, whatever its outcome |
| `Persistence.WrittenIsRead` | src/urf-config.c:804-928 | What is written for a type is read back for it and no other; WWAN under strict flight mode is written nowhere, reads flight mode's own entry, and has no memory |
| `FlightMode.FailedSweepRestores` | src/urf-arbitrator.c:263-291 | A sweep failing at type k restores exactly the types below k that had an adapter, to blocked unless they were sampled unblocked; persists the others as unblocked (not WWAN under strict flight mode); asks nothing above k; leaves prev-soft alone; reports the failure |
| `FlightMode.AdvanceEffect` | src/urf-arbitrator.c:296-298 | The loop over the remaining types samples them in order and stops at the first with an adapter, which becomes the only pending one; or it samples all and finds none |
| `FlightMode.SweepAsksTypes` | src/urf-arbitrator.c:178-226 | The requests of a sweep name strictly rising types, one for each sampled adapter and no other |
| `FlightMode.RestoreAsksTypes` | src/urf-arbitrator.c:272-282 | The requests of a rollback name strictly rising types, one for each sampled adapter below the failed type |
| `FlightMode.RollbackEntry` | src/urf-arbitrator.c:276-281 | The persisted entry a rollback leaves for any one type |
| `FlightMode.RecordEntry` | src/urf-arbitrator.c:304-318 | The persisted entries the recording loop leaves for any one type |
| `CallOutcomes.FlightModeIsAsAsked` | src/urf-daemon.c:559-618 | Over every run, a flight-mode call that is answered with success leaves flight mode as asked, in memory and in the file, whether it is answered at once or in the end |
| `CallOutcomes.FlightModeStarts` | src/urf-daemon.c:636-665 | Over every run, an authorised flight-mode call that asks for a change, with a device there and nothing pending, is not answered but becomes the pending one, and the first type with a device is asked at once: to be blocked, or as the latest enter found it |
| `CallOutcomes.FlightModeSwitches` | src/urf-arbitrator.c:296-322 | From either mode in any run: asking for the other one, with every device complying, ends in the other one, with one more sweep in the history and the call answered with success |
| `CallOutcomes.SweepOfNothing` | src/urf-arbitrator.c:361-367 | Without any device a sweep asks nothing and its task is returned with success in a later dispatch |
| `CallOutcomes.BlockIsSaved` | src/urf-daemon.c:234-411 | Over every run: a Block or BlockIdx answered with success at the end of its operation leaves the asked state in the soft entry of its type and in no other; one that fails leaves the file alone |
| `CallOutcomes.BlockOutlivesRestart` | src/urf-arbitrator.c:446-464 | A Block, a restart and a new device of that type under persist: the device is asked last for what the Block asked for |
| `CallOutcomes.NewDeviceIsAsked` | src/urf-arbitrator.c:446-464 | Over every run: exactly what a new device is asked for under force_sync and under persist, from its own bits and the file's entries |
| `CallOutcomes.NewModemIsAsked` | src/urf-arbitrator.c:446-464 | The same for a modem that powers up |
| `CallOutcomes.QuietEvents` | src/urf-arbitrator.c:427-505 | Over every run: events about an index that is taken, unknown or given up, and a modem's Online value, ask nothing and save nothing |
| `CallOutcomes.ChangeIsHandled` | src/urf-arbitrator.c:551-593 | Over every run: exactly what a change of a device's bits asks of it under force_sync, and saves without |
| `CallOutcomes.NothingCompletesTooEarly` | src/urf-killswitch.c:336-345 | A task returned in the dispatch that created it is queued and nothing else happens; one returned later completes at once |
| `CallOutcomes.CallIsJudged` | src/urf-daemon.c:284-365 | Over every run: the questions that decide a call, in order and on the devices' bits; a call that fails one changes nothing, the last of them answers it at once, and any other becomes pending |
| `CallOutcomes.AcceptedAsks` | src/urf-daemon.c:318-361 | What an accepted Block or BlockIdx asks at once of killswitch and device |
| `DeviceRequests.BlockAsksEveryDevice` | src/urf-killswitch.c:238-346 | Over every run: when a Block is answered with success, its killswitch has asked every device it listed when the call came in, in order, each once, for the wanted state, and none besides |
| `DeviceRequests.SweepAsksEveryDevice` | src/urf-arbitrator.c:177-226 | Over every run: when a flight-mode operation is answered with success, each killswitch it asked has asked every device it listed when the sweep reached it, in order, each once, for the state wanted of its type, and none besides; the killswitches it did not ask listed nothing then and have asked nothing |
| `DeviceRequests.PassesOnce` | src/urf-arbitrator.c:296-298 | A sweep reaches each type in one dispatch only, so that list is fixed by the run |
| `DeviceRequests.HeardReply` | src/urf-killswitch.c:284-303 | A device that complies passes the request on to the next node of the list the chain started on, or ends the chain |
| `DeviceRequests.OthersAside` | src/urf-arbitrator.c:551-658 | While a call is pending, everything but a reply leaves its chains, its nodes and its requests alone, CHANGE events of listed devices included |
| `DeviceRequests.AdvanceHeard` | src/urf-arbitrator.c:178-226 | A sweep that samples further starts the next chain on what that killswitch lists then |
| `DeviceRequests.SweepCommits` | src/urf-arbitrator.c:300-320 | The reply that ends a sweep leaves a record all of whose requests have reached all their devices |
| `DeviceChain.ChainAsksPrefix` | src/urf-killswitch.c:238-346 | Over any interleaving of replies, newly added devices and changes of listed ones, a chain asks a prefix of the list it started on, in order, each device once: all of it on success, otherwise up to the first failure; its task is returned once with that outcome |
| `KillswitchState.RefreshIsAggregate` | src/urf-killswitch.c:116-178 | The refreshed state is NO_ADAPTER only without devices, the platform maximum if a platform device is blocked, else the maximum over all devices |
| `KillswitchState.RefreshInBits` | src/urf-killswitch.c:116-178 | The state of a killswitch from the two bits of its devices: hard blocked if a deciding device is hard blocked, else soft blocked, else unblocked; only platform devices decide once one of them is blocked |
| `KillswitchState.AggregateIsUnique` | src/urf-killswitch.c:69-79 | That description determines the state |
| `KillswitchState.RefreshIgnoresOrder` | src/urf-killswitch.c:134-150 | The state does not depend on the order of the list |
| `KillswitchState.RefreshWitness` | src/urf-killswitch.c:127-153 | The state is that of some listed device, and NO_ADAPTER exactly for the empty list |
| `DeviceMirror.SwitchStateInBits` | src/urf-utils.c:126-135 | The same read off the arbitrator's list for one type |
| `DeviceMirror.MirrorFollowsEvents` | src/urf-arbitrator.c:427-505 | After any events the device list equals their fold over a map from index to device, each killswitch list is the devices of its type without repetition, and each state is the aggregate over that map |
| `DeviceMirror.AddThenDelete` | src/urf-killswitch.c:198-233 | Adding a device and deleting it again restores the list and every killswitch state |
| `DeviceMirror.SomeAdapter` | src/urf-arbitrator.c:511-516 | A non-empty device list gives some killswitch a state |
| `DeviceEvents.ProcessMirrors` | src/urf-arbitrator.c:551-658 | Whatever else an event causes, the list changes as the mirror says, and pending requests, the sweep and its history stay |
| `KillswitchObject.Radio.UpdateStates` | src/urf-device-kernel.c:121-155 | Overwrites both bits and tells whether anything changed |
| `KillswitchObject.Killswitch.StateRefresh` | src/urf-killswitch.c:116-178 | The loop over the devices leaves the aggregate in the state field |
| `KillswitchObject.Killswitch.AddDevice` | src/urf-killswitch.c:198-214 | Prepends a device of the right type that is not listed yet, and refreshes |
| `KillswitchObject.Killswitch.DelDevice` | src/urf-killswitch.c:219-233 | Drops a listed device and refreshes |
| `KillswitchObject.Killswitch.SetSoftwareBlocked` | src/urf-killswitch.c:309-346 | Starts a chain on the whole list, or returns the task at once for an empty one |
| `KillswitchObject.Killswitch.SoftBlockCallback` | src/urf-killswitch.c:238-304 | Ends the chain on a failure or at the last device, otherwise asks the next one |
| `ArbitratorObject.ConfigFile.GetPersistState` | src/urf-config.c:804-833 | Reads the persisted state, WWAN's under strict flight mode from the ALL entry |
| `ArbitratorObject.ConfigFile.GetPrevSoft` | src/urf-config.c:835-860 | Reads the recorded state, never set for WWAN under strict flight mode |
| `ArbitratorObject.ConfigFile.SetPersistState` | src/urf-config.c:892-910 | Writes the persisted state, not for WWAN under strict flight mode |
| `ArbitratorObject.ConfigFile.SetPrevSoft` | src/urf-config.c:912-928 | Writes the recorded state, not for WWAN under strict flight mode |
| `ArbitratorObject.Arbitrator.constructor` | src/urf-arbitrator.c:846-859 | Eight empty killswitches, none for type ALL |
| `ArbitratorObject.Arbitrator.FindDevice` | src/urf-arbitrator.c:107-124 | The device with an index, or null exactly if there is none |
| `ArbitratorObject.Arbitrator.GetState` | src/urf-arbitrator.c:373-394 | The state of a type's killswitch, type ALL read as WLAN |
| `ArbitratorObject.Arbitrator.SetBlock` | src/urf-arbitrator.c:129-145 | Hands a request to one killswitch and leaves the others alone |
| `ArbitratorObject.Arbitrator.SetBlockIdx` | src/urf-arbitrator.c:150-172 | Hands a request to the device with an index, if there is one |
| `ArbitratorObject.Arbitrator.HandleFlightModeKillswitch` | src/urf-arbitrator.c:177-226 | One type of a sweep: sample, decide, ask; may go on at once exactly if there is no adapter |
| `ArbitratorObject.Arbitrator.RunSweep` | src/urf-arbitrator.c:296-298 | The loop over the remaining types |
| `ArbitratorObject.Arbitrator.SetFlightMode` | src/urf-arbitrator.c:329-368 | Starts a sweep |
| `ArbitratorObject.Arbitrator.RestoreEarlier` | src/urf-arbitrator.c:272-282 | The restoring loop |
| `ArbitratorObject.Arbitrator.RecordHistory` | src/urf-arbitrator.c:304-318 | The recording loop |
| `ArbitratorObject.Arbitrator.FlightModeCallback` | src/urf-arbitrator.c:231-323 | The callback of a sweep's killswitch task |
| `ArbitratorObject.Arbitrator.DeviceAnswered` | src/urf-killswitch.c:238-304 | A reply moves one chain and no other |
| `ArbitratorObject.Arbitrator.AddDevice` | src/urf-arbitrator.c:427-470 | Appends a device with a new index, lists it with its killswitch, makes the first requests of it |
| `ArbitratorObject.Arbitrator.RemoveKillswitch` | src/urf-arbitrator.c:598-628 | Drops the device with an index from the list and from its killswitch |
| `ArbitratorObject.Arbitrator.RemoveDevice` | src/urf-arbitrator.c:475-505 | Drops the very device it is given from the list and from its killswitch; if the list does not have it nothing changes, whoever has its index |
| `ArbitratorObject.Arbitrator.UpdateKillswitch` | src/urf-arbitrator.c:551-593 | Updates a device, refreshes its killswitch, then synchronises or persists |
| `ArbitratorObject.Arbitrator.ModemOnline` | src/urf-device-ofono.c:333-372 | A modem's Online property shows in the device list and the aggregate |
| `ArbitratorObject.Arbitrator.ProcessEvent` | src/urf-arbitrator.c:699-746 | Every kernel event keeps list and killswitches in agreement |
| `DaemonObject.Daemon.constructor` | src/urf-daemon.c:1181-1190 | A daemon starts on the flight mode the file holds |
| `DaemonObject.Daemon.Block` | src/urf-daemon.c:283-361 | The whole method: checks in order, answer at once, or start a tracked request |
| `DaemonObject.Daemon.BlockIdx` | src/urf-daemon.c:426-504 | The same for one device |
| `DaemonObject.Daemon.SetFlightMode` | src/urf-daemon.c:620-679 | The same for a sweep |
| `DaemonObject.Daemon.Callback` | src/urf-daemon.c:233-279 | The three completion callbacks: persist on success, answer, free the slot |
| `DaemonObject.Daemon.Complete` | src/urf-arbitrator.c:231-323 | A completing task runs the arbitrator's callback and, nested, the daemon's |
| `DaemonObject.Daemon.Settle` | src/urf-arbitrator.c:312-318 | A returned task is queued if this dispatch created it, otherwise completed at once |
| `DaemonObject.Daemon.DeviceReply` | src/urf-killswitch.c:238-304 | The dispatch of a device's reply |
| `DaemonObject.Daemon.BlockIdxReply` | src/urf-daemon.c:367-421 | The dispatch of a BlockIdx device's reply |
| `DaemonObject.Daemon.RunIdle` | src/urf-arbitrator.c:361-367 | The dispatch of a queued completion |
| `DaemonObject.Daemon.Kernel` | src/urf-arbitrator.c:752-765 | The dispatch of a kernel event |
| `DaemonObject.Daemon.ModemOn` | src/urf-ofono-manager.c:100-109 | The dispatch of a powered signal |
| `DaemonObject.Daemon.ModemOff` | src/urf-arbitrator.c:475-505 | The dispatch of an unpowered signal: a modem in the list is removed, another one is no news |
| `OperationRun.ServeAwaited` | src/urf-daemon.c:233-504 | On the daemon object: the awaited reply is well defined and served as the protocol says |
| `OperationRun.FinishOperation` | src/urf-daemon.c:233-504 | On the daemon object: serving the awaited replies, whatever their outcomes, terminates with the pending call answered once and the invariant kept |
| `OperationRun.DrainRestores` | src/urf-arbitrator.c:272-282 | On the daemon object: serving the restores of a failed sweep, whatever their outcomes, terminates with every killswitch idle and no call answered |
| `ForceSyncObject.SyncLoop.SetSoft` | src/urf-device-kernel.c:213-245 | A request to one device writes the soft block of every device of its type |
| `ForceSyncObject.SyncLoop.Carry` | src/urf-arbitrator.c:150-172 | A request for an index becomes a write for the type of the device that has it, if there is one |
| `ForceSyncObject.SyncLoop.ServeOne` | src/urf-arbitrator.c:551-593 | On the arbitrator object: one event, its reaction and the write |
| `ForceSyncObject.SyncLoop.Drain` | src/urf-arbitrator.c:551-593 | On the arbitrator object: the loop terminates from any state in which the mirror trails the kernel, whichever writes fail, with nothing queued and mirror and kernel equal; with hard blocks relieved and no write failing, every hard block is then matched by a soft block |
| `ForceSyncEdges.ChangeServed` | src/urf-arbitrator.c:577-588 | On the kernel's bits: a change that leaves hard without soft blocks the whole type, one that lifts a hard block unblocks the whole type, any other writes nothing |
| `ForceSyncEdges.LiftedBlock` | src/urf-arbitrator.c:586-587 | A hard block is lifted in a settled system and the daemon is left alone: it comes to rest with the type unblocked if no device of it is hard blocked any more, blocked otherwise, and everything else as it was |
| `ForceSync.AlwaysComesToRest` | src/urf-arbitrator.c:551-593 | Whatever happened before, from any start, devices plugged in and unplugged and writes failing included: once nobody else interferes, after finitely many events nothing is queued and mirror and kernel agree |
| `ForceSync.SettlesAgain` | src/urf-arbitrator.c:551-593 | If besides hard implied soft at the start, writes succeed and no device is plugged in hard blocked but not soft blocked, hard implies soft again at rest |
| `ForceSync.PlugInExactly` | src/urf-arbitrator.c:449-464 | A device plugged into a settled system leaves it with hard implying soft exactly if it came that way, or its type is written blocked at once, or it is written unblocked while a device of that type is hard blocked |
| `ForceSync.LoopDrains` | src/urf-arbitrator.c:581-587 | From any state in which the mirror trails the kernel, whichever writes fail, the loop of events and writes ends at rest, by (new devices and falling hard edges left, clear soft bits, queue length); with hard blocks relieved and no write failing, hard then implies soft |
| `ForceSync.ServeCloser` | src/urf-arbitrator.c:581-587 | Every event the daemon serves lowers that measure, whether its writes succeed or not |
| `ForceSync.ServeKeeps` | src/urf-arbitrator.c:581-587 | Serving an event keeps a different state on its way for every unmatched hard block in the mirror |
| `ForceSync.SurroundingsTrail` | src/urf-arbitrator.c:699-746 | Whatever others do to the kernel's devices, the mirror stays behind it by exactly the queue |
| `ForceSync.NoticesTell` | src/urf-device-kernel.c:214-245 | The events of a type-wide write tell exactly what the write did, and trigger nothing |
| `ForceSync.BlockRelieves` | src/urf-device-kernel.c:214-245 | After a blocking write every unmatched hard block of the type in the mirror has a different state on its way |
| `ForceSync.UnblockingDrains` | src/urf-arbitrator.c:581-587 | After an unblocking write the loop comes to rest, settled exactly if it unblocked a hard blocked device or nothing was unmatched |
| `ForceSync.WishesOf` | src/urf-arbitrator.c:427-464 | What an event makes the daemon write: the synchronisation rule on a change, the first requests on a new device, nothing otherwise |
| `MatchRule.Decide` | src/urf-config.c:177-288 | The matcher with its loops decides the rule |
| `MatchRule.OutofMeansSomePiece` | src/urf-config.c:196-205 | However the rule is cut at its separators, an _outof operator holds exactly when its base operator holds for some non-empty piece |
| `MatchRule.SplitJoins` | src/urf-config.c:197-197 | Splitting loses nothing and leaves no separator |
| `MatchRule.SplitUnique` | src/urf-config.c:197-197 | No other separator-free pieces join to the same string |
| `MatchRule.ContainsNotNegates` | src/urf-config.c:218-221 | contains_not negates contains exactly on non-empty strings; otherwise both fail |
| `MatchRule.NcaseLowers` | src/urf-config.c:210-217 | An _ncase operator is its base operator on lowered strings, and blind to the case of ASCII letters |
| `MatchRule.ContainsMeans` | src/urf-config.c:206-209 | contains finds the rule's text anywhere: the string is something, the text, something |
| `MatchRule.EndsMean` | src/urf-config.c:234-237 | prefix and suffix in terms of concatenation |
| `MatchRule.WholeImpliesParts` | src/urf-config.c:192-195 | string implies prefix and suffix, and each of these implies contains |
| `ProfileMeaning.OptionIsRead` | src/urf-config.c:290-341 | Parsing a document whose one accepted option element, at any depth, has a literal key: the option of that name becomes true or false as the text spells true or false in letters of either case; any other text, and any other key, changes nothing |
| `ProfileMeaning.LastKeyCounts` | src/urf-config.c:384-401 | Of several key attributes of an option the last one counts; type attributes and unknown ones do not disturb it |
| `ProfileMeaning.TypeIsIgnored` | src/urf-config.c:117-123 | The type of an option is recorded and has no effect on any document |
| `ProfileMeaning.MatchMeans` | src/urf-config.c:126-287 | A match element with a literal key and a literal rule name is accepted unless the DMI string of that key fails the rule, each rule in terms of concatenation, pieces and letters |
| `ProfileMeaning.SameWhenLowered` | src/urf-config.c:205-212 | Two characters are equal when lowered exactly if they are the same or the same letter of the alphabet in either case |
| `ProfileOrder.LastNameWins` | src/urf-config.c:641-677 | Of all profiles the one whose file name comes last decides the option it sets, in whatever order the directory is read |
| `ProfileOrder.OrderMeans` | src/urf-config.c:600-605 | The order of names: a proper prefix comes first, else the smaller character at the first difference |
| `ProfileOrder.EligibleMeans` | src/urf-config.c:646-654 | Profiles are regular files whose name ends in .xml and does not begin with a dot |
| `ProfileOrder.CacheHolds` | src/urf-config.c:541-598 | Options read from profiles are written to the cache as true or false under their own names; options read from the cache leave it alone |
| `ProfileOrder.NothingConfigured` | src/urf-config.c:950-965 | Without any of the files and without profiles the options are the program's own |
| `ProfileOrder.FilesDecide` | src/urf-config.c:692-740 | Per option: the user's general group has the last word, a cache with its group stands in for the profiles, entries that are no booleans are passed over |
| `ProfileParser.ParserEvaluates` | src/urf-config.c:290-419 | For every document and every chunking, the handlers leave the options the recursive evaluation of the tree gives, and return to their initial counters and empty slot |
| `ProfileParser.ElementEffect` | src/urf-config.c:343-419 | A complete element anywhere returns both counters to their entry values, empties the slot, and counts exactly if it is reached |
| `ProfileParser.CountersAreAStack` | src/urf-config.c:356-361 | After every well-nested stream the two counters represent the stack of open elements, the slot is empty below a rejected element, and the repair of the bound is out of reach |
| `ProfileParser.DocumentPrefixNested` | src/urf-config.c:406-419 | Every prefix of a document's events is such a stream |
| `ProfileParser.CutFreelyWhenWordless` | src/urf-config.c:290-341 | How a text is cut never matters exactly when no part of it reads true or false in any case; a word cut in two is lost |
| `ProfileParser.CutsDoNotMatter` | src/urf-config.c:290-341 | If words arrive whole, the result depends on the document's undivided texts only |
| `ProfileParser.ScanReadsPairs` | src/urf-config.c:367-379 | On attributes it knows the scan reads pair after pair; of several keys or rules the last one counts |
| `ProfileParser.OneRule` | src/urf-config.c:366-384 | A match element with a key and one rule, in either order, is accepted unless this machine has a string for the key that fails the rule |
| `ProfileParser.UnknownAttributeRejects` | src/urf-config.c:373-378 | An unknown attribute after the rule makes every match element that tests something fail |
| `ProfileParser.ParseInfo.StartElement` | src/urf-config.c:343-404 | The start handler, with its attribute scans and the repair branch |
| `ProfileParser.ParseInfo.EndElement` | src/urf-config.c:406-419 | The end handler |
| `ProfileParser.ParseInfo.CData` | src/urf-config.c:290-341 | The text handler |
| `ProfileParser.ParseInfo.ReadMatch` | src/urf-config.c:366-379 | The scan of a match element's attributes, which skips a value only after a name it knows |
| `ProfileParser.ParseInfo.ReadOption` | src/urf-config.c:385-398 | The scan of an option element's attributes |
| `ProfileParser.ParseInfo.Parse` | src/urf-config.c:457-462 | The handlers over a document's events |
| `ProfileCache.CacheIsFaithful` | src/urf-config.c:610-678 | A daemon started on the cache a first one left ends up with the options that evaluating all profiles and the same user's file would give, written or not |
| `ProfileCache.CacheIsFinal` | src/urf-config.c:622-623 | Once written, the cache hides later changes of profiles, hardware and defaults |
| `ProfileCache.CacheRoundTrip` | src/urf-config.c:540-598 | Reading the written cache gives back all five options, whatever held before |
| `ProfileCache.ReadOrderIsIrrelevant` | src/urf-config.c:646-667 | The outcome depends on the directory's contents alone, not on the order they are read in |
| `ProfileCache.FailedProfilesAreIgnored` | src/urf-config.c:457-462 | Profiles that cannot be read or parsed might as well not be there |
| `ProfileCache.OrderedUnique` | src/urf-config.c:600-605 | Sorting by distinct names has one outcome |
| `ProfileCache.UrfConfig.LoadConfiguredSettings` | src/urf-config.c:477-538 | Loads the cache over the options; usable exactly if its group is there |
| `ProfileCache.UrfConfig.ParseProfile` | src/urf-config.c:421-475 | One profile parsed on a copy of the options, kept only on success |
| `ProfileCache.UrfConfig.LoadProfile` | src/urf-config.c:610-682 | From the cache if usable, otherwise from the sorted profiles, which are then cached |
| `ProfileCache.UrfConfig.LoadFromFile` | src/urf-config.c:687-745 | The profiles' options overlaid with the user's file |
| `OfonoModems.MembershipFollowsPowered` | src/urf-ofono-manager.c:100-164 | Over any interleaving of reports, requests, removals and restarts of oFono: the arbitrator has at every point exactly the listed modems last reported powered, if and only if no removed modem has announced that it is powered while its index was free there |
| `OfonoModems.StaysRightExactly` | src/urf-arbitrator.c:427-505 | The same for one event, GetProperties replies with several properties included: from a right state exactly those late reports make the arbitrator wrong |
| `OfonoModems.ModemsKeepRules` | src/urf-device-ofono.c:244-418 | Over every run, late reports included: each modem's signals alternate starting with true and end with the recorded value, each task is answered once or waits; no two listed modems share an index; the arbitrator has no index twice and only modems last reported powered |
| `OfonoModems.StepKeeps` | src/urf-ofono-manager.c:100-164 | Every event keeps that |
| `OfonoModems.LateOffHarmless` | src/urf-arbitrator.c:475-505 | That a removed modem powers down leaves the arbitrator's list as it was, whoever has its index by then |
| `OfonoModems.RestartClash` | src/urf-ofono-manager.c:277-300 | A run into the failure: a modem appears, oFono restarts under another modem, and the first one's late report takes the index; the second one is turned away when it powers up and stays out after the first one is gone |
| `OfonoModems.ListFollows` | src/urf-ofono-manager.c:111-164 | What each event does to the manager's list: new paths are added and known ones left alone, a removal takes the modem of that path off the list and from the arbitrator, oFono's going takes all of them, nothing else touches the list |
| `OfonoModems.ReportKeeps` | src/urf-device-ofono.c:304-418 | A reported property, acted on before it is recorded, keeps a modem right; after a Powered report the arbitrator has it if it had it or the index was free |
| `OfonoModems.ReportAllKeeps` | src/urf-device-ofono.c:374-418 | What a whole GetProperties reply leaves of a modem, and exactly when the arbitrator has it afterwards |
| `OfonoModems.ReplyByParts` | src/urf-device-ofono.c:374-418 | A GetProperties reply is its properties reported one after the other |
| `OfonoModems.SoftIsNotOnline` | src/urf-device-ofono.c:172-188 | A modem counts as soft blocked exactly when the Online value it reported last was false |
| `OfonoModems.GuardHoldsRequests` | src/urf-device-ofono.c:244-288 | While a call is in flight a request fails at once and nothing is sent; otherwise it is sent and its task gets the answer |
| `OfonoModems.PowerUpSends` | src/urf-device-ofono.c:259-282 | What a modem that powers up sends to oFono: the saved state if only persist is on; under force_sync its own state, and the saved one is lost to the guard |
| `OfonoModems.RegisterMembers` | src/urf-arbitrator.c:427-446 | Adding a device makes exactly its index known |
| `OfonoModems.UnregisterMembers` | src/urf-arbitrator.c:475-505 | Removing a listed device makes exactly its index unknown |
| `OfonoModems.IndexHandedOutAgain` | src/urf-ofono-manager.c:277-300 | After oFono vanishes the first modem gets the first index again, while the old objects are still there |
| `OfonoObject.ModemDevice.SetSoft` | src/urf-device-ofono.c:244-288 | The request with its in-flight guard |
| `OfonoObject.ModemDevice.SetOnlineCb` | src/urf-device-ofono.c:190-241 | oFono's answer frees the guard and answers the waiting task |
| `OfonoObject.ModemDevice.UpdatePowered` | src/urf-device-ofono.c:304-331 | The signal a reported Powered value calls for |
| `OfonoObject.OfonoManager.FindModem` | src/urf-ofono-manager.c:78-98 | The first modem with a path, or null |
| `OfonoObject.OfonoManager.AddDevice` | src/urf-arbitrator.c:427-470 | On the arbitrator object: the modem joins the list unless another device has its index, and gets the first requests if it is new |
| `OfonoObject.OfonoManager.RemoveDevice` | src/urf-arbitrator.c:475-505 | On the arbitrator object: this modem, by reference, leaves the list and no other device does |
| `OfonoObject.OfonoManager.DevicePowered` | src/urf-ofono-manager.c:100-109 | Adds the modem to the arbitrator object or removes it, by reference, for a listed and for a removed modem alike; the modem takes its first requests |
| `OfonoObject.OfonoManager.GetModemsCb` | src/urf-ofono-manager.c:166-200 | A GetModems reply adds the modems it names, those with a known path excepted |
| `OfonoObject.OfonoManager.Report` | src/urf-device-ofono.c:333-372 | One reported property of one modem, listed or removed |
| `OfonoObject.OfonoManager.PropertyChanged` | src/urf-device-ofono.c:333-372 | A PropertyChanged signal: the report, after which the arbitrator shows every modem it has as the modem is |
| `OfonoObject.OfonoManager.GetPropertiesCb` | src/urf-device-ofono.c:374-418 | A GetProperties reply, property by property, and the refresh after it |
| `OfonoObject.OfonoManager.AddModem` | src/urf-ofono-manager.c:111-135 | A modem with a new path gets the next index |
| `OfonoObject.OfonoManager.RemoveModem` | src/urf-ofono-manager.c:137-150 | Takes the modem with a path off the list and from the arbitrator; its object stays |
| `OfonoObject.OfonoManager.RemoveAllModems` | src/urf-ofono-manager.c:152-164 | The loop that empties the list |
| `OfonoObject.OfonoManager.OfonoVanished` | src/urf-ofono-manager.c:277-300 | Forgets all modems and starts the indices again |
| `SessionInhibitors.FlagIsRight` | src/urf-session-checker-logind.c:229-291 | Over every run with fixed seats: the cached flag equals 'some seat's active session has an inhibitor', cookies are distinct and non-zero, bus names distinct |
| `SessionInhibitors.ListFollows` | src/urf-session-checker-logind.c:229-291 | What each event does to the list of inhibitors: which one comes or goes, by caller, cookie or bus name, and that all others remain |
| `SessionInhibitors.UninhibitUndoes` | src/urf-session-checker-logind.c:229-291 | A fresh inhibit and an uninhibit with its cookie restore list and flag |
| `SessionInhibitors.SeatChangesLeaveFlag` | src/urf-session-checker-logind.c:322-353 | Exactly when the flag is still right after a seat is added or removed, whose handlers do not recompute it |
| `SessionInhibitors.SeatChangesCanMislead` | src/urf-session-checker-logind.c:322-353 | Runs after which adding, and removing, one seat leaves the flag wrong |
| `SessionInhibitors.InhibitTwice` | src/urf-session-checker-logind.c:238-240 | Inhibiting again gives the same cookie and changes nothing |
| `SessionInhibitors.RefreshRepairs` | src/urf-session-checker-logind.c:161-168 | Recomputing makes the flag right from any state |
| `SessionInhibitors.InhibitedMeans` | src/urf-session-checker-logind.c:131-147 | The nested search decides whether some seat's active session has an inhibitor |
| `SessionInhibitors.DropKeeps` | src/urf-session-checker-logind.c:262-274 | Removing an inhibitor removes it alone |
| `SessionInhibitors.SessionChecker.ComputeInhibited` | src/urf-session-checker-logind.c:131-147 | The nested loops over seats and inhibitors |
| `SessionInhibitors.SessionChecker.FindInhibitorByBusName` | src/urf-session-checker-logind.c:96-110 | The first inhibitor of a bus name |
| `SessionInhibitors.SessionChecker.FindInhibitorByCookie` | src/urf-session-checker-logind.c:112-129 | The first inhibitor with a cookie; none for zero |
| `SessionInhibitors.SessionChecker.GenerateUniqueCookie` | src/urf-session-checker-logind.c:212-224 | The retry loop ends with the first drawn number that is free |
| `SessionInhibitors.SessionChecker.Inhibit` | src/urf-session-checker-logind.c:229-260 | The known cookie, zero without a session, or a new inhibitor |
| `SessionInhibitors.SessionChecker.Uninhibit` | src/urf-session-checker-logind.c:279-291 | Removes the inhibitor of a cookie, if there is one |
| `SessionInhibitors.SessionChecker.BusOwnerChanged` | src/urf-session-checker-logind.c:383-398 | A name that leaves the bus takes its inhibitor along |
| `SessionInhibitors.SessionChecker.SeatActiveChanged` | src/urf-session-checker-logind.c:161-168 | A new active session and the recomputed flag |

## Specification functions

What the contracts above refer to, with the code each function states:
`KillswitchState.Refresh` (src/urf-killswitch.c:116-178), `DeviceChain.Start` and
`DeviceChain.Reply` (src/urf-killswitch.c:238-346), `FlightMode.Sample`,
`FlightMode.Advance`, `FlightMode.BeginSweep`, `FlightMode.Rollback`,
`FlightMode.Record` and `FlightMode.SweepCallback` (src/urf-arbitrator.c:177-368),
`DeviceEvents.Register`, `DeviceEvents.Unregister`, `DeviceEvents.Changed` and
`DeviceEvents.Process` (src/urf-arbitrator.c:427-746), `Persistence`
(src/urf-config.c:804-928), `DaemonProtocol.Method` and `DaemonProtocol.Callback`
(src/urf-daemon.c:233-679), `ForceSync.Serve` (src/urf-arbitrator.c:551-593 with
src/urf-device-kernel.c:214-245), `MatchRule.Matches` (src/urf-config.c:177-288),
`ProfileParser.OnStart`, `ProfileParser.OnEnd`, `ProfileParser.OnChunk`
(src/urf-config.c:290-419), `ProfileCache.Load` (src/urf-config.c:477-745),
`OfonoModems.Step` (src/urf-device-ofono.c:190-418, src/urf-ofono-manager.c:78-300),
`SessionInhibitors.Step` (src/urf-session-checker-logind.c:80-398).

## Left out

- D-Bus registration, introspection, signals, polkit: authorisation is an input, a reply a log entry.
- StateChanged and DeviceChanged signals; on the transition to NO_ADAPTER the code sends none.
- The key input path and key requests: they bypass the single-operation guard.
- Requests for type ALL: slot 0 has no killswitch object.
- Calls made when no device exists, and Block with a negative type: the daemon sends no reply, the model logs them as dropped.
- Removing a device while its chain runs or while a BlockIdx names it: the code would use a freed list node or fail an assertion.
- Reading udev, DMI files and directories; expat and GKeyFile: documents, key files and DMI strings are given, well nested and parsed. Trailing white space of key file values is GKeyFile's business.
- Missing DMI information: that path writes through an unset pointer.
- A match element that tests a string but has no rule: the code would read through a null pointer, so `ProfileParser.Sound` excludes it.
- Memory management and the order of disposal.
- ForceSync.SettlesAgain: asks that writes succeed and that devices do not arrive with an unmatched hard block; `ForceSync.AlwaysComesToRest` needs neither, and `ForceSync.PlugInExactly` says what such a device does to a settled system. Modems, which no type-wide write reaches, are not part of this loop.
- OfonoModems.MembershipFollowsPowered: like the other results about modems, assumes that other drivers' indices stay below 100, where the indices of modems start; the code checks neither.
- oFono requests while the proxy is missing: their task would never be answered.
- SessionInhibitors.FlagIsRight: covers a fixed set of seats; seats that come and go are covered by `SessionInhibitors.SeatChangesLeaveFlag` and `SessionInhibitors.SeatChangesCanMislead`.
- Termination of the cookie loop rests on a drawn number being free; the numbers drawn are an input.
- DaemonProtocol.Enabled: a modem's device is not a platform device and never hard blocked, as its class reports.
- src/urf-session-checker-consolekit.c, src/urf-device-hybris.c, src/urf-device.c, src/urf-input.c, src/urf-main.c and liburfkill-glib: wrappers, and variants that repeat the logic above.
