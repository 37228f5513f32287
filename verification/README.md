# Verification model of urfkill

urfkilld keeps its own table of radio switches in step with the kernel's, groups
the switches of one type into a killswitch, remembers blocks across restarts and
flight mode, and configures itself from nested XML rules. Clients mirror its
device list over D-Bus, and desktop sessions can inhibit its key handling. This
project models that behaviour in Dafny and proves properties of the model.

`dafny verify dfyconfig.toml` checks the whole project.

## How the model is built

The system is modelled twice where it changes state in place, and the two models
are tied together method by method.

* On values: `Protocol` has a `World`, that is a `Kernel` (device table, listing
  order, event queue, a flag that says whether writes are accepted) and a `Daemon`
  (its own table, the platform flags, saved states, remembered bits, options). One
  function per operation says what it does to the `World`, and `Next` is one step
  of the whole system, including steps of other programs. The safety and liveness
  theorems are about these functions.
* On objects: `Device` (kernel device, killswitch), `Arbitrator`, `Client`,
  `SessionChecker`, `Config` and `ProfileParser` have classes with the lists, loops
  and in-place updates of the C code. Each method's contract equates the new
  abstract value with the function of the same step.

| Module | Subject |
|---|---|
| `Rfkill`, `Aggregate` | block states, and the state of a killswitch as a maximum over two classes of devices |
| `Protocol`, `Convergence`, `Termination` | daemon, kernel and queue; the tables stay in step; the force_sync feedback loop ends |
| `SaveRestore` | flight mode and keys: what saving and restoring through the aggregate gives back |
| `Effects` | what each step leaves in both tables and in the remembered bits, device by device |
| `ForceSync` | with force_sync, hard implies soft over whole runs |
| `Restart` | startup, dispose and what survives a restart |
| `Device`, `Arbitrator` | the objects, their registry invariant and the event callback |
| `MatchOperators`, `ProfileParser`, `Config` | match rules, the SAX handlers against a recursive evaluator, profile fold and saved profile |
| `SessionChecker` | inhibitors, seats and the cached flag |
| `Client` | the client's mirror of the device list, on its own and over whole runs of daemon and kernel |

### Assumptions about the environment

* A CHANGE_ALL write that the kernel accepts sets the soft bit of every device of
  the type and queues one CHANGE for each device whose bit changed, in any listing
  order; a write that it refuses does nothing. Adding, deleting or changing a
  device from outside queues the event of that action.
* Events carry device types 1 to 8. `set_block` and key presses get such a type.
* D-Bus signals are delivered, in order. `urf_device_kernel_update_states` reports
  no change when the emission fails; the model has no such failure.
* The answer of udev to "is this a platform device" is a parameter (`udev`), and so
  are the session of a bus name, the contents of files and the random draws. The
  draws are assumed to reach every value sooner or later.
* A key file is a map from group and key to a string. The XML parser delivers the
  events of a well-nested document, in as many chunks of text as it likes; of a
  document it rejects it may have delivered any part that nests as far as it goes.

### Where the code does less than one might expect

Each of these is proved with its exact condition and a failing input.

* The state flight mode saves is overwritten by a second "on", so on, on, off does
  not restore (`SaveRestore.DoubleOnRestoresIff`, `DoubleOnLosesTheState`). One "on"
  and one "off" restore the state of every type, but not the soft bits of single
  devices (`FlightModeRestoresDevicesIff`, `OnOffLosesADevice`).
* The startup loop drops the CHANGE events of its own writes. With force_sync and
  without persist the tables can differ in soft bits after startup
  (`Restart.StartupInStepIff`, `StartupOutOfStep`), in spite of the code's purpose of
  syncing them. They never differ in devices, types or hard bits
  (`StartupIsAligned`), which is all that the end of the feedback loop needs
  (`EveryRunComesToRest`).
* A block does not survive a second dispose if no device of the type is left to
  carry it, and a hard block is saved as a block (`Restart.NextDisposeSavesSameIff`,
  `BlockForgottenWithoutDevice`).
* force_sync does not keep "hard implies soft" for every step: a refused write, an
  unblock request or a new hard-blocked device can break it
  (`ForceSync.StepKeepsIff`, `UnblockBreaksIt`). The daemon's own reactions never do
  (`HardImpliesSoftUnasked`).
* Adding or removing a seat does not recompute the inhibit flag
  (`SessionChecker.FlagAfterCallIff`, `NewSeatGoesUnnoticed`).
* `urf_client_enumerate_devices_sync` may be called any number of times as far as its
  documentation goes, but a second call adds every device again
  (`Client.EnumerateAgainIff`, `DuplicateOutlivesRemoval`).
* A match element with a known key that has a value, but without an operator
  attribute, crashes the parser (`ProfileParser.MatchCrashesIff`, `EvalFailsIff`,
  `MatchWithoutOperatorCrashes`), and with it the boot (`Config.BootFailsIff`).
* An attribute that is neither "key" nor an operator resets the operator, so that a
  comment after it makes a match fail (`ProfileParser.OperatorLostIff`,
  `ForeignResetsIff`, `CommentSpoilsMatch`).

## Model

| member | source | states |
|---|---|---|
| Aggregate.RefreshIsAggregate | src/urf-killswitch.c:113-150 | the loop over the list gives NO_ADAPTER iff there is no device, else HARD iff a platform device is hard or no platform device is blocked and another one is hard, UNBLOCKED iff none is blocked, else SOFT |
| Aggregate.OrderDoesNotMatter | src/urf-killswitch.c:132-150 | the state depends on the multiset of devices only, not on the order of the list |
| Aggregate.HighestBounds | src/urf-killswitch.c:132-147 | the running maximum of a class is an upper bound of its states and is reached by one of them |
| Convergence.ReplayConcat | src/urf-arbitrator.c:518-537 | reading a queue in two parts is reading it at once, for the table and for whether every event fits |
| Convergence.PatchReplay | src/urf-device-kernel.c:237-246 | an early local update changes what the replay of any queue gives by at most that same update, and never whether an event fits |
| Convergence.ChangesReplay | src/urf-device-kernel.c:228-242 | replaying the CHANGE events of a type-wide write, in any listing order, over any table of the same hardware sets exactly the listed devices whose bit the write changes |
| Convergence.WriteIsIdempotent | src/urf-killswitch.c:253-262 | repeating a write for each device of a type changes nothing and queues nothing after the first |
| Convergence.WriteKeepsConsistent | src/urf-device-kernel.c:221-247 | a type-wide write plus any early update of devices of that type keeps replayed daemon table and kernel table equal, and of the same devices, types and hard bits where only these agreed |
| Convergence.SetSoftKeepsConsistent | src/urf-device-kernel.c:221-247 | so does the write asked for by one device, for full and for hardware agreement |
| Convergence.SetBlockKeepsConsistent | src/urf-arbitrator.c:98-121 | so does (un)blocking a type |
| Convergence.FlightKeepsConsistent | src/urf-arbitrator.c:170-194 | so does the flight-mode loop from any type on |
| Convergence.HandleKeepsConsistent | src/urf-arbitrator.c:368-469 | so does handling the next event with every reaction force_sync and persist cause |
| Convergence.OutsideKeepsConsistent | src/urf-arbitrator.c:518-537 | so does any outside action, whose event is queued |
| Convergence.StepKeepsConsistent | src/urf-arbitrator.c:98-544 | so does every step of the system, for full and for hardware agreement |
| Convergence.TablesConverge | src/urf-arbitrator.c:368-544 | in every state of every run replaying the pending events onto the daemon's table gives the kernel's table, the next event fits, and an empty queue means equal tables |
| Convergence.HardwareConverges | src/urf-arbitrator.c:368-544 | the same for devices, types and hard bits alone, from any start where these agree, whatever the soft bits |
| Termination.ChangesCounts | src/urf-device-kernel.c:228-242 | the events of a write are no ADDs, hold no falling edge of a hard block, and no release if the write blocks |
| Termination.EdgesIgnorePatch | src/urf-device-kernel.c:244 | the early update neither hides nor adds a falling edge |
| Termination.SetSoftCounts | src/urf-device-kernel.c:221-247 | one write adds no pending ADD and no pending falling edge, and no pending release if it blocks; only the hardware of the tables has to be aligned |
| Termination.ChangeLowers | src/urf-arbitrator.c:368-405 | handling a CHANGE lowers the measure although force_sync may answer with a write |
| Termination.AddLowers | src/urf-arbitrator.c:257-296 | handling an ADD lowers it although it may cause two writes |
| Termination.HandleLowers | src/urf-arbitrator.c:368-469 | in every aligned state every handled event lowers (pending ADDs, falling hard edges to be seen, pending CHANGEs with soft 0, queue length) lexicographically |
| Termination.Drain | src/urf-arbitrator.c:518-537 | from every aligned state reading events until none is left ends, aligned and with an empty queue |
| Termination.RestMeansAgreement | src/urf-arbitrator.c:499-544 | at rest the tables have the same devices, types and hard bits, and from a consistent start every bit, for every mix of options |
| SaveRestore.AggregateOfSoftened | src/urf-killswitch.c:113-150 | the state of a type after a type-wide block or unblock, with a hard block hidden or showing |
| SaveRestore.OnOffRestores | src/urf-arbitrator.c:170-194 | blocking a type and undoing it with the state saved before gives the same state, including when blocking turned HARD into SOFT |
| SaveRestore.OnOnOffRestoresIff | src/urf-arbitrator.c:180-186 | undoing with the state saved by a second block restores iff the type was empty, SOFT, or its hard block shows |
| SaveRestore.FlightTypeEffect | src/urf-arbitrator.c:170-194 | one round of the loop sets one type to what it wants, saves its state, and leaves the state and saved state of every other type alone |
| SaveRestore.FlightFromEffect | src/urf-arbitrator.c:170-194 | the whole loop: every device gets what its type wanted before the loop began |
| SaveRestore.FlightModeRestores | src/urf-arbitrator.c:155-197 | for every mix of devices "on" then "off" gives every type its state back, writes succeeding and no events between |
| SaveRestore.FlightModeRestoresDevicesIff | src/urf-arbitrator.c:155-197 | the device table itself comes back iff every soft bit was already the one its type is left with |
| SaveRestore.OnOffLosesADevice | src/urf-arbitrator.c:155-197 | of two radios the unblocked one stays blocked after on, off |
| SaveRestore.DoubleOnRestoresIff | src/urf-arbitrator.c:180-181 | exactly when on, on, off restores the state of a type |
| SaveRestore.DoubleOnLosesTheState | src/urf-arbitrator.c:180-181 | a single unblocked radio stays blocked after on, on, off |
| SaveRestore.FlightModeRemembered | src/urf-arbitrator.c:168 | flight mode leaves its own bit remembered whatever the writes do, so storing it again changes nothing |
| SaveRestore.PressTwice | src/urf-daemon.c:192-208 | a second press always moves the aggregate back, hard blocks or not |
| SaveRestore.PressMoves | src/urf-daemon.c:192-208 | a press moves the aggregate iff there is a device and no hard block shows; without hard blocks it flips UNBLOCKED and SOFT |
| SaveRestore.KeyPressEffect | src/urf-daemon.c:156-208 | a press changes what the killswitch of the type sees as the toggle on switches says |
| SaveRestore.EvenPressesRestore | src/urf-daemon.c:156-208 | any even number of presses restores the state of the type, for every mix of devices |
| SaveRestore.OddPressesMoveIff | src/urf-daemon.c:156-208 | an odd number changes it iff there is a device and no hard block shows |
| Effects.ChangeEffect | src/urf-arbitrator.c:368-405 | a CHANGE overwrites the bits of a tracked device; with force_sync and writes accepted a hard block that goes away unblocks it and its whole type in the kernel, a hard block without a soft one blocks them; in all other cases the kernel is left alone |
| Effects.AddEffect | src/urf-arbitrator.c:257-296 | a new device is listed with the remembered bit under persist and writes accepted, else with its own; the kernel's type gets that bit iff persist or, for a non-platform device, force_sync asks for it; a known index changes nothing |
| Effects.DelEffect | src/urf-arbitrator.c:411-441 | a removed device is forgotten, and with the last of a type the state saved for the type |
| Effects.SetBlockEffect | src/urf-arbitrator.c:98-121 | a request succeeds iff the type has no device or writes are accepted; it is then remembered, for that type alone, and carried by every device of the type in both tables; a failed one changes nothing |
| Effects.SetBlockIdxEffect | src/urf-arbitrator.c:126-150 | updates the one device in the daemon's table and its whole type in the kernel's, and remembers nothing |
| Effects.KeyPressTables | src/urf-daemon.c:192-208 | a press blocks every device of the type, unless the aggregate is SOFT, then it unblocks them; the type remembers that |
| Effects.FlightTables | src/urf-arbitrator.c:155-197 | with writes accepted "on" blocks every device and "off" unblocks every one but those of a type whose saved state is its aggregate and SOFT or HARD; the kernel's devices of tracked types follow, and each such type remembers its bit |
| Effects.OffWithoutOn | src/urf-arbitrator.c:183-186 | with nothing saved "off" unblocks every device |
| Effects.FlightRefused | src/urf-arbitrator.c:168-194 | with writes refused only the bit of flight mode itself is remembered |
| Effects.StepRemembers | src/urf-arbitrator.c:113-118 | every step leaves a type's remembered bit at what it successfully asks of the type, or as it was |
| Effects.LastAskedIsRemembered | src/urf-arbitrator.c:113-118 | over any run a type remembers the last bit it was successfully asked for |
| Effects.NewDeviceCarriesLastAsked | src/urf-arbitrator.c:280-291 | with persist and writes accepted a device that appears later has that bit, and so has its whole type in the kernel |
| ForceSync.HandleKeepsIff | src/urf-arbitrator.c:386-404 | handling an event keeps "hard implies soft" iff a condition on the event and the remembered bit holds |
| ForceSync.SetBlockKeepsIff | src/urf-arbitrator.c:98-121 | (un)blocking a type keeps it iff the write is refused, blocks, or the type has no hard block |
| ForceSync.FlightKeepsIff | src/urf-arbitrator.c:155-197 | flight mode keeps it iff the write is refused or every type with a hard block wants to be blocked |
| ForceSync.StepKeepsIff | src/urf-arbitrator.c:98-469 | for every step, the condition `Keeps`, which can be checked before the step, is exact |
| ForceSync.UnblockBreaksIt | src/urf-arbitrator.c:98-121 | unblocking a hard-blocked radio breaks it |
| ForceSync.HardImpliesSoftOverRuns | src/urf-arbitrator.c:368-405 | over whole runs of such steps it holds in the daemon's table in every state, whatever the kernel's table |
| ForceSync.HardImpliesSoftInKernel | src/urf-arbitrator.c:368-405 | from a consistent start it then holds in the kernel's table whenever the queue is empty |
| ForceSync.HardImpliesSoftUnasked | src/urf-arbitrator.c:386-404 | with writes accepted and no pending ADD, no run of outside changes and removals and the daemon's reactions ever breaks it, in the daemon's table after every step and in the kernel's whenever the queue is empty |
| Restart.RestartGivesSavedBit | src/urf-arbitrator.c:569-621 | starting with persist, any devices in any order: equal tables, empty queue, every device with the soft bit remembered for its type |
| Restart.FirstStartUnblocks | src/urf-config.c:763-786 | a first start with persist and nothing remembered leaves every device unblocked in both tables |
| Restart.StartupTouchesNothing | src/urf-arbitrator.c:549-624 | with neither persist nor force_sync, or with writes refused, startup changes no device and tracks each as it is |
| Restart.ForcedLoop | src/urf-arbitrator.c:579-606 | during startup with persist every type that has a tracked device already has the remembered bit everywhere in the kernel |
| Restart.ImposedLoop | src/urf-arbitrator.c:276-278 | during startup with force_sync alone each type carries the first bit of some non-platform device of it |
| Restart.LoopKeepsHardware | src/urf-arbitrator.c:579-606 | startup changes no device's type, hard bit or existence |
| Restart.StartupInStepIff | src/urf-arbitrator.c:579-621 | startup ends with equal tables iff it is not the case of force_sync without persist, accepted writes and a type whose devices start with different bits |
| Restart.StartupIsConsistent | src/urf-arbitrator.c:549-624 | a startup that ends in step is a start from which `TablesConverge` applies |
| Restart.StartupIsAligned | src/urf-arbitrator.c:549-624 | every startup, whatever the options, ends with the right devices, types and hard bits |
| Restart.EveryRunComesToRest | src/urf-arbitrator.c:499-624 | in every state of every run after any startup, reading the queue ends, and then the daemon has the kernel's devices, types and hard bits |
| Restart.StartupOutOfStep | src/urf-arbitrator.c:600-601 | two radios that start with different bits end with different tables |
| Restart.DisposeSavesBlocked | src/urf-arbitrator.c:654-660 | the bit saved for a type is true iff some device of it is soft- or hard-blocked |
| Restart.BlocksSurviveRestart | src/urf-arbitrator.c:616-660 | dispose, then start with any devices: a device is soft-blocked iff its type had a blocked device at dispose |
| Restart.NextDisposeSavesSameIff | src/urf-config.c:763-803 | the next dispose saves the same bit iff a true bit still finds a device, and a false one no hard block |
| Restart.BlockForgottenWithoutDevice | src/urf-arbitrator.c:654-660 | a remembered block without a device of its type is forgotten by the next dispose |
| Device.KernelDevice.constructor | src/urf-device-kernel.c:523-540 | a new device carries the bits of its event and one reference |
| Device.KernelDevice.SetSoft | src/urf-device-kernel.c:220-247 | writes for the whole type; updates its own copy iff the write goes through |
| Device.KernelDevice.UpdateStates | src/urf-device-kernel.c:130-161 | overwrites both bits and reports whether one of them was different |
| Device.Killswitch.CurrentState | src/urf-killswitch.c:129-150 | the two-maxima loop computes the specified state of the list |
| Device.Killswitch.Refresh | src/urf-killswitch.c:112-171 | stores that state; forgets the saved state exactly when the list is empty |
| Device.Killswitch.GetState | src/urf-killswitch.c:173-178 | a query refreshes first, so its answer is never stale |
| Device.Killswitch.AddDevice | src/urf-killswitch.c:205-221 | prepends a device of its own type once and takes a reference; otherwise nothing changes |
| Device.Killswitch.DelDevice | src/urf-killswitch.c:226-240 | removes a listed device and drops the reference; otherwise nothing changes |
| Device.Killswitch.SetSoftwareBlocked | src/urf-killswitch.c:245-265 | one write per device has the effect of one type-wide write; true iff the list is empty or the writes go through |
| Arbitrator.PersistenceFile.Set | src/urf-config.c:791-803 | stores for one type whether the level is above UNBLOCKED |
| Arbitrator.UrfArbitrator.constructor | src/urf-arbitrator.c:629-642 | a fresh arbitrator has no devices, one empty killswitch per type and none for type 0 |
| Arbitrator.UrfArbitrator.RegistryMeans | src/urf-arbitrator.c:257-296 | indices are unique; every device is in the killswitch list of its type with two references; lists hold tracked devices of their own type only, each once |
| Arbitrator.UrfArbitrator.FindDevice | src/urf-arbitrator.c:76-93 | the linear search finds the tracked device of an index iff there is one |
| Arbitrator.UrfArbitrator.SetBlockIdx | src/urf-arbitrator.c:126-150 | keeps the registry; acts as the abstract step; true iff the device exists and the write goes through |
| Arbitrator.UrfArbitrator.SetBlock | src/urf-arbitrator.c:98-121 | keeps the registry; the new state is that of the abstract request, whose effect on both tables and on what is remembered is `Effects.SetBlockEffect`; true iff the type has no device or the kernel accepts writes |
| Arbitrator.UrfArbitrator.GetState | src/urf-arbitrator.c:202-223 | answers the aggregate of the abstract table and refreshes that one killswitch |
| Arbitrator.UrfArbitrator.FlightType | src/urf-arbitrator.c:171-193 | one round of the loop is the abstract round; acts iff the type has a device |
| Arbitrator.UrfArbitrator.FlightLoop | src/urf-arbitrator.c:170-196 | the loop from any type on is the abstract loop; the result is that of the last type acted on |
| Arbitrator.UrfArbitrator.SetFlightMode | src/urf-arbitrator.c:155-197 | the new state is that of abstract flight mode, whose effect on both tables and on what is remembered is `Effects.FlightTables`; true iff there is a device and the kernel accepts writes |
| Arbitrator.UrfArbitrator.AddKillswitch | src/urf-arbitrator.c:445-469 | a known index is ignored; a new one is listed twice, synced and restored as the abstract step says, with the registry kept |
| Arbitrator.UrfArbitrator.SyncNewDevice | src/urf-arbitrator.c:276-291 | force_sync writes a new device's own bit unless it is a platform device, then persist the remembered one |
| Arbitrator.UrfArbitrator.RemoveKillswitch | src/urf-arbitrator.c:410-441 | an unknown index is ignored; a known one leaves both lists and ends with no reference |
| Arbitrator.UrfArbitrator.UpdateKillswitch | src/urf-arbitrator.c:367-405 | keeps the registry and acts as the abstract step for a CHANGE, whose effect on both tables is `Effects.ChangeEffect` |
| Arbitrator.UrfArbitrator.HandleEvent | src/urf-arbitrator.c:524-530 | one event is one abstract reaction, with the registry kept |
| Arbitrator.UrfArbitrator.EventCb | src/urf-arbitrator.c:501-544 | from every aligned state, so after every startup, the callback's loop ends with an empty queue and the kernel's devices, types and hard bits; from a consistent state with equal tables |
| Arbitrator.UrfArbitrator.ReadInitialEvents | src/urf-arbitrator.c:579-606 | the startup loop ends and takes in exactly the ADDs, whatever its own writes queue |
| Arbitrator.UrfArbitrator.BlockSaved | src/urf-arbitrator.c:616-621 | imposes the remembered bit on every type from a given one on |
| Arbitrator.UrfArbitrator.Startup | src/urf-arbitrator.c:549-624 | the three phases of startup on the object are those of the abstract startup |
| Arbitrator.UrfArbitrator.Dispose | src/urf-arbitrator.c:647-660 | with persist, saves the bit of every type as the abstract dispose does; without it, none |
| Arbitrator.UrfDaemon.InputEvent | src/urf-daemon.c:155-222 | nothing happens while inhibited or for another key; otherwise each key presses its own type, 1 to 4, with the effect `Effects.KeyPressTables` |
| Arbitrator.UrfDaemon.FlightMode | src/urf-daemon.c:348-398 | refused without devices or authority; its own flag changes exactly on success |
| MatchOperators.MatchRule | src/urf-config.c:173-284 | the token loops decide the rule of each operator on every subject and body; what the rules are on plain strings is `PlainOperators`, `NcaseOperators` and `OutofOperators` |
| MatchOperators.PlainOperators | src/urf-config.c:188-263 | on nonempty strings: string is equality; prefix, suffix and contains mean that the subject is the body with something after, before, or around it; contains_not that it is not; UNKNOWN never fits |
| MatchOperators.NcaseOperators | src/urf-config.c:206-263 | the _ncase operators mean a stretch of the subject, at the start, at the end or anywhere, that agrees with the body letter by letter up to ASCII case |
| MatchOperators.OutofOperators | src/urf-config.c:192-282 | the _outof operators mean that for some nonempty stretch of the body between separators |
| MatchOperators.EmptyNeverFits | src/urf-config.c:184-185 | no rule fits an empty subject or an empty body |
| MatchOperators.SplitFindsTokens | src/urf-config.c:193-193 | splitting finds exactly the stretches between separators |
| MatchOperators.SplitJoins | src/urf-config.c:193-200 | the tokens rejoin to the body and hold no separator |
| MatchOperators.OutofIsSomeToken | src/urf-config.c:192-282 | an outof operator holds iff its base operator holds for some nonempty stretch of the body between separators |
| MatchOperators.NoSeparatorIsBase | src/urf-config.c:192-282 | without a separator the outof operators are their base operators |
| MatchOperators.OperatorLaws | src/urf-config.c:202-263 | contains_not negates contains on nonempty strings; prefix and suffix imply contains, with and without case |
| ProfileParser.ParseInfo.ReadMatch | src/urf-config.c:357-369 | for every attribute list: the key is the value of the last name read as "key", the operator that of the last other name read, the body the value of the last operator; a name is read unless it is the value of a known name |
| ProfileParser.MatchOfPairs | src/urf-config.c:357-369 | for names and values in turn: the last key, and the last other attribute with its body if it is an operator; STRING and no body if there is none |
| ProfileParser.AttributeOrderDoesNotMatter | src/urf-config.c:357-369 | a key and an operator mean the same in either order |
| ProfileParser.OperatorLostIff | src/urf-config.c:363-363 | for every attribute list the operator ends UNKNOWN, so that no rule fits, iff the last name read other than "key" is no operator |
| ProfileParser.ForeignResetsIff | src/urf-config.c:363-363 | for names and values in turn: iff the last attribute but "key" is a foreign one |
| ProfileParser.CommentSpoilsMatch | src/urf-config.c:363-373 | a comment attribute after the operator turns a match that fits into one that fails |
| ProfileParser.MatchCrashesIff | src/urf-config.c:371-372 | for every attribute list a match element crashes the parser iff its key has a value that is not empty and no operator with a body is read |
| ProfileParser.PairsCrashIff | src/urf-config.c:371-372 | for names and values in turn: iff, besides, it carries no operator at all |
| ProfileParser.ParseInfo.ReadOption | src/urf-config.c:375-387 | for every attribute list the key of an option is the value of the last name read as "key", where "type" takes a value too |
| ProfileParser.ParseInfo.Start | src/urf-config.c:333-394 | acts as the abstract start handler on all four fields |
| ProfileParser.ParseInfo.End | src/urf-config.c:396-409 | acts as the abstract end handler |
| ProfileParser.ParseInfo.CData | src/urf-config.c:286-331 | acts as the abstract text handler; what a text then sets is `OptionText` |
| ProfileParser.ParseInfo.Feed | src/urf-config.c:440-447 | a stream of events has the effect of the handlers one after the other |
| ProfileParser.ClosedGate | src/urf-config.c:346-349 | behind a failed match a whole element changes nothing |
| ProfileParser.OpenGate | src/urf-config.c:346-409 | through an open gate a whole element restores both counters, clears the option and does what the evaluator says |
| ProfileParser.ParserIsEvaluator | src/urf-config.c:286-459 | over any document the handlers give the options of the recursive evaluator, and crash exactly where it has no answer |
| ProfileParser.OptionText | src/urf-config.c:301-328 | a text in an option element sets exactly the option its key names to true or false if it reads so letter by letter in any case; any other text or key sets none |
| ProfileParser.TextElsewhere | src/urf-config.c:294-297 | text in any other element sets nothing |
| ProfileParser.ElementAround | src/urf-config.c:356-393 | an element counts for what it encloses only as a match, and only if it fails |
| ProfileParser.MatchKeys | src/urf-config.c:122-141 | each of the six keys compares with its own piece of hardware information; a missing piece, another key or an unknown machine passes, an empty piece never does |
| ProfileParser.MatchOperatorNames | src/urf-config.c:144-171 | each of the twelve operator attributes applies its own rule |
| ProfileParser.EvalFailsIff | src/urf-config.c:371-373 | the evaluator has no answer, so the parser crashes, iff a match that cannot be decided is reached through passing elements only; options and text play no part |
| ProfileParser.MatchWithoutOperatorCrashes | src/urf-config.c:371-373 | a document of one match without an operator crashes the parser |
| ProfileParser.BoundMeaning | src/urf-config.c:348-354 | the bound of a stack of verdicts is the depth of the outermost failed match, or one more than the depth |
| ProfileParser.GateInvariant | src/urf-config.c:346-409 | on every nested prefix: depth counts the open elements, the bound is that of the verdict stack, an option is current only while no match has failed |
| ProfileParser.RunFailsIff | src/urf-config.c:346-373 | a stream that stops anywhere crashes the handlers iff it holds a start tag that cannot be decided, behind no failed match |
| ProfileParser.NeverRebounds | src/urf-config.c:350-351 | the branch that would raise the bound again is never taken |
| ProfileParser.DocumentsNest | src/urf-config.c:440-447 | the events of any element nest and balance |
| ProfileParser.GateInsideDocuments | src/urf-config.c:346-409 | the gate invariant at every point of parsing any document |
| Config.SavedReadsBack | src/urf-config.c:488-560 | options written to the saved profile read back, whatever the options were before |
| Config.Sort | src/urf-config.c:577-633 | sorted by byte order and a permutation |
| Config.SortedIsUnique | src/urf-config.c:577-633 | names have only one sorted order |
| Config.NameLeqIff | src/urf-config.c:577-582 | the name order is equality or being before in byte order: a proper beginning, or the smaller character at the first difference |
| Config.SelectedIff | src/urf-config.c:622-628 | selected are exactly the listed regular files whose name is a stem followed by .xml and begins with no dot |
| Config.ProfilesInNameOrder | src/urf-config.c:633-641 | of two profiles the earlier in byte order is applied first, however the directory lists them |
| Config.LaterProfileWins | src/urf-config.c:633-641 | of two profiles that set one option the later in byte order wins |
| Config.ListingOrderDoesNotMatter | src/urf-config.c:621-641 | the fold does not depend on the order in which the directory lists its files |
| Config.FailuresContributeNothing | src/urf-config.c:422-451 | the fold over all profiles is the fold over those that are read and parsed |
| Config.DirectoryFailsIff | src/urf-config.c:621-641 | the fold fails iff some listed profile holds a match that crashes the parser, whatever the options |
| Config.BootFailsIff | src/urf-config.c:588-657 | a boot fails iff no profile is saved, the hardware is known and some listed profile crashes the parser |
| Config.BootThatFindsNothing | src/urf-config.c:602-613 | without saved profile, profiles and urfkill.conf a boot has persist on, master key and force_sync off, and key control on iff the hardware is known |
| Config.ConfTexts | src/urf-config.c:705-710 | only "true" and "1" or "false" and "0" set an option of urfkill.conf; another text leaves the default |
| Config.SavedProfileRules | src/urf-config.c:599-600 | with a saved profile every later boot gives its options under urfkill.conf and cannot fail |
| Config.FirstSaveDecides | src/urf-config.c:588-713 | after a boot that folded and saved, all later boots with the same urfkill.conf give the same four options whatever hardware and profiles say; they fail iff the first did, which is iff a profile it listed crashes the parser |
| Config.BeforeAnySave | src/urf-config.c:602-656 | until then each boot uses its own fold, or without hardware information the defaults with key control off; exactly which of them fail |
| Config.UrfConfig.ProfileXmlParse | src/urf-config.c:411-463 | the options change only through a document that parses, and then to the evaluator's |
| Config.UrfConfig.LoadConfiguredSettings | src/urf-config.c:465-519 | succeeds iff the saved profile loads and has its group; each key overrides alone |
| Config.UrfConfig.ListProfiles | src/urf-config.c:621-631 | selects the regular .xml files that do not start with a dot |
| Config.UrfConfig.ParseProfiles | src/urf-config.c:635-641 | folds the profiles in list order |
| Config.UrfConfig.LoadProfile | src/urf-config.c:587-657 | options and saved profile end as the boot function says |
| Config.UrfConfig.LoadFromFile | src/urf-config.c:662-713 | the whole boot, with urfkill.conf last |
| SessionChecker.StepKeepsSound | src/urf-session-checker-logind.c:226-291 | every call keeps cookies in range and cookies and bus names distinct |
| SessionChecker.ListedStep | src/urf-session-checker-logind.c:229-398 | what is listed after a call is what was listed and not released by it, or just granted |
| SessionChecker.RegistryRefinesHistory | src/urf-session-checker-logind.c:226-398 | after any history a bus name is listed, once, with a cookie iff it was granted that cookie and neither gave it back nor left since |
| SessionChecker.MembersAreStanding | src/urf-session-checker-logind.c:226-291 | after any history the list holds exactly the inhibitors created while their name held none and not released since, each with the session, reason and draw of its call |
| SessionChecker.FlagMeansStandingSession | src/urf-session-checker-logind.c:131-291 | the flag is up iff the active session of some seat has such an inhibitor, as long as no seat change went unnoticed |
| SessionChecker.SeatsStep | src/urf-session-checker-logind.c:161-353 | which seats are listed with which session after each call, paths staying distinct |
| SessionChecker.SeatsStayDistinct | src/urf-session-checker-logind.c:322-353 | seat paths stay distinct over every history |
| SessionChecker.SeatComesAndGoes | src/urf-session-checker-logind.c:296-353 | a new seat that is removed again leaves the registry as it was |
| SessionChecker.RepeatIsHarmless | src/urf-session-checker-logind.c:239-241 | who holds a cookie and inhibits again gets the same cookie and changes nothing |
| SessionChecker.UninhibitUndoes | src/urf-session-checker-logind.c:254-290 | giving a fresh cookie back restores the list and recomputes the flag |
| SessionChecker.FlagAfterCallIff | src/urf-session-checker-logind.c:131-353 | a right flag stays right after every call, except exactly a new seat with an inhibited session and the removal of the one seat whose session is inhibited |
| SessionChecker.NewSeatGoesUnnoticed | src/urf-session-checker-logind.c:296-333 | a new seat whose session holds an inhibitor leaves the flag down |
| SessionChecker.FlagOverHistories | src/urf-session-checker-logind.c:131-398 | from a right flag, or from any call that renews it, the flag is right as long as no such seat change occurs |
| SessionChecker.FreeCookieExists | src/urf-session-checker-logind.c:218-221 | with fewer than G_MAXINT - 1 inhibitors some cookie in range is free |
| SessionChecker.UrfSessionChecker.IsInhibited | src/urf-session-checker-logind.c:131-147 | the nested loops decide whether some seat's active session has an inhibitor |
| SessionChecker.UrfSessionChecker.GenerateUniqueCookie | src/urf-session-checker-logind.c:212-224 | the rejection loop ends with the first draw that no inhibitor has |
| SessionChecker.UrfSessionChecker.Inhibit | src/urf-session-checker-logind.c:229-260 | 0 and no change without a proxy or a session; the old cookie for a holder; else a new inhibitor in front |
| SessionChecker.UrfSessionChecker.Uninhibit | src/urf-session-checker-logind.c:279-291 | releases the holder of the cookie, if any |
| SessionChecker.UrfSessionChecker.BusOwnerChanged | src/urf-session-checker-logind.c:383-398 | releases a name that left the bus, if it held a cookie |
| SessionChecker.UrfSessionChecker.SeatActiveChanged | src/urf-session-checker-logind.c:161-168 | one seat gets its new session and the flag is recomputed |
| SessionChecker.UrfSessionChecker.SeatAdded | src/urf-session-checker-logind.c:296-333 | an unknown seat that can be read is prepended; the flag is left alone |
| SessionChecker.UrfSessionChecker.RemoveSeat | src/urf-session-checker-logind.c:338-353 | a known seat leaves the list; the flag is left alone |
| Client.PresentTwice | liburfkill-glib/urf-client.c:122-161 | hearing a log twice gives the presence that hearing it once gives |
| Client.MirrorPresence | liburfkill-glib/urf-client.c:122-161 | a client never lists a path twice on signals alone, and lists it iff the last signal about it says so |
| Client.TrackedIsMirror | src/urf-arbitrator.c:265-296 | on the log the daemon emits, its unchecked list and a checked mirror are the same |
| Client.MirrorConverges | liburfkill-glib/urf-client.c:105-161 | a snapshot after n signals followed by the signals from any m <= n on ends with the daemon's paths, each once |
| Client.ClientConverges | liburfkill-glib/urf-client.c:186-249 | the same for the client as it is gated: whatever it heard before its first successful enumeration |
| Client.EnumerateAgainIff | liburfkill-glib/urf-client.c:207-209 | a client in step with the daemon can enumerate again without duplicates iff it lists nothing yet |
| Client.DuplicateOutlivesRemoval | liburfkill-glib/urf-client.c:149-156 | a path listed twice is still listed after its removal signal |
| Client.ObjectPathIsInjective | src/urf-device.c:462-468 | different indices have different object paths |
| Client.DecimalReadsBack | src/urf-device.c:462-468 | the digits in a path spell the index, without leading zeros |
| Client.SilentMeansSame | src/urf-daemon.c:625-720 | an event that causes no signal leaves the daemon as it was |
| Client.StepKeys | src/urf-arbitrator.c:257-469 | only a handled ADD or DEL changes which devices the daemon tracks |
| Client.LogShows | src/urf-daemon.c:300-327 | over any run the daemon adds only what it does not track, removes only what it does, and its list shows its table |
| Client.ClientFollowsDaemon | liburfkill-glib/urf-client.c:736-768 | over any run of daemon, kernel and outside world, a client that enumerates at any point, having missed any earlier signals, shows exactly the daemon's devices |
| Client.ClientFollowsKernel | liburfkill-glib/urf-client.c:736-768 | after any startup, once the queue is empty, these are the kernel's devices |
| Client.UrfClient.FindDevice | liburfkill-glib/urf-client.c:82-100 | the search finds the first device of a path |
| Client.UrfClient.OnDeviceAdded | liburfkill-glib/urf-client.c:122-137 | appends an unknown path and tells the application exactly then |
| Client.UrfClient.OnDeviceRemoved | liburfkill-glib/urf-client.c:142-161 | removes the first device of a known path and tells the application exactly then |
| Client.UrfClient.EnumerateDevicesSync | liburfkill-glib/urf-client.c:185-249 | appends the whole reply and opens the gate; a failed call changes nothing |
| Client.UrfClient.ProxySignal | liburfkill-glib/urf-client.c:735-768 | before the first enumeration nothing is believed; after it a signal is passed on exactly when it is news |

## Left out

- oFono devices and their manager (src/urf-device-ofono.c, src/urf-ofono-manager.c): their bits change only when an asynchronous reply arrives; all claims are about kernel devices.
- The master key option, KEY_RFKILL and RFKILL_TYPE_ALL as the type to block: they lead to the killswitch of type 0, which is NULL.
- The state property a killswitch publishes between queries: it listens to "state-changed" (src/urf-killswitch.c:217) while kernel devices emit "changed" (src/urf-device-kernel.c:142), so it is fresh only after a query, an add or a removal; the model states nothing about it in between.
- The failure of a D-Bus emission in urf_device_kernel_update_states, which would suppress the force_sync reaction.
- The opt_type field of the parser and the type attribute of options: stored, but never read.
- D-Bus registration and introspection, polkit, udev, input devices, syslog, daemonising and dropping privileges: input and output around the core; the answers the core needs are parameters.
- src/urf-session-checker-consolekit.c and src/urf-session-checker-none.c: a twin and a stub of the logind checker.
- How a seat learns of its session (src/urf-seat-logind.c:71-88): the change of the active session is the input of the model.
- The user setting of urfkill.conf and the mode bits of the saved profile: no decision of the core depends on them.
- Writing the persistence file to disk at exit: the remembered bits are taken to be those of the last run.
- SessionChecker.UrfSessionChecker.Inhibit: assumes fewer than G_MAXINT - 1 inhibitors, because with all cookies taken the rejection loop never ends.
- ProfileParser.ParseInfo.Start: requires that the match has an operator attribute where one is needed, because the C code dereferences NULL there; `ProfileParser.Passes` says when.
- Arbitrator.UrfArbitrator.EventCb: promises equal soft bits from a consistent state only, which a startup need not reach (Restart.StartupInStepIff); that the loop ends, with the right devices, types and hard bits, is promised after every startup.
- ProfileParser.MatchOfPairs: speaks of lists in which no foreign attribute has the name of an operator or "key" as its value; ProfileParser.ParseInfo.ReadMatch, OperatorLostIff and MatchCrashesIff cover every list.
- Devices that other programs or the hardware add, delete or change while startup itself is reading: startup begins with one ADD per device and nothing else in the queue.
