# Verified model of Evok

Evok bridges APIs to Modbus units in one asyncio process. The code between two `await`s is atomic, so its correctness is
about what the tasks do to shared state between them. This project models six parts of it as state machines whose
steps are these atomic blocks, and proves what holds over all their runs. An object of the source is a class whose
methods are proved against functions on its value; the runs are stated on the values.

- **The lock of a bus with sessions** (`SessionLock`, `SessionRuns`). The requests of a change go first, the other
  requests of its unit wait until its session ends, turns keep the scans from starving. Proved: mutual exclusion, no
  lost wake-up, session isolation, no overtaking of scans by changes or of changes by scans, the order of arrival. A
  future is cancelled in one step and its task cleans up in another one, as in asyncio. Between them a stale turn can
  break the isolation of the next session, and the exact condition is proved. That run belongs to the lock: it needs a
  second request of the unit outside its sessions while the cancelled one is still in the deque. In the program only the
  scan task of a unit sends such requests, one after another, and a scan started again after a cancelled one sleeps
  first (src/evok/modbus/scanner.py:66-80 and 172-173), so nobody sends the second one.
- **Deadlock freedom** (`SerialLinks`, `Deadlock`). The unit locks, the serial buses held by a restart in the order of
  their paths, the locks of the buses and the sessions never make a circular wait, for any number of units and tasks.
- **The register cache and the change protocol** (`RegisterGroups`, `RegisterCache`, `PlainCache`, `CacheRuns`,
  `ScanRuns`, `ClientChange`, `ChangeEvents`, `ModbusClient`, `Bits`, `BitWrites`). The lists of blocks refine one plain
  map of registers. Pins hold against stale reads and let go, the scans keep their phase, a change reads what it wrote,
  and bit writes are not lost exactly when the unit is fast enough for the kept time.
- **The sequencer** (`Sequencer`, `SequenceRuns`, `Shutdown`). Tasks write timed steps with retries, refusals, cancels,
  replacements and shutdown, among changes by the API. Proved: the trace of every sequence, the hand-over of a pulse,
  the end of a replaced sequence, the restored outputs.
- **Aliases** (`Aliases`, `AliasRuns`, `DeviceList`, `AliasPlanner`, `SetDevices`). The registry is a bijection and
  survives a restart, the planner predicts a batch exactly, a batch leaves at most one unit partly done.
- **Hardware PWM** (`Pwm`, `PwmGroup`). Error bounds of the divider and duties which do not drift, in exact rationals.

Where a property fails for some inputs, the code is modelled as it is, the failing input is a lemma, and the exact
condition is proved for all inputs: a cancelled request and session isolation, slow units and bit writes, an empty alias
in the file, an alias which is a circuit, cycles out of 1000..65535, duties which show as 0.

Times are whole milliseconds of a monotone clock; requests to units are parameters: the values they
return, or their failure. `dafny verify dfyconfig.toml` checks the project.

## Model

| member | source | states |
|---|---|---|
| SessionLocks.SessionLock.IsBlocked | src/evok/modbus/transport.py:59-60 | a request outside the session of its unit is blocked while the session is open, unless the unit has a turn |
| SessionLocks.SessionLock.FindFirst | src/evok/modbus/transport.py:107-124 | a search of `_wake()`: the first live waiter of the kind in the order of arrival, or none |
| SessionLocks.SessionLock.DoWake | src/evok/modbus/transport.py:107-129 | a free lock is handed to the holder of a turn, else after a session to the first unblocked waiter, else to a session, else to the first unblocked one; the turn is used up, the lock is locked, the waiter leaves the deque |
| SessionLocks.SessionLock.ScheduleWake | src/evok/modbus/transport.py:103-105 | a call of `_wake()` is queued exactly if a live waiter exists |
| SessionLocks.SessionLock.OtherUnits | src/evok/modbus/transport.py:86-93 | the units of exactly the live requests outside a session |
| SessionLocks.SessionLock.PruneTurns | src/evok/modbus/transport.py:86-93 | exactly the turns with a live request of their unit outside a session are kept; without any such request the other turn is dropped |
| SessionLocks.SessionLock.DoRelease | src/evok/modbus/transport.py:95-101 | a locked lock is freed and a wake is scheduled if anybody waits; the error of an unlocked one changes nothing |
| SessionLocks.SessionLock.Enter | src/evok/modbus/transport.py:38-43 | one more session of the unit |
| SessionLocks.SessionLock.Exit | src/evok/modbus/transport.py:44-54 | one session less, a turn for the unit and for the other units exactly if they wait, a wake scheduled |
| SessionLocks.SessionLock.Request | src/evok/modbus/transport.py:62-79 | `acquire()` up to its suspension: the whole new state and the waiter granted by it, if any |
| SessionLocks.SessionLock.Finish | src/evok/modbus/transport.py:74-84 | the end of `acquire()`: a handed and cancelled waiter passes the lock on, the waiter leaves the deque, turns without a request are dropped |
| SessionRuns.StepKeeps | src/evok/modbus/transport.py:38-129 | every step keeps: one owner, every turn backed by a waiter, a scheduled wake for every grantable free lock |
| SessionRuns.RunKeeps | src/evok/modbus/transport.py:38-129 | the invariant in every reachable state |
| SessionRuns.MutualExclusion | src/evok/modbus/transport.py:62-129 | over every run the lock is granted only when nobody owns it, the owner counted from the moment it was handed the lock |
| SessionRuns.NoLostWakeUp | src/evok/modbus/transport.py:62-129 | whenever the lock is free and a live waiter is not blocked, a wake is scheduled and grants, also after a cancelled handed waiter and after a session |
| SessionRuns.IdleBusGrants | src/evok/modbus/transport.py:62-73 | on a bus which nobody owns and nobody waits for, a request which no session blocks is granted at once |
| SessionRuns.KindOfRequest | src/evok/modbus/transport.py:62-73 | a request is one of a session exactly if its task runs in the context of the unit while its session is open, granted or queued |
| SessionRuns.TurnsAreOfLive | src/evok/modbus/transport.py:74-93 | when a request leaves `acquire()`, every turn left, and the other turn, has a live request |
| SessionRuns.WakesExactly | src/evok/modbus/transport.py:95-105 | a release or the end of a session schedules one wake exactly if a live request waits |
| SessionRuns.ExitUndoesEnter | src/evok/modbus/transport.py:38-54 | the end of a session undoes its start, also inside another session of the unit |
| SessionRuns.OtherGrantIsTurn | src/evok/modbus/transport.py:107-129 | inside a session another request of its unit is granted only by a turn, which is used up, unless the request takes a free lock while a cancelled one of the unit is in the deque |
| SessionRuns.SessionHasOneTurn | src/evok/modbus/transport.py:38-129 | over every run, from the start of a session to its end at most one other request of its unit is granted, and none if no turn is left, when no other request of the unit arrives while a cancelled one is in the deque |
| SessionRuns.TurnsGoFirst | src/evok/modbus/transport.py:107-129 | while a live request has a turn, no request of a session is granted |
| SessionRuns.SessionsGoBeforeOthers | src/evok/modbus/transport.py:107-124 | without turns a waiting request of a session goes before all others |
| SessionRuns.SessionIsolation | src/evok/modbus/transport.py:38-129 | after the first granted request of a session no other request of its unit is granted until the session ends, in every run in which no other request of the unit arrives while a cancelled one of it is in the deque |
| SessionRuns.IsolatedExactlyWithoutTurn | src/evok/modbus/transport.py:38-129 | without that assumption: every run from a reachable state keeps the session isolated if and only if its unit has no turn |
| SessionRuns.CancelledScanLeavesTurn | src/evok/modbus/transport.py:74-93 | a run of the lock in which the turn of a cancelled request, whose task did not run yet, lets a second other request of the unit into the next session |
| SessionRuns.NoOvertaking | src/evok/modbus/transport.py:46-54 | while a request with k live requests before it waits, not blocked, at most k grants other than turns are made with `_other_turn` set, whatever clears and sets it |
| SessionRuns.SessionsBeforeGrant | src/evok/modbus/transport.py:46-54 | such a request outside the sessions sees at most k ended sessions of other units which are each followed by a grant other than a turn, before its own grant, however many changes come |
| SessionRuns.OtherTurnEndsByGrant | src/evok/modbus/transport.py:107-129 | the other turn ends only by the grant of a request outside sessions and turns, or when no such request waits |
| SessionRuns.ChangesGoBeforeScans | src/evok/modbus/transport.py:107-126 | over every run, while a request of a session waits, the grants which are neither of a session nor a turn are at most the sessions which end, and one more if the other turn was set before |
| SessionRuns.ServedInOrder | src/evok/modbus/transport.py:107-124 | the request of `_wake()` is the first of its kind among the ones not blocked, and no kind which goes before waits |
| SessionRuns.ArrivalOrder | src/evok/modbus/transport.py:107-129 | over every run a request is granted before an earlier one which waits, not blocked, only by a turn, or for a session before a request outside the sessions when the other turn is not set |
| SessionRuns.ExitSetsTurns | src/evok/modbus/transport.py:44-54 | a session which ends gives a turn to its unit, and sets the other turn, if and only if such a live request waits; other turns stay |
| SerialLinks.BusClaims.ClaimPort | src/evok/config.py:355-358 | a serial port is claimed by one bus, a second claim is refused |
| SerialLinks.BusClaims.AddUnit | src/evok/config.py:455-474 | only a unit of a TCP bus gets serial ports |
| SerialLinks.BusClaims.LinkSerialPorts | src/evok/config.py:232-242 | every linked unit holds exactly the claimed buses of its ports, in ascending order of their paths |
| SerialLinks.AscendingIsUnique | src/evok/config.py:232-242 | the order of the held buses is determined by their set, so it is one global order |
| SerialLinks.BelowByFirstDifference | src/evok/config.py:232-242 | the order of the paths is the one of their first different characters |
| Deadlock.LinkUnits | src/evok/config.py:232-242 | the links of the created units give the configuration which deadlock freedom assumes: held buses in ascending order, and only for units of TCP buses |
| Deadlock.StepKeeps | src/evok/modbus/client.py:109-140 | one owner of every unit lock and bus lock, as the states of the tasks say |
| Deadlock.NoCircularWait | src/evok/modbus/transport.py:176-191 | in no reachable state, for any units, buses, changes and scans, do tasks wait for each other in a circle |
| Deadlock.SomeTaskGoesOn | src/evok/modbus/client.py:176-201 | from every busy task the chain of its waits ends at a task which can go on without anybody giving up |
| RegisterGroups.RegisterGroup.DoUpdate | src/evok/modbus/cache.py:40-54 | in place: each register of the block has the new word, the pinned word if the words are read and its pin is kept, or its old value; expired pins of the read range are dropped |
| RegisterGroups.RegisterGroup.DoPin | src/evok/modbus/cache.py:56-61 | a register of the block is pinned, another is not |
| RegisterGroups.RegisterGroup.IsPinExpired | src/evok/modbus/cache.py:63-68 | true exactly if a pin of the block has expired |
| RegisterGroups.RegisterGroup.DoTick | src/evok/modbus/cache.py:70-74 | the counter goes down, from 0 to divider - 1 |
| RegisterCaches.ModbusCacheMap.AddBlock | src/evok/modbus/cache.py:77-127 | a block is added exactly if it is valid and overlaps no block of its kind, and then the cache is valid: each block fits one read request (sections 6.3 and 6.4 of MODBUS Application Protocol Specification V1.1b3) and the 16-bit addresses |
| RegisterCaches.MadeGroup | src/evok/modbus/cache.py:77-103 | a definition is accepted exactly with valid numbers and one name of the divider; the block has the given start, count and divider, under either name, and is unread |
| RegisterCaches.BlockIsAdded | src/evok/modbus/cache.py:114-127 | a block is added last to its kind, exactly if it has no register of another one of them |
| RegisterCaches.ModbusCacheMap.DoSetRegister | src/evok/modbus/cache.py:238-243 | the words are stored to the parts of all blocks they cover |
| RegisterCaches.ModbusCacheMap.DoPin | src/evok/modbus/cache.py:167-173 | each word is pinned in the block which has its register |
| RegisterCaches.ModbusCacheMap.DoUnpin | src/evok/modbus/cache.py:175-179 | exactly the pins of the range are removed |
| RegisterCaches.ModbusCacheMap.DoRenewPins | src/evok/modbus/cache.py:181-189 | exactly the existing pins of the registers of each kind are renewed |
| RegisterCaches.ModbusCacheMap.DoClearPins | src/evok/modbus/cache.py:191-194 | no pin is left, nothing else changes |
| RegisterCaches.ModbusCacheMap.FindBlock | src/evok/modbus/cache.py:221-227 | the first block with the whole range |
| RegisterCaches.ModbusCacheMap.DoGetRegister | src/evok/modbus/cache.py:229-236 | the values of the range, or which of the two errors |
| RegisterCaches.ModbusCacheMap.ReadKind | src/evok/modbus/cache.py:196-219 | the wanted blocks are read in their order up to the first error |
| RegisterCaches.ModbusCacheMap.DoReadGroups | src/evok/modbus/cache.py:196-219 | both kinds; the time of the communication only after a successful read of some block |
| RegisterCaches.ModbusCacheMap.DoScanNow | src/evok/modbus/cache.py:129-146 | the counters are cleared by the first scan and ticked by a successful periodic one only |
| RegisterCaches.ModbusCacheMap.DoReadChanged | src/evok/modbus/cache.py:148-165 | the blocks of the registers and the ones read by every scan, or only the first block if there are none |
| PlainCaches.OrderDoesNotMatter | src/evok/modbus/cache.py:107-127 | the blocks are one map from addresses to registers, whatever their order |
| PlainCaches.StoreRefines | src/evok/modbus/cache.py:40-54 | storing words is a pointwise update of the map |
| PlainCaches.PartialReadRefines | src/evok/modbus/cache.py:245-258 | a partial read updates the map, the pinned registers keep their values |
| PlainCaches.BlockReadRefines | src/evok/modbus/cache.py:196-219 | the read of a block updates exactly its registers of the map |
| PlainCaches.PinRefines | src/evok/modbus/cache.py:167-173 | pinning words pins exactly their registers of the map |
| PlainCaches.UnpinRefines | src/evok/modbus/cache.py:175-179 | unpinning a range unpins exactly its registers of the map |
| PlainCaches.RenewRefines | src/evok/modbus/cache.py:181-189 | renewing touches exactly the pinned registers of the set |
| PlainCaches.LookupRefines | src/evok/modbus/cache.py:229-236 | a lookup succeeds exactly if the range lies in one block and each of its registers is known, and returns the values of the map |
| CacheRuns.StepRefines | src/evok/modbus/cache.py:24-258 | every event on the lists of blocks is the same event on each register of the map |
| CacheRuns.PinHolds | src/evok/modbus/cache.py:40-61 | a pinned value is kept over any mix of scans, reads and writes elsewhere until it expires or is released |
| CacheRuns.PinnedWriteIsSeen | src/evok/modbus/client.py:142-165 | after a pinned and cached write every successful lookup returns the written word until the pin expires or the register is rewritten or cleared |
| CacheRuns.ExpiredPinIsRead | src/evok/modbus/cache.py:129-146 | a block with an expired pin is read by the next periodic scan whatever its divider |
| CacheRuns.ExpiredPinLetsGo | src/evok/modbus/cache.py:40-68 | the turn of the block in a periodic scan started after the expiry leaves no such pin and shows the word of the unit, and no pin comes back later in the run |
| CacheRuns.PhaseRun | src/evok/modbus/cache.py:70-74 | after n successful periodic scans the counter of a block with divider d is (d - n mod d) mod d, whatever else was read or written |
| CacheRuns.ScansKeepTheirPhase | src/evok/modbus/cache.py:129-165 | a block without expired pins is read exactly by the scans whose number is a multiple of its divider |
| CacheRuns.ScanIsTurns | src/evok/modbus/cache.py:196-219 | a successful scan is the sequence of the turns of its blocks |
| ScanRuns.CallIsEvents | src/evok/modbus/cache.py:129-165 | every `do_scan()` and `read_changed()`, failed or not, is a run: the counters cleared by the initial scan, the wanted blocks read up to the first failure, and one tick exactly after a periodic scan which did not fail |
| ScanRuns.CallFailsExactly | src/evok/modbus/cache.py:196-219 | a call fails exactly if a block which it wants does not respond |
| ScanRuns.CallIsCommunication | src/evok/modbus/cache.py:196-219 | the time of the last communication is the one of the last call which did not fail and read some block |
| ScanRuns.ChangeWantsExactly | src/evok/modbus/cache.py:148-165 | after a change exactly the blocks read by every scan and the ones of the registers are wanted, or only the first block if there are none |
| ScanRuns.ScansReadInPhase | src/evok/modbus/cache.py:129-165 | over any scans and reads after changes, failed ones too, the next periodic scan wants a block without an expired pin exactly if its divider divides the number of the periodic scans which did not fail since the last initial one |
| ModbusClients.Client.NoteWrite | src/evok/modbus/client.py:142-165 | a successful write caches, pins or unpins the registers and notes their addresses in a change |
| ModbusClients.Client.NoteRestart | src/evok/modbus/client.py:109-140 | a restart clears all pins and forgets the noted addresses, so everything is read |
| ModbusClients.Client.Operate | src/evok/modbus/client.py:203-225 | the writes of an operation up to its first error |
| ModbusClients.Client.FinishChange | src/evok/modbus/client.py:203-225 | after the operation, also a failed one: the pins of the written registers are renewed, the blocks are read |
| ModbusClients.Client.DoChange | src/evok/modbus/client.py:176-225 | a whole change: the new cache, the log of requests and the outcome, and the flag of the running change is reset |
| ModbusClients.Client.ReadForBit | src/evok/modbus/client.py:439-442 | the word a bit write sends after its partial read |
| ClientChanges.OperationNotesWrites | src/evok/modbus/client.py:142-165 | every successful write of the operation is noted, or everything is to be read |
| ClientChanges.ChangeReadsWhatItWrote | src/evok/modbus/client.py:203-225 | after every change, also a failed one, either the read failed, or each block with a written register or a register of a changed device was read after the last write; all blocks after a restart or without named devices |
| ClientChanges.ChangeReadsSomething | src/evok/modbus/cache.py:148-165 | at least one block is read if the unit has any |
| ClientChanges.ChangeIsRefusedExactly | src/evok/modbus/client.py:203-225 | a change is refused exactly if it checks a unit whose last scan failed and which has a periodic scan or does not answer the read before the operation, and then nothing is written; else it is done exactly if every step succeeds |
| ClientChanges.OperationEndsAtFailure | src/evok/modbus/client.py:203-225 | the first failed step ends the operation: exactly the steps before it are done, and what they write is sent in their order |
| ClientChanges.ChangeSends | src/evok/modbus/client.py:203-225 | after the writes of the operation only reads are sent, none by a change which is not to read; no written registers stay noted |
| ChangeEvents.OpIsEvents | src/evok/modbus/client.py:109-165 | each step of an operation is an event of the cache: a write with or without a pin, a cached value, a restart; a failed one is none |
| ChangeEvents.WritePins | src/evok/modbus/client.py:142-165 | a pinned write pins its registers until `REREAD_DELAY` after it, without a periodic scan or a pin it drops their pins; the words show if they are cached |
| ChangeEvents.EndRenews | src/evok/modbus/cache.py:181-189 | the end of a change keeps exactly the pins of its registers until `REREAD_DELAY` after it |
| ChangeEvents.WrittenUntilAfterEnd | src/evok/modbus/client.py:142-165 | a register written and pinned, and not again in the operation, shows its word and is pinned until `REREAD_DELAY` after the end, also if the operation fails later |
| ChangeEvents.ChangeKeepsItsWrites | src/evok/modbus/client.py:176-225 | the same for a whole change and after its read |
| ChangeEvents.NoScanNoPins | src/evok/modbus/client.py:142-165 | a change of a unit without a periodic scan pins nothing |
| ClientChanges.NoPinOutlivesRestart | src/evok/modbus/client.py:109-140 | after a change with a restart inside it, also after its read, every pinned register was written after the last restart |
| BitWrites.BitWordOfRegister | src/evok/modbus/client.py:439-442 | the word sent depends on one register of the map only |
| Bits.MaskIsWritten | src/evok/modbus/client.py:439-442 | a bit operation sets or clears exactly the bits of its mask |
| Bits.OthersStay | src/evok/modbus/client.py:439-442 | it keeps all other bits of the word |
| BitWrites.StepIsOfCache | src/evok/modbus/client.py:439-442 | the register of the runs is the one of the cache: a bit write is a partial read and then a pinned and cached write, a scan a read |
| BitWrites.SlowUnitLosesBit | src/evok/modbus/client.py:26 | a run which loses a bit, when the delay of the unit and a request exceed `REREAD_DELAY` |
| BitWrites.NoLostBitsExactly | src/evok/modbus/client.py:421-442 | no run, with scans and reads in between, loses a bit of a register in a block if and only if the unit sets registers at once or its delay and one request fit in `REREAD_DELAY` |
| BitWrites.EveryWordIsFold | src/evok/modbus/client.py:421-442 | each word of the unit is the fold of all bit operations so far |
| BitWrites.BitsAreAsWritten | src/evok/modbus/client.py:421-442 | on a unit which is fast enough, after any run each bit has the value of the last operation whose mask has it, or its first value |
| BitWrites.OutOfBlocksLosesBit | src/evok/modbus/client.py:421-442 | a register out of the blocks has no such protection |
| Sequencers.Sequencer.DoStart | src/evok/blocks/sequencer.py:142-155 | the new sequence is registered, the replaced task is cancelled unless it writes |
| Sequencers.Sequencer.DoCancel | src/evok/blocks/sequencer.py:157-162 | the sequence of the device is removed and stopped |
| Sequencers.Sequencer.DoEnd | src/evok/blocks/sequencer.py:172-178 | a task removes its registration only if it is still its own |
| Sequencers.Sequencer.DoBegin | src/evok/blocks/sequencer.py:258-264 | only the registered task begins to write |
| Sequencers.Sequencer.DoneSet | src/evok/blocks/sequencer.py:265-276 | a successful write sets the progress, the last one ends the sequence; a failed one changes only the set of writing tasks |
| Sequencers.Sequencer.DoStopAll | src/evok/blocks/sequencer.py:287-299 | shutdown empties the table, cancels exactly the tasks not writing, and takes exactly the running sequences with a final state, whatever their progress |
| SequenceRuns.NextKeeps | src/evok/blocks/sequencer.py:142-319 | every step keeps what the table, the unit locks, the traces and the shutdown say |
| SequenceRuns.RunKeeps | src/evok/blocks/sequencer.py:142-319 | the invariant in every reachable state |
| SequenceRuns.SequenceTrace | src/evok/blocks/sequencer.py:180-285 | in any interleaving the successful writes of a sequence are a prefix of its steps, each once and in order, then at most one write of its final state, only after a proper prefix; `Running.step` of a registered sequence is the length of the prefix |
| SequenceRuns.GoesOnAfterWrite | src/evok/blocks/sequencer.py:180-212 | a registered sequence goes on with the next step after a successful one, with the same after an error of the communication, with its final state after another error |
| SequenceRuns.GoesOnAfterFailure | src/evok/blocks/sequencer.py:196-212 | the same from the failed write: an error of the communication is retried, a refused step is followed by the final state or by nothing |
| SequenceRuns.SequenceCompletes | src/evok/blocks/sequencer.py:180-212 | from every reachable state a registered sequence which waits with a step can write all its steps and end, alone on its unit |
| SequenceRuns.PulseEndsOnce | src/evok/blocks/sequencer.py:74-77 | in any interleaving, with shutdown too, a pulse writes its opposite value at most once and nothing else |
| SequenceRuns.RefusedPulseEnds | src/evok/blocks/sequencer.py:196-212 | a refused end of a pulse is not written again as its final state |
| SequenceRuns.ReplacedSequenceStops | src/evok/blocks/sequencer.py:142-178 | a replaced or cancelled sequence writes nothing more over any run, but may complete the write in progress |
| SequenceRuns.CancelReplaces | src/evok/blocks/sequencer.py:157-162 | `cancel()` takes the sequence out of the table and cancels its task exactly if it does not write |
| SequenceRuns.StartReplaces | src/evok/blocks/sequencer.py:142-155 | a new sequence takes the place of the registered one, whose task is cancelled exactly if it does not write |
| SequenceRuns.CancelledSequenceStops | src/evok/blocks/sequencer.py:157-178 | over any run after `cancel()` the sequence completes at most the write in progress |
| SequenceRuns.StaysRegistered | src/evok/blocks/sequencer.py:149-178 | a sequence stays registered until it ends, is cancelled or is replaced |
| SequenceRuns.PulseTakesOver | src/evok/modbus/base.py:85-106 | from the successful set of its value a pulse is the registered sequence until it ends, is cancelled or is replaced, and the sequence registered before writes nothing more |
| SequenceRuns.FailedPulseReplacesNothing | src/evok/modbus/base.py:88-99 | a pulse whose set fails leaves the registered sequences |
| Shutdowns.EndedTrace | src/evok/blocks/sequencer.py:265-276 | an ended sequence wrote all steps, or its final state after a proper prefix, never both |
| Shutdowns.ShutdownRestoresOutputs | src/evok/blocks/sequencer.py:287-319 | from any reachable state: if nothing new is started and the final writes succeed, the last successful write of each output with a running sequence with a final state is that state or the last step, never both, and in the whole run after the shutdown no step of any sequence begins |
| DeviceLists.AliasDict.DoValidate | src/evok/devices.py:91-105 | which of the errors a new alias has, in their order |
| DeviceLists.AliasDict.DoDelete | src/evok/devices.py:123-137 | the alias is removed from both dictionaries |
| DeviceLists.AliasDict.DoAdd | src/evok/devices.py:107-121 | a valid alias replaces the one of the device, an invalid one changes nothing |
| DeviceLists.AliasDict.AliasesByCircuit | src/evok/devices.py:148-153 | the aliases saved for the device, in the order of the file |
| DeviceLists.AliasDict.DictToSave | src/evok/devices.py:155-160 | the saved aliases and the ones of the devices |
| DeviceLists.DeviceList.DoRegister | src/evok/devices.py:213-230 | the device gets its saved aliases one by one, invalid ones are skipped |
| DeviceLists.DeviceList.DoCheckAlias | src/evok/devices.py:232-244 | the error `set_alias()` would raise, if any, with the aliases already released |
| DeviceLists.DeviceList.DoSetAlias | src/evok/devices.py:246-260 | the alias is set or reset, a refused one changes nothing |
| DeviceLists.DeviceList.DoRemove | src/evok/devices.py:139-146 | an unknown alias is an error; a known one leaves both dictionaries and its device |
| AliasRuns.SetAliasChanges | src/evok/devices.py:246-260 | `set_alias()` changes the alias of this device only, to a valid name; when it refuses and when not |
| AliasRuns.RemoveForgets | src/evok/devices.py:139-146 | `remove()` of a known alias takes it out of both dictionaries and from its device, nothing else changes |
| AliasRuns.ValidateErrors | src/evok/devices.py:91-105 | which error an alias has, in the order of the tests |
| AliasRuns.CheckAliasErrors | src/evok/devices.py:232-244 | which error a request of an alias has, and exactly when it has none |
| AliasRuns.NamesFollowOrder | src/evok/devices.py:148-153 | the aliases saved for a device stand in the order of the file |
| AliasRuns.SavedRecord | src/evok/devices.py:155-160 | the saved file has the record of the holder of each alias and the saved records which nobody holds |
| AliasRuns.RegisterKeepsExactly | src/evok/devices.py:107-121 | a registration keeps the bijection if and only if the empty alias is not saved for the device before a valid one |
| AliasRuns.RegisterSavesExactly | src/evok/devices.py:213-227 | a registration keeps the saved file if and only if at most one valid alias is saved for the device |
| AliasRuns.AliasBijection | src/evok/devices.py:43-160 | over any run of registrations, `set_alias()` and `remove()`: `alias_dict[a]` is d exactly if the alias of d is a, and no key is in both dictionaries |
| AliasRuns.BijectionExactly | src/evok/devices.py:43-160 | this holds over every run if and only if the file saves no empty alias for a device: `remove()` of the valid aliases before it makes it the first one |
| AliasRuns.RemovedBeforeEmpty | src/evok/devices.py:139-146 | a file with a valid alias and then the empty one of the same device: `remove()` of the valid one and the registration of the device break the bijection |
| AliasRuns.BijectionExactlyWithoutRemove | src/evok/devices.py:213-227 | over every run without `remove()` if and only if no device has the empty alias in the file before its valid ones |
| AliasRuns.RestartKeepsAliases | src/evok/devices.py:155-160 | after any run, loading the saved file, in any order of its keys, and registering any of the devices in any order gives the same file and the same aliases |
| AliasPlanners.CheckItems | src/evok/modbus/base.py:115-142 | the loop of the planner computes the plan, or finds the error |
| AliasPlanners.PlanIsPerformed | src/evok/modbus/base.py:115-142 | after every accepted prefix free and taken describe exactly the aliases held |
| AliasPlanners.PlannerSound | src/evok/modbus/base.py:115-142 | an accepted batch is set in its order without an error; the aliases and the held names after it are the planned ones |
| AliasPlanners.PlannerSoundExactly | src/evok/modbus/base.py:115-142 | the planner is sound for all batches if and only if no current alias is a circuit of the type of its device |
| AliasPlanners.UnacceptableIsReached | src/evok/devices.py:213-227 | a registration reaches a state with such an alias |
| AliasPlanners.PlannerExact | src/evok/modbus/base.py:115-142 | with acceptable aliases the planner accepts exactly the batches which succeed |
| SetDevices.GroupByUnit | src/evok/modbus/base.py:78-81 | the loop builds the groups of the units |
| SetDevices.GroupsAreByUnit | src/evok/modbus/base.py:78-81 | one group for each unit, in the order of their first assignments, with exactly its assignments in their order |
| SetDevices.EveryAssignmentOnce | src/evok/modbus/base.py:78-81 | the order of the groups has every assignment exactly once |
| SetDevices.OneUnitIsPartial | src/evok/modbus/base.py:85-111 | wherever an error stops the batch, it leaves at most one unit partly done |
| SetDevices.CheckAliases | src/evok/modbus/base.py:115-142 | the nested loops of the planner accept exactly what the plan of the grouped order accepts |
| SetDevices.SetUnits | src/evok/modbus/base.py:85-111 | for any behaviour of the devices, the states are of exactly the assignments before the first error |
| SetDevices.SetAll | src/evok/modbus/base.py:54-112 | an invalid alias is refused before any change; else the states are of exactly the assignments before the first error, of all without one; from acceptable aliases a batch is refused exactly if its aliases could not all be set, and only a failed write stops an accepted one |
| SetDevices.StopsExactly | src/evok/modbus/base.py:85-111 | the devices before the first error are set in their order, and that error is a failed write or a refused alias |
| Pwm.DividerBounds | src/evok/modbus/pwm.py:93-106 | prescale in 1..65536 and exactly the smallest which reaches the period, cycle in 960..65536, the period off by at most a half of the prescale and by 1/1920 of it |
| Pwm.CycleIsNearest | src/evok/modbus/pwm.py:93-106 | no other cycle with the prescale is nearer to the period |
| Pwm.HalfIsEven | src/evok/modbus/pwm.py:93-106 | a half is rounded to the even neighbour |
| Pwm.DutyIsKeptExactly | src/evok/modbus/pwm.py:114-118 | every duty by 0.1 % fits its register and is read back if and only if the cycle has 1000 to 65535 timer cycles |
| PwmGroups.Write | src/evok/modbus/pwm.py:44-63 | the requests write exactly the registers in the order of their indices, and no two of them could be one |
| PwmGroups.OutputGroup.CheckNewData | src/evok/modbus/digital.py:83-95 | every output shows the register of the unit |
| PwmGroups.OutputGroup.SetPwmFreq | src/evok/modbus/digital.py:140-157 | the new divider, and the duty register of every output with a duty set for the new cycle, in place, up to the first one which does not fit; a refused frequency changes nothing |
| PwmGroups.OutputGroup.SetDuty | src/evok/modbus/digital.py:97-138 | an assignment of the frequency and of the value or the duty; an invalid one changes nothing, one which does not fit its register leaves the registers written before it |
| PwmGroups.InvalidExactly | src/evok/modbus/digital.py:97-138 | an assignment is invalid exactly if its duty is no percentage or its frequency is out of range, and then changes nothing |
| PwmGroups.RegistersStayInRange | src/evok/modbus/digital.py:97-138 | no assignment writes a value which does not fit its register; a duty which does not fit is an error |
| PwmGroups.LeftByFreq | src/evok/modbus/digital.py:140-157 | a new frequency leaves the register of the output which gets a new duty with it, and of the outputs without a duty |
| PwmGroups.DutiesDoNotDrift | src/evok/modbus/digital.py:97-157 | over any run of assignments by 0.1 % and frequencies with 1000 to 65535 cycles, each followed by its check, every output shows the duty last set for it |
| PwmGroups.FrequencyKeepsExactly | src/evok/modbus/digital.py:140-157 | a frequency keeps the duties of every group if and only if its cycle has 1000 to 65535 timer cycles |
| PwmGroups.ShownIsKeptExactly | src/evok/modbus/digital.py:153-157 | any raw duty is shown the same over all such frequencies if and only if it does not show as 0, or is 0 |
| PwmGroups.SmallDutyDrifts | src/evok/modbus/digital.py:153-157 | a duty of 0.04 % shows as 0 and, after a change to 48 kHz, as 2.6 % |

## Left out

- HTTP, WebSocket, RPC, MQTT, webhooks, OpenAPI, authentication and 1-Wire: they are network and file access over libraries which are not part of this model.
- The framing, retries and reconnects of the Modbus library: a request succeeds with values or fails.
- SessionRuns.SessionIsolation: assumes that no other request of the unit arrives while a cancelled one of it is in the deque; what holds without it is SessionRuns.IsolatedExactlyWithoutTurn.
- SessionRuns.Enabled: sessions of one unit do not nest, which the lock of the unit establishes.
- The grant of a lock to a task is bounded by the number of grants before it, not by time.
- SerialLinks.BusClaims.LinkSerialPorts: the real paths are inputs, links in the file system are not modelled.
- Deadlock: a request keeps its bus for a finite time and a restart of a unit ends; the time limits of both are not modelled. The order of the waiters inside one lock is left to SessionRuns.
- RegisterCaches.ModbusCacheMap.DoScanNow: the whole scan is one call with the replies and their times as parameters; its interleaving with writes between the reads of the blocks is in CacheRuns, where each block has its own event.
- CacheRuns.PinHolds: a failed request changes nothing in the cache, so it is no event.
- ClientChanges.ChangeReadsWhatItWrote: the operation of a change is a list of writes with their outcomes; periodic scans between the requests of one change are not interleaved into it.
- BitWrites.NoLostBitsExactly: one register and non-overlapping requests; other registers are covered by the map being pointwise.
- Registers of floats and of more words, their word order and the scaling of values.
- The coroutines `_run()`, `_apply_step()` and `_change()` with their suspensions are program counters of the state machines, not loops; the blocks between their suspensions are the methods of the classes.
- The delays of the steps, the growing delay of the retries and the log of the failures: any waiting is a step which may come at any time.
- SequenceRuns.PulseTakesOver: a change by the API sets one output at a time, several outputs of one change are several such changes.
- Shutdowns.ShutdownRestoresOutputs: the time limit of the shutdown is not modelled, and the outputs are on Modbus units, whose lock a write takes.
- SequenceRuns.SequenceTrace: the set of an output with the reads after it either succeeds or fails as a whole.
- The callbacks which save the alias file, its format, extra items of its records, records which are no dictionaries, and the numbers of device types of old files.
- DeviceLists.DeviceList.DoRegister: a second device with the same type and circuit is not registered; the source replaces the first one in the dictionary of its type, but not in the one of the aliases. Names of types other than the own type of the device.
- AliasPlanners.PlannerSound: no alias is changed by another task between the check and the batch.
- SetDevices.SetAll: why the set of a device fails is a parameter, also the refusal because of a running sequence and an unavailable unit.
- Pwm: the rounding of floats; the frequency rounded for the API; the PWM generated by firmware.
- The configuration files, autogeneration, analog inputs and outputs, modes, and the parsing of requests: they are mostly construction and validation of single values.
