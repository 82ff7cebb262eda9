# Verified models of the hardware drivers

Dafny models of six parts of the repository, with proofs of what they promise:

- **XSVF player** (`jtag/`): an interpreter of XSVF files that drives a JTAG port and keeps a shadow copy of the
  TAP state. `TapController` is the 16-state controller of clause 6 of IEEE Std 1149.1-2001 with a scan chain,
  `XsvfPins`, `Xsvf` the player as a function of its state, `LenVal` and `SdrMasking` its byte-string arithmetic,
  `XsvfPlayer` the imperative player proved equal to that function; `XsvfProofs`, `XsvfRuns`, `XsvfShifts`,
  `XsvfRewrites` and `XsvfSplits` hold theorems about runs and shifts. `XsvfSeen` is the port seen from the chip
  (bits clocked with their answers, time passed, by controller state); `XsvfCommands`, `XsvfPrograms` and `XsvfChain`
  say in those terms what each command, sequence of settings and test vector in a file does.
- **CTR timing driver** (`ctr/`): `CtrPacking` (hardware words), `CtrTables` and `CtrModule` (trigger table,
  clients, interrupt enables: as functions and as an object updated in place), `CtrDriver` (the state machine of
  client operations), `CtrModuleProofs` and `CtrDriverProofs` (invariants over all runs), `CtrConnections` (what each
  request changes and what it leaves, slot by slot), `ClientQueue` (event queues), `Hptdc` (JTAG commands to the
  time-to-digital converter). `ctr/driver_vme/ctrdrvr.c` has the same logic.
- **LynxOS semaphores** (`cdcm/cdcmTime.c`, linked into the CTR driver as `ctr/common_pci_vme/cdcmSem.c`):
  `Semaphore` and `SemaphoreRuns`; `ReadPath` composes semaphore, queue and read timer into the client read path.
- **Intrusive lists** (`include/list.h`, `include/list_extra.h`): `RingList`, on heap nodes.
- **Adler-32** (`include/adler32.h`): `Adler32`.
- **CVORG sequence loader** (`cvorg/driver/cvorg-skel.c`): `Cvorg`.

`Bits` has words as numbers and their bits, `Longs` the C type long at any width. Sections executed with a lock
held or with interrupts disabled are atomic steps; all interleavings of such steps are covered. The port, the device
behind TDO, words read past the end of a table, pending signals and expired timeouts are parameters.

Some promises hold only under a condition, which is stated as an equivalence:

- a split shift is the unsplit one unless its last part is empty (`XsvfSplits.SplitIsWhole`);
- waits between retries never shorten as long as the run time fits a `long` (`XsvfShifts.BoundedRetry`);
- a shift command clocks one bit into the other register if it starts in that register's shift state
  (`XsvfCommands.InstructionCommand`, `XsvfCommands.DataCommand`);
- HPTDC commands need parity, or a single register with bits (`Hptdc.CommandDeliversIff`);
- a waveform of 2^20 points is not played, because its length does not fit the register (`Cvorg.Channel.StoreSeq`),
  and an odd one must be the last with points (`Cvorg.DisjointIff`);
- folding cycles into a recurrence count must not overflow (`Cvorg.FoldingKeepsTotal`);
- tokens and queued events match with read timeouts off (`ReadPath.TokensMatchEvents`); with timeouts, while no timer
  fires, they match if and only if no granted reader tests a timer that is gone (`ReadPath.WithoutFire`), as when reads
  do not overlap (`ReadPath.SequentialReadsMatch`); `ReadPath.ClearingStrands` and `ReadPath.FireStrands` say what
  each way of losing the timer strands, and `ReadPath.DequeuesUnderflow` when readers outnumber the events;
- a client can turn off its own interrupts by disconnecting (`CtrModuleProofs.OwnDisconnectWhole`).

Where code and comments differ the code is followed: `xsvfShiftOnly` is documented not to clock its last bit, and
clocks it. SET_ACTION has a branch for free slots, which the class test before it never lets through.

## Model

| member | source | states |
|---|---|---|
| `XsvfRuns.ShadowIsControllerState` | jtag/micro.c:1637-1722 | for every playable file, device and earlier pin activity: after initialisation and after any number of commands the shadow TAP state is the state of an IEEE 1149.1 controller driven by the emitted pin trace, whatever state that controller and its pins started in |
| `XsvfRuns.InitializeSynchronises` | jtag/micro.c:1637-1650 | initialisation brings shadow and controller together from any port state |
| `XsvfRuns.StepKeeps` | jtag/micro.c:1662-1688 | one command keeps the agreement and the interpreter's own invariant |
| `XsvfRuns.ExecuteHalts` | jtag/micro.c:1713-1722 | playing a playable file halts after at most one command per byte of the file and one more |
| `XsvfRuns.BudgetRunsOut` | jtag/micro.c:1713-1722 | the same from any state in the middle of a run: bytes left plus one bounds the commands left |
| `XsvfRuns.ExecuteReads` | jtag/micro.c:1662-1688 | no command moves the input position back, and the 0xFF read past the end of the file stops the player |
| `XsvfProofs.ExecuteAgrees` | jtag/micro.c:1048-1622 | each of the 24 commands keeps shadow and controller equal, including failing ones and XSDRINC |
| `XsvfProofs.AttemptsAgree` | jtag/micro.c:840-896 | agreement through all retries of a shift, with the detour through Pause-DR |
| `XsvfPins.GotoSynced` | jtag/micro.c:492-694 | a state move, or an illegal one that does nothing, keeps agreement; a reset establishes it from nothing |
| `XsvfPins.TowardIsCloser` | jtag/micro.c:543-690 | every turn of the state-move loop gets strictly closer to any legal target, so the loop ends |
| `XsvfPins.PathFollowsStandard` | jtag/micro.c:543-690 | the TMS values the loop emits lead the standard's controller to the target, and leave TMS low in a shift state |
| `XsvfPins.ShiftSynced` | jtag/micro.c:710-772 | shifting bits with or without exit leaves the controller in the expected state, for every length |
| `XsvfPins.ResetFollowsStandard` | jtag/micro.c:499-512 | the reset sequence reaches Test-Logic-Reset from each of the 16 states |
| `XsvfShifts.BoundedRetry` | jtag/micro.c:840-918 | at most ucMaxRepeat + 1 shifts, stopping at the first match; success iff some shift matched; MAXRETRIES iff all failed and 0 < ucMaxRepeat < 255, TDOMISMATCH iff all failed otherwise; the final state is Run-Test/Idle if there is a run time, else the requested end state; for a run time that is not negative, waits never shorten if and only if it still fits a long after as many increments as there were retries |
| `XsvfShifts.WaitsBeforehand` | jtag/micro.c:876-896 | before the call: a run time that fits a long after ucMaxRepeat increments never shortens, whatever the device answers; one that does not fit shortens if nothing matches |
| `XsvfShifts.WaitsShorten` | jtag/micro.c:876-896 | a failing value: 32-bit long, XRUNTEST 1000000000, XREPEAT 4 |
| `Longs.LongerIs` | jtag/micro.c:880-880 | the 25 % increment of a long: exact while it fits, negative when it does not, zero only from zero |
| `XsvfShifts.RetriesFrom` | jtag/micro.c:840-896 | the same account of the retry loop from any of its turns |
| `XsvfShifts.ShiftAgainstChain` | jtag/micro.c:710-772 | against a chain of N cells an n-bit shift leaves the last N bits of chain-then-data in the register and captures the first n as a zero-padded big-endian number; for n = N the register holds the data and its old contents were captured |
| `XsvfShifts.CapturedStream` | jtag/micro.c:710-772 | the TDO samples are the first n bits of register contents followed by data |
| `XsvfCommands.InstructionCommand` | jtag/micro.c:1097-1171 | XSIR and XSIR2, for any device and any chip that tracks the shadow state: exactly the first n bits of the value in the file are clocked in Shift-IR, none in Shift-DR unless the command leaves Shift-DR, whose last edge clocks one; then the wait, if any, in Run-Test/Idle with TCK low; the controller rests there if there is a run time, else where XENDIR says. Too long a value is refused without a pin moving; an empty one only waits |
| `XsvfCommands.DataCommand` | jtag/micro.c:1188-1285 | XSDR and XSDRTDO, in terms of the file and the device: every try clocks the same bits of the file in Shift-DR; a retry with a run time comes after one extra bit and a longer wait; the tries end with the first whose answer equals the expected value (of the file for XSDRTDO) on the bits of XTDOMASK; the error is NONE if and only if there is one, the last answer is kept, and the controller rests where the run time and XENDDR say |
| `XsvfCommands.EmptyDataCommand` | jtag/micro.c:827-837 | without bits they only wait |
| `XsvfCommands.AttemptsSeen` | jtag/micro.c:840-896 | the retry loop from any turn, against any chip that tracks the shadow state |
| `XsvfSeen.SeenGoto` | jtag/micro.c:492-694 | a state move clocks one bit if it leaves a shift state and none otherwise, and passes no time |
| `XsvfSeen.SeenShift` | jtag/micro.c:710-772 | a shift clocks its bits in order in the state it is in, each answered before its rising edge |
| `XsvfChain.ChainVerdict` | jtag/micro.c:1188-1285 | against a chain as long as the data: the command succeeds if and only if the old cells are the expected value under the mask, or there may be retries and the data itself is, one cell further when there is a run time |
| `XsvfChain.ChainIsWindow` | jtag/micro.c:710-772 | over any pin activity, what a chain has given out and what it holds are a window that slides over its contents and what went in |
| `XsvfPrograms.PartCommand` | jtag/micro.c:1406-1456 | XSDRB, XSDRC, XSDRE and their TDO forms: one try, no mask, no wait; only the third of each leaves Shift-DR, to where XENDDR says; the TDO forms read what to expect and fail if and only if some bit differs |
| `XsvfPrograms.EmptyPart` | jtag/micro.c:1406-1456 | without bits they do nothing at all, not even leave Shift-DR |
| `XsvfPrograms.StateCommand` | jtag/micro.c:1466-1478 | XSTATE takes the controller to the state named in the file, or is refused without a pin moving, which is an error |
| `XsvfPrograms.WaitCommand` | jtag/micro.c:1583-1622 | XWAIT: the time of the file passes in the first state named and the controller ends in the second, refusals being ignored |
| `XsvfPrograms.EndStep` | jtag/micro.c:1488-1534 | XENDIR and XENDDR choose Run-Test/Idle or the pause state of their own column; another operand is an error and changes neither |
| `XsvfPrograms.SettingsPlayed` | jtag/micro.c:1079-1310 | any sequence of XSDRSIZE, XTDOMASK, XREPEAT, XRUNTEST, XENDIR, XENDDR, XSETSDRMASKS and XCOMMENT in a file sets what it says, in order, and moves no pin |
| `XsvfPrograms.VectorPlayed` | jtag/micro.c:1268-1285 | a file of any settings followed by XSDRTDO: the effect of the shift with those settings |
| `XsvfPrograms.InstructionPlayed` | jtag/micro.c:1097-1133 | the same for XSIR |
| `XsvfPrograms.CommentStep` | jtag/micro.c:1545-1571 | a comment is skipped to its first NUL |
| `XsvfPrograms.LastStep` | jtag/micro.c:1662-1688 | XCOMPLETE ends the run without an error, a byte without a command with one |
| `XsvfPrograms.StartsPlain` | jtag/micro.c:423-446 | before any setting: rest in Run-Test/Idle, no wait, no retry |
| `XsvfRewrites.XsdrIncIsXsdrs` | jtag/micro.c:1334-1392 | XSDRINC is exact decompression: pins, shadow state, error and buffers are those of playing one plain XSDR per piece, whatever the device answers |
| `XsvfRewrites.IncIsEach` | jtag/micro.c:1366-1385 | the loop over data pieces shifts exactly the values got by repeated add-and-deposit |
| `XsvfRewrites.EachIsXsdrs` | jtag/micro.c:1188-1204 | a list of values shifted one by one is what a file of XSDR commands plays |
| `XsvfSplits.SplitIsWhole` | jtag/micro.c:1406-1424 | XSDRB, XSDRC, ..., XSDRE emit the pin trace of one unsplit shift and end in its state if and only if the last part has bits or no part has |
| `XsvfSplits.SplitFileEffect` | jtag/micro.c:1243-1256 | playing XSDRSIZE and shift commands piece by piece has the effect of the split shift |
| `XsvfSplits.SplitFileIsWholeFile` | jtag/micro.c:1406-1424 | the same iff for two files, one split and one not, through the interpreter |
| `SdrMasking.DoSdrMasking` | jtag/micro.c:970-1032 | the add-and-mask loop computes: big-endian sum of TDI and address mask, then the masked positions overwritten, least significant first, by the data bits in order |
| `SdrMasking.MaskByte` | jtag/micro.c:992-1030 | one mask byte takes as many data bits as it has ones and changes no other bit |
| `SdrMasking.MaskBit` | jtag/micro.c:1002-1023 | one mask bit takes the next data bit, fetching a new byte exactly every eight bits |
| `SdrMasking.CountMaskBits` | jtag/micro.c:1351-1361 | the counting loops give the number of ones in the data mask |
| `SdrMasking.MaskingEnds` | jtag/micro.c:1366-1371 | the bytes read per piece, ceil(ones / 8), are exactly those consumed |
| `SdrMasking.MergedBit` | jtag/micro.c:970-1032 | in numbers: bit p of the new value is, where the data mask has a one, the data bit numbered by the ones below p, and elsewhere bit p of the sum of value and address mask modulo its length |
| `SdrMasking.DataBytesIs` | jtag/micro.c:1351-1367 | as many bytes are read as hold the ones of the mask |
| `LenVal.AddVal` | jtag/lenval.c:140-169 | byte-wise addition with carry, stored over its first operand, is the big-endian sum |
| `LenVal.SumIsModular` | jtag/lenval.c:140-169 | that sum is addition modulo 256 to the length |
| `LenVal.Value` | jtag/lenval.c:15-28 | the big-endian number of a byte string, as a long of any width of at least 32 bits keeps it |
| `LenVal.EqualLenVal` | jtag/lenval.c:53-86 | equality of captured and expected on exactly the bits set in the mask, on all bits without one |
| `LenVal.PackUnpack` | jtag/lenval.c:15-28 | bits packed into bytes and unpacked again are unchanged, and the other way round |
| `XsvfPlayer.Player.Play` | jtag/micro.c:1713-1722 | the player's loop terminates on a playable file in the state the run machine gives, halted, with at most one command per byte plus one counted, and with the shadow equal to the state of every standard controller on the port |
| `XsvfPlayer.Player.Run` | jtag/micro.c:1662-1688 | one command of the imperative player is one step of the machine, whole state and pins |
| `XsvfPlayer.Player.Initialize` | jtag/micro.c:1637-1650 | initialisation of the player, with the reset on the pins |
| `XsvfPlayer.Player.DispatchShift` | jtag/micro.c:1097-1456 | the shift commands, by command byte |
| `XsvfPlayer.Player.DispatchOther` | jtag/micro.c:1048-1622 | the other commands, and illegal command bytes |
| `XsvfPlayer.Player.Goto` | jtag/micro.c:492-694 | state move on the pins: reset, illegal target, re-entry of a pause state, path |
| `XsvfPlayer.Player.Walk` | jtag/micro.c:543-690 | the loop over the state switch emits the path to the target and ends there |
| `XsvfPlayer.Player.ShiftOnly` | jtag/micro.c:710-772 | bytes from the last, bits from the low end, TDO packed byte by byte: the pin trace of the bit string and its packed samples, for any length |
| `XsvfPlayer.Player.ShiftByte` | jtag/micro.c:735-765 | the inner loop over at most eight bits of a byte |
| `XsvfPlayer.Player.Shift` | jtag/micro.c:798-921 | the whole shift with its waits, retries and error |
| `XsvfPlayer.Player.ShiftLoop` | jtag/micro.c:840-896 | the do-while loop with its unsigned char counter |
| `XsvfPlayer.Player.TurnOnce` | jtag/micro.c:843-896 | one turn of that loop, with the increment of the run time in a wrapping long |
| `XsvfPlayer.Player.DoXsdrinc` | jtag/micro.c:1334-1392 | first shift, mask count, number of pieces and loop |
| `XsvfPlayer.Player.Pieces` | jtag/micro.c:1366-1385 | the loop over the pieces stops at the first failing shift |
| `XsvfPlayer.Player.DoXsdrbce` | jtag/micro.c:1406-1424 | a part of a split shift without comparison |
| `XsvfPlayer.Player.DoXsdrtdobce` | jtag/micro.c:1437-1456 | a part of a split shift with unmasked comparison |
| `XsvfPlayer.Player.DoXcomment` | jtag/micro.c:1545-1571 | a comment is skipped up to its NUL |
| `XsvfPlayer.Player.DoXwait` | jtag/micro.c:1583-1622 | move, wait and move, each move only if not already there |
| `XsvfPlayer.Player.ReadVal` | jtag/lenval.c:178-187 | bytes read in order, 0xFF past the end of the file |
| `SemaphoreRuns.TokensConserved` | cdcm/cdcmTime.c:194-337 | over every run: initial + signals + reset wake-ups = count + grants + reset discards; the count never exceeds the tokens put in; a positive count means no waiters |
| `SemaphoreRuns.GrantedInArrivalOrder` | cdcm/cdcmTime.c:194-337 | over every run grants are in order of arrival, and a granted call has every earlier one granted before it or given up |
| `SemaphoreRuns.GrantIsFinal` | cdcm/cdcmTime.c:204-230 | once granted, always granted; a call is on the wait list exactly while it is waiting |
| `SemaphoreRuns.RunKeepsInv` | cdcm/cdcmTime.c:194-472 | every run keeps the semaphore invariant and only extends the grant log |
| `SemaphoreRuns.WakeKeepsOrder` | cdcm/cdcmTime.c:308-328 | handing tokens to a prefix of the wait list keeps the log in order and adds exactly that many grants |
| `Semaphore.UpNClosedForm` | cdcm/cdcmTime.c:413-428 | n signals serve the first min(n, waiters) waiters; only the surplus reaches the count |
| `Semaphore.Sem.Down` | cdcm/cdcmTime.c:194-288 | up to the first sleep: token taken, listed at the tail, or given up, with the whole new state |
| `Semaphore.Sem.Resume` | cdcm/cdcmTime.c:204-230 | after a wake-up: granted whatever else is pending, else interrupted, timed out or asleep again |
| `Semaphore.Sem.TryDown` | cdcm/cdcmTime.c:294-305 | a token or nothing, without waiting |
| `Semaphore.Sem.Unlink` | cdcm/cdcmTime.c:223-229 | the waiter leaves the list, the others keep their order |
| `Semaphore.Sem.WakeFirst` | cdcm/cdcmTime.c:308-316 | the first waiter is unlinked and marked |
| `Semaphore.Sem.SignalOnce` | cdcm/cdcmTime.c:322-337 | hand-over to the first waiter, or one more token |
| `Semaphore.Sem.SignalN` | cdcm/cdcmTime.c:413-428 | exactly the first min(n, waiters) waiters are marked, the rest untouched, the surplus counted |
| `Semaphore.Sem.SReset` | cdcm/cdcmTime.c:434-445 | tokens are discarded if there are any, else all waiters are woken |
| `Semaphore.Sem.Count` | cdcm/cdcmTime.c:466-472 | the tokens, or minus the number of waiters |
| `SemaphoreRuns.CallDown` | cdcm/cdcmTime.c:194-288 | swait and tswait up to the first sleep, on the object: one step of the run machine, with the outcome it records |
| `SemaphoreRuns.CallTryDown` | cdcm/cdcmTime.c:294-305 | the same for the call that does not wait |
| `SemaphoreRuns.CallResume` | cdcm/cdcmTime.c:204-230 | the same for a waiter that is scheduled, whose flag agrees with the run machine |
| `SemaphoreRuns.CallSignal` | cdcm/cdcmTime.c:413-428 | the same for ssignaln; the flags it sets are those the run machine sets |
| `SemaphoreRuns.CallReset` | cdcm/cdcmTime.c:434-445 | the same for sreset |
| `ClientQueue.DropOldestFifo` | ctr/driver_pci/ctrdrvr.c:1490-1501 | every queue in every run: write pointer = (read pointer + size) mod 64, contents are the latest posts in order, reads are posts in order, and posted = read + queued + missed, the missed counter modulo 2^16 |
| `ClientQueue.Ring.PostContents` | ctr/driver_pci/ctrdrvr.c:1491-1500 | a post appends, dropping the oldest entry of a full queue |
| `ClientQueue.Ring.PopContents` | ctr/driver_pci/ctrdrvr.c:1683-1690 | a read takes the oldest entry |
| `ClientQueue.Queue.Post` | ctr/driver_pci/ctrdrvr.c:1491-1500 | the in-place update; the semaphore is signalled exactly when nothing was dropped |
| `ClientQueue.Queue.Pop` | ctr/driver_pci/ctrdrvr.c:1683-1691 | the in-place read, or nothing from an empty queue |
| `ClientQueue.Queue.Overflow` | ctr/driver_pci/ctrdrvr.c:2216-2220 | the missed count is reported and cleared |
| `ReadPath.TokensMatchEvents` | ctr/driver_pci/ctrdrvr.c:1486-1503 | over all interleavings of posts and reads with read timeouts off: tokens + granted readers not yet served = queued events, through overflow; no reader that got a token finds the queue empty |
| `ReadPath.HasEvent` | ctr/driver_pci/ctrdrvr.c:1683-1690 | while no timer has fired, a reader that reaches the queue finds an event there |
| `ReadPath.ReadersGetPostsInOrder` | ctr/driver_pci/ctrdrvr.c:1662-1692 | in every run, timers firing or not, what readers get are posts in posting order, each served, queued or missed |
| `ReadPath.Ledger` | ctr/driver_pci/ctrdrvr.c:209-214 | in every run with timers: queued events + readers woken by timers = tokens + readers under way + reads that left with ETIME or EINTR + tokens discarded by timers |
| `ReadPath.WithoutFire` | ctr/driver_pci/ctrdrvr.c:1670-1680 | in runs in which no timer fires: no reader is turned away, and the events left over are exactly as many as the reads that left with ETIME, so tokens and events match if and only if no granted reader with timeouts on ever tests the Timer field while it is zero |
| `ReadPath.ExpiredIff` | ctr/driver_pci/ctrdrvr.c:1670-1680 | in every run from every sound state, timers firing or not: no further read leaves with ETIME if and only if every granted reader that tests the Timer field finds a timer or timeouts off |
| `ReadPath.FireStrands` | ctr/driver_pci/ctrdrvr.c:209-214 | a timer that fires, once the readers it affects have run on, strands exactly the unclaimed tokens and the granted readers that had not tested the timer; nothing if and only if there are neither |
| `ReadPath.ClearingStrands` | ctr/driver_pci/ctrdrvr.c:1649-1680 | each other way to lose the shared timer (another reader's CancelTimeout, a read that gets EBUSY, timeouts switched on): once the granted readers have run on, it strands one event for each of them that had not tested the timer; nothing if and only if there is none |
| `ReadPath.OverlapStrands` | ctr/driver_pci/ctrdrvr.c:1670-1680 | an instance from the start: of two readers with events the first cancels the shared timer and the second leaves its event behind |
| `ReadPath.BusyStrands` | ctr/driver_pci/ctrdrvr.c:1649-1660 | in the same state a third read that gets EBUSY strands both events |
| `ReadPath.SwitchStrands` | ctr/driver_pci/ctrdrvr.c:2180-2183 | timeouts switched on between an untimed reader's event and its test strand that event |
| `ReadPath.CancelledNeverFires` | ctr/driver_pci/ctrdrvr.c:1670-1674 | a timer that a reader has cancelled does not fire in any run, unless it is started again |
| `ReadPath.InterruptedLeavesTimer` | ctr/driver_pci/ctrdrvr.c:1649-1668 | a read that a signal keeps from sleeping takes neither token nor event and leaves its timer running |
| `ReadPath.InterruptedAsleep` | ctr/driver_pci/ctrdrvr.c:1662-1668 | a sleeping reader that a signal wakes leaves the wait list and nothing else changes, its timer included |
| `ReadPath.TestProtectsDequeue` | ctr/driver_pci/ctrdrvr.c:1683-1694 | a reader whose test of Size and dequeue nobody comes between gets the oldest event, or leaves with EINTR from an empty queue; never an underflow |
| `ReadPath.EmptyQueueMeans` | ctr/driver_pci/ctrdrvr.c:1683-1694 | a reader past the timer test finds the queue empty only if timers have woken more readers than left empty-handed, plus tokens discarded |
| `ReadPath.DequeuesUnderflow` | ctr/driver_pci/ctrdrvr.c:1683-1690 | letting every reader that has seen Size non-zero dequeue runs on an empty queue if and only if they outnumber the queued events |
| `ReadPath.WokenReadersUnderflow` | ctr/driver_pci/ctrdrvr.c:1649-1690 | a history from the start that does: two sleepers, one event, a timer that wakes both, and a third read that starts a timer before they test it |
| `ReadPath.SequentialReadsMatch` | ctr/driver_pci/ctrdrvr.c:1649-1692 | reads that do not overlap and whose timers do not fire: none leaves with ETIME and tokens match events throughout |
| `ReadPath.TimerStrandsEvent` | ctr/driver_pci/ctrdrvr.c:209-214 | an instance from the start: a reader sleeps with its timer, an event arrives for it, the timer fires; the reader leaves with ETIME and the event stays with nobody for it |
| `ReadPath.StepKeepsInv` | ctr/driver_pci/ctrdrvr.c:1649-1692 | every step of ISR, writer, reader or timer keeps the books of semaphore, queue and readers |
| `ReadPath.RunKeepsInv` | ctr/common_pci_vme/cdcmSem.c:55-198 | so does every run over the semaphore as linked into the driver |
| `CtrDriverProofs.ConnectedStaysEnabled` | ctr/driver_pci/ctrdrvr.c:667-704 | in every run in which a client does not itself disconnect or close, each interrupt source it needs stays enabled, in the shadow and in the register |
| `CtrDriverProofs.ClosedClientIsGone` | ctr/driver_pci/ctrdrvr.c:1385-1400 | after a close the client is in no client mask of any module |
| `CtrDriverProofs.TablePartitioned` | ctr/driver_pci/ctrdrvr.c:2782-2889 | every reachable table: each PTIM object owns exactly its contiguous slots, a CTIM number has at most one slot per module and only while connected, free + PTIM sizes + CTIM slots = table size |
| `CtrDriverProofs.TableAccounted` | ctr/driver_pci/ctrdrvr.c:2782-2889 | the counting half of that, from the driver invariant |
| `CtrDriverProofs.CreateTakesLowestRun` | ctr/driver_pci/ctrdrvr.c:2782-2825 | CREATE_PTIM succeeds iff some run of free slots fits and takes the lowest |
| `CtrDriverProofs.ConnectedSlotsInterrupt` | ctr/driver_pci/ctrdrvr.c:1153-1352 | in every reachable state a slot with a client has the BUS bit set in its hardware word |
| `CtrDriverProofs.StepKeeps` | ctr/driver_pci/ctrdrvr.c:1153-1400 | every operation keeps the driver invariant, and serves every client it is not about |
| `CtrDriverProofs.RunKeeps` | ctr/driver_pci/ctrdrvr.c:1153-1400 | so does every run |
| `CtrModuleProofs.DisableKeepsOthers` | ctr/driver_pci/ctrdrvr.c:667-704 | disabling never clears a source another client needs, whatever the stray word past the table holds |
| `CtrModuleProofs.DisconnectKeeps` | ctr/driver_pci/ctrdrvr.c:1362-1380 | a disconnect keeps the module sound and the others served |
| `CtrModuleProofs.DisconnectAllKeeps` | ctr/driver_pci/ctrdrvr.c:1385-1400 | closing leaves no trace of the client and takes nothing from others |
| `CtrModuleProofs.OwnDisconnectExact` | ctr/driver_pci/ctrdrvr.c:1346-1352 | leaving one hardware source keeps the client's own other interrupts if and only if someone else uses the source or it has no slot of its own there |
| `CtrModuleProofs.OwnSlotExact` | ctr/driver_pci/ctrdrvr.c:1316-1344 | leaving a slot keeps them if and only if the slot keeps a client, others need the source, or the client has no other connection to it |
| `CtrModuleProofs.OwnDisconnectWhole` | ctr/driver_pci/ctrdrvr.c:1362-1380 | a whole disconnect, from an object or from all hardware sources, keeps them if and only if no source that goes off is one the client still needs |
| `CtrDriverProofs.LosesOwnSource` | ctr/driver_pci/ctrdrvr.c:1346-1380 | on a module nobody is connected to: connect to source 0, connect to a CTIM, leave the source; the source is off and the CTIM slot still has the client |
| `CtrDriverProofs.OwnInterruptLost` | ctr/driver_pci/ctrdrvr.c:1346-1380 | the same as a history of the driver from installation |
| `CtrDriverProofs.LeavingKeepsBusy` | ctr/driver_pci/ctrdrvr.c:2735-2753 | no disconnect, not even of the last client, changes what DESTROY_CTIM answers, because the trigger it looks at is not cleared |
| `CtrConnections.PtimConnected` | ctr/driver_pci/ctrdrvr.c:1180-1195 | CONNECT to a PTIM object succeeds if and only if the object has a slot; the client is then in the mask of every slot of the object with the BUS bit set, exactly the sources they drive are enabled besides, and every other slot, mask, word and module is unchanged; a failure changes nothing |
| `CtrConnections.HardConnected` | ctr/driver_pci/ctrdrvr.c:1267-1279 | CONNECT to hardware succeeds if and only if one of the 14 sources is asked for; the client is in their masks, they are enabled, nothing else changes |
| `CtrConnections.CtimJoined` | ctr/driver_pci/ctrdrvr.c:1203-1215 | CONNECT to a CTIM object that has an instance enters the client there, as for PTIM objects |
| `CtrConnections.CtimRefused` | ctr/driver_pci/ctrdrvr.c:1219-1289 | ... that has none: it succeeds if and only if the number is defined with a header and there is a free slot, and otherwise changes nothing |
| `CtrConnections.CtimCreated` | ctr/driver_pci/ctrdrvr.c:1225-1257 | the lowest free slot reads back through GET_ACTION as the number, the frame of its definition, no condition, machine or group, counter 0 and a configuration of BUS and zeros; the client is its only one; nothing else changes |
| `CtrConnections.InstanceInUse` | ctr/driver_pci/ctrdrvr.c:2735-2753 | DESTROY_CTIM of the number then answers EBUSY on that module |
| `CtrConnections.Disconnected` | ctr/driver_pci/ctrdrvr.c:1301-1380 | DISCONNECT takes the client out of exactly the slots of the object, or the hardware masks; the last client of a CTIM slot frees it and clears its hardware words, the last one of a PTIM slot clears its BUS bit; nothing else but the enabled sources changes |
| `CtrConnections.Closed` | ctr/driver_pci/ctrdrvr.c:1385-1400 | closing does the same to every slot and source of every module |
| `CtrConnections.PtimCreated` | ctr/driver_pci/ctrdrvr.c:2782-2836 | CREATE_PTIM takes the lowest run of free slots that is long enough, size 0 needing one, writes number, class and counter over it and binds it; it succeeds if and only if the number is new, there is room for a binding, and the module exists and has such a run; nothing else changes |
| `CtrConnections.PtimDestroyed` | ctr/driver_pci/ctrdrvr.c:2840-2889 | DESTROY_PTIM is busy if and only if a client is connected on the module, and succeeds if and only if there are slots and no client; then the slots read as cleared, and that binding and no other is gone |
| `CtrConnections.ActionWritten` | ctr/driver_pci/ctrdrvr.c:2659-2711 | SET_ACTION writes trigger and configuration of that slot in the driver's table and in the hardware, the BUS bit overridden by whether a client is connected; nothing else changes, and nothing at all if refused |
| `CtrConnections.CtimAdded` | ctr/driver_pci/ctrdrvr.c:2715-2733 | CREATE_CTIM adds a definition if and only if the number is new and there is room |
| `CtrConnections.CtimRemoved` | ctr/driver_pci/ctrdrvr.c:2735-2753 | DESTROY_CTIM removes the definition if and only if there is one and no trigger of the module carries the number |
| `CtrConnections.CtimChanged` | ctr/driver_pci/ctrdrvr.c:2755-2780 | CHANGE_CTIM_FRAME replaces the frame under the same condition |
| `CtrConnections.NumbersStayDifferent` | ctr/driver_pci/ctrdrvr.c:2715-2780 | in every run the defined numbers are different |
| `CtrModuleProofs.SetThenGet` | ctr/driver_pci/ctrdrvr.c:2640-2711 | SET_ACTION then GET_ACTION returns what was written, with the BUS bit replaced by whether a client is connected |
| `CtrModuleProofs.GetReadsHardware` | ctr/driver_pci/ctrdrvr.c:2640-2657 | GET_ACTION answers for every slot number and no other; what it returns, packed again, is the slot's hardware words, and only the CTIM number comes from the driver's table |
| `CtrModuleProofs.SetActionSucceeds` | ctr/driver_pci/ctrdrvr.c:2659-2687 | SET_ACTION succeeds iff the slot is occupied and owner, class and counter agree |
| `CtrModule.ModuleContext.ConnectToPtim` | ctr/driver_pci/ctrdrvr.c:1180-1195 | the connect loop on the tables, as the function on the whole module |
| `CtrModule.ModuleContext.ConnectToCtim` | ctr/driver_pci/ctrdrvr.c:1199-1272 | joining or creating a CTIM instance, or failing without a slot or a frame |
| `CtrModule.ModuleContext.ConnectToHard` | ctr/driver_pci/ctrdrvr.c:1276-1285 | one connection per requested source |
| `CtrModule.ModuleContext.Disable` | ctr/driver_pci/ctrdrvr.c:667-704 | the search for other users and the write of the enable register |
| `CtrModule.ModuleContext.DisconnectSlot` | ctr/driver_pci/ctrdrvr.c:1301-1345 | one slot: client removed, interrupts reconsidered, CTIM slot freed or BUS bit cleared when empty |
| `CtrModule.ModuleContext.DisconnectSource` | ctr/driver_pci/ctrdrvr.c:1346-1352 | one hardware source |
| `CtrModule.ModuleContext.DisconnectFrom` | ctr/driver_pci/ctrdrvr.c:1362-1380 | all slots of an object, in table order, or all hardware sources |
| `CtrModule.ModuleContext.DisconnectFromAll` | ctr/driver_pci/ctrdrvr.c:1385-1400 | every slot and source of a module |
| `CtrModule.ModuleContext.FindRun` | ctr/driver_pci/ctrdrvr.c:2801-2810 | the single-pass search finds the lowest run of free slots that fits |
| `CtrModule.ModuleContext.OccupyRun` | ctr/driver_pci/ctrdrvr.c:2812-2817 | the run is marked |
| `CtrModule.ModuleContext.CheckObject` | ctr/driver_pci/ctrdrvr.c:2849-2859 | busy, absent or ready to be destroyed |
| `CtrModule.ModuleContext.ReleaseObject` | ctr/driver_pci/ctrdrvr.c:2862-2879 | all slots of the object are cleared, in memory and in the FPGA |
| `CtrModule.ModuleContext.WriteAction` | ctr/driver_pci/ctrdrvr.c:2659-2711 | the checks and the slot update of SET_ACTION |
| `CtrPacking.AutoShiftLeft` | ctr/driver_pci/ctrdrvr.c:1024-1037 | the value lands in the field whose lowest bit is the mask's, and nowhere else |
| `CtrPacking.AutoShiftRight` | ctr/driver_pci/ctrdrvr.c:1039-1054 | the field under the mask, with the sign-copying shift of the mask itself |
| `CtrPacking.HardRoundTrip` | ctr/driver_pci/ctrdrvr.c:1058-1132 | unpacking and packing again is the identity on every 32-bit word |
| `CtrPacking.TriggerSoftRoundTrip` | ctr/driver_pci/ctrdrvr.c:1058-1093 | packing and unpacking a trigger in range is the identity |
| `CtrPacking.ConfigSoftRoundTrip` | ctr/driver_pci/ctrdrvr.c:1098-1132 | packing and unpacking a configuration in range is the identity |
| `CtrPacking.InstancePacked` | ctr/driver_pci/ctrdrvr.c:1231-1254 | the words of a new CTIM instance: its frame, no trigger bits, and the BUS bit alone |
| `CtrPacking.ZeroPacked` | ctr/driver_pci/ctrdrvr.c:1322-1334 | zeros are packed as zeros |
| `CtrPacking.MasksPartitionWord` | ctr/driver_pci/ctrdrvr.c:1058-1132 | the field masks cut the word into consecutive fields |
| `CtrPacking.BusBitOnly` | ctr/driver_pci/ctrdrvr.c:1339-1340 | setting and clearing the BUS bit touches that bit only |
| `CtrPacking.BusMask` | ctr/driver_pci/ctrdrvr.c:1191-1192 | what connecting ors in is the BUS value moved to its field, a single bit |
| `Hptdc.CommandDelivers` | ctr/driver_pci/ctrdrvr.c:850-927 | with parity, from Run-Test/Idle back to Run-Test/Idle: the chip receives one instruction, the four command bits and parity, then one data update, all register bits in order and parity; both have an even number of ones |
| `Hptdc.DeliveredBits` | ctr/driver_pci/ctrdrvr.c:850-927 | the same bit by bit: five bits whose first four are the low bits of the command, and the registers one after the other, each end minus start plus one bits from its low bit on, with one more bit; both numbers of ones are even |
| `Hptdc.CommandDeliversIff` | ctr/driver_pci/ctrdrvr.c:850-927 | a command delivers its registers if and only if it has parity or exactly one register has bits |
| `Hptdc.CommandFromAnywhere` | ctr/driver_pci/ctrdrvr.c:824-927 | with the reset, the same from any state of the port |
| `Hptdc.ReadBackIsCapture` | ctr/driver_pci/ctrdrvr.c:895-921 | the bits read back are the captured data register, bit for bit |
| `Hptdc.CommandReadsCapture` | ctr/driver_pci/ctrdrvr.c:850-927 | end to end, from any state of the port: a command with reset and parity reads back the captured data register |
| `Hptdc.ResetGoesIdle` | ctr/driver_pci/ctrdrvr.c:824-844 | the reset reaches Run-Test/Idle from anywhere and delivers nothing |
| `Hptdc.TransferIsPulse` | ctr/driver_pci/ctrdrvr.c:800-818 | the three writes of a bit transfer are one clock pulse with TDO read between its edges |
| `Hptdc.RegistersLoseBits` | ctr/driver_pci/ctrdrvr.c:895-921 | without parity, bits are lost from the second register with bits on |
| `Hptdc.Jtag.Command` | ctr/driver_pci/ctrdrvr.c:850-933 | the register writes of a command and the registers read back; nothing is written if the module does not answer; against any standard port, with reset and parity, the registers returned hold its captured data register |
| `Hptdc.Jtag.ShiftValue` | ctr/driver_pci/ctrdrvr.c:897-915 | the bit loop: writes, samples assembled low bit first, ones counted |
| `Hptdc.Jtag.BitTransfer` | ctr/driver_pci/ctrdrvr.c:800-818 | the three writes and the sample |
| `Adler32.ZlibAdler32` | include/adler32.h:62-89 | blocked, unrolled, deferred modulo in 32-bit arithmetic equals the byte-at-a-time definition of section 2.2 of RFC 1950 for every checksum and buffer; 1 for a null buffer |
| `Adler32.BlockFits` | include/adler32.h:72-83 | no sum exceeds 2^32 - 1 within a block, even from halves that are not reduced |
| `Adler32.NmaxIsLargest` | include/adler32.h:38-40 | a block length satisfies the stated bound if and only if it is at most 5552 |
| `Adler32.DeferredModulo` | include/adler32.h:85-86 | reducing once is reducing at every byte |
| `Adler32.ChecksumConcat` | include/adler32.h:48-61 | a running checksum over pieces is the checksum of the whole |
| `Adler32.SingleByteNoticed` | include/adler32.h:48-61 | changing one byte always changes the checksum |
| `Adler32.Block` | include/adler32.h:74-83 | one block, sixteen bytes at a time and then the rest |
| `RingList.RingUnique` | include/list.h:43-45 | the pointers determine the sequence of entries |
| `RingList.AddBetween` | include/list.h:62-70 | insertion between two neighbours inserts in the sequence |
| `RingList.Add` | include/list.h:80-83 | insertion at the front |
| `RingList.AddTail` | include/list.h:93-96 | insertion at the back |
| `RingList.Del` | include/list.h:117-120 | removal of an entry from the sequence |
| `RingList.DelInit` | include/list.h:126-130 | removal, with the entry left as a ring of its own |
| `RingList.Move` | include/list.h:137-141 | from one list, or from its own, to the front of a list |
| `RingList.MoveTail` | include/list.h:148-153 | the same to the back |
| `RingList.Empty` | include/list.h:159-162 | true iff the sequence is empty |
| `RingList.SpliceEntries` | include/list.h:164-176 | concatenation in front |
| `RingList.SpliceInit` | include/list.h:196-202 | concatenation, the emptied list left as a ring of its own |
| `RingList.Capacity` | include/list_extra.h:38-49 | the length of the sequence |
| `RingList.Idx` | include/list_extra.h:79-89 | the entry of that index, or the head if there is none, negative indices included |
| `RingList.FreeAllSafe` | include/list_extra.h:101-112 | every entry unlinked and freed exactly once, in order, nothing touched after it is freed, an empty ring left |
| `Cvorg.Channel.StoreSeq` | cvorg/driver/cvorg-skel.c:1132-1166 | refused without effect for size, number of waveforms or a busy SRAM, in that order; otherwise, if the waveforms are aligned, the descriptor chain from block 0 plays the normalised waveforms in order and stops at the end marker, each complete if and only if every waveform is shorter than the 20-bit length register allows |
| `Cvorg.Channel.StoreWaves` | cvorg/driver/cvorg-skel.c:1067-1117 | the loader itself, with every descriptor, link and gain, whatever the alignment, and the same equivalence |
| `Cvorg.HoldsPlays` | cvorg/driver/cvorg-skel.c:1067-1117 | a channel whose blocks and SRAM hold a sequence plays it from any of its blocks on, each waveform as far as the 20 bits of its length say |
| `Cvorg.HeardIsWanted` | cvorg/driver/cvorg_hw.h:277-283 | what is played is what was asked for if and only if every waveform has fewer than 2^20 points |
| `Cvorg.FullSramIsSilent` | cvorg/driver/cvorg-skel.c:1134-1140 | a failing input: a waveform that fills the SRAM is accepted, and its length reads as zero |
| `Cvorg.PlaysOneThing` | cvorg/driver/cvorg-skel.c:1067-1117 | following the chain has one outcome |
| `Cvorg.DisjointIff` | cvorg/driver/cvorg-skel.c:1089-1115 | no two waveforms share a word of SRAM if and only if every one that another with points follows has an even number of points |
| `Cvorg.LastFits` | cvorg/driver/cvorg-skel.c:1134-1140 | an accepted sequence stays inside the SRAM |
| `Cvorg.FoldingKeepsTotal` | cvorg/driver/cvorg-skel.c:1075-1086 | folding the cycles of a single waveform into its recurrence keeps the total, 0 meaning forever, if and only if the product fits 32 bits |
| `Cvorg.DescriptorWidths` | cvorg/driver/cvorg-skel.c:1054-1061 | addresses fit their 21 bits; a length fits its 20 bits unless one waveform fills the SRAM |
| `Cvorg.HwRoundTrip` | cvorg/driver/cvorg-skel.c:926-963 | points packed for the hardware and unpacked are unchanged, on either byte order |
| `Cvorg.BusWord` | cvorg/driver/cvorg-skel.c:920-963 | the four bytes as they lie in the host's memory, most significant first, have the first point in the right half and the second in the left, on either byte order; a single point is in the right half |
| `Cvorg.Normalize` | cvorg/driver/cvorg-skel.c:971-984 | every point rounded to a multiple of 4 |
| `Cvorg.NormalRounds` | cvorg/driver/cvorg-skel.c:966-985 | within 2 below and 1 above, no overflow at the top, idempotent |
| `Cvorg.Channel.Sram` | cvorg/driver/cvorg-skel.c:990-1009 | the words written through the auto-incrementing address, nothing else changed |
| `Cvorg.Channel.Link` | cvorg/driver/cvorg-skel.c:1011-1027 | the link field of a block is set, its gain kept |
| `Cvorg.Channel.GainStore` | cvorg/driver/cvorg-skel.c:1029-1052 | the gain fields of a block as wanted |

## Left out

- What XSVF files must provide: comparison and mask buffers set for the current length before they are used, state
  numbers up to 15, shift lengths that fit the `short` byte count, terminated comments, data masks up to 255 bytes.
  `Xsvf.WellFormed` says this command by command; beyond it the source reads stale buffers or loops for ever.
- Real elapsed time: a wait is a recorded duration, possibly negative, with TCK low.
- The semaphore count is unbounded; `SemaphoreRuns.TokensConserved` bounds it by the tokens put in, so it is exact
  below 2^31 of them.
- Semaphore.Sem.Resume: does not model the `kthread_should_stop` exit of the wait loop, which returns without a token
  and stays listed.
- The lookup of a semaphore by the address of the user's variable.
- Client and interrupt masks are sets of bit positions, not words.
- Requests with an out-of-range module number, zero equipment numbers or counters above 8 (`CtrDriver.WellFormed`),
  and the set-up of the PCI bridge.
- Raw access, remapping, JTAG, EEPROM and PLX ioctls, which bypass the tables.
- ReadPath.FireStrands: takes the affected readers to run on before another read starts a timer; in general
  `ReadPath.Ledger` says where every event is, up to a dequeue from an empty queue (`underflow`), where the model stops
  (`ReadPath.DequeuesUnderflow`, `ReadPath.WokenReadersUnderflow`). Queueing switched off is not modelled.
- HPTDC register values read back without parity over several registers are described, not claimed to be the chip's.
- The port register of the HPTDC is its four lines by name, not a word.
- Waveform gains are the hardware's codes; the choice of the nearest gain in dB, the frequency limits and the check of
  gain against offset are not modelled.
- Cvorg.Channel.StoreSeq: says what is played only if every waveform that another with points follows has an even
  number of points, and sizes are a whole number of points. A waveform that starts inside an SRAM word is written from that word on, over the end of the one before it, and what
  the module plays from such an address is not in the source.
- The players' debug output, the command-line tools, the kernel and bus wrappers, the clock generator, the divider
  search of `cvorg/ad9516/`, DMA tiling and the timer slots: wrappers over code that is not here, or easy members.
