# RXTX: protocols, event engine and byte loops, in Dafny

RXTX is a serial-port library: Java classes over native code for Unix and Windows CE. This project models
the parts of it whose correctness spans several functions, threads or processes, and proves what they keep.
The operating system (file system, live processes, modem lines, counters, the byte stream, the clock) is an
environment that chooses freely at every step.

| file | what it models |
|---|---|
| `LockProtocol.dfy` | the FHS lock files between processes that may die at any step, one system call a step |
| `LockText.dfy` | the pid text of a lock file and the name of one |
| `LockSession.dfy` | one thread's lock and unlock in that protocol when nothing interferes, and locks left behind |
| `LockFiles.dfy` | the lock functions, and their callers, as one process runs them, with every call that can fail |
| `LockRefinement.dfy` | that these do to the lock files what the protocol's calls do to its state |
| `EventHandoff.dfy` | the one-word hand-off of comm events between two threads on Windows CE |
| `SerialEvents.dfy` | the event mask and the dispatch of comm events on Windows CE |
| `MasterIndex.dfy` | the global doubly linked list of event loops |
| `LineEvents.dfy` | the polling engine: modem lines and error counters into events |
| `DrainProtocol.dfy` | the flags writers, drain thread, event loop and drain calls share |
| `PortOwnership.dfy` | opening, waiting and closing across threads, as a state machine |
| `PortHandover.dfy` | runs of it that are met: closes, owners in turn, owners that wait for each other, waits without end |
| `PortRegistry.dfy` | the linked list of identifiers, its lookups and its enumerator |
| `MonitorLifecycle.dfy` | a port's monitor thread from construction to close |
| `MonitorLives.dfy` | runs of it that are met: any sequence of listeners, the close, and calls that hang |
| `ByteReading.dfy` | the read loop with its timeout, and its three callers |
| `Writing.dfy` | the loops over partial writes, RS485 and Windows CE |
| `Termios.dfy` | serial parameters and flow control as terminal mode bits |
| `PortScan.dfy` | which device files are registered as ports |
| `Wrappers.dfy` | `Option`, bytes, minimum and maximum |

A protocol is a `State`, an `Event` and a partial `Next`; a property of it is about every `Run`. A structure the
source changes in place is a class whose methods are tied to functions of the old state, and the properties are
lemmas about those functions.

## Where the code does not do what it is for

Each of these is proved. Where a condition is named, it is exact in both directions.

- Lock files exclude only if the create and the write of the pid are one step and, should processes die or writes
  fail, the whole stale check from opening the file to unlinking it is one too (`LockProtocol.ExclusionExactly`).
  Making only the `kill` and the `unlink` one step is not enough. `is_device_locked` itself never says that a
  live lock is held: the exclusive create does.
- `open` never gives its lock back: it leaves a live lock that was not there before exactly when it fails after the
  lock, and `nativeClose` gives back the lock of an `open` that succeeded exactly when the descriptor is positive and
  no call of the unlock fails (`LockFiles.LockDirectory.Open`, `LockFiles.CloseGivesBackExactly`). No run lets anyone
  take a lock left behind before its process dies (`LockSession.AbandonedFreedExactly`,
  `LockRefinement.FailedOpenAbandons`).
- Windows CE hands masks over without loss if no mask that reports something follows a zero one, or if the
  consumer took the word in one step (`EventHandoff.LosslessExactly`).
- `open` waits for the owner to close while it holds the lock every close needs first, so the wait can be ended by a
  close only if that close was already past its lookups (`PortOwnership.NotifiedExactly`, `UntimedWaitNeverEnds`).
  A second `open` of the same identifier meanwhile deadlocks with the waiter for ever, whatever timeout or interrupt
  comes; a wait can end at all exactly when there is none (`PortOwnership.WaitEndsExactly`, `WaitEndsInTimeExactly`).
  An owner that closes the port when it is asked to does so before the wait begins: an untimed wait misses it and goes
  on although the port is free (`PortHandover.UntimedWaitMissesRelease`).
- A monitor thread whose native loop ends before it is ready leaves the constructor or `addEventListener` waiting for
  ever (`MonitorLifecycle.BailedHangs`).
- A `notifyOn` call on a port without monitor thread throws and keeps `MonitorThreadLock`; nothing but adding a
  listener frees it (`MonitorLifecycle.NotifyKeepsLockExactly`, `WedgedUntilAdd`).
- On Windows CE overrun, parity and framing errors share one mask bit
  (`SerialEvents.MaskMeansSubscriptionExactly`).
- A write can be reported without waiting for another one exactly when it does not fall between the drain thread's
  two stores (`DrainProtocol.WriteReportedExactly`).
- The bounds check of `read` adds two Java ints and passes a range outside the array exactly when the sum overflows
  (`ByteReading.OverflowPassesExactly`).
- Two stop bits with five data bits are read back, by the device, as one and a half, while the Java field keeps two
  (`Termios.CacheAgreesExactly`).
- The enumerator starts again after it has returned null (`PortRegistry.CommPortEnumerator.NextElement`).
- The flush loop of RS485 means to give up after five tries but tests the number of bytes: it keeps that bound exactly
  when at least five were to be written (`Writing.FlushBoundExactly`). The send loop retries no error but an
  interruption exactly when there is nothing to write (`Writing.OnlyInterruptsRetriedExactly`). A call that ends has
  lowered DTR, whatever the writes do, exactly when there was something to write; with something to write a device
  whose writes go on failing keeps the call going, and DTR raised, for ever (`Writing.EndedCallLowersDtrExactly`,
  `DtrStaysRaisedExactly`, `FailingWritesKeepDtr`).
- Setting the parameters that were read is refused exactly when the parity read is undefined
  (`Termios.SettingWhatWasReadExactly`).
- An error in `read_byte_array` throws away the bytes already taken: all bytes are counted, whatever the device does,
  exactly when at most one is asked for (`ByteReading.AllCountedExactly`). `readTerminatedArray` answers with the
  last call's count, which is the number of bytes read, again, exactly when at most one is asked for
  (`ByteReading.CountsTotalExactly`).
- A counter's events fall short of its increments exactly when 2^32 of them fall between two polls
  (`LineEvents.ReportedExactly`).

`MonitorThreadCloseLock`, on which `removeEventListener` waits, is cleared by `CNI/SerialImp.c` and by no other source;
`MonitorLifecycle` follows that event loop.

## Model

| member | source | states |
|---|---|---|
| LockProtocol.Exclusion | rxtx-devel/src/SerialImp.c:5284-5339 | over every run of any number of processes that may die anywhere, a live session's lock file exists and holds its pid, and no two live sessions hold one lock, in every configuration called safe |
| LockProtocol.ExclusionExactly | rxtx-devel/src/SerialImp.c:5896-5935 | for which system calls taken together the lock excludes in all runs, both ways: with create and pid write fused, and, if there are deaths, the removal fused from its open |
| LockProtocol.StaleRace | rxtx-devel/src/SerialImp.c:5900-5928 | a run with a left-over lock in which two processes hold the lock although kill and unlink, or read, kill and unlink, are one step |
| LockProtocol.EmptyFileRace | rxtx-devel/src/SerialImp.c:5316-5328 | a run in which a lock file caught between its create and its pid write is taken for stale, and two processes hold the lock |
| LockProtocol.UnlockRemovesOwnFile | rxtx-devel/src/SerialImp.c:5497-5517 | a session goes on until fhs_unlock removes its own file, and never another, or until a call of it fails, which leaves the file behind |
| LockProtocol.OvertakenFails | rxtx-devel/src/SerialImp.c:5313-5324 | a lock call that finds the file it judged gone, or a file where it creates its own, ends without the lock and changes nothing |
| LockProtocol.FailureAbandons | rxtx-devel/src/SerialImp.c:5582-5590 | a session that ends by a failing call leaves its file with a live process's pid and no thread that holds it |
| LockProtocol.AbandonedUntilDeath | rxtx-devel/src/SerialImp.c:5896-5935 | such a lock stays, with the same file and held by nobody, through every run of a safe configuration in which its process does not die |
| LockSession.AbandonedFreedExactly | rxtx-devel/src/SerialImp.c:5918-5928 | a run that takes it again contains the death of its process, and there is one, from every such state, exactly when processes may die |
| LockSession.LockAlone | rxtx-devel/src/SerialImp.c:5284-5339 | left alone, fhs_lock takes the lock with its own pid in a new file exactly when no call of it fails and the name is free or its file is judged to be no live process's, an empty file included; what every combination of failing calls leaves |
| LockSession.UnlockAlone | rxtx-devel/src/SerialImp.c:5497-5517 | left alone, fhs_unlock frees the name and nothing else exactly when the file that stands there by then has one of the thread's pids and no call of it fails |
| LockText.PidTextRoundTrip | rxtx-devel/src/SerialImp.c:5325-5328 | the text written is 11 bytes exactly for pids of at most ten digits, and both readers then recover the pid, whatever lies behind it in the buffer |
| LockText.PidTextPlaces | rxtx-devel/src/SerialImp.c:5325-5328 | the text place by place: the pid's decimal digits to the right of ten places, blanks before them, a newline after |
| LockText.AnyNumberRead | rxtx-devel/src/SerialImp.c:5592-5593 | both readers take the number after any blanks and a sign, up to the first character that is no digit; without a digit there is none |
| LockText.ScanBack | rxtx-devel/src/SerialImp.c:5297-5309 | the in-place backward scan yields the start of the name that all lock functions use |
| LockText.NameIsLastComponent | rxtx-devel/src/SerialImp.c:5868-5879 | the name is what follows the last slash, for every path that has one; without a slash the first character is lost |
| LockText.LockPathOfDevice | rxtx-devel/src/SerialImp.c:5297-5310 | every device directory/name is locked by the file LCK..name of the lock directory |
| LockText.LockPathsCollide | rxtx-devel/src/SerialImp.c:5502-5506 | two device paths share a lock file exactly when their last components are equal |
| LockFiles.LockDirectory.IsDeviceLocked | rxtx-devel/src/SerialImp.c:5780-5938 | answers 0 for a live lock too and 1 exactly when a call of the check fails; removes exactly a stale lock file of this device |
| LockFiles.LockDirectory.FhsLock | rxtx-devel/src/SerialImp.c:5284-5339 | succeeds exactly when the check, the create and the write do and the name is free or stale; the directory afterwards in every case, the empty file of a failed write included |
| LockFiles.LockDirectory.CheckLockPid | rxtx-devel/src/SerialImp.c:5576-5604 | accepts exactly a file that can be opened and read and has the caller's, its parent's or the opener's pid |
| LockFiles.LockDirectory.FhsUnlock | rxtx-devel/src/SerialImp.c:5497-5517 | removes the lock file exactly when its pid is one of the three and no call fails |
| LockFiles.LockDirectory.TestRead | rxtx-devel/src/SerialImp.c:4256-4478 | the device is probed only under its lock, which is given back whatever the probe finds unless the unlock fails; what stays behind when calls fail |
| LockFiles.LockDirectory.Open | rxtx-devel/src/SerialImp.c:642-700 | which descriptor is answered and when none; a failing open leaves a live lock that was not there before exactly when it took the lock and the device was then not usable |
| LockFiles.LockDirectory.NativeClose | rxtx-devel/src/SerialImp.c:711-760 | unlocks exactly for a positive descriptor and a pid that is set |
| LockFiles.LeftLockIsNew | rxtx-devel/src/SerialImp.c:5312-5338 | the caller's own lock stands after fhs_lock where it did not before exactly when the call took it |
| LockFiles.HeldLockRefuses | rxtx-devel/src/SerialImp.c:5312-5324 | as long as a lock's process lives, every fhs_lock of that name fails and changes nothing, whatever calls fail |
| LockFiles.LockTakenExactly | rxtx-devel/src/SerialImp.c:5312-5338 | where no call fails a lock is taken, with the caller's pid, exactly when its name is free or its holder dead |
| LockFiles.OthersLockKept | rxtx-devel/src/SerialImp.c:5508-5516 | a lock with a pid that is none of the caller's survives every unlock and close, whatever calls fail; one with a pid of the caller's goes exactly when none fails |
| LockFiles.EmptyFileJudged | rxtx-devel/src/SerialImp.c:5897-5920 | an empty lock file is judged by what the pid variable held before |
| LockFiles.CloseGivesBackExactly | rxtx-devel/src/SerialImp.c:741-753 | nativeClose after a successful lock frees the name exactly when the descriptor is positive and no call of the unlock fails; with no pid set it does nothing |
| LockFiles.WrittenLockJudgedByItsPid | rxtx-devel/src/SerialImp.c:5593-5601 | a written lock is stale exactly when its process is gone, and removable exactly by its pid |
| LockRefinement.LockAgrees | rxtx-devel/src/SerialImp.c:5284-5339 | whichever calls fail, over lock files that match a state of the protocol, fhs_lock leaves files that match where the protocol's system calls lead, and succeeds exactly when they come to hold the lock |
| LockRefinement.UnlockAgrees | rxtx-devel/src/SerialImp.c:5497-5517 | the same for fhs_unlock by a thread that has taken the lock, its file another's or gone by now included |
| LockRefinement.FailedOpenAbandons | rxtx-devel/src/SerialImp.c:642-700 | an open that fails after its lock, from any state the invariant holds in, matches a run into a state where its lock is held by nobody and no run takes it before its process dies |
| EventHandoff.LosslessExactly | rxtx-devel/WinCE/rxtxHelpers.cpp:330-409 | for all interleavings the masks that report something are delivered in order, none lost or repeated, exactly when read and clear are one step or no such mask follows a zero one |
| EventHandoff.ExactlyOnceInOrder | rxtx-devel/WinCE/gnu_io_RXTXPort.cpp:1190-1210 | without zero masks, those given to SendEvents, the one in hand and the one in the slot are exactly those WaitCommEvent produced, in order |
| EventHandoff.LossyRun | rxtx-devel/WinCE/gnu_io_RXTXPort.cpp:1203-1209 | for any masks with a zero before a real one, a run of them that wipes the real one |
| EventHandoff.PoliteRun | rxtx-devel/WinCE/rxtxHelpers.cpp:330-409 | for any masks, zero ones included, some run delivers each before the next is reported |
| SerialEvents.EventInfo.NativeSetEventFlag | rxtx-devel/WinCE/gnu_io_RXTXPort.cpp:1271-1342 | the new mask and the mask given to the driver for every event, known or not |
| SerialEvents.FlagSetsOwnBit | rxtx-devel/WinCE/gnu_io_RXTXPort.cpp:1282-1327 | event by event, the bit that is set or cleared, and none for any other number |
| SerialEvents.EventInfo.SendEvents | rxtx-devel/WinCE/rxtxHelpers.cpp:512-641 | the calls made, all with state TRUE, are the wanted events in order up to the first the listener answers TRUE to, which is the result; nothing when the error state cannot be read |
| SerialEvents.WantedUpToHoldsEach | rxtx-devel/WinCE/rxtxHelpers.cpp:534-640 | an event is among those to send exactly when its class is reported and in the mask and its own error reported, once and in ascending order |
| SerialEvents.SentByOwnCondition | rxtx-devel/WinCE/rxtxHelpers.cpp:534-640 | event by event, the condition and the error that have to be reported and in the mask for it to be sent |
| SerialEvents.MaskIsLastFlags | rxtx-devel/WinCE/rxtxHelpers.cpp:494-499 | over any calls the sentinel bit stays, so the mask is never empty, and every other class bit is the flag last given for the class |
| SerialEvents.MaskMeansSubscriptionExactly | rxtx-devel/WinCE/gnu_io_RXTXPort.cpp:1282-1327 | every single event's last flag shows in the mask exactly when those of the three error events agree |
| SerialEvents.OnlySubscribedSent | rxtx-devel/WinCE/rxtxHelpers.cpp:535-640 | what is sent was reported, and subscribed unless it is an error event and the three disagree |
| SerialEvents.SharedBitLosesOverruns | rxtx-devel/WinCE/gnu_io_RXTXPort.cpp:1308-1312 | calls after which a subscribed overrun is never sent |
| MasterIndex.Registry.Append | rxtx-devel/src/SerialImp.c:4068-4083 | the pointer walk and store append to the sequence the list stands for, keeping it linked both ways |
| MasterIndex.Registry.Unlink | rxtx-devel/src/SerialImp.c:4133-4145 | taking a record out wherever it stands leaves the others linked in order |
| MasterIndex.Registry.Initialise | rxtx-devel/src/SerialImp.c:4054-4116 | a record is linked at the tail by its first initialisation only, set to its defaults, and taken out again on failure |
| MasterIndex.Registry.Finalize | rxtx-devel/src/SerialImp.c:4127-4146 | the list afterwards is the old one without the record, and still well formed |
| MasterIndex.Registry.NativeSetEventFlag | rxtx-devel/src/SerialImp.c:4906-4933 | only the first record with the fd is changed, and only its flag for the event |
| MasterIndex.Registry.InterruptEventLoop | rxtx-devel/src/SerialImp.c:4806-4866 | a pass over the list tells only the first record with the fd to close, and goes on searching exactly when there is none |
| MasterIndex.Registry.MarkWriting | rxtx-devel/src/SerialImp.c:1554-1564 | marks the first record with the fd, or the last record of all when there is none, and faults on an empty list |
| MasterIndex.StandingExactly | rxtx-devel/src/SerialImp.c:4054-4146 | after any sequence of calls the list is the records in order of first initialisation less those finalized |
| MasterIndex.Registry.WalkTo | rxtx-devel/src/SerialImp.c:4919-4922 | the walk over the pointers ends at the first record with the fd, or at the last record exactly when there is none |
| MasterIndex.FirstUnique | rxtx-devel/src/SerialImp.c:4919-4927 | the record the walks find is determined by being the first with the fd |
| LineEvents.DifferenceTellsEdge | rxtx-devel/src/SerialImp.c:3912-3929 | the 32-bit difference converted to int is zero, positive or negative exactly as the line stayed, rose or fell |
| LineEvents.EventInfo.CheckTiocmgetChanges | rxtx-devel/src/SerialImp.c:3895-3931 | sends the lines' edges in order and remembers the sample; a failed read sends nothing and forgets nothing |
| LineEvents.EventInfo.CountUp | rxtx-devel/src/SerialImp.c:3832-3847 | the counting loop ends, with the distance modulo 2^32 as measure, after as many events as that distance |
| LineEvents.EventInfo.ReportSerialEvents | rxtx-devel/src/SerialImp.c:4004-4043 | what one poll sends and remembers in every case, an unreadable line status included |
| LineEvents.EventInfo.EventLoop | rxtx-devel/src/SerialImp.c:4157-4220 | the rounds compose to the run function, whatever the driver answers in each |
| LineEvents.EngineTellsWhatItRead | rxtx-devel/src/SerialImp.c:4004-4043 | over any rounds the line events sent are those of the successful line readings and each counter's events number what its successful readings tell |
| LineEvents.EventsTrackLines | rxtx-devel/src/SerialImp.c:3895-3931 | replaying the line events from the initial lines gives the lines last read, over any samples |
| LineEvents.EventsAlternate | rxtx-devel/src/SerialImp.c:3913-3929 | each line's events alternate, starting with the opposite of its initial level |
| LineEvents.ReportedExactly | rxtx-devel/src/SerialImp.c:3818-3851 | the events of a counter never exceed its increments and equal them exactly when fewer than 2^32 fall between successful polls |
| LineEvents.ListenerKnowsLines | rxtx-devel/src/SerialImp.c:4157-4220 | over any rounds, replaying every event sent from the lines at the start gives the lines last read, and each line's events sent alternate |
| LineEvents.ListenerCountsExactly | rxtx-devel/src/SerialImp.c:4157-4220 | over any rounds, a counter's events sent never exceed its true increments and equal them exactly when it was polled in time |
| LineEvents.ListenerHearsDataExactly | rxtx-devel/src/SerialImp.c:4010-4033 | over any rounds, pending input is reported, always TRUE, exactly once for each round that finds some, has a subscriber and is not ended by an unreadable line status; an empty output buffer likewise |
| LineEvents.RoundsInOrder | rxtx-devel/src/SerialImp.c:4004-4043 | the events sent are those of each round in turn; within a round an empty buffer, frame, overrun, parity and break counts, CTS, DSR, RI, CD and pending input stand in this order |
| LineEvents.EdgesByName | rxtx-devel/src/SerialImp.c:3913-3929 | each line event is about the line it is named after and tells its level |
| LineEvents.CountersByName | rxtx-devel/src/SerialImp.c:3832-3847 | each counter event is about the counter it is named after, one for each step modulo 2^32 |
| LineEvents.CountersSayTrue | rxtx-devel/src/SerialImp.c:3832-3847 | over any rounds only events of modem lines ever say FALSE |
| DrainProtocol.NoEventWithoutWrite | rxtx-devel/src/SerialImp.c:1268-1278 | over all interleavings, events sent are no more than flags raised, and those no more than writes |
| DrainProtocol.EveryWriteCanBeReported | rxtx-devel/src/SerialImp.c:3765-3774 | the bounds are met: for every n some run reports n writes with n events |
| DrainProtocol.WriteReportedExactly | rxtx-devel/src/SerialImp.c:1268-1278 | for every state: some run without a further write raises the flag after this write and sends an event for it, exactly when the drain thread is not between its two stores |
| DrainProtocol.WriteCanGoUnreported | rxtx-devel/src/SerialImp.c:1276-1277 | such a write is met: after one run with a write between the two stores, no run without a further write raises or sends anything |
| DrainProtocol.FlushTakesBackExactly | rxtx-devel/src/SerialImp.c:1626-1630 | nativeDrain, while both threads rest, takes a pending write and a raised flag back, so that nothing is sent for them before another write, exactly when a write is pending |
| DrainProtocol.FinalizeTakesFlagBack | rxtx-devel/src/SerialImp.c:1325-1329 | the end of the threads takes a flag back that the event loop has not looked at |
| PortOwnership.OwnershipConsistent | rxtx-devel/CNI/CommPortIdentifier.java:352-388 | in every run an identifier is available exactly when it has no port and no owner, no port has two identifiers or reaches super.close twice, and ownership events alternate, and no thread waits with a negative timeout |
| PortOwnership.CloseReleasesItsOwnPort | rxtx-devel/CNI/CommPort.java:97-111 | the identifier a close releases still has the very port being closed, and no other identifier changes |
| PortOwnership.OpenGrantsExactly | rxtx-devel/CNI/CommPortIdentifier.java:352-388 | open of an available identifier makes the caller its owner, with a new open port and one PORT_OWNED, exactly when the driver returns a port, and otherwise changes nothing; of an owned one it goes on to ask |
| PortOwnership.WakeUpGrantsExactly | rxtx-devel/CNI/CommPortIdentifier.java:368-387 | a wait that has ended gets the port, in the same sense, exactly when it is available by then and the driver returns one |
| PortOwnership.AskedThenWaitsExactly | rxtx-devel/CNI/CommPortIdentifier.java:358-366 | a thread that has asked waits exactly when its timeout is not negative |
| PortHandover.CloseCompletes | rxtx-devel/CNI/CommPort.java:97-111 | from any state: a close of an open port completes when Sync and the monitor are free, and leaves its identifier, and no other, without owner and port and the port closed |
| PortHandover.CloseAgainEndsAtOnce | rxtx-devel/CNI/RXTXPort.java:1064-1075 | a close of a closed port changes nothing but closeLock |
| PortHandover.OwnersInTurn | rxtx-devel/CNI/CommPortIdentifier.java:352-422 | for any sequence of owners some run lets them have the port one after another, each with a port of its own, released in full |
| PortHandover.OwnersHandOver | rxtx-devel/CNI/CommPortIdentifier.java:352-422 | for any sequence of owners and any timeout some run lets each get the port by waiting in open for the close of the one before |
| PortHandover.ListenerHandsOver | rxtx-devel/CNI/CommPortIdentifier.java:360-387 | an owner that closes the port when it is asked to hands it to a timed wait |
| PortHandover.UntimedWaitMissesRelease | rxtx-devel/CNI/CommPortIdentifier.java:360-366 | an untimed wait begun after that goes unheard, the identifier being available |
| PortOwnership.NotifiedExactly | rxtx-devel/CNI/CommPortIdentifier.java:356-367 | a waiting opener can still be notified exactly when a close of its identifier is already past its lookups |
| PortOwnership.UntimedWaitNeverEnds | rxtx-devel/CNI/CommPortIdentifier.java:358-366 | otherwise an untimed wait that is not interrupted or woken spuriously never ends, and no close newly reaches super.close meanwhile; one of another identifier that is past its lookups can still finish |
| PortHandover.UntimedWaitReached | rxtx-devel/CNI/CommPortIdentifier.java:352-366 | such a wait is reachable by one owner and one opener |
| PortOwnership.DeadlockIsForEver | rxtx-devel/CNI/CommPortIdentifier.java:352-367 | once a second thread has called open on the identifier, the waiter never wakes in any run, by close, timeout, interrupt or spurious wake-up |
| PortOwnership.WaitEndsExactly | rxtx-devel/CNI/CommPortIdentifier.java:352-367 | a wait can end at all exactly when no second thread has called open on the identifier |
| PortOwnership.WaitEndsInTimeExactly | rxtx-devel/CNI/CommPortIdentifier.java:352-367 | it can end by notification or timeout exactly when, besides, it is timed, notified, or a close is past its lookups |
| PortOwnership.WaiterTakesExactly | rxtx-devel/CNI/CommPortIdentifier.java:356-387 | a waiting opener can still get the port exactly when no second thread has called open and a close is past its lookups, or the identifier is available and the wait timed or notified |
| PortHandover.DeadlockReached | rxtx-devel/CNI/CommPortIdentifier.java:352-367 | the deadlock is reachable by two threads |
| PortRegistry.CommPortIdentifier.Open | rxtx-devel/CNI/CommPortIdentifier.java:368-387 | the fields and the event of a grant are the protocol's, and a refusal changes nothing |
| PortRegistry.CommPortIdentifier.InternalClosePort | rxtx-devel/CNI/CommPortIdentifier.java:413-422 | the fields and the event of a release are the protocol's |
| PortRegistry.Registry.AddIdentifierToList | rxtx-devel/CNI/CommPortIdentifier.java:159-180 | the list stands for the old sequence with the new identifier at its end |
| PortRegistry.Registry.AddPortName | rxtx-devel/CNI/CommPortIdentifier.java:145-150 | registers a new, unowned identifier after all earlier ones |
| PortRegistry.Registry.GetPortIdentifierByName | rxtx-devel/CNI/CommPortIdentifier.java:241-261 | finds the first identifier with the name, or null exactly when there is none |
| PortRegistry.Registry.GetPortIdentifierByPort | rxtx-devel/CNI/CommPortIdentifier.java:270-286 | finds the first identifier with the port, or null exactly when there is none |
| PortRegistry.Registry.Close | rxtx-devel/CNI/CommPort.java:97-111 | releases the first identifier that has the port and leaves every other as it was |
| PortRegistry.CommPortEnumerator.NextElement | rxtx-devel/CNI/CommPortEnumerator.java:91-100 | yields the identifiers in registration order, null after the last, and then begins again |
| PortRegistry.CommPortEnumerator.HasMoreElements | rxtx-devel/CNI/CommPortEnumerator.java:109-118 | false exactly when every identifier registered by now, late ones included, was yielded once and in order |
| PortRegistry.CommPortEnumerator.SurvivesRegistration | rxtx-devel/CNI/CommPortEnumerator.java:91-118 | registrations in between leave an enumeration where it was |
| MonitorLifecycle.AtMostOneMonitor | rxtx-devel/CNI/RXTXPort.java:791-891 | in every reachable state at most one monitor thread is alive, and it is the port's |
| MonitorLifecycle.FlagsAgree | rxtx-devel/CNI/RXTXPort.java:109-139 | between calls MonitorThreadAlive is the negation of monThreadisInterrupted and tells whether a monitor thread lives |
| MonitorLifecycle.AddSetsExactly | rxtx-devel/CNI/RXTXPort.java:791-813 | addEventListener sets the listener exactly when none is set, and starts a new monitor thread, and waits for it, exactly when none lives |
| MonitorLifecycle.BailedHangs | rxtx-devel/CNI/RXTXPort.java:901-909 | where that thread ends before it is ready nothing moves any more, the call included |
| MonitorLives.BailReached | rxtx-devel/CNI/RXTXPort.java:109-139 | such a thread can be the constructor's |
| MonitorLifecycle.RemovalIsComplete | rxtx-devel/CNI/RXTXPort.java:820-891 | when removeEventListener returns every monitor thread is gone and the listener cleared |
| MonitorLifecycle.SilentAfterRemoval | rxtx-devel/CNI/RXTXPort.java:643-780 | from that return to the next addEventListener no monitor thread lives, so that no serialEvent is running or called, whatever both sides do |
| MonitorLifecycle.ClearedIsSilentExactly | rxtx-devel/CNI/RXTXPort.java:764-767 | with the listener field null, all runs without an addEventListener are silent exactly when no monitor thread has read the field and not yet called what it read |
| MonitorLifecycle.InterruptedDeliversExactly | rxtx-devel/CNI/RXTXPort.java:757-767 | once interrupted the monitor thread delivers at most one event more, and can deliver one exactly when it is past its test of the interruption with a listener to call |
| MonitorLifecycle.DeliveryFindsListener | rxtx-devel/CNI/RXTXPort.java:643-780 | the listener is set from the first test of it on, is there when it is read, and is still the one that is set when serialEvent is called on it and while that runs |
| MonitorLifecycle.NotifyKeepsLockExactly | rxtx-devel/CNI/RXTXPort.java:915-928 | a notifyOn call keeps MonitorThreadLock exactly when no monitor thread lives |
| MonitorLives.LivesComplete | rxtx-devel/CNI/RXTXPort.java:791-891 | for any listeners and counts some run adds each, delivers its events to it and removes it, one after another, each but the first heard by a new thread |
| MonitorLives.CloseCompletes | rxtx-devel/CNI/RXTXPort.java:1064-1095 | and some run closes the port after them, the last listener removed before or by the close, with no thread left |
| MonitorLives.IdleCallsComplete | rxtx-devel/CNI/RXTXPort.java:826-833 | a removal without a monitor thread, a notifyOn call with one, a close of a closed port and an event not asked for end and leave the port as it was, save for closeLock |
| MonitorLives.WedgeReached | rxtx-devel/CNI/RXTXPort.java:915-928 | after any such lives a notifyOn call leaves the lock held with no thread to free it |
| MonitorLifecycle.WedgedUntilAdd | rxtx-devel/CNI/RXTXPort.java:901-909 | then no removal and no notifyOn call gets past its wait before a listener is added |
| ByteReading.ReadConserves | rxtx-devel/src/SerialImp.c:3004-3116 | in every environment: bytes stored are the device's next bytes in order and nothing else changes, even on error; at most twenty rounds; every select, repeated ones included, waits normalised and no longer than the positive time left; when and with what result the call ends; by the clock, a result short of the length means that the time was up or twenty rounds went by, and -1 that the last select or read failed in time |
| ByteReading.RoundByRound | rxtx-devel/src/SerialImp.c:3034-3084 | each round after which the call goes on, as the device has it: neither was the time up nor was there an error, every select was made, the first with exactly the time left, and the bytes ready were taken as far as asked for |
| ByteReading.EndsByDevice | rxtx-devel/src/SerialImp.c:3034-3115 | how the call ends: all read or twenty rounds over, or one round more that takes nothing, with what is read when the time is up and with -1 when the select or the read fails |
| ByteReading.RoundWaitsFit | rxtx-devel/src/SerialImp.c:3044-3059 | the first select of a round waits for exactly the time left, and a repetition for what the interrupted one before it left of its own, never longer |
| ByteReading.AllCountedExactly | rxtx-devel/src/SerialImp.c:3063-3084 | every byte taken is counted in the result, in every environment, exactly when at most one byte is asked for |
| ByteReading.Port.ReadByteArray | rxtx-devel/src/SerialImp.c:3004-3116 | the in-place loop makes a call of the specification, round for round, and puts the DATA_AVAILABLE flag back on every exit |
| ByteReading.Port.ReadArray | rxtx-devel/src/SerialImp.c:3458-3499 | the errors for a negative length and a failed read, and the guarantees of the loop at the offset |
| ByteReading.Port.Read | rxtx-devel/CNI/RXTXPort.java:1300-1372 | which exception comes first, that between 1 and len bytes are asked for and how many, and that only those places of the array change |
| ByteReading.OverflowPassesExactly | rxtx-devel/CNI/RXTXPort.java:1321-1325 | the bounds check passes a bad range exactly when off + len overflows, and every good range |
| ByteReading.Port.ReadTerminatedArray | rxtx-devel/src/SerialImp.c:3534-3589 | it makes one-byte calls until one fails, which is the error, or gets nothing in its time and rounds, which is 0, or reads the end of the terminator or the last byte asked for, which is 1 |
| ByteReading.TerminatedConserves | rxtx-devel/src/SerialImp.c:3561-3580 | what such calls store is a contiguous stream prefix of at most length bytes (one for length 0), and without offset they stop at the first end of the terminator and consume nothing past it; by the clock, what 0 and the exception mean |
| ByteReading.CountsTotalExactly | rxtx-devel/src/SerialImp.c:3561-3588 | the count answered is the number of bytes read, in every environment, exactly when at most one byte is asked for |
| Writing.Rs485Line.SendAll | rxtx-devel/src/RS485Imp.c:491-498 | the loop makes writes up to the first that leaves nothing to send and was not interrupted, and the chunks sent are what these took, in order |
| Writing.Rs485Line.FlushAll | rxtx-devel/src/RS485Imp.c:518-521 | the loop makes flushes up to the first that was not interrupted, or one only when five bytes or more were to be written |
| Writing.Rs485Line.WriteArray | rxtx-devel/src/RS485Imp.c:474-531 | the line sees DTR raised, what the writes took of body[offset..offset+count], then after the whole of it DTR lowered and the flushes; RTS unchanged; exactly when the call is done, fails or goes on retrying |
| Writing.RunsOnce | rxtx-devel/src/RS485Imp.c:491-521 | how many writes and flushes are made is determined by their results |
| Writing.SendsAgainExactly | rxtx-devel/src/RS485Imp.c:491-498 | the loop writes again exactly as long as all writes together took less than there is or the last was interrupted |
| Writing.FlushesAgainExactly | rxtx-devel/src/RS485Imp.c:518-521 | and flushes again exactly when it was interrupted and fewer than five bytes were to be written |
| Writing.FlushBoundExactly | rxtx-devel/src/RS485Imp.c:518-521 | at most five flushes under every pattern, exactly when at least five bytes were to be written |
| Writing.OnlyInterruptsRetriedExactly | rxtx-devel/src/RS485Imp.c:491-498 | no error but an interruption is retried under any pattern, exactly when there is nothing to write |
| Writing.EndedCallLowersDtrExactly | rxtx-devel/src/RS485Imp.c:486-516 | every call that ends, normally or with the exception and under any pattern of results, has lowered DTR, exactly when there is something to write |
| Writing.DtrStaysRaisedExactly | rxtx-devel/src/RS485Imp.c:491-516 | with something to write DTR is left raised exactly while bytes are left or the transmitter is not empty, and then the call is still trying |
| Writing.FailingWritesKeepDtr | rxtx-devel/src/RS485Imp.c:491-497 | such a call goes on with DTR raised after any number of writes that all fail |
| Writing.WriteArrayCe | rxtx-devel/WinCE/gnu_io_RXTXPort.cpp:858-886 | ends normally exactly when the writes took len bytes without failure, and then each byte of the slice was taken once and in order |
| Writing.WritesAgainExactly | rxtx-devel/WinCE/gnu_io_RXTXPort.cpp:858-886 | WriteFile is called again exactly when it succeeded and all calls together took less than there is |
| Termios.DecodeOfEncode | rxtx-devel/src/SerialImp.c:534-563 | for every initial control word the parameters read back as set, up to their normal form |
| Termios.EncodeBits | rxtx-devel/src/SerialImp.c:1049-1226 | each bit by its place, for all parameters |
| Termios.EncodeOfDecode | rxtx-devel/src/SerialImp.c:1049-1116 | setting what was read leaves a control word with a defined parity as it is |
| Termios.SettingWhatWasReadExactly | rxtx-devel/src/SerialImp.c:776-807 | setting what was read is refused exactly when the parity read is undefined, and the control word is kept in both cases |
| Termios.EncodeTwice | rxtx-devel/src/SerialImp.c:791-807 | setting the same parameters twice is setting them once |
| Termios.EncodeKeepsTheRest | rxtx-devel/src/SerialImp.c:1049-1226 | no bit outside the character size, stop and parity bits is touched |
| Termios.CacheAgreesExactly | rxtx-devel/CNI/RXTXPort.java:198-217 | the Java fields agree with what the device would be read as, except for two stop bits with five data bits |
| Termios.GetAfterSetFlow | rxtx-devel/src/SerialImp.c:3666-3694 | the flow control read after setting is the mode with both RTS/CTS bits merged, from any modes |
| Termios.SetFlowBits | rxtx-devel/src/SerialImp.c:3675-3694 | each bit by its place, for all modes |
| Termios.FlowReadsBackExactly | rxtx-devel/src/SerialImp.c:3666-3694 | it is the mode itself exactly when that has no unknown bit and both RTS/CTS bits or neither |
| Termios.SetFlowKeepsTheRest | rxtx-devel/src/SerialImp.c:3675-3694 | no other mode bit changes but IXANY, which is cleared |
| Termios.SetAfterGetFlow | rxtx-devel/src/SerialImp.c:3666-3694 | setting the flow control that was read changes nothing but IXANY |
| Termios.Termios.TranslateStopBits | rxtx-devel/src/SerialImp.c:1089-1117 | the word for each stop bits value, 1.5 forcing five data bits, and the refusal of others without a change |
| Termios.SerialPort.SetPortParams | rxtx-devel/src/SerialImp.c:776-892 | modes and speed are set exactly when all three values are valid, the speed is known or a divisor for it can be set, and the calls succeed, and are left otherwise; what DTR and the custom divisor become in every case |
| Termios.SerialPort.SetSerialPortParams | rxtx-devel/CNI/RXTXPort.java:198-217 | throws exactly when the native call fails, leaving fields, modes and speed as they were |
| Termios.SerialPort.SetFlowControl | rxtx-devel/src/SerialImp.c:3666-3704 | both mode words afterwards, and the exception exactly when the terminal cannot be read or set |
| PortScan.Driver.RegisterValidPorts | rxtx-devel/CNI/RXTXCommDriver.java:203-300 | the nested loops register, in order, one port for each candidate and prefix that match and pass the read test |
| PortScan.SameInBothCasesExactly | rxtx-devel/CNI/RXTXCommDriver.java:256-264 | a text equals itself in upper and lower case exactly when it has no letter |
| PortScan.RegisteredExactly | rxtx-devel/CNI/RXTXCommDriver.java:236-295 | a port is registered exactly for the candidates that begin with some prefix, have no letter after it and pass the read test under it, by its device path, or on Windows its name |
| PortScan.RegisteredPerHit | rxtx-devel/CNI/RXTXCommDriver.java:236-295 | a port is registered as often as candidates of its name are matched and pass the read test |
| PortScan.RowsInOrder | rxtx-devel/CNI/RXTXCommDriver.java:236-295 | the ports of earlier candidates come first |
| PortScan.RegisteredOnceExactly | rxtx-devel/CNI/RXTXCommDriver.java:236-295 | distinct candidates are registered at most once each, for all candidates and answers, exactly when no prefix equals or extends another by letter-free text |

## Left out

- JNI, CNI and Win32 calls, logging, debug branches and timing macros, and the raising of exceptions as such; an
  exception is a result.
- LockProtocol: the create and the pid write, and the stale removal, are single steps only where the configuration says
  so; the system calls are otherwise interleaved. A system call that fails without effect is `Refuse`, and so is one that
  open() makes after its lock and that fails it.
- LockFiles: that another lock directory has the device is the fault `refused`; UUCP locks, the buffer sizes of the
  messages and file names and the Unixware lower-casing are not modelled. The four nativeStaticSet calls lock as open()
  does, fail as it does, and unlock when they are done.
- LockRefinement: a thread that is not interfered with; its interleavings with others are `LockProtocol`.
- EventHandoff: the exits of both loops on a closed handle or a listener's TRUE; a run then simply ends.
- SerialEvents: the values of the EV_ and CE_ bits, which come from Windows headers; masks are sets of classes.
- MasterIndex: the calls are taken one after another; the source does not lock the list. What eventLoop leaves linked
  when the drain thread cannot be created is not modelled.
- LineEvents: the WIN32 and non-TIOCSERGETLSR branches; `DrainProtocol` covers the flags of the latter.
- DrainProtocol: nativeDrain's own event, and the interruption of tcdrain by a signal.
- PortOwnership: listeners that call back while a grant or a release is fired; the case covered is a listener that closes
  the port when its ownership is requested. Lookup by name and the exceptions of `open` are in `PortRegistry`.
- PortOwnership and MonitorLifecycle prove safety and what can be reached; that a wait or spin does end depends on
  scheduling.
- DrainProtocol.WriteReportedExactly: one raise and one event may stand for several writes; nativeDrain, which sends an
  event of its own, takes both flags back.
- MonitorLifecycle: add, remove, notifyOn and close calls overlapping each other, and a listener that removes itself or
  closes the port from serialEvent.
- ByteReading.TerminatedConserves: with an offset the terminator is looked for at the wrong places, as in the source, so
  that it is found says nothing about the stream.
- ByteReading.Port.Read: after the overflowing bounds check the native code is given a range outside the array; the model
  stops there with `OutsideArray`.
- ByteReading: that EINTR stops repeating is assumed, as a finite number of repeats, each of which leaves at most what it
  was given of the timeout. The clock may go backwards.
- Writing: a loop whose writes given never suffice stays `StillTrying`; failures of the modem ioctls are not modelled. The
  writeArray of `src/SerialImp.c` does not retry a short write, and nothing is claimed for it.
- Termios: the table of translate_speed, reading a speed back, and the decoders nativeGetParity and
  nativeStaticGetStopBits, which do not read what the encoder writes. Speed 0 is taken to be known to every driver; the
  source would divide by it otherwise. cfsetispeed and cfsetospeed accept the same speeds.
- PortScan: Solaris, and names outside ASCII.
- The preopened list, parallel, I2C and raw ports, `fuserImp.c` and the BeOS sources.
