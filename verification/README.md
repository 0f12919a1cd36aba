# A verified model of the RTL-SDR driver

This project models the parts of the driver in which a hard property lives, in Dafny
4.11, and proves those properties for all inputs, all runs and all interleavings.
`dafny verify dfyconfig.toml` checks everything.

## What is modelled

| files | what | source |
|---|---|---|
| EventLoop, EventLoopSafety, EventLoopPipe, EventLoopWakeup, EventLoopCounts, EventLoopCalls, EventLoopClose | any number of threads handling libusb events, waiting for another handler and closing devices, as atomic steps over the locks, the condition variable and the self-pipe | `io.c`, `core.c`, `hotplug.c`, `libusbi.h` |
| TransferLifecycle, TransferSafety, TransferFates, TransferCallbacks, TransferCancel, TransferReferences, TransferPaths, TransferFailures | submission, completion, cancellation, timeout and disconnect of transfers racing over flags, list and device references | `io.c` |
| Timevals, IntrusiveList, FlyingList, DisconnectSweep | deadlines, the intrusive lists as linked objects, the deadline-sorted list with its early-exit scans, the disconnect sweep | `io.c`, `libusbi.h` |
| Hotplug | registration, lazy deregistration and the pass over the callbacks | `hotplug.c` |
| GetoptSpec, Getopt, GetoptRoundTrip | getopt with short options in PERMUTE order, on the caller's array | `getopt.c` |
| DescriptorSpec, DescriptorFormat, Descriptor, DescriptorRoundTrip, DescriptorErrors | the configuration descriptor parser, and the layout of sections 9.6.3, 9.6.5 and 9.6.6 of the USB 2.0 specification | `descriptor.c` |
| Queue, Extbuffer, Workpool, PoolGrowth, SdrPipeline, SdrPipelineTheorems, SdrPipelinePaths, SdrTcp | the sample pipeline: queue, buffers, pool, the two threads, the byte loops | `queue.c`, `extbuffer.c`, `workpool.c`, `sdrtcp.c` |
| R82xxRegisters, R82xxPll, R82xxTuning | shadow registers, chunked and masked writes, input switch, PLL | `tuner_r82xx.c` |
| Resampler, E4000 | the resampler ratio and the E4000 PLL | `librtlsdr.c`, `tuner_e4k.c` |
| ArgumentParser | the quote-aware splitter and the argument map | `ArgumentParser.java` |
| Options, Octets, Arithmetic | shared by the others | |

Code that changes things in place is modelled in place: the linked lists and queues are
linked objects refining a sequence, argv, sample buffers and shadow registers are arrays,
and loops are loops with invariants, proved against specification functions whose own
properties are proved as lemmas. The two multi-threaded protocols and the
producer/consumer pair are state machines: `Enabled` and `Apply` give the atomic steps,
`IsRun` the runs, and the theorems speak of every run.

What poll, select, send, recv, the I2C bus, the clock, the USB backend and user callbacks
answer is a parameter or a nondeterministic step. The backend is taken to report each
accepted submission at most once, and neither to accept a submission nor to report for a
device that is gone.

## Where the code falls short

Properties one would expect that are false of the code are stated with the exact condition
under which they hold; unless that condition says it, a concrete run or input that breaks
them is given too:

- The event pipe is meant to hold at most one byte. An event queued while the
  completed-transfer loop has dropped `event_data_lock` adds a second one, without bound
  (`EventLoopPipe.OneByteExactly`, `EventLoopPipe.PipeIsUnbounded`).
- Closing a device inside a callback leaves `event_handler_active` clear although the thread
  goes on handling events (`EventLoopClose.CloseAlone`); until it is done, threads that want
  to wait for it retry instead (`EventLoopCalls.NoSleepWithoutReason`).
- `handle_timeout` updates the flags without `flags_lock` and can undo the IN_FLIGHT that a
  submission has just set. That alone does no harm
  (`TransferFailures.LostUpdateMayDoNoHarm`). Among callers that do not submit a transfer
  again before its callback, a callback is lost exactly when the sweep of a disconnect passes
  over the transfer before the report comes (`TransferCallbacks.CallbackExactly`,
  `TransferFailures.LostUpdateLosesTheCallback`).
- The same unlocked update can drop CANCELLING. Then, and only then, the backend is asked a
  second time to cancel a submission (`TransferCancel.ExposedExactly`,
  `TransferCancel.AskedTwice`).
- `handle_timeouts` takes a transfer's lock under `flying_transfers_lock`, the opposite order
  of a failing submission (`TransferFailures.DeadlockIsReachable`,
  `TransferFailures.DeadlockExactly`).
- A configuration whose neighbouring interfaces share a number is merged
  (`DescriptorRoundTrip.ConfigRoundTrip`).
- A transfer resubmitted with a timeout of 0 keeps the deadline of its last submission
  (`Timevals.CalculateTimeout`).
- `sdrtcp_feed` returns 1 for data it dropped (`SdrPipelineTheorems.FeedEnds`,
  `SdrPipelineTheorems.FeedDropped`).
- The pool can outgrow its limit as soon as two callers use stage 0
  (`PoolGrowth.BoundExactly`).
- After a failed write the input switch of the Blog V4 counts as made
  (`R82xxRegisters.LaterSkipIsRight`).
- The sigma-delta loop of the R82xx PLL can divide by zero for crystals that round to
  32768 kHz or more (`R82xxPll.DividesByZeroAtSomeFrequency`,
  `R82xxPll.DividesByZeroAt917505kHz`); a register write that begins below the shadow is
  stored misaligned (`R82xxRegisters.ShadowKept`).
- The E4000 PLL is off whenever z does not fit 8 bits (`E4000.PllError`,
  `E4000.WrappedAt1100MHz`); a comment takes z to be at most 255, and nothing checks it.
- getopt parses the permuted list differently when the scan ended at an option whose argument
  is missing (`GetoptSpec.ReparseExactly`, `GetoptSpec.ReparseFails`).

## Model

| member | source | states |
|---|---|---|
| `EventLoopSafety.RunKeepsInv` | rtlsdr/src/main/cpp/librtlsdr/libusb/libusb/io.c:2290-2356 | In every reachable state of any number of threads: lock ownership agrees with where each thread stands, every sleeping waiter is owed a broadcast, every pending event has a byte in the pipe, and device_close counts the closes under way |
| `EventLoopSafety.StepInv` | rtlsdr/src/main/cpp/librtlsdr/libusb/libusb/core.c:1449-1474 | Each single step of any thread, inside the event functions or inside libusb_close, keeps that invariant |
| `EventLoopWakeup.SleeperIsOwedABroadcast` | rtlsdr/src/main/cpp/librtlsdr/libusb/libusb/io.c:2303-2341 | No lost wakeup: in every reachable state a thread asleep on the waiters condition is owed a broadcast by another thread |
| `EventLoopWakeup.DebtUntilBroadcast` | rtlsdr/src/main/cpp/librtlsdr/libusb/libusb/io.c:1778-1790 | A thread that owes a broadcast owes it until a broadcast has woken every sleeper |
| `EventLoopWakeup.CompletionWakes` | rtlsdr/src/main/cpp/librtlsdr/libusb/libusb/io.c:2303-2341 | A waiter whose completed flag is set by a callback while it sleeps stays owed a broadcast by the very thread that ran the callback |
| `EventLoopWakeup.SleeperCanAlwaysBeWoken` | rtlsdr/src/main/cpp/librtlsdr/libusb/libusb/io.c:1721-1790 | From every reachable state with a sleeper, steps of other threads alone reach a broadcast that wakes it, without its timeout |
| `EventLoopPipe.ClearFindsAByte` | rtlsdr/src/main/cpp/librtlsdr/libusb/libusb/io.c:2138-2179 | usbi_clear_event never reads an empty pipe and takes exactly one byte |
| `EventLoopPipe.BytesExactly` | rtlsdr/src/main/cpp/librtlsdr/libusb/libusb/io.c:2073-2179 | Each step of a run changes the pipe by a byte for an event queued or a close begun while nothing was pending, and by a byte for a clear, which comes exactly when an event was taken or the completions are done and nothing is pending; no other step does |
| `EventLoopPipe.PendingEventsAreVisible` | rtlsdr/src/main/cpp/librtlsdr/libusb/libusb/io.c:2602-2612 | Whenever event_data_lock is free, a pending event has a byte in the pipe, so that poll cannot time out on it |
| `EventLoopPipe.OneByteExactly` | rtlsdr/src/main/cpp/librtlsdr/libusb/libusb/io.c:2138-2179 | The pipe holds at most one byte throughout a run if and only if no event is queued in the window in which the completed-transfer loop has dropped event_data_lock with nothing pending |
| `EventLoopPipe.PipeIsUnbounded` | rtlsdr/src/main/cpp/librtlsdr/libusb/libusb/io.c:2162-2171 | For every n there is a run that leaves n + 1 bytes in the pipe |
| `EventLoopCounts.CompletionsAreKept` | rtlsdr/src/main/cpp/librtlsdr/libusb/libusb/io.c:2162-2179 | In every run the callbacks of completed transfers begun so far and the transfers still on the list number together the completions queued so far |
| `EventLoopCounts.MessagesAreKept` | rtlsdr/src/main/cpp/librtlsdr/libusb/libusb/io.c:2148-2160 | In every run the hotplug messages delivered, the one being carried and those still queued number together the messages queued so far |
| `EventLoopCalls.PollsAndBackendCalls` | rtlsdr/src/main/cpp/librtlsdr/libusb/libusb/io.c:2039-2234 | In every run a thread polls once for each time it prepared its descriptors and once more for each hotplug message it found, unless something failed first; and it calls the backend once for each poll that found another descriptor ready, unless a callback failed first |
| `EventLoopCalls.FlagIsSetExactly` | rtlsdr/src/main/cpp/librtlsdr/libusb/libusb/io.c:2290-2356 | The completed flag of a call is clear at its beginning and set exactly by the callbacks that set it since |
| `EventLoopCalls.DoneReturns` | rtlsdr/src/main/cpp/librtlsdr/libusb/libusb/io.c:2303-2341 | A call whose completed flag is set in front of one of its checks returns without a poll and without going to sleep |
| `EventLoopCalls.ClosersGoFirst` | rtlsdr/src/main/cpp/librtlsdr/libusb/libusb/io.c:1721-1745 | While a device is being closed, no thread that has not passed the check for it begins to handle events or tries to: it waits |
| `EventLoopCalls.WaitsWhileActive` | rtlsdr/src/main/cpp/librtlsdr/libusb/libusb/io.c:2319-2335 | While event_handler_active is set, a waiter waits instead of trying again |
| `EventLoopCalls.NoSleepWithoutReason` | rtlsdr/src/main/cpp/librtlsdr/libusb/libusb/io.c:2319-2335 | While no device is being closed and event_handler_active is clear, no thread goes to sleep |
| `EventLoopCalls.SleepsUntilWoken` | rtlsdr/src/main/cpp/librtlsdr/libusb/libusb/io.c:1920-1943 | A thread that goes to sleep sleeps until a broadcast or the end of its timed wait |
| `EventLoopCalls.WokenStaysAwake` | rtlsdr/src/main/cpp/librtlsdr/libusb/libusb/io.c:1920-1943 | Either ends the sleep for good: the thread goes on as soon as the waiters lock is free |
| `EventLoopClose.ActiveExactly` | rtlsdr/src/main/cpp/librtlsdr/libusb/libusb/io.c:1721-1790 | In every run event_handler_active is set exactly if the last of the steps that write it set it |
| `EventLoopClose.CloseAlone` | rtlsdr/src/main/cpp/librtlsdr/libusb/libusb/core.c:1426-1474 | A close that nothing interrupts ends from every point at which it may be called: lock, pipe and device_close as before, every waiter awake, but event_handler_active clear even if the thread goes on handling events |
| `TransferSafety.RunInv` | rtlsdr/src/main/cpp/librtlsdr/libusb/libusb/io.c:1468-1529 | In every run in which no caller submits a transfer again before its callback, whatever flag updates are lost: list, backend, event handler, locks and flags agree for every transfer, and each call's completions made or due number one if it was accepted and none otherwise |
| `TransferSafety.StepInv` | rtlsdr/src/main/cpp/librtlsdr/libusb/libusb/io.c:1468-1684 | Each step of submission, completion, cancellation, timeout and disconnect keeps that invariant |
| `TransferCallbacks.CallbackExactly` | rtlsdr/src/main/cpp/librtlsdr/libusb/libusb/io.c:1949-1962 | Whenever the event handler is idle, every submission that succeeded has had exactly one callback or can still be reported, if and only if no disconnect sweep has passed over a transfer that was with the backend, its IN_FLIGHT missing and its submission over |
| `TransferCallbacks.NeverTwice` | rtlsdr/src/main/cpp/librtlsdr/libusb/libusb/io.c:1625-1684 | No submission ever gets two callbacks, and one that returned an error gets none |
| `TransferCallbacks.ExactlyOneCallback` | rtlsdr/src/main/cpp/librtlsdr/libusb/libusb/io.c:1625-1684 | If no flag update was lost, and whatever callers do: a submission that returned 0 has had exactly one callback once the event handler is idle, or is still in flight on a present device with its report possible; completion or disconnect may come before IN_FLIGHT is set |
| `TransferCallbacks.FlagsTrustedExactly` | rtlsdr/src/main/cpp/librtlsdr/libusb/libusb/io.c:1949-1962 | Every listed transfer is marked IN_FLIGHT or still being submitted throughout a run if and only if no unlocked flags update of handle_timeout writes back flags read before the submission marked them |
| `TransferCancel.CancelChanges` | rtlsdr/src/main/cpp/librtlsdr/libusb/libusb/io.c:1545-1579 | A cancellation marks a transfer in flight that is not being cancelled yet, and its device as gone exactly if that was the answer; every other flag and all else stay |
| `TransferCancel.TimeoutCancelChanges` | rtlsdr/src/main/cpp/librtlsdr/libusb/libusb/io.c:1949-1962 | The cancellation by handle_timeout changes the flags likewise, and goes on to mark the transfer timed out exactly if the backend cancelled it |
| `TransferCancel.ExposedExactly` | rtlsdr/src/main/cpp/librtlsdr/libusb/libusb/io.c:1553-1575 | Throughout a run no transfer in flight whose cancellation the backend has been asked for lacks its mark, if and only if handle_timeout never writes back flags read before the mark was set |
| `TransferCancel.AskedAgainExactly` | rtlsdr/src/main/cpp/librtlsdr/libusb/libusb/io.c:1554-1559 | A further cancellation of a submission reaches the backend exactly if the transfer is in that state |
| `TransferCancel.AskedOnce` | rtlsdr/src/main/cpp/librtlsdr/libusb/libusb/io.c:1545-1579 | Without such a write the backend is asked at most once to cancel a submission |
| `TransferCancel.AskedTwice` | rtlsdr/src/main/cpp/librtlsdr/libusb/libusb/io.c:1949-1962 | A concrete run in which the user and handle_timeout both ask the backend to cancel the same submission |
| `TransferReferences.ListOperationsAreLegal` | rtlsdr/src/main/cpp/librtlsdr/libusb/libusb/io.c:1369-1450 | A transfer is added to flying_transfers only when off the list and removed only when on it |
| `TransferReferences.RefsInRuns` | rtlsdr/src/main/cpp/librtlsdr/libusb/libusb/io.c:1490-1528 | At every moment the reference count of a device is the number of its listed transfers, less the calls on the list without a reference, plus the one the event handler holds |
| `TransferReferences.ReferencesMatchTheList` | rtlsdr/src/main/cpp/librtlsdr/libusb/libusb/io.c:1490-1528 | At quiescence the references transfers hold on a device equal the number of its transfers on the list; those are exactly the ones the backend has and, if no update was lost, the ones marked in flight |
| `TransferPaths.AcceptedAlone` | rtlsdr/src/main/cpp/librtlsdr/libusb/libusb/io.c:1468-1529 | A submission that the backend accepts and nothing interrupts leaves the transfer listed, with a reference, in flight and nothing else marked, whatever else there is |
| `TransferPaths.RefusedAlone` | rtlsdr/src/main/cpp/librtlsdr/libusb/libusb/io.c:1490-1528 | One that the backend refuses leaves empty flags, and list and references as they were |
| `TransferPaths.CompletionAlone` | rtlsdr/src/main/cpp/librtlsdr/libusb/libusb/io.c:1625-1684 | A completion that nothing interrupts makes the callback, ends the flight in the flags, and takes transfer and reference away |
| `TransferPaths.SweepAlone` | rtlsdr/src/main/cpp/librtlsdr/libusb/libusb/io.c:2754-2781 | A sweep that comes to a transfer in flight completes it so and begins again |
| `TransferPaths.TimeoutAlone` | rtlsdr/src/main/cpp/librtlsdr/libusb/libusb/io.c:1949-1962 | A timeout whose cancellation succeeds leaves the transfer handled, being cancelled and timed out, and all else as it was |
| `TransferFailures.LostUpdateLosesTheCallback` | rtlsdr/src/main/cpp/librtlsdr/libusb/libusb/io.c:1949-1962 | A concrete run in which a lost update makes a submission that returned 0 never get its callback |
| `TransferFailures.LostUpdateMayDoNoHarm` | rtlsdr/src/main/cpp/librtlsdr/libusb/libusb/io.c:1949-1962 | A concrete run with the same lost update in which the callback is made once and nothing is left over |
| `TransferFailures.DeadlockIsReachable` | rtlsdr/src/main/cpp/librtlsdr/libusb/libusb/io.c:1964-2004 | A concrete run in which handle_timeouts and a failing submission wait for each other's lock |
| `TransferFailures.DeadlockIsForever` | rtlsdr/src/main/cpp/librtlsdr/libusb/libusb/io.c:1964-2004 | No step of any thread ends that deadlock |
| `TransferFailures.DeadlockExactly` | rtlsdr/src/main/cpp/librtlsdr/libusb/libusb/io.c:1490-1528 | A handle_timeouts that waits for a submission which has yet to call the backend ends in the deadlock if and only if the backend refuses, wherever the run goes |
| `TransferFailures.DoomedGoesOn` | rtlsdr/src/main/cpp/librtlsdr/libusb/libusb/io.c:1512-1528 | A refused submission can always take its next step towards that deadlock |
| `TransferFailures.TimeoutsBlockedExactly` | rtlsdr/src/main/cpp/librtlsdr/libusb/libusb/io.c:1522-1528 | handle_timeouts about to cancel is stuck exactly when the holder of the transfer's lock is a failed submission about to remove it from the list |
| `Timevals.CalculateTimeout` | rtlsdr/src/main/cpp/librtlsdr/libusb/libusb/io.c:1204-1231 | The deadline is the clock plus the timeout, cut to microseconds and normalised; without a timeout the previous deadline stays, and it fails exactly when there is a timeout and no clock |
| `Timevals.LaterMeansLater` | rtlsdr/src/main/cpp/librtlsdr/libusb/libusb/io.c:1395-1398 | The written-out comparison of seconds and microseconds is the order of the points in time |
| `IntrusiveList.UsbiTransfer.constructor` | rtlsdr/src/main/cpp/librtlsdr/libusb/libusb/libusbi.h:112-115 | A fresh list head is the empty ring |
| `IntrusiveList.ListAdd` | rtlsdr/src/main/cpp/librtlsdr/libusb/libusb/libusbi.h:117-124 | The ring becomes that of the sequence with the entry inserted behind the given place |
| `IntrusiveList.ListAddTail` | rtlsdr/src/main/cpp/librtlsdr/libusb/libusb/libusbi.h:126-134 | The ring becomes that of the sequence with the entry inserted before the given place |
| `IntrusiveList.ListDel` | rtlsdr/src/main/cpp/librtlsdr/libusb/libusb/libusbi.h:136-141 | The ring becomes that of the sequence without the entry, whose links are cleared |
| `FlyingList.PlaceKeepsOrder` | rtlsdr/src/main/cpp/librtlsdr/libusb/libusb/io.c:1389-1406 | Inserting before the first deadline that must come later keeps the deadlines sorted, unset ones last |
| `FlyingList.FirstInFirstOut` | rtlsdr/src/main/cpp/librtlsdr/libusb/libusb/io.c:1369-1433 | After any sequence of additions and removals the list is sorted by deadline, unset ones last, and by arrival among equals |
| `FlyingList.OnTheList` | rtlsdr/src/main/cpp/librtlsdr/libusb/libusb/io.c:1369-1453 | And what is on it is exactly what was added and not removed |
| `FlyingList.Context.AddToFlyingList` | rtlsdr/src/main/cpp/librtlsdr/libusb/libusb/io.c:1369-1433 | The transfer is inserted at exactly that place of the sorted heap list |
| `FlyingList.Context.RemoveFromFlyingList` | rtlsdr/src/main/cpp/librtlsdr/libusb/libusb/io.c:1439-1453 | Exactly that transfer leaves, and the list stays sorted |
| `FlyingList.HandleTimeout` | rtlsdr/src/main/cpp/librtlsdr/libusb/libusb/io.c:1949-1962 | What becomes of each flag: a transfer in flight and not yet being cancelled is marked cancelling, timed out exactly if the cancellation returned 0, and its device gone exactly if that was the answer; nothing else changes, and no later scan handles the transfer again |
| `FlyingList.DueExactly` | rtlsdr/src/main/cpp/librtlsdr/libusb/libusb/io.c:1981-1999 | A transfer is handled exactly if it has a deadline, which in microseconds is not after the clock, and is neither handled yet nor left to the operating system |
| `FlyingList.NoneDueAfter` | rtlsdr/src/main/cpp/librtlsdr/libusb/libusb/io.c:1981-1996 | Behind a deadline that is unset or has not passed no deadline has passed |
| `FlyingList.Context.HandleTimeoutsLocked` | rtlsdr/src/main/cpp/librtlsdr/libusb/libusb/io.c:1964-2004 | Despite the early exits exactly the transfers with an expired deadline not handled yet are handled, as by a full scan; all others are untouched |
| `FlyingList.Context.GetNextTimeout` | rtlsdr/src/main/cpp/librtlsdr/libusb/libusb/io.c:2510-2565 | The time left to the smallest deadline that is still to be handled, 0 if it has passed, and none if there is no such deadline or no clock |
| `DisconnectSweep.FindInFlight` | rtlsdr/src/main/cpp/librtlsdr/libusb/libusb/io.c:2754-2769 | The inner scan finds a transfer of the device in flight, marking others of the device only, or marks them all |
| `DisconnectSweep.HandleDisconnect` | rtlsdr/src/main/cpp/librtlsdr/libusb/libusb/io.c:2734-2783 | The sweep ends with what SweepDone says of the list and the flags, whatever transfers of whatever devices the callbacks submit, those of the device that is gone being refused by the backend |
| `DisconnectSweep.SweepResult` | rtlsdr/src/main/cpp/librtlsdr/libusb/libusb/io.c:2754-2781 | That is: each in-flight transfer of the device is called back exactly once and leaves the list, every remaining one of the device is marked and not in flight, and transfers of other devices keep list place and flags; a transfer submitted again by a callback has the empty flags of a refused submission |
| `Hotplug.Context.Register` | rtlsdr/src/main/cpp/librtlsdr/libusb/libusb/hotplug.c:236-284 | A callback is registered at the front under a new handle |
| `Hotplug.Context.Deregister` | rtlsdr/src/main/cpp/librtlsdr/libusb/libusb/hotplug.c:314-337 | Deregistration marks the callbacks with the handles and removes nothing |
| `Hotplug.Context.Match` | rtlsdr/src/main/cpp/librtlsdr/libusb/libusb/hotplug.c:190-210 | Whatever the callbacks register, deregister and return while the lock is dropped, a pass calls and keeps exactly the callbacks that Pass says; those registered meanwhile are in front and not called |
| `Hotplug.CalledExactly` | rtlsdr/src/main/cpp/librtlsdr/libusb/libusb/hotplug.c:155-188 | A callback is called if and only if it is registered for the event and for the vendor, product and class of the device, and was not deregistered, by whomever, before its turn |
| `Hotplug.MarkedAreFreed` | rtlsdr/src/main/cpp/librtlsdr/libusb/libusb/hotplug.c:155-210 | A callback marked before the pass is freed by it, and none is called twice |
| `Hotplug.KeptExactly` | rtlsdr/src/main/cpp/librtlsdr/libusb/libusb/hotplug.c:156-209 | A callback stays on the list if and only if it was not deregistered before its turn and did not ask for its removal when called |
| `Hotplug.InOrder` | rtlsdr/src/main/cpp/librtlsdr/libusb/libusb/hotplug.c:188-209 | The callbacks called, and those kept, come in the order of the list |
| `Hotplug.GoneExactly` | rtlsdr/src/main/cpp/librtlsdr/libusb/libusb/hotplug.c:314-337 | The handles marked at the end of a pass are those marked before and those deregistered by the callbacks called |
| `Getopt.SwapBlocks` | rtlsdr/src/main/cpp/librtlsdr/src/getopt/getopt.c:327-346 | Two disjoint blocks of equal length trade places, all else stays |
| `Getopt.ExchangeStep` | rtlsdr/src/main/cpp/librtlsdr/src/getopt/getopt.c:322-372 | One turn puts the shorter block in its final place and shrinks top - bottom by its length |
| `Getopt.Scanner.Exchange` | rtlsdr/src/main/cpp/librtlsdr/src/getopt/getopt.c:302-380 | Block A then B becomes B then A, each in its own order, the rest unchanged, with fewer swaps than the two blocks have elements |
| `Getopt.Scanner.Next` | rtlsdr/src/main/cpp/librtlsdr/src/getopt/getopt.c:509-972 | Each call returns the next event of the parse of the original arguments, with its optarg and optopt; between calls what is scanned so far is permuted and the rest untouched; -1 comes at the end of the parse, with argv permuted and optind at the first non-option |
| `Getopt.ScanAll` | rtlsdr/src/main/cpp/librtlsdr/src/rtl_sdr.c:124 | The caller's loop sees exactly the events of the parse; at the end argv is the program name, the option side and the other side, and optind is the boundary |
| `GetoptSpec.StablePartition` | rtlsdr/src/main/cpp/librtlsdr/src/getopt/getopt.c:547-622 | The option side and the other side partition the arguments, each in the original order |
| `GetoptSpec.RestIsNonOption` | rtlsdr/src/main/cpp/librtlsdr/src/getopt/getopt.c:571-607 | Unless a double dash ended the scan, no element of the other side has option syntax |
| `GetoptSpec.ReparseExactly` | rtlsdr/src/main/cpp/librtlsdr/src/getopt/getopt.c:547-972 | Parsing the permuted list again gives the same parse if and only if the scan did not end at a missing argument with non-options present |
| `GetoptSpec.ReparseFails` | rtlsdr/src/main/cpp/librtlsdr/src/getopt/getopt.c:947-968 | The arguments x and -a with an option that takes an argument are such a case |
| `GetoptRoundTrip.KindOfLetter` | rtlsdr/src/main/cpp/librtlsdr/src/getopt/getopt.c:778-800 | An option string written from declarations says of every character what was declared of it |
| `GetoptRoundTrip.ArgumentsRoundTrip` | rtlsdr/src/main/cpp/librtlsdr/src/getopt/getopt.c:778-972 | An argument list written from letters, clustered or not, attached, separate, optional and missing arguments, unknown letters, non-options and a double dash is parsed to exactly those events with exactly those argument strings, and to those options and non-options |
| `GetoptRoundTrip.EveryListIsWritten` | rtlsdr/src/main/cpp/librtlsdr/src/getopt/getopt.c:547-972 | Every argument list is such a list |
| `DescriptorFormat.ParseDescriptor` | rtlsdr/src/main/cpp/librtlsdr/libusb/libusb/descriptor.c:44-91 | The fields the format string picks out, little-endian words in the host's order, and the number of bytes read |
| `DescriptorFormat.FieldsRoundTrip` | rtlsdr/src/main/cpp/librtlsdr/libusb/libusb/descriptor.c:44-91 | Fields written in any format are read back from it, whatever follows |
| `DescriptorFormat.BytesRoundTrip` | rtlsdr/src/main/cpp/librtlsdr/libusb/libusb/descriptor.c:44-91 | The bytes read in any format are the bytes the fields are written as |
| `Descriptor.SkipUnknown` | rtlsdr/src/main/cpp/librtlsdr/libusb/libusb/descriptor.c:144-170 | The loop over class and vendor descriptors skips the bytes SkipExtra says and stops for the reason it says |
| `Descriptor.ReadEndpoint` | rtlsdr/src/main/cpp/librtlsdr/libusb/libusb/descriptor.c:101-189 | For every buffer the result is ParseEndpoint's: the fields, extras and byte count, 0 for another descriptor, or the error |
| `Descriptor.ReadAlt` | rtlsdr/src/main/cpp/librtlsdr/libusb/libusb/descriptor.c:231-347 | For every buffer one turn of the loop over alternate settings gives what ParseAlt says |
| `Descriptor.ReadInterface` | rtlsdr/src/main/cpp/librtlsdr/libusb/libusb/descriptor.c:216-360 | For every buffer the loop over alternate settings gives what ParseAlts says |
| `Descriptor.ReadInterfaces` | rtlsdr/src/main/cpp/librtlsdr/libusb/libusb/descriptor.c:424-485 | For every buffer the loop over interfaces gives the extras, interfaces and bytes left that ParseInterfaces says |
| `Descriptor.ReadConfiguration` | rtlsdr/src/main/cpp/librtlsdr/libusb/libusb/descriptor.c:375-491 | For every buffer the result is ParseConfig's, which the round trip and DescriptorErrors pin with the numbers of the specification written out |
| `DescriptorRoundTrip.EndpointRoundTrip` | rtlsdr/src/main/cpp/librtlsdr/libusb/libusb/descriptor.c:101-189 | Every endpoint laid out by section 9.6.6 of the USB 2.0 specification, with extras, is read back |
| `DescriptorRoundTrip.AltRoundTrip` | rtlsdr/src/main/cpp/librtlsdr/libusb/libusb/descriptor.c:231-347 | Every alternate setting laid out by section 9.6.5, with extras and endpoints, is read back |
| `DescriptorRoundTrip.AltsRoundTrip` | rtlsdr/src/main/cpp/librtlsdr/libusb/libusb/descriptor.c:216-360 | Every interface, as its alternate settings in a row, is read back, and the reading stops at its end |
| `DescriptorRoundTrip.ParsedNeighboursDiffer` | rtlsdr/src/main/cpp/librtlsdr/libusb/libusb/descriptor.c:349-355 | Whatever the bytes, no two neighbouring interfaces of a parsed tree have one number |
| `DescriptorRoundTrip.ConfigRoundTrip` | rtlsdr/src/main/cpp/librtlsdr/libusb/libusb/descriptor.c:375-491 | For every tree laid out by sections 9.6.3, 9.6.5 and 9.6.6, parsing rebuilds the tree, extras included, and leaves exactly the bytes behind it, if and only if neighbouring interfaces are numbered differently |
| `DescriptorErrors.SkipsUpTo` | rtlsdr/src/main/cpp/librtlsdr/libusb/libusb/descriptor.c:144-170 | Descriptors of other types are skipped up to the first bytes that are a standard, a short or a malformed one, or the end |
| `DescriptorErrors.SkipDivides` | rtlsdr/src/main/cpp/librtlsdr/libusb/libusb/descriptor.c:144-170 | Every buffer divides so |
| `DescriptorErrors.EndpointRefused` | rtlsdr/src/main/cpp/librtlsdr/libusb/libusb/descriptor.c:112-139 | For every buffer: exactly when an endpoint is refused, and exactly when nothing is read |
| `DescriptorErrors.EndpointBefore` | rtlsdr/src/main/cpp/librtlsdr/libusb/libusb/descriptor.c:144-189 | An endpoint loses its extra bytes in front of a descriptor cut short, and is refused in front of a malformed one |
| `DescriptorErrors.EndpointsRead` | rtlsdr/src/main/cpp/librtlsdr/libusb/libusb/descriptor.c:325-340 | However many endpoints are asked for, those there are are read up to that number; asking for more is an error exactly at the end of the buffer |
| `DescriptorErrors.AltRefused` | rtlsdr/src/main/cpp/librtlsdr/libusb/libusb/descriptor.c:245-266 | For every buffer: exactly when an alternate setting is refused, when there is none, and when it is the last |
| `DescriptorErrors.AltDeclares` | rtlsdr/src/main/cpp/librtlsdr/libusb/libusb/descriptor.c:311-340 | A laid-out alternate setting whose count byte is any number: refused above 32, else the number read is stored |
| `DescriptorErrors.AltBefore` | rtlsdr/src/main/cpp/librtlsdr/libusb/libusb/descriptor.c:283-307 | In front of a descriptor cut short an alternate setting without endpoints is the last and loses its extra bytes; in front of a malformed one it is refused |
| `DescriptorErrors.InterfaceBefore` | rtlsdr/src/main/cpp/librtlsdr/libusb/libusb/descriptor.c:342-360 | An alternate setting of the same interface that is refused makes the interface refused; one that is the last ends it |
| `DescriptorErrors.HeaderRefused` | rtlsdr/src/main/cpp/librtlsdr/libusb/libusb/descriptor.c:384-409 | For every buffer: parse_configuration refuses its header exactly when it is shorter than 9 bytes or than it says, not of type 2, says less than 9 bytes or more than 32 interfaces |
| `DescriptorErrors.ConfigPromises` | rtlsdr/src/main/cpp/librtlsdr/libusb/libusb/descriptor.c:424-485 | A laid-out configuration whose count byte is 1 to 32: the interfaces there are are read up to that number, the number read is stored and the layout of the others is left |
| `DescriptorErrors.ConfigWithout` | rtlsdr/src/main/cpp/librtlsdr/libusb/libusb/descriptor.c:424-476 | Where no interface follows, bytes cut short end the configuration without its extra, malformed ones make it refused, and others become its extra |
| `DescriptorErrors.ConfigSpoiled` | rtlsdr/src/main/cpp/librtlsdr/libusb/libusb/descriptor.c:475-477 | An interface that is refused makes the configuration refused |
| `Queues.Queue.Add` | rtlsdr/src/main/cpp/src/queue.c:35-53 | The heap list's contents grow by the payload at the end |
| `Queues.Queue.Pop` | rtlsdr/src/main/cpp/src/queue.c:55-71 | The first payload leaves the heap list; nothing from an empty one |
| `Extbuffers.Extbuffer.PrepareToHandle` | rtlsdr/src/main/cpp/src/extbuffer.c:41-127 | The valid size becomes the size asked for and fits the capacity, which never shrinks; contents are cleared when that was due and kept otherwise |
| `Extbuffers.Extbuffer.Fill` | rtlsdr/src/main/cpp/src/sdrtcp.c:361-365 | Preparing and copying leaves exactly the samples as the valid contents |
| `Workpools.CountUpdate` | rtlsdr/src/main/cpp/src/workpool.c:28-72 | Changing one stage changes the number of queued buffers by the change of that stage |
| `Workpools.Workpool.Pop` | rtlsdr/src/main/cpp/src/workpool.c:28-55 | The first buffer of the stage is handed out; conservation is kept |
| `Workpools.Workpool.GetWaitLock` | rtlsdr/src/main/cpp/src/workpool.c:74-89 | The stage's first buffer, else a new one for stage 0 while the pool may grow, else one that arrives during the wait; elements equals queued plus handed out, at most max_elements, no buffer in two places |
| `PoolGrowth.BoundExactly` | rtlsdr/src/main/cpp/src/workpool.c:78-83 | The pool keeps to max_elements in every interleaving if and only if at most one caller takes buffers from stage 0, or the pool may not grow at all |
| `Workpools.Workpool.GetUnlock` | rtlsdr/src/main/cpp/src/workpool.c:91-102 | The buffer goes to the next stage, from the last one emptied to the first; capacity and memory stay |
| `Workpools.Workpool.Free` | rtlsdr/src/main/cpp/src/workpool.c:115-140 | The pool ends empty, and what it counts as leaked is the buffers still handed out |
| `Workpools.Workpool.SetThreads` | rtlsdr/src/main/cpp/src/workpool.c:142-160 | A pool of that many empty stages; nothing for a number not positive |
| `SdrPipelineTheorems.BuffersAreConserved` | rtlsdr/src/main/cpp/src/workpool.c:28-102 | In every reachable state of producer and consumer each buffer is in exactly one queue or hand, and there are at most five |
| `SdrPipelineTheorems.QueuedUntouched` | rtlsdr/src/main/cpp/src/sdrtcp.c:361-366 | No step writes into a queued buffer or the one being sent |
| `SdrPipelineTheorems.StepIntegrity` | rtlsdr/src/main/cpp/src/sdrtcp.c:120-168 | Each step of producer, consumer or stop keeps what is sent a prefix of what was accepted, and loses nothing while serving |
| `SdrPipelineTheorems.StreamIntegrity` | rtlsdr/src/main/cpp/src/sdrtcp.c:120-168 | In every reachable state the client has received a prefix of the header and the accepted feeds in order; while serving the rest is being sent or queued; send only reads bytes of the buffer |
| `SdrPipelineTheorems.FeedEnds` | rtlsdr/src/main/cpp/src/sdrtcp.c:354-379 | A call of sdrtcp_feed that began returns 1; its data is accepted as it is, or dropped, which happens exactly when the wait ends with all five buffers queued or being sent |
| `SdrPipelineTheorems.FeedDropped` | rtlsdr/src/main/cpp/src/sdrtcp.c:354-379 | A concrete run, with any header and data, in which the fifth feed is dropped and returns 1 |
| `SdrPipelineTheorems.HeaderReadable` | rtlsdr/src/main/cpp/src/sdrtcp.c:261-273 | The 12-byte header holds the magic and the two numbers in network order |
| `SdrPipelinePaths.FeedBeginsExactly` | rtlsdr/src/main/cpp/src/sdrtcp.c:354-379 | A call of sdrtcp_feed begins exactly while clients are served, and otherwise returns 0 and changes nothing |
| `SdrPipelinePaths.FeedAlone` | rtlsdr/src/main/cpp/src/sdrtcp.c:354-379 | With a free buffer the first of them takes the data and is queued as the last |
| `SdrPipelinePaths.FeedGrows` | rtlsdr/src/main/cpp/src/workpool.c:85-102 | Without one, a pool of fewer than five buffers grows by one that does |
| `SdrPipelinePaths.BufferSentAlone` | rtlsdr/src/main/cpp/src/sdrtcp.c:114-168 | A queued buffer leaves as a whole in whatever pieces send takes it, and comes back emptied as the last of the free ones |
| `SdrPipelinePaths.NeverSendsNothing` | rtlsdr/src/main/cpp/src/sdrtcp.c:130-165 | In no run is send asked for nothing |
| `SdrPipelinePaths.StopAlone` | rtlsdr/src/main/cpp/src/sdrtcp.c:119-127 | A stop ends a service that waits for a buffer, and nothing else changes |
| `SdrPipelinePaths.ErrorAlone` | rtlsdr/src/main/cpp/src/sdrtcp.c:140-168 | An error of send or select ends the service: no more of the buffer leaves, and it goes back emptied |
| `SdrTcp.CommandListener` | rtlsdr/src/main/cpp/src/sdrtcp.c:72-112 | The listener uses every event up to the first that stops the service or is an error; the commands dispatched are exactly the complete frames among the bytes recv gave over those events, in order, however they were split; one is dropped only when it becomes complete as the service stops |
| `SdrTcp.CommandsRoundTrip` | rtlsdr/src/main/cpp/src/sdrtcp.c:80-108 | Commands encoded as a byte and a 32-bit number in network order are the commands read; an incomplete frame is none |
| `SdrTcp.SendBuffer` | rtlsdr/src/main/cpp/src/sdrtcp.c:130-165 | What leaves are the bytes that send accepted over the events used, from the front of the buffer; the loop ends exactly when that is all of it, the service is stopped or an error occurs |
| `R82xxRegisters.ShadowKept` | rtlsdr/src/main/cpp/librtlsdr/src/tuner_r82xx.c:240-255 | Storing a write in the shadow keeps it in agreement with the chip whatever is written, if and only if the write does not cross into the shadow from below |
| `R82xxRegisters.Tuner.ShadowStore` | rtlsdr/src/main/cpp/librtlsdr/src/tuner_r82xx.c:240-255 | The shadow becomes that of ShadowStored |
| `R82xxRegisters.Tuner.Write` | rtlsdr/src/main/cpp/librtlsdr/src/tuner_r82xx.c:257-292 | The chunks add up to one whole write, each within the message length; agreement is kept; after a failed message a prefix has been written |
| `R82xxRegisters.Tuner.Init` | rtlsdr/src/main/cpp/librtlsdr/src/tuner_r82xx.c:1375-1384 | From the initial write on the shadow equals the chip's registers 0x05 to 0x22 |
| `R82xxRegisters.Tuner.WriteRegMask` | rtlsdr/src/main/cpp/librtlsdr/src/tuner_r82xx.c:309-320 | Exactly the masked bits of the one chip register change; a register without a shadow is refused |
| `R82xxRegisters.SwitchedExactly` | rtlsdr/src/main/cpp/librtlsdr/src/tuner_r82xx.c:1163-1192 | Skipping the input-switch writes leaves the chip as writing would if and only if it is set to that band already |
| `R82xxRegisters.SwitchedSets` | rtlsdr/src/main/cpp/librtlsdr/src/tuner_r82xx.c:1163-1192 | After the three writes the chip is set to the band |
| `R82xxRegisters.InputBits` | rtlsdr/src/main/cpp/librtlsdr/src/tuner_r82xx.c:1147-1192 | The bits of the band of a frequency: cable 2 up to 28.8 MHz, cable 1 between that and 250 MHz, air input from there on |
| `R82xxRegisters.SwitchKeeps` | rtlsdr/src/main/cpp/librtlsdr/src/tuner_r82xx.c:1163-1192 | The writes of the switch, all or the first few, change no other bit of any register |
| `R82xxRegisters.InputKept` | rtlsdr/src/main/cpp/librtlsdr/src/tuner_r82xx.c:891-901 | A masked write that does not touch the input bits leaves the input set |
| `R82xxRegisters.Tuner.SwitchInput` | rtlsdr/src/main/cpp/librtlsdr/src/tuner_r82xx.c:1147-1192 | While writes succeed the chip has the three input bits of the frequency, as if all three writes had always been made, and the cached input stays right; after a failure the chip has had the first writes only, the band is cached all the same, and the next call for it writes nothing |
| `R82xxRegisters.LaterSkipIsRight` | rtlsdr/src/main/cpp/librtlsdr/src/tuner_r82xx.c:1163-1192 | After a switch that failed behind n writes, skipping the next one is right exactly when the bits it did not come to are as wanted |
| `R82xxPll.OneDividerFits` | rtlsdr/src/main/cpp/librtlsdr/src/tuner_r82xx.c:466-478 | Exactly one divider fits if and only if the frequency is 27657 to 1769999 kHz |
| `R82xxPll.ChooseDivider` | rtlsdr/src/main/cpp/librtlsdr/src/tuner_r82xx.c:466-478 | The loop finds the divider that fits and its logarithm, or ends at 128 |
| `R82xxPll.SdmCalculator` | rtlsdr/src/main/cpp/librtlsdr/src/tuner_r82xx.c:524-533 | The loop gives what SdmFrom says within 15 rounds, including a division by zero |
| `R82xxPll.SdmError` | rtlsdr/src/main/cpp/librtlsdr/src/tuner_r82xx.c:524-533 | For crystals up to 32767 kHz there is no division by zero, sdm is at most 65534, at most 15 kHz are left over and each round adds at most 1 kHz of error |
| `R82xxPll.DividesByZeroExactly` | rtlsdr/src/main/cpp/librtlsdr/src/tuner_r82xx.c:524-533 | A remainder in kHz that leads to a division by zero exists if and only if the crystal is 32768 kHz or more |
| `R82xxPll.DividesByZeroAtSomeFrequency` | rtlsdr/src/main/cpp/librtlsdr/src/tuner_r82xx.c:498-533 | A tunable frequency that leads to it exists if and only if the crystal rounds to 32768 kHz or more |
| `R82xxPll.DividesByZeroAt917505kHz` | rtlsdr/src/main/cpp/librtlsdr/src/tuner_r82xx.c:498-533 | 917.505 MHz with a crystal of 32.768 MHz is one |
| `R82xxPll.NintRange` | rtlsdr/src/main/cpp/librtlsdr/src/tuner_r82xx.c:498-500 | For tunable frequencies nint is 27 to 110 and the VCO frequency fits 32 bits |
| `R82xxPll.Encode` | rtlsdr/src/main/cpp/librtlsdr/src/tuner_r82xx.c:507-510 | nint is 13 + 4 ni + si as register 0x14 decodes it, and sdm is as 0x15 and 0x16 do |
| `R82xxPll.SetPll` | rtlsdr/src/main/cpp/librtlsdr/src/tuner_r82xx.c:428-540 | For every tunable frequency and crystal of 16 to 32.767 MHz the VCO the registers stand for is within 17 kHz of the frequency times the divider; refused exactly when nint exceeds its limit |
| `R82xxTuning.PllOnChip` | rtlsdr/src/main/cpp/librtlsdr/src/tuner_r82xx.c:494-540 | What the chip's registers hold after the writes decodes to the parameters |
| `R82xxTuning.TuneKeeps` | rtlsdr/src/main/cpp/librtlsdr/src/tuner_r82xx.c:450-540 | Behind all the writes the reference divider is off, autotune is at 128 kHz and the VCO current at 100, and every bit that is no parameter is as before |
| `R82xxTuning.Tune` | rtlsdr/src/main/cpp/librtlsdr/src/tuner_r82xx.c:428-540 | While writes succeed the VCO decoded from the chip's registers is within 17 kHz of the frequency times its divider; the chip has the number of that divider, one more or less modulo 8 as its VCO fine tune asks, the modulator is off exactly for a remainder below 1 kHz, and the other bits are as TuneKeeps says; refused exactly when nint exceeds its limit |
| `Resampler.RebuiltExactly` | rtlsdr/src/main/cpp/librtlsdr/src/librtlsdr.c:1110-1113 | Masking and copying bit 27 to bit 28 restores a ratio, but for its two low bits, exactly for ratios below 2^27 and from 3 * 2^27 to 2^29 |
| `Resampler.LosslessExactly` | rtlsdr/src/main/cpp/librtlsdr/src/librtlsdr.c:1103-1113 | Up to 3.2 MHz the encoding is lossless if and only if the rate is accepted |
| `Resampler.RateKept` | rtlsdr/src/main/cpp/librtlsdr/src/librtlsdr.c:1113-1119 | The rate computed back is the rate asked for |
| `Resampler.SetSampleRate` | rtlsdr/src/main/cpp/librtlsdr/src/librtlsdr.c:1093-1130 | Accepted exactly for the supported rates; the stored rate is the requested one and the two registers together hold the ratio |
| `E4000.FindMult` | rtlsdr/src/main/cpp/librtlsdr/src/tuner_e4k.c:497-504 | The divider and the register value written out for each range of frequencies, with three-phase mixing exactly below 350 MHz |
| `E4000.PllError` | rtlsdr/src/main/cpp/librtlsdr/src/tuner_e4k.c:508-521 | The computed frequency is at most the intended one and short of it by at most (fosc/65536 + 1)/r + 1 Hz, if and only if z fits 8 bits and the VCO frequency does not come out as 0 |
| `E4000.WrappedAt1100MHz` | rtlsdr/src/main/cpp/librtlsdr/src/tuner_e4k.c:508-521 | With a clock of 16 MHz the computed frequency for 1100 MHz is 76 MHz |
| `E4000.ComputePllParams` | rtlsdr/src/main/cpp/librtlsdr/src/tuner_e4k.c:483-533 | Refused exactly for a clock outside 16 to 30 MHz; divider, register value and mixing are those of the frequency range, x and z fit their fields, and that bound holds exactly in that range |
| `ArgumentParser.SplitIgnoringQuotes` | sdrdrivertools/src/main/java/com/sdrtouch/tools/ArgumentParser.java:45-82 | The loop gives what SplitFrom says |
| `ArgumentParser.SplitInvertsPrint` | sdrdrivertools/src/main/java/com/sdrtouch/tools/ArgumentParser.java:45-82 | Words written as bare and quoted parts in any way, single spaces between them, are split into the same words; only empty ones are lost |
| `ArgumentParser.EveryTokenCanBeQuoted` | sdrdrivertools/src/main/java/com/sdrtouch/tools/ArgumentParser.java:45-82 | Tokens over any characters can be quoted so that splitting returns them, if and only if none is empty |
| `ArgumentParser.ToMap` | sdrdrivertools/src/main/java/com/sdrtouch/tools/ArgumentParser.java:84-98 | The loop gives the values or the error that ArgumentsFrom says |
| `ArgumentParser.ArgumentsRoundTrip` | sdrdrivertools/src/main/java/com/sdrtouch/tools/ArgumentParser.java:84-98 | Plain names and values come back from a line quoted in any way, later ones replacing earlier ones |
| `ArgumentParser.PlainExactly` | sdrdrivertools/src/main/java/com/sdrtouch/tools/ArgumentParser.java:31-98 | An argument comes back as it was if and only if neither trimming nor unquoting changes it and neither part is empty |
| `ArgumentParser.OpenQuote` | sdrdrivertools/src/main/java/com/sdrtouch/tools/ArgumentParser.java:45-82 | A quote that is not closed reaches to the end of the line |
| `ArgumentParser.TrimDrops` | sdrdrivertools/src/main/java/com/sdrtouch/tools/ArgumentParser.java:90 | Trimming drops exactly the characters up to the space around a text |
| `ArgumentParser.UnquoteExactly` | sdrdrivertools/src/main/java/com/sdrtouch/tools/ArgumentParser.java:31-43 | Unquoting drops a pair of the same quotes around a text, and does nothing else |
| `ArgumentParser.FirstOffence` | sdrdrivertools/src/main/java/com/sdrtouch/tools/ArgumentParser.java:84-98 | The first tokens that are no name and value decide which of the three errors it is |
| `ArgumentParser.AllPairs` | sdrdrivertools/src/main/java/com/sdrtouch/tools/ArgumentParser.java:84-98 | Without such tokens every pair counts |
| `ArgumentParser.LastCounts` | sdrdrivertools/src/main/java/com/sdrtouch/tools/ArgumentParser.java:94-95 | The last argument of a name gives its value |

## Left out

- Sockets, threads, JNI, logging and Android code: input, output and user interface.
- The timerfd branches of `io.c`: not compiled in on Android; `libusb_get_next_timeout` and the list functions are modelled without them.
- The Linux usbfs backend and the pthread wrappers: an abstract environment with the obligations stated above.
- Allocation failures, and failing reads and writes of the event pipe.
- Calls of the event functions from inside a callback, which return BUSY.
- `do_close` with transfers still flying: it drops them without releasing their reference, so it is outside the reference-count claim; closing as the event loop sees it is modelled.
- Device enumeration and the reference counts of sessions and open handles: they add only easy members.
- The list of the event machine and the transfer machine: a set there; its order and pointers are the subject of FlyingList, which is sequential.
- DisconnectSweep.HandleDisconnect: a callback that submits a transfer another thread is in the middle of submitting waits for it; that is not modelled.
- The host_endian argument of `usbi_parse_descriptor` and the alignment of the target structure: fields are a list, words are read in bus order.
- Hotplug.Context.Register: parameter checks and the enumeration of devices already present are not modelled.
- Workpools.Workpool.GetWaitLock: one step; several callers of stage 0 at once are the subject of PoolGrowth.
- Workpools.Workpool.Pop: the stage queues are sequences there, by the contract that Queues.Queue proves of the linked list; the timed wait is one possible arrival.
- The stage variable of `sdrtcp.c` as a lifecycle: only what the byte loops and the pool keep between `pool_set_threads` and `pool_free`.
- getopt long options, `-W`, the REQUIRE_ORDER and RETURN_IN_ORDER orders, which a leading plus or minus or POSIXLY_CORRECT asks for, and the messages on stderr.
- R82xxRegisters.Tuner.Init: `r82xx_init` goes on when this write fails; the television standard it then sets is not modelled.
- R82xxTuning.Tune: what the chip reports of its VCO is an argument, and waiting for the PLL to lock is not modelled.
- R82xx bandwidth, gain, standby and calibration, and the fc0012, fc0013 and fc2580 tuners: table lookups over the modelled writes.
- Resampler.SetSampleRate: doubles are exact rationals and the crystal is the nominal one.
- The HackRF wrapper and the other setters of `librtlsdr.c`: thin USB control calls.
