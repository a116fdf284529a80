# Verified models of rtl-ais for Android

The repository bundles a USB library (libusb), the rtl-sdr drivers and tools, and an AIS receiver.
This project models the parts of them in which a mistake is hard to see, and proves what those
parts are for. Each module follows one component:

- **Event handling of libusb** (`EventSignals`, `EventLoop`, `EventTheorems`, `EventPipe`,
  `EventQueues`). One thread polls under
  `events_lock`, others sleep on a condition variable, and `libusb_close` interrupts the poller through
  an event pipe. `EventContext` is the event data with its critical sections as methods, in place.
  `EventLoop` is the protocol: any number of threads, one step for each shared access or critical
  section, every interleaving. The theorems are about every state of every run; `EventPipe` counts the
  bytes in the pipe, `EventQueues` follows each message and completion.
- **Asynchronous transfers of libusb** (`Options`, `TimeValues`, `FlyingList`, `Transfers`,
  `TransferInvariant`, `TransferTheorems`, `TransferFlags`, `LockOrder`). The flying list with its early exits, in place; and submission, completion,
  cancellation, timeout, disconnect and closing as steps over any number of transfers, handles and devices.
  `LockOrder` is a second, finer protocol, in which the list's lock and a transfer's lock are taken one by one.
- **USB descriptors** (`Bytes`, `Descriptors`, `DescriptorTheorems`, `DescriptorAccounts`,
  `DescriptorLayout`, `DescriptorParser`). The three-level parser as loops over a buffer, a serializer after sections 9.6.3,
  9.6.5 and 9.6.6 of the USB 2.0 specification, and what the parser makes of arbitrary bytes.
- **The Fourier transform of rtl_power** (`Samples`, `FixedPoint`, `Twiddles`, `Indexes`, `BitReversal`, `Butterflies`,
  `Fft`). The in-place permutation and butterflies in 16 bits, with every conversion written out. The same network
  over exact numbers (`Complexes`, `ExactFft`, `FftTheorems`) computes the discrete Fourier transform, and the 16-bit
  one stays close to it (`Moduli`, `FftBounds`).
- **PLL arithmetic** (`R82xx`, `R82xxTheorems`, `E4k`). How close the synthesized frequency comes, and for which inputs.
- **Streaming filters** (`Blocks`, `Filter`, `LowPass`, `LowPassSums`, `DroopSums`, `Downsample`, `HalfBand`, `Demodulate`, `Upsample`). Ring buffer,
  square-window, half-band and compensation filters, the discriminator and linear interpolation, in place,
  against functions of the whole input; where blocks are joined, any cut gives the same output.
- **The configuration EEPROM** (`Eeprom`). Printing, programming only what differs, reading back, parsing.

Where the code does not keep what one would expect, the project says so with a proof:

- The event pipe can hold more bytes than what is pending accounts for. It is exact up to a state if and only
  if no state so far was a drain gap, in which the handler has taken the last completion, nothing is pending
  and the drain has not finished (`EventPipe.ExactRunIff`). The pipe gets its second byte exactly if
  somebody signals in a gap, any producer or a thread that begins to close (`EventPipe.SecondByte`). The
  surplus grows by one with each gap that opens (`EventPipe.SurplusStep`), outlives the gap
  (`EventPipe.SurplusOutlivesGap`) and has no bound (`EventPipe.SurplusUnbounded`).
- A timeout and a failed submission can wait for each other for ever: the timeout code holds the list's lock and
  waits for a transfer's, a submission that is undone holds the transfer's lock and waits for the list's
  (`LockOrder.TwoStuckIff`, with a run in `LockOrder.Deadlock`).
- `event_handler_active` reads 0 under `events_lock` between the nested unlock in `do_close` and the end of
  `libusb_close` (`EventTheorems.ActiveMeansHeld` says exactly where it reads 1,
  `EventTheorems.HeldButInactive` is a run that gets there).
- `rtl_power` with two bins per hop computes no transform: its table has room for one sine and none for the
  cosine, so both bins are half of the first sample (`FftBounds.TwoPointsAreWrong`).
- A butterfly of `fix_fft` can wrap if a sample's modulus is above 32767, though both its parts fit 16 bits
  (`FixedPoint.CanWrap`); below that, less 4 for each stage, nothing does (`FftBounds.NothingOverflows`).
- The 32-bit sums of the droop compensation fit for samples up to 14896 with the tables of the code, and for no larger
  bound (`DroopSums.TablesFitIff`).
- `r82xx_set_pll` compares the low 8 bits of the integer multiplier with its limit, so it accepts frequencies it
  cannot tune, 1.85 GHz for one (`R82xxTheorems.AcceptedIff`, `R82xxTheorems.AcceptedWithoutDivider`). It is right
  exactly if a divider is in range and the integer is from 13 to the limit (`R82xxTheorems.RightIff`); with the usual
  crystal, for every frequency with a divider (`R82xxTheorems.NominalCrystal`). Its search for a fraction may divide
  by zero if the reference is above 32767 kHz (`R82xx.EndsIff`, `R82xxTheorems.SearchFailsAt`).
- `e4k_compute_pll_params` is right exactly if the integer multiplier fits 8 bits (`E4k.FvcoIsCloseIff`), which
  it does not for 3.7 GHz (`E4k.TooHigh`); near 0 Hz it returns a negated error code as a frequency, where its comment
  promises 0 (`E4k.FloIsClose`, `E4k.NearZero`).
- The type byte of a string descriptor in the EEPROM image is overwritten when the descriptor of an empty
  string starts at byte 77 (`Eeprom.GenEepromFromConf`), as it does behind a manufacturer of 33 characters
  (`Eeprom.TypeOverwritten`). The parser reads past the image for some length bytes (`Eeprom.ReadableIff`), those
  of a blank EEPROM among them (`Eeprom.BlankIsUnreadable`).

Check everything with `dafny verify dfyconfig.toml`.

## Model

| member | source | states |
|---|---|---|
| EventSignals.EventContext.constructor | app/src/main/jni/libusb-andro/libusb/io.c:1117-1138 | a new context polls its own event pipe, and registering the pipe leaves exactly one byte in it |
| EventSignals.EventContext.SignalTransferCompletion | app/src/main/jni/libusb-andro/libusb/io.c:1681-1693 | the completion is queued and the pipe gets a byte only if nothing was pending, so pending work keeps the pipe readable |
| EventSignals.EventContext.HotplugNotification | app/src/main/jni/libusb-andro/libusb/hotplug.c:206-228 | the message is queued under the same signalling rule |
| EventSignals.EventContext.FdNotification | app/src/main/jni/libusb-andro/libusb/io.c:2579-2589 | a changed descriptor set is recorded under the same signalling rule |
| EventSignals.EventContext.RemovePollfd | app/src/main/jni/libusb-andro/libusb/io.c:2615-2638 | the first entry of the descriptor goes, all others stay in order, and there is a notification only if there was one |
| EventSignals.EventContext.RefreshPollfds | app/src/main/jni/libusb-andro/libusb/io.c:2057-2093 | a changed set is copied to the poll array, and the pipe is cleared only if nothing else is pending, which never blocks |
| EventSignals.EventContext.BeginClose | app/src/main/jni/libusb-andro/libusb/core.c:1452-1459 | a closer is counted and the handler is interrupted if nothing was pending |
| EventSignals.EventContext.EndClose | app/src/main/jni/libusb-andro/libusb/core.c:1467-1474 | a closer leaves and clears the pipe when it was the last pending event; there is a byte to read then |
| EventLoop.StepInv | app/src/main/jni/libusb-andro/libusb/io.c:1713-1939 | every step of every thread and producer keeps: locks are held by whom the program counters say, closers are counted, pending work is signalled, sleepers are owed a broadcast |
| EventLoop.RunInv | app/src/main/jni/libusb-andro/libusb/io.c:2267-2318 | that invariant holds in every state of every run of any number of threads |
| EventLoop.LocalSleep | app/src/main/jni/libusb-andro/libusb/io.c:2293-2307 | a thread goes to sleep only after it saw a closer or an active handler while holding the waiters lock |
| EventLoop.LocalOwes | app/src/main/jni/libusb-andro/libusb/io.c:1770-1783 | a thread that holds the event lock, has released it or is closing stops owing a broadcast only by broadcasting |
| EventTheorems.NoLostWakeup | app/src/main/jni/libusb-andro/libusb/io.c:1833-1939 | whenever a thread is asleep in libusb_wait_for_event, another thread still has a broadcast ahead of it: the lock is held, a closer is counted, or a thread is about to broadcast |
| EventTheorems.DebtIsPaid | app/src/main/jni/libusb-andro/libusb/io.c:1770-1783 | by the time that thread no longer owes a broadcast, the sleeper has been woken |
| EventTheorems.GivesWay | app/src/main/jni/libusb-andro/libusb/io.c:1713-1753 | in every run a thread goes for the event lock, and a waiter goes on to look for a handler, exactly when nobody is closing a device |
| EventTheorems.ActiveMeansHeld | app/src/main/jni/libusb-andro/libusb/io.c:1713-1783 | event_handler_active is 1 exactly while the holder of the lock is between marking and unmarking, which leaves out part of libusb_close |
| EventTheorems.HeldButInactive | app/src/main/jni/libusb-andro/libusb/core.c:1412 | a run of one closing thread that ends with the lock held and event_handler_active 0, at that nested unlock |
| EventTheorems.OneHandler | app/src/main/jni/libusb-andro/libusb/io.c:1755-1783 | no two threads are between taking and releasing the event lock, and its recursion depth is that of the holder |
| EventTheorems.PipeAgrees | app/src/main/jni/libusb-andro/libusb/io.c:2117-2158 | in every run something pending means a byte in the pipe, and no section that clears the pipe finds it empty and blocks |
| EventTheorems.ExactUnlessGap | app/src/main/jni/libusb-andro/libusb/libusbi.h:323-325 | from a state in which the pipe holds one byte if something is pending and none otherwise, a step leads to such a state if and only if it does not empty the completion queue with nothing else pending |
| EventTheorems.ExactWithoutCompletions | app/src/main/jni/libusb-andro/libusb/libusbi.h:323-325 | in a run that never queues a completion, the pipe holds exactly one byte while something is pending and none otherwise |
| EventTheorems.SurplusByte | app/src/main/jni/libusb-andro/libusb/io.c:2131-2158 | a run of one thread and two completions whose last step is in a drain gap and leaves two bytes in the pipe |
| EventPipe.ExactRunIff | app/src/main/jni/libusb-andro/libusb/libusbi.h:323-325 | all states of a run up to one have an exact pipe if and only if none of them is a drain gap |
| EventPipe.SurplusStep | app/src/main/jni/libusb-andro/libusb/io.c:2117-2158 | at every step, the bytes beyond the one for what is pending grow by one if a gap opens, shrink by one if the handler reads a byte with nothing pending, and stay otherwise |
| EventPipe.SurplusIs | app/src/main/jni/libusb-andro/libusb/io.c:2117-2158 | in every state of a run that surplus is the number of gaps opened less the number of such reads |
| EventPipe.ExactOrGap | app/src/main/jni/libusb-andro/libusb/io.c:2117-2158 | as long as the pipe has never held two bytes it is exact or in a drain gap |
| EventPipe.SecondByte | app/src/main/jni/libusb-andro/libusb/libusbi.h:323-325 | it gets its second byte if and only if a producer or a thread that begins to close signals in a drain gap |
| EventPipe.SurplusUnbounded | app/src/main/jni/libusb-andro/libusb/io.c:2131-2158 | for every n there is a run that ends with n + 1 bytes in the pipe and nothing pending |
| EventPipe.SurplusOutlivesGap | app/src/main/jni/libusb-andro/libusb/io.c:2131-2158 | a run that ends with two inexact states of which neither is a drain gap |
| EventQueues.QueuesConserved | app/src/main/jni/libusb-andro/libusb/io.c:2131-2147 | at any time of any run, the hotplug messages taken so far followed by those that wait are those queued so far, in that order; and so for the completions: none is lost, doubled or overtaken |
| EventQueues.ModifiedIsOutdated | app/src/main/jni/libusb-andro/libusb/io.c:2057-2093 | pollfds_modified is set exactly if a descriptor has been added or removed since the poll array was rebuilt |
| EventTheorems.CloseMakesProgress | app/src/main/jni/libusb-andro/libusb/core.c:1435-1478 | while a thread is inside libusb_close, some thread can move without a timeout, a spurious wake-up or a new call |
| EventTheorems.SleeperWaitsForInput | app/src/main/jni/libusb-andro/libusb/io.c:2267-2318 | while a thread sleeps, some thread can move unaided, unless the handler polls with nothing pending |
| TimeValues.CalculateTimeout | app/src/main/jni/libusb-andro/libusb/io.c:1195-1222 | the deadline is a normalized, set time, equal to now plus the timeout in whole microseconds; timeout 0 keeps the stored one |
| FlyingList.PlaceKeepsOrder | app/src/main/jni/libusb-andro/libusb/io.c:1361-1405 | inserting before the first later deadline keeps the list sorted, with everything that is not later in front |
| FlyingList.Flying.Add | app/src/main/jni/libusb-andro/libusb/io.c:1361-1405 | the transfer goes behind all deadlines that are not later, ties in order of submission, no deadline last |
| FlyingList.Flying.Remove | app/src/main/jni/libusb-andro/libusb/io.c:1431-1446 | exactly that transfer goes and the others keep their order |
| FlyingList.Flying.HandleTimeouts | app/src/main/jni/libusb-andro/libusb/io.c:1955-1995 | a cancellation is attempted for exactly the expired, unhandled transfers, although the loop stops early; if the clock cannot be read, an error is returned and nothing is done |
| FlyingList.Flying.GetNextTimeout | app/src/main/jni/libusb-andro/libusb/io.c:2487-2542 | the result is the time left to the least unhandled deadline, 0 if that has passed, or none if there is none or the clock cannot be read |
| TransferInvariant.InsertOrder | app/src/main/jni/libusb-andro/libusb/io.c:1361-1405 | inserting a new submission where its deadline goes keeps the list duplicate free and sorted by deadline and then by submission |
| TransferInvariant.StepInv | app/src/main/jni/libusb-andro/libusb/io.c:1460-1658 | every step of submitters, cancellers, the event handler, a disconnect and the application keeps flags, list, marks and reference counts consistent |
| TransferInvariant.RunInv | app/src/main/jni/libusb-andro/libusb/io.c:1460-1658 | that invariant holds in every state of every run |
| TransferTheorems.FlagsExclusive | app/src/main/jni/libusb-andro/libusb/io.c:1498-1514 | IN_FLIGHT and COMPLETED are never both set, and IN_FLIGHT is not visible while a submission is under way |
| TransferFlags.TimedOutIff | app/src/main/jni/libusb-andro/libusb/io.c:1940-1953 | in every run a transfer is marked TIMED_OUT exactly if, since its latest submission, a timeout has found it in flight and not cancelled and has cancelled it with success |
| TransferFlags.CancellingIff | app/src/main/jni/libusb-andro/libusb/io.c:1541-1575 | it is marked CANCELLING exactly if, since then, the application or a timeout has cancelled it while it was in flight |
| TransferFlags.DisappearedIff | app/src/main/jni/libusb-andro/libusb/io.c:1563-1567 | it is marked DEVICE_DISAPPEARED exactly if, since then, a disconnect has passed it or its first cancellation has been answered so |
| TransferFlags.LeftIff | app/src/main/jni/libusb-andro/libusb/io.c:1967-1969 | its deadline is left to the operating system exactly if the backend has accepted its latest submission so |
| TransferFlags.SubmittedAs | app/src/main/jni/libusb-andro/libusb/io.c:1460-1483 | while it is being submitted or in flight it has the handle and the deadline of its latest submission |
| TransferFlags.FirstCancelWorks | app/src/main/jni/libusb-andro/libusb/io.c:1541-1575 | so the first cancellation of each submission in flight takes effect, with the answer of the backend |
| TransferFlags.CanBeTimedOut | app/src/main/jni/libusb-andro/libusb/io.c:1955-1990 | so a listed submission with a deadline that is not left to the operating system can be timed out until a timeout has succeeded |
| TransferFlags.CallbackCounts | app/src/main/jni/libusb-andro/libusb/io.c:1645-1656 | a callback is counted when it is made, and with NO_DEVICE exactly when a disconnect makes it |
| TransferTheorems.FlyingInOrder | app/src/main/jni/libusb-andro/libusb/io.c:1361-1446 | in every run the flying list holds a transfer at most once, sorted by deadline and then by submission, and holds exactly the submissions under way and the transfers at the backend |
| TransferTheorems.ExactlyOnce | app/src/main/jni/libusb-andro/libusb/io.c:1460-1658 | a transfer nobody is working on has had one callback for each successful submission, save the one in flight, and none for a failed one |
| TransferTheorems.FewOwed | app/src/main/jni/libusb-andro/libusb/io.c:1496-1520 | at no time are more than two callbacks owed, nor is more than one ahead of its submission, and that only between acceptance and its flags |
| TransferTheorems.RefsConserved | app/src/main/jni/libusb-andro/libusb/core.c:1125-1165 | a device's reference count is the sum of its other holders, its open handles and its outstanding submissions |
| TransferTheorems.DestroyedUnused | app/src/main/jni/libusb-andro/libusb/core.c:1138-1165 | when the count is 0 no open handle and no active transfer uses the device |
| TransferTheorems.AfterDisconnect | app/src/main/jni/libusb-andro/libusb/io.c:2711-2760 | after a disconnect nothing of the handle is in flight, and what a racing submission got accepted is marked so that it is undone |
| TransferTheorems.LastScanMarksAll | app/src/main/jni/libusb-andro/libusb/io.c:2731-2749 | when the scan ends, every listed transfer of the handle is marked DEVICE_DISAPPEARED and none is in flight |
| TransferTheorems.GoneNeverGrows | app/src/main/jni/libusb-andro/libusb/io.c:2711-2760 | no step gives a gone handle another transfer at the backend |
| TransferTheorems.ClaimShrinks | app/src/main/jni/libusb-andro/libusb/io.c:2748-2758 | each turn of the disconnect loop leaves the backend strictly fewer transfers of the handle |
| TransferTheorems.ClaimsBounded | app/src/main/jni/libusb-andro/libusb/io.c:2731-2758 | so a disconnect has at most as many turns as the backend held transfers of the handle when it began |
| TransferTheorems.OthersUntouched | app/src/main/jni/libusb-andro/libusb/io.c:2733-2746 | a disconnect leaves the transfers of other handles as they are, in the list or not |
| TransferTheorems.LostExactlyOnce | app/src/main/jni/libusb-andro/libusb/io.c:2711-2760 | every transfer in flight at the disconnect gets exactly one callback, with NO_DEVICE, by the end of it, or by the time it is freed if that is before |
| LockOrder.TwoStuckIff | app/src/main/jni/libusb-andro/libusb/io.c:1955-1995 | in every run, two threads wait for each other if and only if one of them times out a transfer whose submission the other one is undoing |
| LockOrder.DeadlockIsCrossed | app/src/main/jni/libusb-andro/libusb/io.c:1513-1524 | any set of threads of which each waits for another one in it contains such a pair |
| LockOrder.CrossedForever | app/src/main/jni/libusb-andro/libusb/io.c:1513-1524 | no step of any thread ends that |
| LockOrder.Deadlock | app/src/main/jni/libusb-andro/libusb/io.c:1513-1524 | a run of two threads into it: the backend refuses a transfer that has expired in the meantime |
| DescriptorParser.SkipExtraDescriptors | app/src/main/jni/libusb-andro/libusb/descriptor.c:147-167 | the skip loop stops at a standard descriptor or the end, gives up at a truncated one, fails at one that is too short, and stays in the buffer |
| DescriptorParser.ParseEndpoint | app/src/main/jni/libusb-andro/libusb/descriptor.c:101-189 | on any buffer, the endpoint and the extent consumed are those of the specification function; 0 means that nothing was consumed |
| DescriptorParser.ParseInterface | app/src/main/jni/libusb-andro/libusb/descriptor.c:216-363 | on any buffer, the loop collects the alternate settings and returns the extent that the specification function gives |
| DescriptorParser.ParseConfiguration | app/src/main/jni/libusb-andro/libusb/descriptor.c:378-497 | on any buffer, the tree is that of the specification function and the return value is exactly what is left of the buffer |
| DescriptorTheorems.RoundTrip | app/src/main/jni/libusb-andro/libusb/descriptor.c:378-497 | parsing the serialization of any well-formed configuration gives exactly that configuration with nothing left, in either byte order |
| DescriptorTheorems.BytesInjective | app/src/main/jni/libusb-andro/libusb/descriptor.c:378-497 | different well-formed configurations have different serializations |
| DescriptorLayout.ConfigLaidOut | app/src/main/jni/libusb-andro/libusb/libusb.h:258-268 | a serialized configuration starts with 9, 2, its total length in two bytes and the number of its interfaces, with every field at the offset of section 9.6.3 of the USB 2.0 specification |
| DescriptorLayout.InterfaceLaidOut | app/src/main/jni/libusb-andro/libusb/libusb.h:258-268 | an interface starts with 9, 4 and the fields of section 9.6.5 |
| DescriptorLayout.EndpointLaidOut | app/src/main/jni/libusb-andro/libusb/libusb.h:258-268 | an endpoint starts with 7 or 9, 5 and the fields of section 9.6.6 |
| DescriptorLayout.HeadersAccepted | app/src/main/jni/libusb-andro/libusb/descriptor.c:378-425 | the parser goes on with a header exactly if its type is 2 or 4, it is at least 9 bytes long and not cut off, and announces at most 32 interfaces or endpoints |
| DescriptorLayout.EndpointRead | app/src/main/jni/libusb-andro/libusb/descriptor.c:101-143 | on any bytes: what a parsed endpoint holds, when nothing is consumed, and which headers are an error |
| DescriptorLayout.InterfaceRead | app/src/main/jni/libusb-andro/libusb/descriptor.c:216-262 | on any bytes: so for an interface and its first alternate setting |
| DescriptorLayout.ConfigRead | app/src/main/jni/libusb-andro/libusb/descriptor.c:378-425 | on any bytes: so for a configuration |
| DescriptorLayout.EndpointExtras | app/src/main/jni/libusb-andro/libusb/descriptor.c:145-189 | the other descriptors behind an endpoint become its extras, unless the last one is cut off |
| DescriptorLayout.AltExtras | app/src/main/jni/libusb-andro/libusb/descriptor.c:276-343 | so for an alternate setting, whose number of endpoints becomes that of those found |
| DescriptorLayout.SkipEnds | app/src/main/jni/libusb-andro/libusb/descriptor.c:147-167 | on any bytes the loop over other descriptors passes whole descriptors of types other than 1, 2, 4 and 5, and ends at the first that is of these, too short or cut off |
| DescriptorLayout.Mouse | app/src/main/jni/libusb-andro/libusb/descriptor.c:378-497 | the 34 bytes of a mouse with the descriptor of its class parse to one interface with one endpoint |
| DescriptorAccounts.ConfigWhole | app/src/main/jni/libusb-andro/libusb/descriptor.c:378-497 | on arbitrary bytes a successful parse consumes a chain of whole descriptors: it ends between two of them |
| DescriptorAccounts.OneNumber | app/src/main/jni/libusb-andro/libusb/descriptor.c:345-355 | all alternate settings of a parsed interface carry the number of the first, and there are none exactly if nothing was consumed |
| DescriptorAccounts.InterfaceRests | app/src/main/jni/libusb-andro/libusb/descriptor.c:284-356 | every way out of parse_interface that consumed something leaves the buffer where the skip loop consumes nothing |
| DescriptorAccounts.FixmeLosesNothing | app/src/main/jni/libusb-andro/libusb/descriptor.c:463-478 | a loop that appended extras, as its comment asks, would compute the same on every input |
| FixedPoint.FixMpyRounds | app/src/main/jni/rtl-sdr/src/rtl_power.c:252-258 | the product is that of the operands divided by 2^15, to the nearest with halves upwards, unless both are -32768, the one pair for which it leaves 16 bits |
| FixedPoint.CanWrap | app/src/main/jni/rtl-sdr/src/rtl_power.c:298-309 | a butterfly of the table for eight samples wraps for two samples whose parts fit 16 bits |
| BitReversal.NextReversed | app/src/main/jni/rtl-sdr/src/rtl_power.c:272-276 | the inner loop finds a bit, and the carried increment turns the reversal of m - 1 into the reversal of m |
| BitReversal.CarriedIsRev | app/src/main/jni/rtl-sdr/src/rtl_power.c:272-276 | counting with the carry going down enumerates the bit reversals |
| BitReversal.ReorderData | app/src/main/jni/rtl-sdr/src/rtl_power.c:268-286 | the conditional swaps leave in place k the sample that was at the bit reversal of k |
| BitReversal.BitReversedTwice | app/src/main/jni/rtl-sdr/src/rtl_power.c:268-286 | reordering twice restores the samples |
| Twiddles.TwiddleInTable | app/src/main/jni/rtl-sdr/src/rtl_power.c:287-296 | every index into the table is below three quarters of its period, and the sine is read in the first half |
| Butterflies.OnePair | app/src/main/jni/rtl-sdr/src/rtl_power.c:292-310 | each butterfly of a stage is for two elements that no other butterfly of the stage touches |
| Fft.Stage | app/src/main/jni/rtl-sdr/src/rtl_power.c:289-314 | a stage joins every element with its partner, exactly once, in place, by the 16-bit butterfly |
| Butterflies.BlocksJoin | app/src/main/jni/rtl-sdr/src/rtl_power.c:287-316 | if blocks of l were transformed before a stage, blocks of 2l are after it |
| Fft.FixFft | app/src/main/jni/rtl-sdr/src/rtl_power.c:260-316 | the loops compute the recursive network on the reordered samples, or change nothing and return -1 if there are more samples than the table is for |
| FftTheorems.SumSplits | app/src/main/jni/rtl-sdr/src/rtl_power.c:267-316 | a transform is the sum of those of the even and, times a power of the root, the odd samples |
| FftTheorems.FftIsDft | app/src/main/jni/rtl-sdr/src/rtl_power.c:260-316 | over exact numbers, with a table of an exact sine, slot k holds the sum over j of x[j] * w^(j*k), divided by n, for every power of two n up to the table's |
| FftBounds.ButterflyNear | app/src/main/jni/rtl-sdr/src/rtl_power.c:298-309 | if no sample is larger than the 16-bit range leaves room for, nothing in a 16-bit butterfly wraps, and it adds at most 4 to the distance from the exact one |
| FftBounds.NothingOverflows | app/src/main/jni/rtl-sdr/src/rtl_power.c:260-316 | for samples of a modulus up to 32767 less 4 for each stage, no intermediate value of any butterfly of any stage leaves 16 bits |
| FftBounds.FixFftIsDft | app/src/main/jni/rtl-sdr/src/rtl_power.c:260-316 | for such samples, with the table of sine_table, every output is within 4 for each stage of the discrete Fourier transform divided by n |
| FftBounds.FourPoints | app/src/main/jni/rtl-sdr/src/rtl_power.c:236-250 | the table for four samples is one of an exact sine, rounded |
| FftBounds.EightPoints | app/src/main/jni/rtl-sdr/src/rtl_power.c:236-250 | so is the one for eight, the square root of 1/2 given |
| FftBounds.TwoPointsAreWrong | app/src/main/jni/rtl-sdr/src/rtl_power.c:236-250 | with the table for two samples both outputs are half of the first sample; they are those of the transform if and only if the second one is 0 |
| R82xx.OneDivider | app/src/main/jni/rtl-sdr/src/tuner_r82xx.c:456-468 | at most one divider takes a frequency into the VCO's range, and one does exactly for 27656.25 kHz up to 1770 MHz |
| R82xx.FindDivider | app/src/main/jni/rtl-sdr/src/tuner_r82xx.c:456-468 | the search finds that divider and its number; without one it leaves 128 and the number of the divider 2 |
| R82xx.IntegerRecovered | app/src/main/jni/rtl-sdr/src/tuner_r82xx.c:497-500 | the register tells the integer part, as 4 * ni + si + 13, if and only if it is at least 13 |
| R82xx.SdmCalculator | app/src/main/jni/rtl-sdr/src/tuner_r82xx.c:514-523 | the loop with its 16-bit variables ends within 15 doublings or divides by n_sdm after it has wrapped to 0 |
| R82xx.LeavesSome | app/src/main/jni/rtl-sdr/src/tuner_r82xx.c:514-523 | a share is taken only if some of the fraction is left then |
| R82xx.EndsIff | app/src/main/jni/rtl-sdr/src/tuner_r82xx.c:514-523 | it ends for every fraction if and only if the reference is at most 32767 kHz |
| R82xx.FractionIsClose | app/src/main/jni/rtl-sdr/src/tuner_r82xx.c:514-523 | sdm is at most 65534 and stands for a fraction at most 2 kHz below and 12 kHz plus a 16th of a Hz above the one asked for |
| R82xx.FractionBoundIsTight | app/src/main/jni/rtl-sdr/src/tuner_r82xx.c:514-523 | that last bound is reached, for a reference of 32767 kHz |
| R82xx.SetPll | app/src/main/jni/rtl-sdr/src/tuner_r82xx.c:418-530 | a frequency is rejected exactly if the low 8 bits of the integer part are above the limit; for a reference below 32767.5 kHz and a 32-bit VCO frequency, the registers stand for one at most 4 kHz below and 13 kHz above it exactly if the whole integer part is from 13 to the limit; the search fails exactly if its value for n_sdm wraps to 0; register 0x10 gets the divider's number, one less if the fine tuning is above the reference, one more if below |
| R82xxTheorems.AcceptedIff | app/src/main/jni/rtl-sdr/src/tuner_r82xx.c:491-497 | for a reference below 32767.5 kHz and a VCO frequency of any size, the frequency is accepted if and only if the low 8 bits of the integer part are within the limit |
| R82xxTheorems.RightIff | app/src/main/jni/rtl-sdr/src/tuner_r82xx.c:456-525 | the synthesized frequency is close and the divider number is that of the divider if and only if a divider is in range and the integer part is from 13 to the limit |
| R82xxTheorems.NominalCrystal | app/src/main/jni/rtl-sdr/src/librtlsdr.c:359 | with a crystal of 28.8 MHz that is so if and only if a divider is in range |
| R82xxTheorems.HundredMegahertz | app/src/main/jni/rtl-sdr/src/tuner_r82xx.c:479-500 | for 100 MHz with that crystal: the divider 32, the integer 55, and 0x60, 0x80 or 0xa0 in register 0x10 as the fine tuning is above, at or below the reference |
| R82xxTheorems.AcceptedWithoutDivider | app/src/main/jni/rtl-sdr/src/tuner_r82xx.c:491-497 | 1.85 GHz is accepted although no divider is in range, and the setting is wrong |
| R82xxTheorems.SearchFailsAt | app/src/main/jni/rtl-sdr/src/tuner_r82xx.c:514-523 | for 1.320001 GHz and a crystal of 33 MHz the search divides by zero |
| E4k.FindRow | app/src/main/jni/rtl-sdr/src/tuner_e4k.c:504-511 | the first row for the frequency is found, and its three-phase bit is set exactly below 350 MHz |
| E4k.RowIs | app/src/main/jni/rtl-sdr/src/tuner_e4k.c:368-379 | the multiplier and the register value for each frequency, in Hz |
| E4k.VcoInRange | app/src/main/jni/rtl-sdr/src/tuner_e4k.c:368-379 | they take 55 to 650 MHz to within 8 MHz of the VCO's range from 2600 to 3900 MHz |
| E4k.ComputePllParams | app/src/main/jni/rtl-sdr/src/tuner_e4k.c:490-540 | the fraction always fits 16 bits and is the largest that is not above, the integer is cut to 8 bits, and a bad reference gives 0 |
| E4k.FvcoIsClose | app/src/main/jni/rtl-sdr/src/tuner_e4k.c:425-447 | the VCO is never above the one intended, and below it by a 65536th of the reference, rounded up, at most |
| E4k.FvcoIsCloseIff | app/src/main/jni/rtl-sdr/src/tuner_e4k.c:515-528 | with the integer cut to 8 bits that holds if and only if the intended VCO is below 256 times the reference |
| E4k.TooHigh | app/src/main/jni/rtl-sdr/src/tuner_e4k.c:515-528 | it does not hold for 3.7 GHz with a crystal of 28.8 MHz |
| E4k.FloIsClose | app/src/main/jni/rtl-sdr/src/tuner_e4k.c:449-456 | the local oscillator is never above the one intended and below it by that bound divided by r, rounded up, at most; it is an error code exactly if the intended VCO is below the resolution |
| E4k.NearZero | app/src/main/jni/rtl-sdr/src/tuner_e4k.c:449-456 | for 9 Hz with that crystal the result is an error code |
| Filter.Filter.FilterMac | app/src/main/jni/aisdecoder/lib/filter.c:42-52 | the loop is the left-to-right multiply-accumulate of the window and the taps |
| Filter.Filter.Store | app/src/main/jni/aisdecoder/lib/filter.c:83-104 | the last samples stay in the window before the pointer, also across the copy at the end of the buffer |
| Filter.Filter.FilterRun | app/src/main/jni/aisdecoder/lib/filter.c:83-104 | the output is the convolution of the taps with the samples before this one, of the whole input |
| Filter.ConvolvedIsSum | app/src/main/jni/aisdecoder/lib/filter.c:42-104 | for exact numbers output k is the sum over j of taps[j] * x[k - length + j] |
| Filter.Filter.FilterRunBuf | app/src/main/jni/aisdecoder/lib/filter.c:106-143 | the outputs for every step-th sample are those of one filter over the whole input, and the loudest sample is returned |
| Filter.BlocksDoNotMatter | app/src/main/jni/aisdecoder/lib/filter.c:83-143 | any two ways to cut an input into blocks, single samples included, give the same outputs |
| LowPass.BlocksGroup | app/src/main/jni/rtl-sdr/src/rtl_fm.c:302-360 | for both filters and any sequence of blocks run one after the other, output k is made of the inputs between the points where the progress passes k and k + 1 times fast in all of the input, and the rest is carried |
| LowPass.RunGroups | app/src/main/jni/rtl-sdr/src/rtl_fm.c:340-360 | for one block, every input is in exactly one group, with those boundaries |
| LowPass.OutputCount | app/src/main/jni/rtl-sdr/src/rtl_fm.c:340-360 | N inputs give floor(N * slow / fast) outputs from a fresh state |
| LowPassSums.SumsFitIff | app/src/main/jni/rtl-sdr/src/rtl_fm.c:302-360 | the sums fit 32 bits for all inputs up to a bound if and only if the bound times the ratio of the rates, rounded up, does |
| LowPass.Demod.LowPassReal | app/src/main/jni/rtl-sdr/src/rtl_fm.c:340-360 | the loop computes that in place: no input is overwritten before it is read |
| LowPassSums.ConstantIsKept | app/src/main/jni/rtl-sdr/src/rtl_fm.c:340-360 | with rates in a whole ratio it leaves a constant as it is |
| LowPass.TruncatedIs | app/src/main/jni/rtl-sdr/src/rtl_fm.c:354 | its division rounds towards zero |
| LowPass.Demod.LowPass | app/src/main/jni/rtl-sdr/src/rtl_fm.c:302-322 | the loop over pairs does so for both components of the signal, in place |
| Downsample.FifthOrder | app/src/main/jni/rtl_ais_andro.c:284-313 | a pass replaces each second element by the out-of-place 1-5-10-10-5-1 filter of what was there, and nothing else |
| HalfBand.TapIsPascal | app/src/main/jni/rtl_ais_andro.c:295-305 | each output is five successive sums of neighbours among six samples, divided by 16 and rounded down |
| HalfBand.ImpulseResponse | app/src/main/jni/rtl_ais_andro.c:295-305 | the response to a 16 is every second one of 1, 5, 10, 10, 5, 1, from the output at or after it on |
| Downsample.HalvedDoubles | app/src/main/jni/rtl_ais_andro.c:295-305 | a pass at most doubles the magnitude, and below 2^14 nothing is cut to 16 bits |
| Downsample.CascadeDoubles | app/src/main/jni/rtl_ais_andro.c:344-348 | p passes multiply the magnitude by at most 2^p |
| Downsample.GenericFir | app/src/main/jni/rtl_ais_andro.c:315-338 | each second element becomes the symmetric 9-tap filter of the nine samples before it, and nothing else changes |
| DroopSums.DroopIsSymmetric | app/src/main/jni/rtl_ais_andro.c:322-326 | what is added up is the convolution of the nine samples with the nine taps of a symmetric table |
| DroopSums.DroopRoundsDown | app/src/main/jni/rtl_ais_andro.c:327 | the result is the sum divided by 2^15, rounded down |
| DroopSums.TableGains | app/src/main/jni/rtl_ais_andro.c:224-236 | the tables are symmetric, with these gains and second moments |
| DroopSums.SumsFitIff | app/src/main/jni/rtl_ais_andro.c:322-326 | all partial sums fit 32 bits for all samples up to a bound if and only if the bound times the weight of the taps does |
| DroopSums.TablesFitIff | app/src/main/jni/rtl_ais_andro.c:224-236 | with every one of the eleven tables they do for samples up to a bound if and only if it is at most 14896 |
| Downsample.BlocksDoNotMatter | app/src/main/jni/rtl_ais_andro.c:315-338 | the outputs of the compensation are those of the joined input, however it is cut into blocks |
| Downsample.DownsampleState.Downsample | app/src/main/jni/rtl_ais_andro.c:340-352 | both interleaved channels come out as the composition of their passes and the compensation, independently of each other |
| Demodulate.DemodState.Demodulate | app/src/main/jni/rtl_ais_andro.c:399-416 | each output is the discriminator of its sample and the one before, the first with the sample kept from the last call, and the last sample is kept |
| Demodulate.SampleThenPrevious | app/src/main/jni/rtl_ais_andro.c:403-412 | the discriminator gets the sample, then the one before it |
| Demodulate.BlocksDoNotMatter | app/src/main/jni/rtl_ais_andro.c:399-416 | whatever the discriminator computes, the outputs are those of the joined input, however it is cut into blocks |
| Upsample.PositionAdvances | app/src/main/jni/rtl_ais_andro.c:444-453 | the tick keeps (i - 1) * len2 + tick equal to j * len1, and to the end of the input from there on |
| Upsample.ArbitraryUpsample | app/src/main/jni/rtl_ais_andro.c:434-455 | output j is the polygon through the input at j * len1 / len2, held at its end |
| Upsample.BetweenNeighbours | app/src/main/jni/rtl_ais_andro.c:442-443 | no output is outside of its two neighbours |
| Upsample.LerpIsLinear | app/src/main/jni/rtl_ais_andro.c:442-443 | between two samples it is a straight line |
| Upsample.TruncIs | app/src/main/jni/rtl_ais_andro.c:443 | the result is cut towards zero |
| Eeprom.SetStringDescriptor | app/src/main/jni/rtl-sdr/src/rtl_eeprom.c:109-130 | it succeeds exactly if the string is empty or ends below the infrared configuration, and writes only its descriptor |
| Eeprom.GetStringDescriptor | app/src/main/jni/rtl-sdr/src/rtl_eeprom.c:92-107 | it returns every second byte, as the length byte says, the place behind, and whether the type is right, whenever what it reads is inside the buffer |
| Eeprom.ReadableIff | app/src/main/jni/rtl-sdr/src/rtl_eeprom.c:132-150 | for any image of 256 bytes the parser stays inside it if and only if three sums of the lengths that the three length bytes stand for are small enough |
| Eeprom.BlankIsUnreadable | app/src/main/jni/rtl-sdr/src/rtl_eeprom.c:132-150 | an image of bytes 0xff is not among them |
| Eeprom.GenEepromFromConf | app/src/main/jni/rtl-sdr/src/rtl_eeprom.c:152-175 | it succeeds exactly if all three strings fit; the image then holds the configuration within 83 bytes, with valid types unless an empty string's type byte is at 78 |
| Eeprom.HeaderIs | app/src/main/jni/rtl-sdr/src/rtl_eeprom.c:156-164 | the nine bytes before the strings |
| Eeprom.TypeOverwritten | app/src/main/jni/rtl-sdr/src/rtl_eeprom.c:168-172 | with a manufacturer of 33 characters and an empty product everything fits and a type byte is wrong |
| Eeprom.ParsesBack | app/src/main/jni/rtl-sdr/src/rtl_eeprom.c:132-150 | parsing an image that holds a configuration gives that configuration, flags reduced to 0 and 1 |
| Eeprom.Device.WriteEeprom | app/src/main/jni/rtl-sdr/src/librtlsdr.c:823-859 | exactly the bytes in range that differ are written, in order, up to the first failure; no other byte changes |
| Eeprom.Device.ReadEeprom | app/src/main/jni/rtl-sdr/src/librtlsdr.c:861-884 | the bytes in range are returned up to the first that cannot be read, with -3 in that case, and the rest of the buffer is kept |
| Eeprom.Reprogram | app/src/main/jni/rtl-sdr/src/rtl_eeprom.c:393-410 | generating an image, programming its first 128 bytes and parsing what the device returns recovers the configuration unless a write or a read fails, and bytes 128 to 255 are kept |

## Left out

- Wrap-around of `device_close` after 2^32 concurrent closes, and failing writes to the event pipe: both are taken not to happen.
- Transfers.Free: a callback that frees its transfer, by itself or by LIBUSB_TRANSFER_FREE_TRANSFER, while `libusb_submit_transfer` still works on it: a transfer is freed only when nobody does.
- Callbacks that call back into event handling, and a backend that reports a completion for a handle after its disconnect.
- Submitting a transfer that is in flight (LIBUSB_ERROR_BUSY): it changes nothing and is no step of the model. The translation of short transfers and of TIMED_OUT into the status that a callback sees.
- Closing a handle with transfers outstanding, for which the source does not conserve references either; the removal of such transfers from the flying list in `do_close`.
- Transfers.TimeOut: takes the flying list's lock and a transfer's lock in one step, so that its runs do not deadlock; `LockOrder` has a step for each, but neither flags nor the backend, and not the two locks that `do_close` takes for outstanding transfers.
- timerfd, which the configuration does not define; hotplug callbacks, which run outside of the signalling protocol.
- Failing allocations in the descriptor parser; binary object store, superspeed companion and other 32-bit or UUID fields of `usbi_parse_descriptor`.
- What `parse_configuration` leaves in its structures when it fails: they are freed.
- FftTheorems.FftIsDft: is about exact numbers, as an independent form of the 16-bit network; `FftBounds.FixFftIsDft` is about the latter, for samples that leave room and a table that is that of an exact sine, rounded.
- R82xx.SetPll: register writes, the check for a lock and the second attempt with a higher VCO current are outside of the arithmetic; the fine tuning value that the chip reports is a parameter.
- E4k.ComputePllParams: band switching and register writes are left out; the unused check of the VCO range is not modelled.
- Filter.Filter.FilterRun: sums, products and conversions of floating point numbers are unknown functions, applied in the order of the code; nothing is said of rounding.
- Filter.Filter.constructor: more than 512 taps, for which the copy at the end of the buffer would overlap.
- LowPass.Demod.LowPassReal: the 32-bit sum is not cut; `LowPassSums.SumsFitIff` says when it does not overflow.
- LowPass.Demod.LowPass: its two 32-bit sums are not cut either.
- Downsample.FifthOrder: two consecutive blocks do not filter as one, since the history that is kept is one sample short; only what happens within one call is stated.
- Downsample.GenericFir: the 32-bit sum is not cut; `DroopSums.SumsFitIff` says when it does not overflow.
- Demodulate.DemodState.Demodulate: the discriminator is any function of four numbers; its table, its angles and their overflow are not modelled. A block has at least one sample, as the code reads one.
- `low_pass_simple` and `dc_block_filter`: each follows from reading its body.
- Upsample.ArbitraryUpsample: fractions are exact where the code divides doubles.
- Eeprom.Device.WriteEeprom: the reads that it compares with do not fail. The file options, the prompt and the default configurations of the tool are left out.
- Eeprom.GetStringDescriptor: requires what it reads to be inside the buffer, where the code reads on; `Eeprom.ReadableIff` says when a whole parse meets that.
- The JNI glue, sockets, operating system backends, gain tables and register sequences.
