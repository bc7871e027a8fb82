# platform_serial: models and proofs

This project models the parts of the `platform_serial` plugin whose correctness depends on more than one
function, and proves properties of every run of them. The operating system, the browser, the USB stack and
the thread scheduler are adversaries: they answer each call as they like, and every interleaving is covered.

| file | what it models |
|---|---|
| `linux_registry.dfy`, `linux_linearizable.dfy`, `linux_answers.dfy` | the Linux port manager as a protocol of threads, one step per critical section or system call, its refinement of an atomic map, and what each step shows |
| `port_table.dfy`, `linux_port_list.dfy` | the table of open ports as a value, and the singly linked list on the heap that represents it |
| `linux_os.dfy`, `linux_serial_port.dfy`, `linux_transfer.dfy` | one Linux port over a scripted kernel: open, close, read, and the write loop with partial writes and a deadline |
| `linux_termios.dfy` | the termios flag fields over abstract disjoint masks |
| `android_buffer.dfy`, `android_answers.dfy`, `byte_log.dfy` | the Android read loop, readers, resets and closes over one buffer and its monitor |
| `web_reader.dfy`, `web_answers.dfy` | the Web Serial context as asynchronous steps with a completer |
| `windows_ports_json.dfy`, `json_text.dfy`, `utf8.dfy` | the JSON the Windows plugin prints, with a parser for RFC 8259 over UTF-8 (section 3 of RFC 3629), and the Dart code that reads it |
| `windows_registry.dfy`, `windows_answers.dfy` | the Windows port manager with shared ports and two levels of mutexes |
| `event_pump.dfy` | the GLib timer behind the Linux read-event stream |
| `permission.dfy`, `permission_answers.dfy` | the Android permission rendezvous |
| `read_until.dfy` | `readUntil` of the Dart API |

`dafny verify dfyconfig.toml` checks everything.

A concurrent part is a state machine: `Step` names what can happen, `Enabled` says when, `Apply` says what it
does, `Inv` is kept by every step, and `Run` is any sequence of states linked by enabled steps. The results are
about every state of every run. The `answers` files say what callers may be told and why, in terms of the steps
that happened and not of the functions that carry them out, and show that calls come to their end. Code that one
thread runs on its own state is a class whose methods are proved against functions, or against predicates on the
trace of system calls they make.

## What turned out not to hold

- The Windows printer converts each 16-bit unit on its own (`windows/platform_serial_plugin.cpp:72`), so a
  surrogate pair is printed as two replacement characters. `WindowsPortsJson.PairIsLost` is a concrete case, and
  `WindowsPortsJson.ExactIffNoSurrogates` says exactly when a list survives unchanged: when no field of any port
  holds a surrogate.
- A web reader that waits when the stream ends without a close is not woken. `WebReader.StreamEndStrands` is a run
  that ends that way. `WebReader.LateReadSleeps` says exactly which later reads sleep too, and
  `WebReader.AsleepIffNotClosed` that such a reader sleeps exactly until the port is closed.
- Flags cannot tell 1.5 from 2 stop bits at five data bits. `LinuxTermios.EncodeAlikeIffEqualUpToCollapse` says
  that nothing else collapses.

## What is assumed

- `readUntil` asks for one byte at a time, and every platform answers with no more than it was asked for: the Linux
  `read` and the Windows `ReadFile` of that length, the Android and web buffers cut to it, the iOS `prefix`.
  `ReadUntil.SucceedsIffCompleted` needs no such assumption; the statements in terms of single bytes do.
- When close(2) is called on Linux it succeeds.
- The system reports the result of each Android permission prompt once.

## Model

| member | source | states |
|---|---|---|
| `LinuxRegistry.TableKept` | linux/serial_port_manager.c:304-315 | over every step handles and names in the table stay unique, every live handle lies in [1, next_handle), and the counter never goes back |
| `LinuxRegistry.OpenConserves` | linux/serial_port.c:418-423 | a descriptor the kernel hands out belongs to the opening thread alone |
| `LinuxRegistry.PublishConserves` | linux/serial_port_manager.c:304-315 | at the second critical section the descriptor passes into the table, or stays with a thread that must close it when the recheck is lost |
| `LinuxRegistry.LookupConserves` | linux/serial_port_manager.c:326-328 | a detach passes exactly one descriptor out of the table to the detaching thread; a find or a failed lookup passes none |
| `LinuxRegistry.CloseConserves` | linux/serial_port_manager.c:334-336 | close(2) is called on a descriptor that is open, and takes it out of the open set |
| `LinuxRegistry.ConservationKept` | linux/serial_port_manager.c:286-359 | over every step the open descriptors are the disjoint union of those in the table and those owned by one thread each, and opens are closes plus those still open |
| `LinuxRegistry.LockKept` | linux/serial_port_manager.c:183-193 | a thread inside a port operation holds the mutex and its port is in the table |
| `LinuxRegistry.RecordKept` | linux/serial_port_manager.c:266-379 | each thread runs its own operation, whose recorded status follows from the thread's stage |
| `LinuxRegistry.InvKept` | linux/serial_port_manager.c:266-379 | every step of every thread keeps table, conservation, lock and record together |
| `LinuxLinearizability.StepRefines` | linux/serial_port_manager.c:266-379 | every step that has an effect is one the atomic map allows at that moment, and the table stays the map the effects lead to |
| `LinuxLinearizability.PublishRefines` | linux/serial_port_manager.c:304-318 | the second critical section of an open adds exactly one effect, the next handle if the name is free in the atomic map and EALREADY if not, and keeps the refinement |
| `LinuxLinearizability.LookupRefines` | linux/serial_port_manager.c:321-379 | close, close by name, find and the lookup of an operation take effect at their critical section as the atomic map says |
| `LinuxLinearizability.EveryRun` | linux/serial_port_manager.c:266-379 | in every state of every run the invariant holds, the history is legal for the atomic map, and each operation's events are invocation, one effect, return |
| `LinuxLinearizability.EffectIsTheMoment` | linux/serial_port_manager.c:266-379 | the one effect of a call lies after its invocation and before its return, with the same call and result |
| `LinuxLinearizability.ReturnedHadEffect` | linux/serial_port_manager.c:266-379 | no call returns without having taken effect |
| `LinuxLinearizability.RealTimeOrder` | linux/serial_port_manager.c:266-379 | a call that returned before another was invoked takes effect before it |
| `LinuxLinearizability.QuietMeansNoLeak` | linux/serial_port_manager.c:286-359 | with no call in flight the open descriptors are those in the table, and any other was closed as often as it was opened |
| `LinuxLinearizability.ClosesOwnOpenDescriptor` | linux/serial_port_manager.c:334-336 | each close(2) is on an open descriptor, out of the table, owned by the closing thread alone, so none is closed twice |
| `LinuxLinearizability.NoUseAfterDetach` | linux/serial_port_manager.c:170-194 | while an operation runs its port is in the table and open, and nobody is closing it |
| `LinuxLinearizability.HandlesIssuedOnce` | linux/serial_port_manager.c:311 | no two names of the atomic map share a handle, and every handle was issued |
| `LinuxLinearizability.CounterCountsOpens` | linux/serial_port_manager.c:311 | the counter is one more than the number of successful opens, so it fits in 32 bits below 2^31 - 1 of them |
| `LinuxLinearizability.DeadStaysDead` | linux/serial_port_manager.c:304-338 | a handle that left the atomic map never comes back |
| `LinuxLinearizability.ClosedForGood` | linux/serial_port_manager.c:170-194 | after a handle is closed every later call on it gets ENOENT and no open or find yields it, even if the path is reopened |
| `LinuxAnswers.StepsShowTheMap` | linux/serial_port_manager.c:266-379 | in every run each step inside a call adds to the history exactly what the atomic map says: an open that gets to publish a free name gets the next handle, one that meets its name gets EALREADY at that test, device failures pass on their code, and opening and configuring show nothing |
| `LinuxAnswers.CallsEnd` | linux/serial_port_manager.c:266-379 | every call ends: each of its own steps brings it nearer its return, and no other step moves it |
| `LinuxAnswers.NoDeadlock` | linux/serial_port_manager.c:183-193 | in every reachable state each thread in a call can move, or waits for the mutex, whose holder can |
| `PortTable.IndexOf` | linux/serial_port_manager.c:46-70 | the first position that matches, or the length when none does |
| `PortTable.WithoutKeepsTable` | linux/serial_port_manager.c:84-89 | unlinking any position keeps handles and names unique |
| `PortTable.DetachRemovesExactlyTheMatch` | linux/serial_port_manager.c:77-117 | a detach removes every row that matches and keeps every other |
| `PortTable.PublishKeepsTable` | linux/serial_port_manager.c:305-314 | a port published under the next handle keeps the table well formed if and only if its name is new, which is what the recheck is for |
| `PortList.PortManager.constructor` | linux/serial_port_manager.c:196-211 | the empty list, with the first handle 1 |
| `PortList.PortManager.FindByHandleLocked` | linux/serial_port_manager.c:46-57 | null exactly when no entry has the handle, else an entry of the list with it |
| `PortList.PortManager.FindByNameLocked` | linux/serial_port_manager.c:59-70 | null exactly when no entry has the name, else an entry of the list with it |
| `PortList.PortManager.Unlink` | linux/serial_port_manager.c:84-90 | the pointer surgery takes out exactly the entry at that position, keeps the order of the rest and the list acyclic |
| `PortList.PortManager.DetachLocked` | linux/serial_port_manager.c:77-96 | the rows become the detached table; the returned entry has a null next; with no match nothing changes, not even a pointer |
| `PortList.PortManager.DetachByNameLocked` | linux/serial_port_manager.c:98-117 | the same by name |
| `PortList.PortManager.PublishLocked` | linux/serial_port_manager.c:304-318 | EALREADY and no change if the name is present; otherwise the entry becomes the head under the next handle |
| `LinuxPort.SerialPort.constructor` | linux/serial_port.c:350-389 | a new port is closed, without error, with the default configuration |
| `LinuxPort.SerialPort.ApplyConfiguration` | linux/serial_port.c:259-312 | succeeds exactly when the configuration is accepted and no call fails; a call that fails decides the error, with its error number; on success the attributes handed to tcsetattr encode the configuration; a rejected one never reaches tcsetattr |
| `LinuxPort.SerialPort.SetSpeeds` | linux/serial_port.c:281-283 | succeeds exactly when neither call fails, and the error is that of the call that failed |
| `LinuxPort.SerialPort.ConfigureLine` | linux/serial_port.c:276-303 | speed and setters in order give the error of the first rejection, or attributes that encode the configuration |
| `LinuxPort.SerialPort.Open` | linux/serial_port.c:404-432 | the port ends open exactly on success or if it was open; a failing call decides the error; a descriptor not kept has been closed once; invalid input makes no call |
| `LinuxPort.SerialPort.Close` | linux/serial_port.c:434-450 | EBADF and no call on a closed port, else exactly one close of its descriptor |
| `LinuxPort.SerialPort.Destroy` | linux/serial_port.c:391-402 | closes the descriptor if and only if the port still has one |
| `LinuxPort.SerialPort.CloseAndDestroy` | linux/serial_port_manager.c:334-337 | a detached port is closed exactly once and the caller gets 0 |
| `LinuxPort.SerialPort.WaitForFd` | linux/serial_port.c:320-348 | polls with the same timeout while interrupted; a ready poll is success, a broken one EIO, an elapsed one ETIMEDOUT, any other its own error number |
| `LinuxPort.SerialPort.ReadRemaining` | linux/serial_port.c:571-579 | a timeout once the deadline is reached, else a wait with now + wait = deadline and 0 < wait <= timeout that the 32-bit cast does not change |
| `LinuxPort.SerialPort.AwaitRoom` | linux/serial_port.c:570-588 | the first half of a pass extends the run by a clock reading and a wait, accepting no byte |
| `LinuxPort.SerialPort.OfferRest` | linux/serial_port.c:590-613 | offers exactly the bytes not yet taken and counts those the device took; an error is EIO for a device that takes nothing, or the error number of a write that failed for any reason but EINTR and EAGAIN |
| `LinuxPort.SerialPort.WriteLoop` | linux/serial_port.c:565-620 | the calls are a run of the write loop, the count is what the device took, and the error is 0 if and only if that is everything |
| `LinuxPort.SerialPort.WriteWithTimeout` | linux/serial_port.c:543-621 | bytes accepted are exactly the first `written` of the buffer, the result is 0 if and only if that is `length`, and `last_error` is the result; any other result names the last call: a deadline reached, a wait that failed, a device that took nothing, or a write that failed for any reason but EINTR and EAGAIN; a negative timeout means the configured one |
| `LinuxPort.SerialPort.ReadWithTimeout` | linux/serial_port.c:471-530 | what one successful read delivered is at the front of the buffer and nothing past it changed; a probe that times out and EAGAIN are successes of no bytes; every other outcome has the error of the poll or read that failed |
| `LinuxPort.ClockNeverBackwards` | linux/serial_port.c:314-318 | in a run of the loop no reading is earlier than the first |
| `LinuxPort.WaitExtendsRun` | linux/serial_port.c:332-347 | all polls of one wait, however often interrupted, extend a write run |
| `LinuxTransfer.AcceptedIsPrefix` | linux/serial_port.c:590-595 | at every moment of every run the device has taken a prefix of the buffer, in order |
| `LinuxTransfer.LateReadingIsLast` | linux/serial_port.c:571-578 | once a clock reading reaches the deadline no poll, write or reading follows |
| `LinuxTransfer.OnlyFailuresEnd` | linux/serial_port.c:569-614 | nothing follows a call that fails the write, and no interrupted or refused try is one |
| `LinuxTransfer.CallsAreWellTimed` | linux/serial_port.c:569-591 | with a positive timeout each wait is positive, at most the timeout and ends at the deadline, without one it is the timeout itself; each write follows a ready poll and offers exactly the rest; the clock is read again only under a positive timeout, while bytes are left |
| `LinuxTransfer.ReadingsArePaidFor` | linux/serial_port.c:569-608 | in every run each pass after the first is paid for by a byte accepted, a millisecond passed, or a stall: a pass that begins at the same clock as the one before, which got no byte accepted |
| `LinuxTransfer.AdvancingNeverStalls` | linux/serial_port.c:569-608 | if the clock differs between any two passes with no byte accepted between them, no pass stalls; the deadline reading and the first pass may fall in the same millisecond |
| `LinuxTransfer.WriteTerminates` | linux/serial_port.c:564-614 | with a positive timeout every run has at most length + timeout passes besides those that stalled, whatever the device does; if each retry from one pass to the next advances the clock there is no other |
| `LinuxTermios.Options.SetSpeed` | linux/serial_port.c:281-283 | the speed field holds the code and no other bit moves |
| `LinuxTermios.Options.ConfigureDataBits` | linux/serial_port.c:151-170 | accepts 5 to 8, sets exactly the size field |
| `LinuxTermios.Options.ConfigureStopBits` | linux/serial_port.c:172-192 | 1.5 only at five data bits; sets exactly the stop field |
| `LinuxTermios.Options.ConfigureParity` | linux/serial_port.c:194-232 | mark and space only where CMSPAR exists; sets exactly the parity and input-check fields |
| `LinuxTermios.Options.ConfigureFlowControl` | linux/serial_port.c:234-257 | hardware flow only where CRTSCTS exists; sets exactly the flow fields |
| `LinuxTermios.OtherFieldKept` | linux/serial_port.c:151-257 | setting one field leaves every disjoint field as it was |
| `LinuxTermios.StepsEncode` | linux/serial_port.c:276-303 | the setters in sequence do not disturb one another: together they encode the configuration and move no unmanaged bit |
| `LinuxTermios.ParityRoundTrip` | linux/serial_port.c:194-232 | every parity the platform accepts is read back from its bits |
| `LinuxTermios.RatesAccepted` | linux/serial_port.c:57-149 | a configuration is accepted exactly when its rate is in the table and its data bits, stop bits, parity and flow control are ones the platform has: every common rate on every platform, an optional one where it is defined, any other nowhere, with EINVAL |
| `LinuxTermios.RejectionsNamed` | linux/serial_port.c:151-257 | which rejection is ENOTSUP and which EINVAL, and that stop bits are judged before parity and parity before flow control |
| `LinuxTermios.EncodedBits` | linux/serial_port.c:151-274 | the encoding bit by bit: which settings each of CLOCAL, CREAD, CSTOPB, PARENB, PARODD, CMSPAR, CRTSCTS, INPCK, ISTRIP, IXON, IXOFF and IXANY stands for |
| `LinuxTermios.DecodeUndoesEncode` | linux/serial_port.c:57-303 | for every prior attribute state and accepted configuration, decoding the flags gives back baud, data bits, parity, flow and long or short stop |
| `LinuxTermios.EncodingIsDetermined` | linux/serial_port.c:259-312 | prior attributes and line settings determine every bit of the result |
| `LinuxTermios.EncodeAlikeIffEqualUpToCollapse` | linux/serial_port.c:151-257 | two accepted configurations encode alike if and only if they agree up to 1.5 against 2 stop bits at five data bits |
| `AndroidBuffer.InvKept` | android/src/main/kotlin/com/xauron/platform_serial/SerialPort.kt:159-294 | every step of loop, readers, resets and closes keeps the byte account, the monitor and the order of closing |
| `AndroidBuffer.BytesConserved` | android/src/main/kotlin/com/xauron/platform_serial/SerialPort.kt:159-218 | in lock order, what readers took and resets dropped is exactly the prefix of all bytes the loop appended that is no longer pending; each answer has between 1 and the requested number of bytes |
| `AndroidAnswers.DeviceToReaders` | android/src/main/kotlin/com/xauron/platform_serial/SerialPort.kt:179-218 | what reads took and resets dropped, what is pending and what the loop is carrying are together everything the device gave, in order |
| `AndroidAnswers.OutcomesHaveReasons` | android/src/main/kotlin/com/xauron/platform_serial/SerialPort.kt:254-294 | every read ends for a reason: with the front of the buffer, as many bytes as asked or all there were; with PORT_CLOSED or a timeout only when there was nothing to read; by an interruption; or for a bad length |
| `AndroidAnswers.DeadlineIsStartPlusTimeout` | android/src/main/kotlin/com/xauron/platform_serial/SerialPort.kt:255-256 | the deadline of a read is the timeout after its start, and with timeout 0 there is none |
| `AndroidAnswers.BlockedInTime` | android/src/main/kotlin/com/xauron/platform_serial/SerialPort.kt:267-280 | a blocked reader looked at the clock before its deadline |
| `AndroidAnswers.ResetDropsEverything` | android/src/main/kotlin/com/xauron/platform_serial/SerialPort.kt:161-164 | a reset empties the buffer and leaves nobody blocked |
| `AndroidAnswers.LoopRunsWhileOpen` | android/src/main/kotlin/com/xauron/platform_serial/SerialPort.kt:182-196 | while the port is open the read loop runs and is not cancelled; a device failure closes the port |
| `AndroidBuffer.BlockedMeansEmpty` | android/src/main/kotlin/com/xauron/platform_serial/SerialPort.kt:203-206 | while a reader is blocked there is nothing to read |
| `AndroidBuffer.FinalNotify` | android/src/main/kotlin/com/xauron/platform_serial/SerialPort.kt:246-249 | the last notify of a close reaches every reader that may have seen the port open, although `opened` is cleared outside the monitor |
| `AndroidBuffer.NoReaderBlocksAfterClose` | android/src/main/kotlin/com/xauron/platform_serial/SerialPort.kt:220-294 | once a close that waits for the loop is done no reader is or becomes blocked and the buffer stays empty |
| `AndroidBuffer.ReadersLeaveAfterClose` | android/src/main/kotlin/com/xauron/platform_serial/SerialPort.kt:258-266 | after such a close each step of a reader brings it nearer its end, which is PORT_CLOSED |
| `AndroidBuffer.ReadersCanLeaveAfterClose` | android/src/main/kotlin/com/xauron/platform_serial/SerialPort.kt:258-266 | and such a step is always possible for it or for the reader it waits for |
| `AndroidAnswers.ClosesRelease` | android/src/main/kotlin/com/xauron/platform_serial/SerialPort.kt:220-252 | a close that waits for the loop has cancelled it; a finished one leaves the port not open, without connection and without bytes |
| `AndroidAnswers.ClosesProgress` | android/src/main/kotlin/com/xauron/platform_serial/SerialPort.kt:220-252 | each step of a close brings it nearer its end |
| `AndroidAnswers.LoopEndsOnceNotOpen` | android/src/main/kotlin/com/xauron/platform_serial/SerialPort.kt:182-196 | once the port is not open each step of the loop brings it nearer its end |
| `AndroidAnswers.ClosesCanMove` | android/src/main/kotlin/com/xauron/platform_serial/SerialPort.kt:220-252 | an unfinished close can move, or waits for the loop of a port that is not open, or for a reader inside the monitor |
| `AndroidBuffer.PendingBytes.AppendLocked` | android/src/main/kotlin/com/xauron/platform_serial/SerialPort.kt:203-206 | the deque grows by the payload, in order |
| `AndroidBuffer.PendingBytes.TakeLocked` | android/src/main/kotlin/com/xauron/platform_serial/SerialPort.kt:287-292 | the result is the front of the deque, as much as there is and no more than asked, and the rest stays |
| `ByteLog.TakeKeepsFlow` | android/src/main/kotlin/com/xauron/platform_serial/SerialPort.kt:287-292 | taking from the front loses and reorders no byte |
| `WebReader.WakefulKept` | lib/src/platform/web_impl.dart:335-367 | at every await a current notifier means an empty buffer and a port not closing, no completer is completed twice, and each parked reader waits on the current notifier or a completed one |
| `WebReader.EveryRun` | lib/src/platform/web_impl.dart:296-387 | all three invariants hold in every state of every run |
| `WebReader.NothingMissed` | lib/src/platform/web_impl.dart:341-367 | while there is data, or once the port is closing, every parked reader has been woken by a completer completed exactly once |
| `WebReader.EmptyHandedMeansClosing` | lib/src/platform/web_impl.dart:364-371 | in every state of every run, a reader that asked for something and came back with nothing found the port closing |
| `WebReader.BytesConserved` | lib/src/platform/web_impl.dart:296-378 | every byte that reached the buffer was taken once, cleared, or is in it, in order |
| `WebAnswers.BrowserToReaders` | lib/src/platform/web_impl.dart:329-378 | what reads took and clears dropped, and what is in the buffer, are together everything the browser gave, in order |
| `WebAnswers.EverythingIsPassedOn` | lib/src/platform/web_impl.dart:302-356 | the event stream carries every chunk that is not empty and an error for a failure before the close, in order, and nothing else |
| `WebAnswers.AnswersHaveReasons` | lib/src/platform/web_impl.dart:358-379 | every read answers for a reason: as many bytes as asked or all there were, and none only if none were asked for or the port is closing |
| `WebAnswers.ClearDropsEverything` | lib/src/platform/web_impl.dart:296 | a clear empties the buffer |
| `WebAnswers.LoopHoldsLock` | lib/src/platform/web_impl.dart:310-315 | while the loop waits for the browser it holds the reader lock |
| `WebAnswers.LoopEndsForAReason` | lib/src/platform/web_impl.dart:302-356 | reading ends only for a closing port, a missing stream, a failure or the end of the stream |
| `WebReader.ShutdownOrder` | lib/src/platform/web_impl.dart:302-432 | nothing is added to the closed controller, and the device is closed only after the loop ended and released its lock, even if cancelling fails |
| `WebAnswers.CloseReportsFailure` | lib/src/platform/web_impl.dart:381-432 | a close throws if and only if cancelling the reader, closing the device or closing the stream failed |
| `WebAnswers.CancelsBeforeClosing` | lib/src/platform/web_impl.dart:388-399 | a close goes on to the device only after the reader, if there is one, was cancelled |
| `WebAnswers.CloseEnds` | lib/src/platform/web_impl.dart:381-432 | each step of a close brings it nearer its end, whether or not something fails |
| `WebAnswers.CloseCanGoOn` | lib/src/platform/web_impl.dart:401-408 | an unfinished close can go on, or waits for the loop, which ends with its next read |
| `WebReader.OnlyDataOrCloseWakes` | lib/src/platform/web_impl.dart:341-384 | a sleeping reader is woken by exactly a chunk or the close |
| `WebReader.AsleepIffNotClosed` | lib/src/platform/web_impl.dart:325-384 | after the loop has ended a sleeping reader is asleep at a later moment if and only if nobody has closed the port in between |
| `WebReader.LateReadSleeps` | lib/src/platform/web_impl.dart:358-367 | a read that starts after the loop has ended sleeps if and only if the buffer is empty and the port is not closing |
| `WebReader.StreamEndStrands` | lib/src/platform/web_impl.dart:325-327 | a run in which the end of the stream leaves a reader asleep |
| `Utf8.Encode` | windows/platform_serial_plugin.cpp:27-39 | the output is bytes, and a zero byte comes only from a zero unit |
| `Utf8.DecodeEncode` | windows/platform_serial_plugin.cpp:72 | decoding one converted unit gives it back, or the replacement character for a surrogate |
| `Utf8.StandardExamples` | windows/platform_serial_plugin.cpp:27-39 | the conversion agrees with examples of section 7 of RFC 3629 |
| `Utf8.DecodeConcat` | lib/src/platform/windows_impl.dart:74 | well-formed pieces decode piece by piece |
| `JsonText.EscapeUnitParses` | windows/platform_serial_plugin.cpp:44-74 | every escape the printer uses is undone by the string parser |
| `JsonText.StandardEscapes` | lib/src/platform/windows_impl.dart:77 | the parser reads the escapes of section 7 of RFC 8259 |
| `JsonText.StringParses` | windows/platform_serial_plugin.cpp:41-78 | the parser of section 7 of RFC 8259 gives back any escaped string and stops at its quote |
| `JsonText.PrintDecodes` | windows/platform_serial_plugin.cpp:41-120 | the printed bytes are well-formed UTF-8 of the printed text |
| `JsonText.ValueParses` | lib/src/platform/windows_impl.dart:77 | parsing a printed value gives the value and leaves what follows untouched |
| `JsonText.TextRoundTrip` | lib/src/platform/windows_impl.dart:74-77 | UTF-8 decoding and parsing undo printing, for every value |
| `JsonText.PrintNeverZero` | windows/platform_serial_plugin.cpp:41-120 | no printed byte is zero |
| `WindowsPortsJson.EscapeCharacter` | windows/platform_serial_plugin.cpp:44-75 | one character becomes its JSON escape, or its UTF-8 bytes |
| `WindowsPortsJson.EscapeJsonString` | windows/platform_serial_plugin.cpp:41-78 | the loop prints the escape of the whole string |
| `WindowsPortsJson.WriteField` | windows/platform_serial_plugin.cpp:90-112 | one member; an empty vendor, product or serial is null |
| `WindowsPortsJson.SerializePort` | windows/platform_serial_plugin.cpp:89-116 | one port is the JSON object of its seven members |
| `WindowsPortsJson.PortIsSpelled` | windows/platform_serial_plugin.cpp:89-116 | the object spelled out: which text stands behind which name, in which order |
| `WindowsPortsJson.KeysSpelled` | windows/platform_serial_plugin.cpp:90-115 | the names of the members |
| `WindowsPortsJson.SerializePortsJson` | windows/platform_serial_plugin.cpp:80-120 | the output is the JSON array of the ports, for any list |
| `WindowsPortsJson.PortReads` | lib/src/platform/windows_impl.dart:79-88 | the Dart record read from a printed port has its fields, with empty ids null |
| `WindowsPortsJson.DefaultsRead` | lib/src/platform/windows_impl.dart:81-87 | what Dart takes for members that are missing |
| `WindowsPortsJson.DocumentRoundTrip` | windows/platform_serial_plugin.cpp:80-120 | for every list of ports, what Dart reads from the printed bytes is that list with every surrogate replaced |
| `WindowsPortsJson.DocumentIsOneCString` | windows/platform_serial_plugin.cpp:80-120 | the output has no zero byte, so the C string is the whole document |
| `WindowsPortsJson.ExactIffNoSurrogates` | windows/platform_serial_plugin.cpp:41-78 | the list comes back unchanged if and only if no field holds a surrogate |
| `WindowsPortsJson.PairIsLost` | windows/platform_serial_plugin.cpp:72 | Dart reads from the printed bytes of a port whose description is one surrogate pair a description of two replacement characters, and so not the port |
| `WindowsRegistry.LocksKept` | windows/serial_port_manager.cpp:320-432 | over every step, who holds the manager's and each port's mutex follows from where threads stand |
| `WindowsRegistry.HandlesKept` | windows/serial_port.cpp:519-524 | over every step the open device handles are those of the ports, each in one port |
| `WindowsRegistry.PortsKept` | windows/serial_port_manager.cpp:320-341 | over every step published ports are open, have issued ids and different names |
| `WindowsRegistry.OwnersKept` | windows/serial_port_manager.cpp:303-361 | over every step an open port is published or has one thread that will publish or close it, never both |
| `WindowsRegistry.InspectScan` | windows/serial_port_manager.cpp:321-326 | comparing one entry, and asking it under its mutex if the name agrees, keeps what the scan knows |
| `WindowsRegistry.InvKept` | windows/serial_port_manager.cpp:274-432 | every step of every thread keeps the whole invariant |
| `WindowsRegistry.PublishedAreOpenAndUnique` | windows/serial_port_manager.cpp:274-432 | in every run every published port is open and no two share a name or a device handle |
| `WindowsRegistry.QuietMeansNoLeak` | windows/serial_port_manager.cpp:303-361 | with no call in flight the open device handles are those of the published ports |
| `WindowsRegistry.ClosingSucceeds` | windows/serial_port_manager.cpp:344-361 | closing a published id succeeds whatever happens between erasing and closing, and nobody is inside the port then |
| `WindowsRegistry.ClosedStays` | windows/serial_port.cpp:140-152 | a closed port is never reopened |
| `WindowsRegistry.LateCallsFail` | windows/serial_port.cpp:501-510 | after a port is closed a call that still holds it is never inside it and fails with ERROR_INVALID_HANDLE |
| `WindowsRegistry.IoIsOnOpenHandle` | windows/serial_port.cpp:154-193 | no operation runs on a closed device handle, and each has its port to itself |
| `WindowsRegistry.IdsNeverReused` | windows/serial_port_manager.cpp:338-339 | an id that is no longer published is never published again |
| `WindowsRegistry.OpenIsDecidedByTheMap` | windows/serial_port_manager.cpp:320-341 | at the end of its scan an open publishes if and only if no published port has its name |
| `WindowsAnswers.LostOpenFails` | windows/serial_port_manager.cpp:328-336 | an open that meets its name fails with ERROR_ALREADY_EXISTS in its next step, whatever others do in between |
| `WindowsAnswers.AnswersHaveReasons` | windows/serial_port_manager.cpp:274-432 | every answer has its reason: an open succeeds only by publishing an open port of its name under a fresh id while no published port has the name; ERROR_ALREADY_EXISTS only when one has; a close succeeds only by closing its port; an unknown id, a port closed meanwhile and an empty name have their own codes; every other code is the device's |
| `WindowsAnswers.IoReachesItsPort` | windows/serial_port_manager.cpp:421-432 | an operation runs on the port that was published under its id when it looked the id up |
| `WindowsRegistry.ListIsExact` | windows/serial_port_manager.cpp:278-291 | an enumeration reports as open exactly the listed names that are published |
| `WindowsRegistry.NoDeadlock` | windows/serial_port_manager.cpp:320-326 | in every reachable state each thread can move, or waits for one that can, or waits for the manager's holder, who waits for one that can |
| `WindowsAnswers.CallsEnd` | windows/serial_port_manager.cpp:274-432 | every call ends: each of its own steps brings it nearer its return, and no other step moves it |
| `WindowsRegistry.LocksNestOneWay` | windows/serial_port_manager.cpp:320-326 | a thread inside a port neither holds the manager's mutex nor waits for any |
| `EventPump.EveryRun` | linux/platform_serial_plugin.cc:481-612 | over any sequence of listen, cancel, tick and dispose the live timers are exactly the recorded one, there is one exactly while a port is streamed, and the events sent are the reports of the polls of the port streamed at each time |
| `EventPump.FailedListenLeavesNoTrace` | linux/platform_serial_plugin.cc:549-563 | a failed listen anywhere in a history changes nothing: after any later actions timers, port and events are as if it had not been tried |
| `EventPump.Plugin.EmitReadEvent` | linux/platform_serial_plugin.cc:481-539 | one poll reports on the active port, and asks for the timer's removal exactly when it stops polling |
| `EventPump.Plugin.Dispatch` | linux/platform_serial_plugin.cc:541-543 | a tick of the live timer keeps the pump sound |
| `EventPump.Plugin.OnListen` | linux/platform_serial_plugin.cc:545-575 | a successful listen replaces the timer, removing only a live one; a failed one answers why and changes nothing |
| `EventPump.Plugin.OnCancel` | linux/platform_serial_plugin.cc:577-587 | no timer and no port are left |
| `EventPump.Plugin.OnDispose` | linux/platform_serial_plugin.cc:603-612 | no timer and no port are left |
| `Permission.RemoveEvictsNothing` | android/src/main/kotlin/com/xauron/platform_serial/SerialPortManager.kt:258 | the final conditional remove leaves the map as it is |
| `Permission.TokensKept` | android/src/main/kotlin/com/xauron/platform_serial/SerialPortManager.kt:245-248 | over every step a device is in the map exactly while one caller is about to prompt, one prompt is up, or one result is being handled |
| `Permission.PlacedKept` | android/src/main/kotlin/com/xauron/platform_serial/SerialPortManager.kt:240-259 | over every step a deferred is private, in the map, in one handler's hands or answered, and only one of these |
| `Permission.OnePromptPerDevice` | android/src/main/kotlin/com/xauron/platform_serial/SerialPortManager.kt:245-248 | in every run at most one prompt per device is outstanding |
| `Permission.EveryWaiterIsServed` | android/src/main/kotlin/com/xauron/platform_serial/SerialPortManager.kt:250 | every waiter's deferred is answered, in a handler's hands, or in the map while its device is being asked about |
| `Permission.SameAnswerForAll` | android/src/main/kotlin/com/xauron/platform_serial/SerialPortManager.kt:250-251 | all callers that waited on one deferred were told the same, whenever they looked |
| `PermissionAnswers.OutcomesHaveReasons` | android/src/main/kotlin/com/xauron/platform_serial/SerialPortManager.kt:240-256 | a caller is let through only when the system says the permission is there, at once or after the user granted it, and turned away only when the user refused or the system still says no |
| `PermissionAnswers.AnswersAreTheUsers` | android/src/main/kotlin/com/xauron/platform_serial/SerialPortManager.kt:191-196 | what callers are told is what the user answered to a prompt for their device |
| `PermissionAnswers.CallersEnd` | android/src/main/kotlin/com/xauron/platform_serial/SerialPortManager.kt:240-259 | each step of a caller brings it nearer its end |
| `PermissionAnswers.CallersCanGoOn` | android/src/main/kotlin/com/xauron/platform_serial/SerialPortManager.kt:240-259 | a caller that is not waiting for the answer can go on |
| `Permission.ResultsReachTheirRequest` | android/src/main/kotlin/com/xauron/platform_serial/SerialPortManager.kt:191-196 | a result always finds its request and completes a deferred not completed before |
| `Permission.NewerRequestsSurvive` | android/src/main/kotlin/com/xauron/platform_serial/SerialPortManager.kt:258 | in no run does the final remove evict a newer request |
| `ReadUntil.SerialPort.ReadUntil` | lib/src/serial_port.dart:159-197 | the result is that of the first turn that expires, fails or completes the text, with nothing requested after it; each request was made within the timeout, a timeout means the clock had passed it, and an I/O error that the last request failed |
| `ReadUntil.RanIsDetermined` | lib/src/serial_port.dart:173-194 | what the platform and the clock do determines the result and how much is consumed |
| `ReadUntil.ReturnsTheShortestPrefix` | lib/src/serial_port.dart:181-187 | the text is exactly what was consumed; with answers of at most one byte it is the shortest non-empty prefix of the input that ends in the terminator |
| `ReadUntil.SucceedsIffCompleted` | lib/src/serial_port.dart:173-194 | for any answers, a call succeeds if and only if some answer completes a text that ends in the terminator and nothing expired or failed up to it |
| `ReadUntil.FindsItIffItIsThere` | lib/src/serial_port.dart:173-194 | with answers of at most one byte a call succeeds if and only if, before anything expires or fails, the input has a non-empty prefix that ends in the terminator |
| `ReadUntil.LongAnswerHidesTerminator` | lib/src/serial_port.dart:180-187 | why the answers of one byte matter: the code looks only at the end of what it has, so an answer longer than the request would hide a terminator in its middle |

## Left out

- Device discovery, Flutter channels, FFI and real system calls: foreign code, present only as its possible answers.
- A failing `close(2)` on Linux: `serial_port_destroy` then closes again, so the exactly-once claim needs it to succeed.
- `serial_port_manager_destroy`: it must not run beside other calls, and alone it only walks the list.
- `serial_port_manager_list_ports`: its open flags are the same lookup by name as in `find_handle`, around a directory scan.
- `bytes_available`, `flush`, buffer resets and control signals on Linux: single system calls on a port, present in the registry as a locked operation with an arbitrary answer.
- Null manager and port pointers on Linux: each function returns EINVAL at once.
- PortList.PortManager.PublishLocked: requires the handle counter to be below its 32-bit maximum, because incrementing past it is undefined in C; `LinuxLinearizability.CounterCountsOpens` says how many opens that takes.
- The registries are state machines over values: the heap list of the Linux one is modelled separately and meets it through the functions of `PortTable`.
- Flag words are sets of bit positions, not machine words; `cfmakeraw` is part of the answer of `tcgetattr`.
- The clock is an unbounded integer, so overflow of the 64-bit deadline is not modelled.
- LinuxPort.SerialPort.WaitForFd: says nothing of the time a wait takes, because an interrupted poll starts again with the full timeout.
- LinuxTransfer.WriteTerminates: bounds passes of the loop and not polls, because one wait polls again for as long as it is interrupted; nor does it bound stalled passes, because a device may answer EAGAIN any number of times within one millisecond.
- Android: the configuration mapping, writes, contention on `ioMutex`, an event callback that throws, and a port object reopened after a close. A read loop that closes itself is modelled, but readers are promised their wake-up only by a close that waits for the loop.
- Permission: cancellation of a waiting caller, a `requestPermission` that throws, and results no prompt asked for.
- Name uniqueness of the Android, iOS and web managers: they check and insert without a second check, so it does not hold.
- Web: opening and configuring, `releaseLock` throwing, more than one close, wake-up at the end of the stream, which the code does not establish.
- JSON: numbers are not in the value type, because the printer prints none.
- Windows: configuration, timeouts and the parameter checks of reads and writes before the open check; wrap-around of the 64-bit id.
- `readUntil`: a platform call that never answers, and the delay between requests, which only passes time.
- macOS and iOS code, value classes, the example app and the tools.
