# A verified model of asionet

asionet puts sequencing, timeouts, length-prefixed frames and waiting on top of boost::asio. Nearly every class of it
is a small state machine whose promises are about whole runs: operations start in order and one at a time, a timer that
has lost its race closes nothing, the phases of a service call share one deadline, frames survive any chunking, a
blocked waiter is woken. This project states those promises in Dafny and proves them for every run, every input and
every interleaving.

## How it is built

Each component is a module. A class of the program is a class here, with the program's fields, and its methods are
proved to take exactly the step that a function on states describes (`ensures View() == ...`). Runs are sequences of
such steps in any order, with the environment's steps between them, and the lemmas about runs carry the main results.
Three classes differ from the program's. `DatagramSender` and `DatagramReceiver` are one class, told apart by their
pending container. `ServiceClient` has no socket field: what asio keeps for the client, its open sockets and resolvers
with their operations and timers, is one value. The threaded branch of `Waiter` and `Waitable` has no class, since its
subject is the interleaving of threads between two accesses to the mutex: a thread is a value with a program counter.

| module | program | main results |
|---|---|---|
| `OperationManager` | `AsyncOperationManager.h` | `ExactlyOnePlace`, `QueueStartsIff`, `ReplacerStartsIff`, `CanceledIff` |
| `Notifiers` | `FinishedOperationNotifier` | `KeepsExclusiveIff`, `FinishesOnceIff`, `NotifierDiscipline`, `ScopesFinishEverything` |
| `Timers` | `Timer.h` | `Schedule`, `CancelStopsTimeouts`, `CancelInHandlerStopsTimeouts`, `StaleCancelLosesTimeout`, `ReplacedNeverFiresIff`, `PeriodicEndsIff` |
| `TimedOperations` | `Closeable.h` | `StaleTimerIsHarmless`, `AbortedIffExpired`, `CompletesAs` |
| `ServiceClients` | `ServiceClient.h`, `asyncConnect`, the phases of `asyncRead` | `DeadlineCountsFromBeginning`, `CallsEndOnTime`, `CallsAreConserved`, `CallBeginsIff`, `CompletionsAreReported`, `NeverSucceedsIffClosed`, `CancelFailsCallIff` |
| `ServiceExchanges` | the same on the bytes of the connection | `ReadEndsAsReference`, `ResultsMatchInput`, `NeverDeliversIff` |
| `ServiceServers` | `ServiceServer.h` | `OneAccept`, `HandsOverIff`, `EveryConnectionIsHandled`, `OldLoopsHandleNothing`, `DeafIffCanceled` |
| `DatagramClients` | `DatagramSender.h`, `DatagramReceiver.h` | `CallsAreConserved`, `OperationBeginsIff`, `SendsAreReported`, `ReceivesAreReported`, `NeverSucceedsIffDisturbed`, `ReceiveIsLostIff` |
| `DatagramExchanges` | the same on the bytes of the datagrams | `ReceiveMatchesDatagram`, `DatagramDelivers` |
| `BigEndian`, `Frames` | `Utils.h`, `Frame.h` | `DecodeEncode`, `EncodeDecode`, `StartsWithFrameIff` |
| `Streams`, `Messages` | `Stream.h`, `Message.h` | `ReadSucceedsIff`, `RoundTripIff`, `ReadAll`, `ReceiveSucceedsIff` |
| `Datagrams` | the datagram half of `Socket.h` | `HoldsFrameIff`, `DatagramArrivesIff` |
| `WaitExpressions`, `Waiters` | `Wait.h`, `Wait.cpp` | `OperatorsAreMonotone`, `NoLostWakeupIffMonotone`, `ReturnsIff`, `ReturnedPassedTest`, `ContextWaiter.Await` |

Assumptions about the surroundings:

- Every completion handler is one atomic step. For the two handlers of a timed operation this is what wrapping them in
  one `WorkSerializer` is for (`include/asionet/Closeable.h:103`). The methods of a manager are atomic because of its
  mutex.
- asio may deliver any pending completion next, with any error and any chunk size, and calls each handler once. A
  closed or canceled object completes its operations with an error, but a completion that is already queued stays as
  it is.
- A submitted closure is represented by its submission number. Where the manager runs a closure under its mutex, its
  method returns the number and the owner begins the operation within the same step.
- Clock readings, the results of decoders and encoders, and the calls that user handlers make are arguments of steps.
- Starting an operation does not throw, and `std::size_t` has 64 bits.

## What the code does not promise

Some properties that one would expect do not hold of the code. The model keeps the code as it is, and the following
lemmas say exactly when they do hold.

- A `cancel` on an idle manager leaves the cancel flag set, and the next operation starts canceled
  (`OperationManager.StartsCanceledIff`). The next timeout is then lost (`Timers.StaleCancelLosesTimeout`), the next
  receive never reports (`DatagramClients.ReceiveIsLostIff`), and a server that is advertised next drops every
  connection (`ServiceServers.DeafIffCanceled`).
- A periodic timeout that is replaced inside its own handler goes on, and the replacement waits
  (`Timers.PeriodicEndsIff`).
- A one-shot handler that calls `cancel` and then starts another timeout loses it (`Timers.RestartInHandlerIsLostIff`).
- A timeout that is replaced while its handler is queued fires nevertheless (`Timers.ReplacedNeverFiresIff`).
- The comment on the manager asks that an operation can be canceled at any time
  (`include/asionet/AsyncOperationManager.h:43-44`); `ServiceClient::cancel` does not reach a call that is still
  resolving: some run takes it on to success (`ServiceClients.CancelFailsCallIff`).
- A timeout in the middle of a write is reported as a failed operation and not as an abort, and a decoder that rejects
  an empty buffer hides every transport error of a read (`ServiceClients.TimeoutIsReportedAs`, with a run that gets there
  in `ServiceClients.TimeoutInWrite`; `Messages.ReceiveSucceedsIff`).
- A payload of 2^32 bytes or more is cut off without an error (`Streams.RoundTripIff`, `Messages.MessageArrives`).
- A read on a buffer that still holds bytes takes its header from them (`Streams.AsyncRead`, by `Streams.DecodeBehind`).
- A wait on an expression that is not monotone can sleep for ever although the expression holds
  (`Waiters.NoLostWakeupIffMonotone`); what the operators build is monotone (`WaitExpressions.OperatorsAreMonotone`).
- Nothing but discipline keeps `notify` from ending an operation under its owner. One on a used or moved-from notifier
  does so if and only if an operation runs (`Notifiers.KeepsExclusiveIff`, `Notifiers.StrayNotifyEndsOwned`); on an idle
  manager it only clears the cancel flag (`Notifiers.StrayNotifyWhenIdle`). Either way `finishOperation` has been called
  once too often (`Notifiers.FinishesOnceIff`).

## Model

| member | source | states |
|---|---|---|
| OperationManager.AsyncOperationManager.constructor | include/asionet/AsyncOperationManager.h:63-65 | a new manager is idle, not canceled, and has no operation |
| OperationManager.AsyncOperationManager.StartOperation | include/asionet/AsyncOperationManager.h:67-83 | an idle manager begins the operation; a running one makes it pending, and a replacer first calls the canceling operation and drops what waited |
| OperationManager.AsyncOperationManager.FinishOperation | include/asionet/AsyncOperationManager.h:85-100 | the cancel flag is cleared, and the oldest pending operation begins or the manager becomes idle |
| OperationManager.AsyncOperationManager.CancelOperation | include/asionet/AsyncOperationManager.h:102-108 | the flag is set and all pending operations are dropped, whether or not an operation runs |
| OperationManager.AsyncOperationManager.IsCanceled | include/asionet/AsyncOperationManager.h:110-113 | the flag |
| OperationManager.StepPreservesInv | include/asionet/AsyncOperationManager.h:67-108 | every call keeps: places are disjoint and complete, pending operations are the newest, finished ones are the started ones but the active one |
| OperationManager.ExactlyOnePlace | include/asionet/AsyncOperationManager.h:67-108 | in every run, each submission is finished, active, pending or dropped, counted exactly once |
| OperationManager.StartOrder | include/asionet/AsyncOperationManager.h:67-100 | in every run, operations start in submission order, pending ones are newer, and exist only while one runs |
| OperationManager.QueueIsFifo | include/asionet/AsyncOperationManager.h:160-201 | without a cancel, started followed by pending operations are all submissions in order |
| OperationManager.QueueStartsIff | include/asionet/AsyncOperationManager.h:160-201 | with a queue, a submission starts iff the manager was idle or more finishes than operations ahead come before the next cancel |
| OperationManager.ReplacerStartsIff | include/asionet/AsyncOperationManager.h:203-243 | with a replacer, a submission starts iff the manager was idle or the very next call is a finish: the last writer wins |
| OperationManager.GoneForGood | include/asionet/AsyncOperationManager.h:102-108 | a dropped or superseded operation never starts later |
| OperationManager.CanceledIff | include/asionet/AsyncOperationManager.h:89-113 | the flag is set iff a cancel came since the last finish |
| OperationManager.StartsCanceledIff | include/asionet/AsyncOperationManager.h:67-113 | an operation begun by a start is canceled from the beginning iff a cancel came since the last finish; one begun by a finish never is |
| OperationManager.NoStaleCancel | include/asionet/AsyncOperationManager.h:67-113 | if cancel is called only while an operation runs, the flag is never set on an idle manager |
| Notifiers.FinishedOperationNotifier.MoveFrom | include/asionet/AsyncOperationManager.h:128-132 | moving transfers the enabled state and disables the source |
| Notifiers.FinishedOperationNotifier.Destroy | include/asionet/AsyncOperationManager.h:122-126 | destruction finishes the operation iff the notifier is still enabled |
| Notifiers.FinishedOperationNotifier.Notify | include/asionet/AsyncOperationManager.h:140-144 | notify disables the notifier and finishes an operation unconditionally |
| Notifiers.KeepsExclusiveIff | include/asionet/AsyncOperationManager.h:115-149 | an action keeps mutual exclusion (one enabled notifier exactly while an operation runs, and it is that operation's) iff it is not a notify on a used or moved-from notifier, or nothing runs |
| Notifiers.StrayNotifyEndsOwned | include/asionet/AsyncOperationManager.h:140-144 | a notify on a used or moved-from notifier, while an operation runs, ends that operation although another notifier owns it, and starts a pending one beside it |
| Notifiers.FinishesOnceIff | include/asionet/AsyncOperationManager.h:115-149 | at the end of any run, finishOperation was called exactly once for each started operation that no enabled notifier owns, iff no notify of the run was stray |
| Notifiers.NotifierDiscipline | include/asionet/AsyncOperationManager.h:49-51 | in every disciplined run, whatever the moves, at most one operation is active and every other started one was finished exactly once, in order |
| Notifiers.ScopesFinishEverything | include/asionet/AsyncOperationManager.h:122-126 | in every disciplined run at whose end all notifiers are destroyed, finishOperation was called exactly once for each started operation, and nothing is active or pending |
| Notifiers.RunsManager | include/asionet/AsyncOperationManager.h:115-149 | every run of notifiers is a run of the manager, so the results about the manager hold of it |
| Timers.Timer.Start | include/asionet/Timer.h:47-59 | starting a timeout arms an idle timer, otherwise aborts the wait and makes it the replacement |
| Timers.Timer.Cancel | include/asionet/Timer.h:61-64 | cancel aborts an outstanding wait, but not a queued handler, and drops the replacement |
| Timers.Timer.BeginOperation | include/asionet/Timer.h:83-105 | the expiry is now plus the duration |
| Timers.Timer.CancelOperation | include/asionet/Timer.h:115-119 | only a wait that has not elapsed is aborted |
| Timers.Timer.CallHandler | include/asionet/Timer.h:94-111 | a user handler may make any calls on its own timer |
| Timers.Timer.WaitHandler | include/asionet/Timer.h:88-113 | the user handler is called iff the wait elapsed and the flag is clear; a one-shot timeout ends before its handler, a periodic one after |
| Timers.Timer.ArmNextPeriod | include/asionet/Timer.h:121-136 | the next expiry is the last one plus the interval, unless canceled |
| Timers.Timer.Finish | include/asionet/Timer.h:67-78 | the end of the captured state starts the replacement |
| Timers.StepKeepsInv | include/asionet/Timer.h:47-136 | every event keeps one wait exactly while an operation runs, and the log of firings on schedule |
| Timers.Schedule | include/asionet/Timer.h:99-136 | in every run, the k-th expiry is the first plus k intervals, no handler runs early, a one-shot timeout fires at most once |
| Timers.CancelStopsTimeouts | include/asionet/Timer.h:61-64 | after cancel, no earlier timeout ever fires, even with its handler queued |
| Timers.CancelInHandlerStopsTimeouts | include/asionet/Timer.h:91-111 | the same for a cancel inside a user handler, between any other calls |
| Timers.StaleCancelLosesTimeout | include/asionet/Timer.h:88-96 | a timeout started on an idle timer fires in no run at all iff the cancel flag is set |
| Timers.ReplacedNeverFiresIff | include/asionet/AsyncOperationManager.h:78-82 | a timeout that is replaced, one-shot or periodic, fires in no run again iff its handler is not queued or the cancel flag is set |
| Timers.ReplacementFires | include/asionet/Timer.h:115-119 | the aborted wait is handled at any time without firing, and the replacement then needs exactly its own duration to fire |
| Timers.UsableAfterCancel | include/asionet/Timer.h:61-64 | after a cancel, once the aborted wait is handled, at any time, a timeout that is started fires at its own expiry |
| Timers.RestartInHandlerIsLostIff | include/asionet/Timer.h:88-96 | a timeout started in a one-shot handler begins at once, and fires in no run iff the same handler has called cancel before |
| Timers.PeriodicEndsIff | include/asionet/Timer.h:104-124 | a periodic timeout ends at a handler iff it was aborted or canceled; a replacement does not end it |
| TimedOperations.Closeable.Close | include/asionet/Closeable.h:71-75 | the object is closed |
| TimedOperations.TimedOperation.constructor | include/asionet/Closeable.h:96-111 | the timer is armed for now plus the timeout |
| TimedOperations.TimedOperation.TimeoutHandler | include/asionet/Closeable.h:108-111 | the closeable is closed iff the timer calls its handler |
| TimedOperations.TimedOperation.CompletionHandler | include/asionet/Closeable.h:113-127 | the timer is canceled, the error is an abort iff the closeable is closed, else reflects asio's error |
| TimedOperations.TimeoutKeepsSound | include/asionet/Closeable.h:106-111 | the timeout closure runs iff the wait elapsed and the operation has not completed |
| TimedOperations.StaleTimerIsHarmless | include/asionet/Closeable.h:96-128 | in every interleaving, after completion no event of the timer closes anything |
| TimedOperations.AbortedIffExpired | include/asionet/Closeable.h:96-128 | on a target that nothing else closes, an operation is aborted iff its own timer expired before it completed, never before start plus timeout |
| TimedOperations.CompletesAs | include/asionet/Closeable.h:113-127 | such an operation ends, for good, as aborted if its timer has expired before the completion, else as asio reports |
| ServiceClients.AsyncState.ChargeTimeout | include/asionet/ServiceClient.h:218-224 | the time since the last charge is taken from the timeout |
| ServiceClients.ServiceClient.AsyncCall | include/asionet/ServiceClient.h:58-85 | an encoding failure is posted; otherwise the call is queued or begins |
| ServiceClients.ServiceClient.Cancel | include/asionet/ServiceClient.h:87-90 | pending calls are dropped and the socket is closed |
| ServiceClients.ServiceClient.CallOperation | include/asionet/ServiceClient.h:122-161 | a call begins with a new socket, its clock reading, and a resolve or a connect under its timeout |
| ServiceClients.ServiceClient.ResolveHandler | include/asionet/Socket.h:84-108 | an error ends the call; endpoints start the connect under the remaining time |
| ServiceClients.ServiceClient.ConnectHandler | include/asionet/ServiceClient.h:168-189 | an error ends the call; success starts the write under the remaining time |
| ServiceClients.ServiceClient.WriteHandler | include/asionet/ServiceClient.h:191-216 | an incomplete write or an error ends the call; success starts the read of a header |
| ServiceClients.ServiceClient.HeaderHandler | include/asionet/Stream.h:99-157 | an error, a short header or an empty frame ends the call; otherwise the body is read under the remaining time |
| ServiceClients.ServiceClient.BodyHandler | include/asionet/Stream.h:135-155 | the body ends the call |
| ServiceClients.ServiceClient.Deliver | include/asionet/Message.h:138-147 | a failing decoder takes precedence over the error |
| ServiceClients.ServiceClient.EndCall | include/asionet/ServiceClient.h:210-215 | the socket is closed, the next pending call begins, and the user handler is called |
| ServiceClients.ServiceClient.CompletionHandler | include/asionet/Closeable.h:115-127 | every phase cancels its own timer and classifies its error |
| ServiceClients.StepKeepsInv | include/asionet/ServiceClient.h:58-240 | every event keeps the accounts, the deadline, the single live timer, a reason for every abort, and none against any success |
| ServiceClients.CallsAreConserved | include/asionet/ServiceClient.h:58-240 | in every run, each call is in exactly one account, and handlers begin once each, in submission order, never for a dropped call |
| ServiceClients.EncoderDecides | include/asionet/ServiceClient.h:58-85 | in every run, posted and reported errors are the calls that the encoder rejected, and the requests are the calls that it accepted, in order |
| ServiceClients.RejectedCallsTouchNothing | include/asionet/ServiceClient.h:58-66 | every run goes in the same way without the rejected calls: no call, timer or socket is touched by one |
| ServiceClients.RunsManager | include/asionet/ServiceClient.h:58-90 | every run of the client is a run of its manager |
| ServiceClients.CallBeginsIff | include/asionet/ServiceClient.h:68-90 | a call begins iff none is active when it is made, or more calls end than wait before it, before the next cancel |
| ServiceClients.CompletionsAreReported | include/asionet/ServiceClient.h:163-216 | at every completion of every run: exactly when the call goes on, and otherwise exactly which error its handler is told of, for good |
| ServiceClients.SocketClosedBetweenCalls | include/asionet/ServiceClient.h:210-215 | in every run, the socket is closed while no call is active |
| ServiceClients.OneDeadline | include/asionet/ServiceClient.h:122-224 | in every run, all five phases arm their timers for start plus timeout; clock readings within single steps do not accumulate |
| ServiceClients.DeadlineCountsFromBeginning | include/asionet/ServiceClient.h:122-133 | from the step that begins a call, every timer of its phases is set for the clock reading of that step plus the timeout given for this call |
| ServiceClients.StaleTimersAreHarmless | include/asionet/Closeable.h:96-128 | in every run, only the current phase's timer can close the socket or the resolver |
| ServiceClients.NeverSucceedsIffClosed | include/asionet/ServiceClient.h:122-216 | at any moment of any run, no continuation ends the active call with success iff what its phase works on is closed, that is iff its timer has expired, it was canceled after resolving, or there was no endpoint |
| ServiceClients.CancelFailsCallIff | include/asionet/ServiceClient.h:163-166 | after cancel, no continuation of the run ends the active call with success iff the call is past the resolve phase or its resolver has timed out |
| ServiceClients.ResolvedToNothing | include/asionet/Socket.h:80-105 | a call that is resolved to no endpoints ends with success in no run |
| ServiceClients.DirectCallsNeedEndpoints | include/asionet/ServiceClient.h:142-161 | a call that is given its endpoints never resolves, and succeeds only if there are any |
| ServiceClients.TimeoutIsReportedAs | include/asionet/Stream.h:71-80 | a timeout is reported as an abort, except for an unfinished write and for a decoder that rejects an empty buffer |
| ServiceClients.TimeoutInWrite | include/asionet/Stream.h:71-80 | a run from the start to a write whose timer has expired, and which is then reported as a failed operation |
| ServiceClients.CallsEndOnTime | include/asionet/ServiceClient.h:218-224 | with urgent timers, a handler begins no later than start plus max(timeout, 0), and no call is aborted before start plus timeout unless something else closed it |
| ServiceExchanges.ReportHeader | include/asionet/Stream.h:99-129 | the first stage of a read reports what fits the bytes on the wire, whatever the chunks and faults |
| ServiceExchanges.ReportBody | include/asionet/Stream.h:131-155 | the second stage and the decoder report what fits them |
| ServiceExchanges.ResultsMatchInput | include/asionet/ServiceClient.h:191-216 | in every run whose reports fit the bytes of each connection: success only for an input that starts with a fitting frame that decodes, an invalid frame only for a frame that does not fit, a decoding error only from a rejected payload or rejected empty data |
| ServiceExchanges.ReadEndsAsReference | include/asionet/Message.h:138-147 | at every completion that ends a call in a read phase, its handler is told exactly what the message layer makes of the abort, of the failure, or of the reference decoder's result on the input |
| ServiceExchanges.NeverDeliversIff | include/asionet/ServiceClient.h:122-216 | at any moment of such a run, no continuation answers the active call iff what its phase works on is closed or its input does not start with a fitting frame that decodes |
| ServiceServers.ServiceServer.AdvertiseService | include/asionet/ServiceServer.h:62-71 | a loop begins, or the running one is stopped and this one waits for its end |
| ServiceServers.ServiceServer.Cancel | include/asionet/ServiceServer.h:73-76 | the loop is stopped and the waiting one dropped |
| ServiceServers.ServiceServer.CancelOperation | include/asionet/ServiceServer.h:190-194 | stopping clears the running flag and closes the acceptor |
| ServiceServers.ServiceServer.AdvertiseOperation | include/asionet/ServiceServer.h:123-131 | a loop sets the running flag and accepts |
| ServiceServers.ServiceServer.AcceptConnection | include/asionet/ServiceServer.h:133-146 | accepting opens the acceptor if needed and leaves one more accept outstanding |
| ServiceServers.ServiceServer.AcceptHandler | include/asionet/ServiceServer.h:146-156 | a stopped loop ends; a running one hands over a connection iff there is no error and no cancel, and accepts again |
| ServiceServers.OneAccept | include/asionet/ServiceServer.h:123-157 | in every run, at most one accept exists, of the loop that the manager runs, and the acceptor is open exactly while that loop has not been told to stop |
| ServiceServers.HandsOverIff | include/asionet/ServiceServer.h:146-156 | at any moment of any run, an event hands a connection over iff it handles a successful accept of a loop not told to stop, with a clear flag; a running loop then accepts again, after an error too |
| ServiceServers.NothingIsHandledTwice | include/asionet/ServiceServer.h:146-156 | in every run, no more connections are handed over than come in |
| ServiceServers.EveryConnectionIsHandled | include/asionet/ServiceServer.h:133-156 | while a loop runs undisturbed with a clear flag, every connection that comes in is handed over once |
| ServiceServers.RunsManager | include/asionet/ServiceServer.h:62-76 | every run of the server is a run of its manager |
| ServiceServers.LoopBeginsIff | include/asionet/ServiceServer.h:62-71 | an advertised loop begins iff none is active, or the active one ends before the next advertisement or cancel |
| ServiceServers.OldLoopsHandleNothing | include/asionet/ServiceServer.h:146-156 | after cancel or replacement, no earlier loop ever hands over a connection |
| ServiceServers.DeafIffCanceled | include/asionet/ServiceServer.h:151-152 | a server advertised when idle drops all connections iff the cancel flag is set |
| DatagramClients.DatagramClient.Submit | include/asionet/DatagramSender.h:59-75 | an encoding failure is posted; otherwise the operation begins, waits, or replaces the waiting one and closes the socket |
| DatagramClients.DatagramClient.Begin | include/asionet/DatagramReceiver.h:88-120 | the socket is opened if it is closed, and the operation starts under its timeout |
| DatagramClients.DatagramClient.Cancel | include/asionet/DatagramReceiver.h:64-67 | pending operations are dropped and the socket is closed |
| DatagramClients.DatagramClient.CancelOperation | include/asionet/DatagramReceiver.h:106-109 | the socket is closed |
| DatagramClients.DatagramClient.CompletionHandler | include/asionet/DatagramReceiver.h:94-104 | a canceled receive ends silently; otherwise the operation ends and its handler is called |
| DatagramClients.CallsAreConserved | include/asionet/DatagramSender.h:59-126 | in every run, each call is in exactly one account; operations end once each, in submission order, and none that has ended is active, pending or dropped |
| DatagramClients.EncoderDecides | include/asionet/DatagramSender.h:59-75 | in every run, posted and reported errors are the messages that the encoder rejected, and the timeouts those of the accepted ones, in order |
| DatagramClients.RejectedMessagesTouchNothing | include/asionet/DatagramSender.h:64-70 | every run goes in the same way without the rejected messages |
| DatagramClients.RunsManager | include/asionet/DatagramSender.h:59-80 | every run is a run of the manager |
| DatagramClients.OperationBeginsIff | include/asionet/DatagramReceiver.h:57-67 | an operation begins iff nothing is active when it is submitted, or the queue reaches it before a cancel (sender), or a completion comes next (receiver) |
| DatagramClients.DeadlineIsItsOwn | include/asionet/Closeable.h:96-111 | every operation, until it is reported, has a timer that expires when it began plus the timeout given for it |
| DatagramClients.SendsAreReported | include/asionet/Socket.h:157-166 | at every completion of every run of a sender: exactly when the handler is told of success, an abort or a failure, for good |
| DatagramClients.ReceivesAreReported | include/asionet/DatagramReceiver.h:94-104 | at every completion of every run of a receiver: exactly when the handler is not called, and which of five errors it is told of otherwise, for good |
| DatagramClients.StaleTimersAreHarmless | include/asionet/Closeable.h:96-128 | in every run, timers of ended operations cannot close the socket under the next one |
| DatagramClients.NeverSucceedsIffDisturbed | include/asionet/DatagramReceiver.h:57-109 | at any moment while an operation is active, no continuation ends it with success iff it was disturbed by a cancel, a replacement (receiver) or its own timer |
| DatagramClients.SucceedsUnlessDisturbed | include/asionet/DatagramReceiver.h:88-104 | from its beginning until it is reported, an operation can succeed iff no event has disturbed it, and it is not a receive begun on an idle receiver whose cancel flag is set |
| DatagramClients.DisturbedEndsAsFated | include/asionet/DatagramReceiver.h:94-104 | over all continuations, a disturbed send ends exactly as aborted or failed, a disturbed receive as aborted, undecodable or silent, and always silent after a cancel |
| DatagramClients.SupersededReceiveFails | include/asionet/DatagramReceiver.h:57-62 | in every run, a receive whose replacement waits never succeeds |
| DatagramClients.CanceledReceivesStaySilent | include/asionet/DatagramReceiver.h:96-103 | after cancel, no handler of an earlier receive is ever called |
| DatagramClients.ReceiveIsLostIff | include/asionet/DatagramReceiver.h:96-103 | without further calls, a receive started on an idle receiver stays silent in every run iff the cancel flag is set |
| DatagramExchanges.ReportReceive | include/asionet/Socket.h:189-205 | the handler of a received datagram reports what fits its bytes, and tells the error that the receiver passes on |
| DatagramExchanges.ReportSend | include/asionet/Socket.h:157-166 | the handler of a sent datagram reports whether the whole frame was transferred, and tells the error that the sender passes on |
| DatagramExchanges.ReceiveMatchesDatagram | include/asionet/DatagramReceiver.h:88-104 | at every completion of every run: success iff nothing canceled, closed or failed the receive and the bytes start with a frame that decodes; an invalid frame iff they hold none |
| DatagramExchanges.DatagramDelivers | include/asionet/Message.h:150-206 | from end to end: the datagram sent for a payload is reported as success iff the operation is undisturbed, the frame fits the buffer and the payload decodes |
| BigEndian.ToBigEndian | include/asionet/Utils.h:36-45 | the loop writes the low bytes, most significant first, and nothing else |
| BigEndian.FromBigEndian | include/asionet/Utils.h:47-58 | the loop computes the big-endian value, without wrapping around within the width |
| BigEndian.DecodeEncode | include/asionet/Utils.h:36-58 | for every width n, decoding an encoded value gives it modulo 256^n |
| BigEndian.EncodeDecode | include/asionet/Utils.h:36-58 | for every width, encoding a decoded byte string gives the byte string |
| BigEndian.EncodeAt | include/asionet/Utils.h:40-44 | each byte is the shifted and masked value |
| Frames.Frame.constructor | include/asionet/Frame.h:41-45 | the header holds the length, narrowed to 32 bits |
| Frames.Frame.GetBuffers | include/asionet/Frame.h:55-60 | header and data make up the frame |
| Frames.Frame.GetSize | include/asionet/Frame.h:62-65 | the size of the frame |
| Frames.FrameParses | include/asionet/Frame.h:41-60 | parsing what follows a header finds the payload, up to the truncation |
| Frames.StartsWithFrameIff | include/asionet/Frame.h:41-60 | bytes start with the frame of a payload iff they hold as many bytes as the header says and these are the payload |
| Streams.AsyncWrite | include/asionet/Stream.h:57-82 | with any fault: the transferred part of the frame is on the wire, success and abort both mean all of it, and each error is told exactly when it should |
| Streams.NumDataBytesFromBuffer | include/asionet/Stream.h:44-49 | the length in the first four bytes of the buffer |
| Streams.AsyncRead | include/asionet/Stream.h:84-158 | with any faults and whatever the buffer holds: as much leaves the buffer as was read into it, an error that is told is passed on, and otherwise the result is the reference decoder's on held and new bytes, for every chunking |
| Streams.ReadBody | include/asionet/Stream.h:131-155 | the second stage, on every path |
| Streams.ReadSucceedsIff | include/asionet/Stream.h:99-157 | a read succeeds with a payload iff the stream starts with its frame and the frame fits; an oversize frame is invalid |
| Streams.RoundTripIff | include/asionet/Stream.h:57-158 | a written payload is read back iff it is shorter than 2^32 bytes and fits; otherwise what is left of it after the truncation arrives, or an invalid frame if that does not fit |
| Streams.ReadAll | include/asionet/Stream.h:84-158 | reading frames sent back to back delivers exactly the payloads in order, ending at the frame boundary with an empty buffer |
| Streams.Exchange | include/asionet/Stream.h:57-158 | writing and then reading any list of payloads that fit is the identity |
| Datagrams.NumDataBytesFromBuffer | include/asionet/Socket.h:40-50 | the parser accepts iff the received bytes are a frame and anything behind it, and its window is within them |
| Datagrams.HoldsFrameIff | include/asionet/Socket.h:40-50 | some payload's frame is at the front iff the header's length is within the bytes |
| Datagrams.PayloadIsUnique | include/asionet/Socket.h:40-50 | the payload is determined by the bytes |
| Datagrams.ReceiveHandler | include/asionet/Socket.h:189-205 | success, and the payload, iff the socket is open, asio reports no error and a frame was received; an invalid frame otherwise |
| Datagrams.DatagramArrivesIff | include/asionet/Socket.h:170-208 | a framed payload is received iff it fits the buffer; a truncated one is always rejected |
| Datagrams.SendHandler | include/asionet/Socket.h:157-166 | an incomplete transfer is a failed operation, even after an abort |
| Messages.AsyncSend | include/asionet/Message.h:108-128 | an encoder that throws sends nothing; otherwise the frame of the encoding is written, and success and abort are told exactly when they should |
| Messages.AsyncReceive | include/asionet/Message.h:130-148 | whatever the buffer holds, the decoder's outcome on what was read, for every chunking and every error; success means that held and new bytes began with the frame of an encoding, and exactly that is gone |
| Messages.ReceiveSucceedsIff | include/asionet/Message.h:130-148 | a message is received iff the stream starts with a frame that fits and decodes to it; a decoding error is told iff the decoder rejects what it is given, and a transport error iff it accepts the empty buffer |
| Messages.MessageArrives | include/asionet/Message.h:108-148 | a sent message arrives iff its encoding, truncated to less than 2^32 bytes, fits the receiver's buffer and decodes to it |
| WaitExpressions.OperatorsAreMonotone | include/asionet/Wait.h:91-129 | every tree of the eight operators means its formula and is monotone |
| Waiters.StepKeepsInv | include/asionet/Wait.h:75-89 | every step of every thread keeps the mutex exclusive, no flag set between a failed test and blocking, and a notifier on its way for every blocked waiter whose monotone expression holds |
| Waiters.NonMonotoneLosesWakeup | include/asionet/Wait.h:85-89 | for every expression that more readiness can falsify, some run leaves its waiter asleep although it holds |
| Waiters.NoMonotoneWakeupIsLost | include/asionet/Wait.h:75-89 | in every run, a waiter blocked although its monotone expression holds is about to be notified |
| Waiters.NoLostWakeupIffMonotone | src/Wait.cpp:56-63 | waiters for an expression never lose a wakeup in any run iff the expression is monotone |
| Waiters.ReturnsIff | src/Wait.cpp:56-63 | at any moment of any run, an event lets a waiter return iff it is its own test under the mutex, and the expression holds or the context is stopped |
| Waiters.ReturnedPassedTest | src/Wait.cpp:56-63 | in every run, each waiter that has returned passed such a test of its own expression on the flags of that moment |
| Waiters.ReadyIffLastWritten | include/asionet/Wait.h:75-89 | in every run, a waitable is ready iff the last write to it was one of setReady |
| Waiters.SetterWroteAndNotified | include/asionet/Wait.h:75-81 | in every run, a setReady that has returned has set its flag under the mutex and notified all waiters afterwards |
| Waiters.ContextWaiter.Await | src/Wait.cpp:42-55 | inside the context, exactly the shortest prefix of the handlers that makes the expression true, or stops the context, is run; without one, all are run and the wait blocks |

## Left out

- Sockets, name resolution, the asio scheduler and threads themselves: they appear as completions, chunks, errors and
  interleavings in any order.
- Memory lifetime, shared pointers and dangling captures; the captured state of a handler is a value or an object that
  its owner keeps.
- Exceptions thrown while an operation is started, such as a failed bind.
- `Resolver`, `Worker`, `WorkerPool`, `WorkSerializer`, `Monitor`, `Context` and `Time`: thin wrappers; `Resolver`
  would repeat the datagram sender.
- The connection handling behind `handleService`: it is one receive and one send on a socket of its own.
- Liveness of a replaced periodic timeout and of waiters after `context.stop()`: the code does not provide it.
- ServiceClients.ServiceClient.CompletionHandler: asio's operations and the timers of a call are kept as values, so aliasing of the
  socket between closures shows only as the target that timers share.
- DatagramClients.DatagramClient.Submit: sender and receiver are one class, told apart by the kind of their pending container.
- ServiceExchanges.ResultsMatchInput: the input of a call is the response's bytes; what the server makes of the request is not part
  of this model.
- Notifiers.NotifierDiscipline: that handlers notify at most once is what the clients do in the single step of their
  last handler; the notifier objects are not threaded through the client models.
