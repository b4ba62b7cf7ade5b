/**
 `DatagramSender` and `DatagramReceiver`: one timed operation at a time on one socket that is opened when needed.

 Both run on the same machine. The sender queues its operations and always calls their handlers; the receiver replaces
 a waiting operation, closes the socket under the active one, and keeps silent about an operation that was canceled.
 */
module DatagramClients {
  import opened Common
  import TO = TimedOperations
  import M = OperationManager

  const SOCKET: TO.Target := 0

  /**
   What asio and the data bring: an error, a complete transfer (for a receiver: a whole frame), and a decoder that
   accepts what it is given.
   */
  datatype Outcome = Outcome(failed: bool, full: bool, decodes: bool)

  /** An operation has ended, and its handler was called with the error, or not at all. */
  datatype Entry = Entry(op: M.OpId, called: Option<Error>)

  datatype State = State(
    mgr: M.State,
    timed: TO.State,
    timeouts: seq<int>,
    calls: nat,
    posted: nat,
    reported: nat,
    log: seq<Entry>)

  /** `encodes` is about the sender; a receiver has nothing to encode. */
  datatype Event =
    | Submit(encodes: bool, timeout: int, now: int)
    | RunPost
    | Cancel
    | Elapse(index: nat, now: int)
    | Timeout(index: nat, now: int)
    | Complete(outcome: Outcome, now: int)

  function Init(pending: M.Pending): State {
    State(M.Init(pending), TO.State({}, []), [], 0, 0, 0, [])
  }

  function TimeoutOf(s: State, op: M.OpId): int {
    if op < |s.timeouts| then s.timeouts[op] else 0
  }

  function CloseSocket(s: State): State {
    s.(timed := s.timed.(open := s.timed.open - {SOCKET}))
  }

  /** `setupSocket`, and the asynchronous operation with its timer. */
  function BeginOperation(s: State, op: M.OpId, now: int): State {
    var ready := s.timed.(open := s.timed.open + {SOCKET});
    s.(timed := TO.Step(ready, TO.Begin(SOCKET, TimeoutOf(s, op), now)))
  }

  function SubmitStep(s: State, encodes: bool, timeout: int, now: int): State {
    var t := s.(calls := s.calls + 1);
    if !encodes then t.(posted := s.posted + 1)
    else
      var u := t.(timeouts := s.timeouts + [timeout], mgr := M.StartStep(s.mgr));
      if !s.mgr.running then BeginOperation(u, s.mgr.submitted, now)
      else if s.mgr.pending.ShouldCancel() then CloseSocket(u)
      else u
  }

  function CancelStep(s: State): State {
    CloseSocket(s.(mgr := M.CancelStep(s.mgr)))
  }

  function Current(s: State): M.OpId {
    if s.mgr.started == [] then 0 else s.mgr.started[|s.mgr.started| - 1]
  }

  /** The notifier calls `finishOperation`; `called` tells what became of the user handler. */
  function EndOperation(s: State, called: Option<Error>, now: int): State {
    var t := s.(mgr := M.FinishStep(s.mgr), log := s.log + [Entry(Current(s), called)]);
    if s.mgr.pending.HasPendingOperation() then BeginOperation(t, s.mgr.pending.GetPendingOperation(), now) else t
  }

  /** An incomplete transfer hides any other error of a send. */
  function SendError(error: Error, o: Outcome): Error {
    if !o.full then FailedOperation else error
  }

  /** A decoder that rejects what comes with an error hides that error. */
  function ReceiveError(error: Error, o: Outcome): Error {
    if !o.decodes then Decoding else if error == Success && !o.full then InvalidFrame else error
  }

  /** What the completion handler, told of `error`, calls the user handler with. */
  function Report(mgr: M.State, error: Error, o: Outcome): Option<Error> {
    if mgr.pending.Queue? then Some(SendError(error, o))
    else if mgr.canceled then None
    else Some(ReceiveError(error, o))
  }

  predicate Completable(s: State) {
    var operations := s.timed.operations;
    operations != [] && operations[|operations| - 1].done == None
  }

  predicate Possible(s: State, e: Event) {
    match e
    case Submit(encodes, _, _) => s.mgr.pending.Queue? || encodes
    case RunPost => s.posted > 0
    case Cancel => true
    case Elapse(i, now) => TO.Possible(s.timed, TO.Elapse(i, now))
    case Timeout(i, now) => TO.Possible(s.timed, TO.Timeout(i, now))
    case Complete(_, _) => Completable(s)
  }

  function CompleteStep(s: State, o: Outcome, now: int): State
    requires Completable(s)
  {
    var last := |s.timed.operations| - 1;
    var timed := TO.Step(s.timed, TO.Complete(last, o.failed, now));
    var error := TO.Classify(s.timed.operations[last].target in s.timed.open, o.failed);
    EndOperation(s.(timed := timed), Report(s.mgr, error, o), now)
  }

  function Step(s: State, e: Event): State
    requires Possible(s, e)
  {
    match e
    case Submit(encodes, timeout, now) => SubmitStep(s, encodes, timeout, now)
    case RunPost => s.(posted := s.posted - 1, reported := s.reported + 1)
    case Cancel => CancelStep(s)
    case Elapse(i, now) => s.(timed := TO.Step(s.timed, TO.Elapse(i, now)))
    case Timeout(i, now) => s.(timed := TO.Step(s.timed, TO.Timeout(i, now)))
    case Complete(o, now) => CompleteStep(s, o, now)
  }

  ghost predicate Runs(s: State, events: seq<Event>, t: State)
    decreases |events|
  {
    if events == [] then s == t
    else Possible(s, events[0]) && Runs(Step(s, events[0]), events[1..], t)
  }

  // ---------- The invariant ----------

  ghost predicate Inv(s: State) {
    M.Inv(s.mgr) && OneOperation(s) && Logged(s)
  }

  /** Only the manager's active operation has not completed; while its replacement waits, the socket is closed. */
  ghost predicate OneOperation(s: State) {
    var n := |s.timed.operations|;
    && TO.Inv(s.timed)
    && (forall i :: 0 <= i < n ==> s.timed.operations[i].target == SOCKET)
    && (forall i :: 0 <= i < n - 1 ==> s.timed.operations[i].done.Some?)
    && (s.mgr.running <==> Completable(s))
    && (s.mgr.pending.Replacer? && s.mgr.pending.HasPendingOperation() ==> SOCKET !in s.timed.open)
  }

  /** Every call is somewhere, and every finished operation has one entry in the log, in order. */
  ghost predicate Logged(s: State) {
    && |s.timeouts| == s.mgr.submitted
    && s.calls == s.posted + s.reported + s.mgr.submitted
    && |s.log| == |s.mgr.finished|
    && (forall i :: 0 <= i < |s.log| ==> s.log[i].op == s.mgr.finished[i])
    && (s.mgr.pending.Queue? ==> forall i :: 0 <= i < |s.log| ==> s.log[i].called.Some?)
  }

  lemma EndKeepsLogged(s: State, called: Option<Error>, now: int)
    requires M.Inv(s.mgr) && s.mgr.running && Logged(s) && (s.mgr.pending.Queue? ==> called.Some?)
    ensures Logged(EndOperation(s, called, now))
  {
    assert M.FinishStep(s.mgr).finished == s.mgr.finished + [Current(s)];
  }

  lemma EndKeepsOneOperation(s: State, called: Option<Error>, now: int)
    requires TO.Inv(s.timed) && s.mgr.running
    requires forall i :: 0 <= i < |s.timed.operations| ==>
      s.timed.operations[i].target == SOCKET && s.timed.operations[i].done.Some?
    ensures OneOperation(EndOperation(s, called, now))
  {
  }

  lemma CompleteKeepsOneOperation(s: State, o: Outcome, now: int)
    requires OneOperation(s) && Completable(s)
    ensures OneOperation(CompleteStep(s, o, now))
  {
    var last := |s.timed.operations| - 1;
    var e := TO.Complete(last, o.failed, now);
    TO.StepKeepsInv(s.timed, e);
    var error := TO.Classify(s.timed.operations[last].target in s.timed.open, o.failed);
    var t, called := s.(timed := TO.Step(s.timed, e)), Report(s.mgr, error, o);
    assert CompleteStep(s, o, now) == EndOperation(t, called, now);
    EndKeepsOneOperation(t, called, now);
  }

  lemma CompleteKeepsInv(s: State, o: Outcome, now: int)
    requires Inv(s) && Completable(s)
    ensures Inv(CompleteStep(s, o, now))
  {
    var last := |s.timed.operations| - 1;
    var error := TO.Classify(s.timed.operations[last].target in s.timed.open, o.failed);
    CompleteKeepsOneOperation(s, o, now);
    M.FinishPreservesInv(s.mgr);
    EndKeepsLogged(s.(timed := TO.Step(s.timed, TO.Complete(last, o.failed, now))), Report(s.mgr, error, o), now);
  }

  lemma SubmitKeepsOneOperation(s: State, encodes: bool, timeout: int, now: int)
    requires OneOperation(s) && (!s.mgr.running ==> s.mgr.pending.Contents() == [])
    ensures OneOperation(SubmitStep(s, encodes, timeout, now))
  {
  }

  lemma SubmitKeepsInv(s: State, encodes: bool, timeout: int, now: int)
    requires Inv(s)
    ensures Inv(SubmitStep(s, encodes, timeout, now))
  {
    M.StartPreservesInv(s.mgr);
    SubmitKeepsOneOperation(s, encodes, timeout, now);
  }

  lemma TimerKeepsOneOperation(s: State, e: Event)
    requires OneOperation(s) && Possible(s, e) && (e.Elapse? || e.Timeout?)
    ensures OneOperation(Step(s, e)) && Step(s, e) == s.(timed := Step(s, e).timed)
    ensures e.index < |s.timed.operations| - 1 || !s.mgr.running ==> Step(s, e).timed.open == s.timed.open
  {
    var inner := if e.Elapse? then TO.Elapse(e.index, e.now) else TO.Timeout(e.index, e.now);
    TO.StepKeepsInv(s.timed, inner);
    assert TO.Sound(s.timed.operations[e.index]);
  }

  lemma StepKeepsInv(s: State, e: Event)
    requires Inv(s) && Possible(s, e)
    ensures Inv(Step(s, e)) && Step(s, e).mgr.pending.Queue? == s.mgr.pending.Queue?
  {
    match e
    case Submit(encodes, timeout, now) => SubmitKeepsInv(s, encodes, timeout, now);
    case RunPost =>
    case Cancel => M.CancelPreservesInv(s.mgr);
    case Elapse(_, _) => TimerKeepsOneOperation(s, e);
    case Timeout(_, _) => TimerKeepsOneOperation(s, e);
    case Complete(o, now) => CompleteKeepsInv(s, o, now);
  }

  lemma {:induction false} RunKeepsInv(s: State, events: seq<Event>, t: State)
    requires Inv(s) && Runs(s, events, t)
    ensures Inv(t) && t.mgr.pending.Queue? == s.mgr.pending.Queue?
    decreases |events|
  {
    if events == [] {
    } else {
      StepKeepsInv(s, events[0]);
      RunKeepsInv(Step(s, events[0]), events[1..], t);
    }
  }

  lemma InitInv(pending: M.Pending)
    ensures Inv(Init(pending)) && Init(pending).mgr.pending.Queue? == pending.Queue?
  {
    M.InitInv(pending);
  }

  lemma ReachableInv(pending: M.Pending, events: seq<Event>, t: State)
    requires Runs(Init(pending), events, t)
    ensures Inv(t) && t.mgr.pending.Queue? == pending.Queue?
  {
    InitInv(pending);
    RunKeepsInv(Init(pending), events, t);
  }

  // ---------- Main results ----------

  /**
   In every run of a sender or a receiver, each call made is in exactly one account: its encoding error is posted or
   reported, or it has ended, or it is active, pending or dropped. Operations end once each, in submission order, and a
   sender calls the handler of each one that ends. What has ended is neither active nor pending nor dropped.
   */
  lemma CallsAreConserved(pending: M.Pending, events: seq<Event>, t: State)
    requires Runs(Init(pending), events, t)
    ensures t.calls == t.posted + t.reported + |t.log| + |M.Active(t.mgr)|
                       + |t.mgr.pending.Contents()| + |t.mgr.dropped|
    ensures forall i, j :: 0 <= i < j < |t.log| ==> t.log[i].op < t.log[j].op
    ensures t.mgr.running ==> forall i :: 0 <= i < |t.log| ==> t.log[i].op < Current(t)
    ensures forall i :: 0 <= i < |t.log| ==> t.log[i].op !in t.mgr.dropped && t.log[i].op !in t.mgr.pending.Contents()
    ensures pending.Queue? ==> forall i :: 0 <= i < |t.log| ==> t.log[i].called.Some?
  {
    ReachableInv(pending, events, t);
    LogInOrder(t);
    forall i | 0 <= i < |t.log| ensures t.log[i].op !in t.mgr.dropped && t.log[i].op !in t.mgr.pending.Contents() {
      EndedIsSettled(t, i);
    }
  }

  lemma EndedIsSettled(s: State, i: nat)
    requires M.Inv(s.mgr) && Logged(s) && i < |s.log|
    ensures s.log[i].op !in s.mgr.dropped && s.log[i].op !in s.mgr.pending.Contents()
  {
    assert s.log[i].op == s.mgr.started[i] < M.Settled(s.mgr);
    assert s.mgr.started[i] in s.mgr.started;
    M.WaitingOperation(s.mgr, s.log[i].op);
  }

  lemma LogInOrder(s: State)
    requires M.Inv(s.mgr) && Logged(s)
    ensures forall i, j :: 0 <= i < j < |s.log| ==> s.log[i].op < s.log[j].op
    ensures s.mgr.running ==> forall i :: 0 <= i < |s.log| ==> s.log[i].op < Current(s)
    ensures |s.log| + |M.Active(s.mgr)| + |s.mgr.pending.Contents()| + |s.mgr.dropped| == s.mgr.submitted
  {
    assert s.mgr.started == s.mgr.finished + M.Active(s.mgr);
    forall i | 0 <= i < |s.log| ensures s.log[i].op == s.mgr.started[i] {
    }
  }

  /** The socket outlives an operation, but the timers of ended operations cannot close it under the next one. */
  lemma StaleTimersAreHarmless(pending: M.Pending, events: seq<Event>, s: State, e: Event)
    requires Runs(Init(pending), events, s) && Possible(s, e) && (e.Elapse? || e.Timeout?)
    requires e.index < |s.timed.operations| - 1 || !s.mgr.running
    ensures Step(s, e).timed.open == s.timed.open && Step(s, e).log == s.log
  {
    ReachableInv(pending, events, s);
    TimerKeepsOneOperation(s, e);
  }

  /** A receive that is superseded by another one never succeeds, whatever asio reports for it. */
  lemma SupersededReceiveFails(events: seq<Event>, s: State, o: Outcome, now: int)
    requires Runs(Init(M.Replacer(None)), events, s) && s.mgr.running && s.mgr.pending.HasPendingOperation()
    ensures Completable(s)
    ensures var log := CompleteStep(s, o, now).log;
      && |log| == |s.log| + 1 && log[|s.log|].op == Current(s)
      && log[|s.log|].called != Some(Success)
  {
    ReachableInv(M.Replacer(None), events, s);
  }

  // ---------- Which operations are submitted, and which begin ----------

  /** The timeouts of the operations that the encoder accepts, in order. */
  function Timeouts(events: seq<Event>): seq<int> {
    if events == [] then []
    else (if events[0].Submit? && events[0].encodes then [events[0].timeout] else []) + Timeouts(events[1..])
  }

  /** The number of messages that the encoder rejects. */
  function Rejected(events: seq<Event>): nat {
    if events == [] then 0 else (if events[0].Submit? && !events[0].encodes then 1 else 0) + Rejected(events[1..])
  }

  lemma StepCollects(s: State, e: Event)
    requires Possible(s, e)
    ensures var t := Step(s, e);
      && t.timeouts == s.timeouts + Timeouts([e])
      && t.posted + t.reported == s.posted + s.reported + Rejected([e])
  {
    assert [e][1..] == [];
  }

  lemma FirstCollected(events: seq<Event>)
    requires events != []
    ensures Timeouts(events) == Timeouts([events[0]]) + Timeouts(events[1..])
    ensures Rejected(events) == Rejected([events[0]]) + Rejected(events[1..])
  {
    assert [events[0]][1..] == [];
  }

  lemma {:induction false} RunsCollectTimeouts(s: State, events: seq<Event>, t: State)
    requires Runs(s, events, t)
    ensures t.timeouts == s.timeouts + Timeouts(events)
    ensures t.posted + t.reported == s.posted + s.reported + Rejected(events)
    decreases |events|
  {
    if events == [] {
    } else {
      StepCollects(s, events[0]);
      FirstCollected(events);
      RunsCollectTimeouts(Step(s, events[0]), events[1..], t);
      assert t.timeouts == s.timeouts + Timeouts(events) by {
        ConcatAssociates(s.timeouts, Timeouts([events[0]]), Timeouts(events[1..]));
      }
    }
  }

  /**
   In every run, the encoder decides: each message that it rejects has its error posted or reported, and each one that
   it accepts is submitted to the manager with its own timeout.
   */
  lemma EncoderDecides(pending: M.Pending, events: seq<Event>, t: State)
    requires Runs(Init(pending), events, t)
    ensures t.posted + t.reported == Rejected(events)
    ensures t.timeouts == Timeouts(events) && t.mgr.submitted == |Timeouts(events)|
  {
    ReachableInv(pending, events, t);
    RunsCollectTimeouts(Init(pending), events, t);
  }

  /** The state without the account of the rejected messages. */
  function Accepted(s: State): State {
    s.(calls := s.mgr.submitted, posted := 0, reported := 0)
  }

  /** The events that are not about rejected messages. */
  function WithoutRejected(events: seq<Event>): seq<Event> {
    if events == [] then []
    else if events[0].RunPost? || (events[0].Submit? && !events[0].encodes) then WithoutRejected(events[1..])
    else [events[0]] + WithoutRejected(events[1..])
  }

  lemma AcceptedSteps(s: State, e: Event)
    requires Possible(s, e)
    ensures if e.RunPost? || (e.Submit? && !e.encodes) then Accepted(Step(s, e)) == Accepted(s)
            else Possible(Accepted(s), e) && Step(Accepted(s), e) == Accepted(Step(s, e))
  {
  }

  /** A run goes in the same way without the messages that the encoder rejects: they touch nothing else. */
  lemma {:induction false} RejectedMessagesTouchNothing(s: State, events: seq<Event>, t: State)
    requires Runs(s, events, t)
    ensures Runs(Accepted(s), WithoutRejected(events), Accepted(t))
    decreases |events|
  {
    if events == [] {
    } else {
      AcceptedSteps(s, events[0]);
      RejectedMessagesTouchNothing(Step(s, events[0]), events[1..], t);
      assert WithoutRejected(events) != WithoutRejected(events[1..]) ==>
        WithoutRejected(events)[1..] == WithoutRejected(events[1..]);
    }
  }

  /** The calls of the manager's methods that an event makes. */
  function ManagerCalls(e: Event): seq<M.Event> {
    match e
    case Submit(encodes, _, _) => if encodes then [M.Start] else []
    case Cancel => [M.Cancel]
    case Complete(_, _) => [M.Finish]
    case _ => []
  }

  function RunCalls(events: seq<Event>): seq<M.Event> {
    if events == [] then [] else ManagerCalls(events[0]) + RunCalls(events[1..])
  }

  lemma StepCallsManager(s: State, e: Event)
    requires Possible(s, e)
    ensures Step(s, e).mgr == M.Run(s.mgr, ManagerCalls(e))
  {
    var calls := ManagerCalls(e);
    if calls != [] {
      assert calls[1..] == [];
      assert M.Run(s.mgr, calls) == M.Apply(s.mgr, calls[0]);
    }
  }

  /** Every run of a sender or a receiver is a run of its manager. */
  lemma {:induction false} RunsManager(s: State, events: seq<Event>, t: State)
    requires Runs(s, events, t)
    ensures t.mgr == M.Run(s.mgr, RunCalls(events))
    decreases |events|
  {
    if events == [] {
    } else {
      StepCallsManager(s, events[0]);
      RunsManager(Step(s, events[0]), events[1..], t);
      M.RunConcat(s.mgr, ManagerCalls(events[0]), RunCalls(events[1..]));
    }
  }

  /**
   An operation that is submitted at any moment of any run begins if and only if nothing is active, or what follows lets
   it: for a sender, more completions than there are operations waiting before it, before the next cancel; for a
   receiver, a completion before the next submission or cancel.
   */
  lemma OperationBeginsIff(pending: M.Pending, before: seq<Event>, s: State, timeout: int, now: int,
                           events: seq<Event>, t: State)
    requires Runs(Init(pending), before, s) && Runs(SubmitStep(s, true, timeout, now), events, t)
    ensures var calls := RunCalls(events);
      s.mgr.submitted in t.mgr.started
      <==> || !s.mgr.running
           || (if pending.Queue? then |s.mgr.pending.Contents()| < M.FinishesBeforeCancel(calls)
               else calls != [] && calls[0] == M.Finish)
  {
    ReachableInv(pending, before, s);
    RunsManager(SubmitStep(s, true, timeout, now), events, t);
    M.SubmissionStartsIff(s.mgr, RunCalls(events));
  }

  // ---------- Deadlines ----------

  /** The operation that is active at the beginning of a run is still active at its end. */
  predicate Incomplete(events: seq<Event>) {
    forall e :: e in events ==> !e.Complete?
  }

  function ExpiryOf(s: State): int
    requires s.timed.operations != []
  {
    s.timed.operations[|s.timed.operations| - 1].timer.expiry
  }

  lemma BeginningArms(s: State, e: Event)
    requires Inv(s) && Possible(s, e) && Step(s, e).mgr.started != s.mgr.started
    ensures e.Submit? || e.Complete?
    ensures var t := Step(s, e);
      t.mgr.running && t.timed.operations != [] && Current(t) < |t.timeouts|
      && ExpiryOf(t) == e.now + t.timeouts[Current(t)]
  {
    if e.Complete? && s.mgr.pending.HasPendingOperation() {
      M.WaitingOperation(s.mgr, s.mgr.pending.GetPendingOperation());
    }
  }

  lemma StepKeepsExpiry(s: State, e: Event)
    requires Inv(s) && s.mgr.running && Possible(s, e) && !e.Complete?
    ensures Step(s, e).timed.operations != [] && ExpiryOf(Step(s, e)) == ExpiryOf(s)
    ensures s.timeouts <= Step(s, e).timeouts && Step(s, e).mgr.running && Current(Step(s, e)) == Current(s)
  {
  }

  lemma {:induction false} RunKeepsExpiry(s: State, events: seq<Event>, t: State)
    requires Inv(s) && s.mgr.running && Runs(s, events, t) && Incomplete(events)
    ensures t.timed.operations != [] && ExpiryOf(t) == ExpiryOf(s)
    ensures s.timeouts <= t.timeouts && Current(t) == Current(s)
    decreases |events|
  {
    if events == [] {
    } else {
      assert events[0] in events;
      assert forall e :: e in events[1..] ==> e in events;
      StepKeepsInv(s, events[0]);
      StepKeepsExpiry(s, events[0]);
      RunKeepsExpiry(Step(s, events[0]), events[1..], t);
    }
  }

  /** Every operation, until it is reported, has a timer that expires when it began plus the timeout given for it. */
  lemma DeadlineIsItsOwn(pending: M.Pending, before: seq<Event>, s: State, e: Event, events: seq<Event>, t: State)
    requires Runs(Init(pending), before, s) && Possible(s, e) && Step(s, e).mgr.started != s.mgr.started
    requires Runs(Step(s, e), events, t) && Incomplete(events)
    ensures (e.Submit? || e.Complete?) && t.timed.operations != [] && Current(t) < |t.timeouts|
    ensures ExpiryOf(t) == e.now + t.timeouts[Current(t)]
  {
    ReachableInv(pending, before, s);
    BeginningArms(s, e);
    StepKeepsInv(s, e);
    RunKeepsExpiry(Step(s, e), events, t);
  }

  // ---------- What each completion reports ----------

  lemma StepGrowsLog(s: State, e: Event)
    requires Possible(s, e)
    ensures s.log <= Step(s, e).log
  {
  }

  lemma {:induction false} LogGrows(s: State, events: seq<Event>, t: State)
    requires Runs(s, events, t)
    ensures s.log <= t.log
    decreases |events|
  {
    if events == [] {
    } else {
      StepGrowsLog(s, events[0]);
      LogGrows(Step(s, events[0]), events[1..], t);
    }
  }

  /**
   At every completion of every run of a sender, the handler is told, for good: of success if and only if the socket is
   open and the whole frame was sent without an error; of an abort only if the whole frame was sent; of a failure else.
   */
  lemma SendsAreReported(before: seq<Event>, s: State, o: Outcome, now: int, after: seq<Event>, t: State)
    requires Runs(Init(M.Queue([])), before, s) && Completable(s) && Runs(CompleteStep(s, o, now), after, t)
    ensures |s.log| < |t.log| && t.log[|s.log|].op == Current(s)
    ensures var called, isOpen := t.log[|s.log|].called, SOCKET in s.timed.open;
      && (called == Some(Success) <==> isOpen && !o.failed && o.full)
      && (called == Some(Aborted) <==> !isOpen && o.full)
      && (called == Some(FailedOperation) <==> !o.full || (isOpen && o.failed))
  {
    ReachableInv(M.Queue([]), before, s);
    LogGrows(CompleteStep(s, o, now), after, t);
  }

  /**
   At every completion of every run of a receiver, the handler is not called if and only if the cancel flag is set; else
   it is told, for good: of a decoding error if and only if the decoder rejects what it is given, and otherwise of
   success, an invalid frame, a failure or an abort, as the socket, asio and the frame say.
   */
  lemma ReceivesAreReported(before: seq<Event>, s: State, o: Outcome, now: int, after: seq<Event>, t: State)
    requires Runs(Init(M.Replacer(None)), before, s) && Completable(s) && Runs(CompleteStep(s, o, now), after, t)
    ensures |s.log| < |t.log| && t.log[|s.log|].op == Current(s)
    ensures var called, isOpen := t.log[|s.log|].called, SOCKET in s.timed.open;
      var decoded := !s.mgr.canceled && o.decodes;
      && (called == None <==> s.mgr.canceled)
      && (called == Some(Decoding) <==> !s.mgr.canceled && !o.decodes)
      && (called == Some(Success) <==> decoded && isOpen && !o.failed && o.full)
      && (called == Some(InvalidFrame) <==> decoded && isOpen && !o.failed && !o.full)
      && (called == Some(FailedOperation) <==> decoded && isOpen && o.failed)
      && (called == Some(Aborted) <==> decoded && !isOpen)
  {
    ReachableInv(M.Replacer(None), before, s);
    LogGrows(CompleteStep(s, o, now), after, t);
  }

  // ---------- Operations that cannot succeed any more ----------

  /** The event takes the socket away from the active operation: a cancel, a replacement, or its own timer. */
  predicate Disturbs(s: State, e: Event)
    requires Possible(s, e)
  {
    match e
    case Cancel => true
    case Submit(_, _, _) => s.mgr.pending.Replacer?
    case Timeout(i, _) => i == |s.timed.operations| - 1 && TO.Fires(s.timed.operations[i])
    case _ => false
  }

  /** Some event of a run from `s` disturbs. */
  ghost predicate Disturbing(s: State, events: seq<Event>)
    decreases |events|
  {
    events != [] && Possible(s, events[0])
    && (Disturbs(s, events[0]) || Disturbing(Step(s, events[0]), events[1..]))
  }

  /** The active operation has lost the socket, or it is a receive and will stay silent. */
  predicate Disturbed(s: State) {
    SOCKET !in s.timed.open || (s.mgr.pending.Replacer? && s.mgr.canceled)
  }

  /** What may become of the handler of an active operation that was disturbed. */
  function Fate(mgr: M.State): set<Option<Error>> {
    if mgr.pending.Queue? then {Some(Aborted), Some(FailedOperation)}
    else if mgr.canceled then {None}
    else {None, Some(Aborted), Some(Decoding)}
  }

  ghost predicate ReportedIn(s: State, op: M.OpId, allowed: set<Option<Error>>) {
    forall k :: 0 <= k < |s.log| && s.log[k].op == op ==> s.log[k].called in allowed
  }

  /** In every run, if operation `op` ends, then in one of these ways. */
  ghost predicate EndsIn(s: State, op: M.OpId, allowed: set<Option<Error>>) {
    forall events, t :: Runs(s, events, t) ==> ReportedIn(t, op, allowed)
  }

  /** Operation `op` is reported as successful in no run. */
  ghost predicate NeverSucceeds(s: State, op: M.OpId) {
    forall events, t :: Runs(s, events, t) ==> Entry(op, Some(Success)) !in t.log
  }

  /** Operation `op` has begun, has ended only as allowed, and if it is still active, then it was disturbed. */
  ghost predicate Lost(s: State, op: M.OpId, allowed: set<Option<Error>>) {
    && op in s.mgr.started && ReportedIn(s, op, allowed)
    && (s.mgr.running && Current(s) == op ==> Disturbed(s) && Fate(s.mgr) <= allowed)
  }

  lemma StartedIsOld(mgr: M.State, op: M.OpId)
    requires M.Inv(mgr) && op in mgr.started
    ensures op < mgr.submitted
    ensures mgr.pending.HasPendingOperation() ==> op < mgr.pending.GetPendingOperation()
  {
    if mgr.pending.HasPendingOperation() {
      assert mgr.pending.GetPendingOperation() == mgr.pending.Contents()[0] == M.Settled(mgr);
    }
  }

  lemma CompleteKeepsLost(s: State, o: Outcome, now: int, op: M.OpId, allowed: set<Option<Error>>)
    requires Inv(s) && Completable(s) && Lost(s, op, allowed)
    ensures Lost(CompleteStep(s, o, now), op, allowed)
  {
    StartedIsOld(s.mgr, op);
    var t := CompleteStep(s, o, now);
    assert s.mgr.started <= t.mgr.started;
    assert t.log[..|s.log|] == s.log;
    assert t.mgr.running ==> Current(t) == s.mgr.pending.GetPendingOperation();
  }

  lemma StepKeepsLost(s: State, e: Event, op: M.OpId, allowed: set<Option<Error>>)
    requires Inv(s) && Possible(s, e) && Lost(s, op, allowed)
    ensures Lost(Step(s, e), op, allowed)
  {
    match e
    case Submit(_, _, _) => StartedIsOld(s.mgr, op);
    case RunPost =>
    case Cancel =>
    case Elapse(_, _) =>
    case Timeout(_, _) =>
    case Complete(o, now) => CompleteKeepsLost(s, o, now, op, allowed);
  }

  lemma {:induction false} LostEndsIn(s: State, events: seq<Event>, t: State, op: M.OpId, allowed: set<Option<Error>>)
    requires Inv(s) && Lost(s, op, allowed) && Runs(s, events, t)
    ensures ReportedIn(t, op, allowed)
    decreases |events|
  {
    if events == [] {
    } else {
      StepKeepsInv(s, events[0]);
      StepKeepsLost(s, events[0], op, allowed);
      LostEndsIn(Step(s, events[0]), events[1..], t, op, allowed);
    }
  }

  lemma DisturbedIsLost(s: State)
    requires Inv(s) && s.mgr.running && Disturbed(s)
    ensures EndsIn(s, Current(s), Fate(s.mgr)) && NeverSucceeds(s, Current(s))
  {
    var op, allowed := Current(s), Fate(s.mgr);
    LogInOrder(s);
    forall events, t | Runs(s, events, t) ensures ReportedIn(t, op, allowed) && Entry(op, Some(Success)) !in t.log {
      LostEndsIn(s, events, t, op, allowed);
    }
  }

  lemma FateHappens(s: State, called: Option<Error>) returns (events: seq<Event>, t: State)
    requires Inv(s) && s.mgr.running && Disturbed(s) && called in Fate(s.mgr)
    ensures Runs(s, events, t) && |t.log| == |s.log| + 1 && t.log[|s.log|] == Entry(Current(s), called)
  {
    var e := Complete(Outcome(false, called == Some(Aborted), called != Some(Decoding)), 0);
    if called == None && !s.mgr.canceled {
      StepKeepsInv(s, Cancel);
      var u := Step(s, Cancel);
      t := Step(u, e);
      events := [Cancel, e];
      assert [e][1..] == [] && Runs(t, [], t);
      assert events[1..] == [e] && Runs(u, [e], t);
    } else {
      t := Step(s, e);
      events := [e];
      assert events[1..] == [] && Runs(t, [], t);
    }
  }

  /** `Fate` is exact: nothing else becomes of a disturbed operation, and each of these does in some run. */
  lemma FateIsExact(s: State, allowed: set<Option<Error>>)
    requires Inv(s) && s.mgr.running && Disturbed(s)
    ensures EndsIn(s, Current(s), allowed) <==> Fate(s.mgr) <= allowed
  {
    DisturbedIsLost(s);
    if EndsIn(s, Current(s), allowed) {
      forall called | called in Fate(s.mgr) ensures called in allowed {
        var events, t := FateHappens(s, called);
        assert ReportedIn(t, Current(s), allowed);
      }
    }
  }

  /** An operation that was not disturbed succeeds if asio and the data allow it. */
  lemma UndisturbedSucceeds(s: State, now: int)
    requires Inv(s) && s.mgr.running && !Disturbed(s)
    ensures !NeverSucceeds(s, Current(s))
  {
    var e := Complete(Outcome(false, true, true), now);
    var t := Step(s, e);
    assert [e][1..] == [] && Runs(t, [], t);
    assert Runs(s, [e], t);
    assert t.log[|s.log|] == Entry(Current(s), Some(Success));
  }

  lemma StepDisturbs(s: State, e: Event)
    requires Inv(s) && s.mgr.running && Possible(s, e) && !e.Complete?
    ensures Disturbed(Step(s, e)) <==> Disturbed(s) || Disturbs(s, e)
    ensures Step(s, e).mgr.running && Current(Step(s, e)) == Current(s)
  {
    if e.Elapse? || e.Timeout? {
      TimerKeepsOneOperation(s, e);
    }
  }

  lemma {:induction false} RunDisturbs(s: State, events: seq<Event>, t: State)
    requires Inv(s) && s.mgr.running && Runs(s, events, t) && Incomplete(events)
    ensures Inv(t) && t.mgr.running && Current(t) == Current(s)
    ensures Disturbed(t) <==> Disturbed(s) || Disturbing(s, events)
    decreases |events|
  {
    if events == [] {
    } else {
      assert events[0] in events;
      assert forall e :: e in events[1..] ==> e in events;
      StepKeepsInv(s, events[0]);
      StepDisturbs(s, events[0]);
      RunDisturbs(Step(s, events[0]), events[1..], t);
    }
  }

  /**
   At any moment `t` while an operation is active that began in `s` or before, no continuation reports it as successful
   if and only if it was already disturbed in `s` or an event since then has disturbed it: a cancel, a replacement, or
   the expiry of its own timer.
   */
  lemma NeverSucceedsIffDisturbed(pending: M.Pending, before: seq<Event>, s: State, events: seq<Event>, t: State)
    requires Runs(Init(pending), before, s) && s.mgr.running
    requires Runs(s, events, t) && Incomplete(events)
    ensures Current(t) == Current(s)
    ensures NeverSucceeds(t, Current(s)) <==> Disturbed(s) || Disturbing(s, events)
  {
    ReachableInv(pending, before, s);
    RunDisturbs(s, events, t);
    if Disturbed(t) {
      DisturbedIsLost(t);
    } else {
      UndisturbedSucceeds(t, 0);
    }
  }

  /**
   Over all continuations, an operation that was disturbed ends in exactly the ways of its `Fate`: a send as aborted or
   as failed, a receive as aborted, with a decoding error or, after a cancel always, in silence.
   */
  lemma DisturbedEndsAsFated(pending: M.Pending, before: seq<Event>, s: State, events: seq<Event>, t: State,
                             allowed: set<Option<Error>>)
    requires Runs(Init(pending), before, s) && s.mgr.running
    requires Runs(s, events, t) && Incomplete(events)
    requires Disturbed(s) || Disturbing(s, events)
    ensures EndsIn(t, Current(s), allowed) <==> Fate(t.mgr) <= allowed
  {
    ReachableInv(pending, before, s);
    RunDisturbs(s, events, t);
    FateIsExact(t, allowed);
  }

  lemma BeginsUndisturbed(s: State, e: Event)
    requires Inv(s) && Possible(s, e) && Step(s, e).mgr.started != s.mgr.started
    ensures Step(s, e).mgr.running
    ensures Disturbed(Step(s, e)) <==> s.mgr.pending.Replacer? && !s.mgr.running && s.mgr.canceled
  {
  }

  /**
   From its beginning, in the step `e`, up to the report that ends it, an operation can succeed unless it is disturbed;
   the one exception is a receive that begins on an idle receiver whose cancel flag is set.
   */
  lemma SucceedsUnlessDisturbed(pending: M.Pending, before: seq<Event>, s: State, e: Event,
                                events: seq<Event>, t: State)
    requires Runs(Init(pending), before, s) && Possible(s, e) && Step(s, e).mgr.started != s.mgr.started
    requires Runs(Step(s, e), events, t) && Incomplete(events)
    ensures Current(t) == Current(Step(s, e))
    ensures NeverSucceeds(t, Current(t))
      <==> (pending.Replacer? && !s.mgr.running && s.mgr.canceled) || Disturbing(Step(s, e), events)
  {
    ReachableInv(pending, before, s);
    BeginsUndisturbed(s, e);
    StepKeepsInv(s, e);
    RunDisturbs(Step(s, e), events, t);
    if Disturbed(t) {
      DisturbedIsLost(t);
    } else {
      UndisturbedSucceeds(t, 0);
    }
  }

  // ---------- Silence after a cancel ----------

  /** The handlers of the first `n` operations will not be called any more. */
  ghost predicate Muted(s: State, n: nat) {
    && n <= s.mgr.submitted
    && s.mgr.pending.Replacer?
    && (s.mgr.pending.HasPendingOperation() ==> n <= s.mgr.pending.GetPendingOperation())
    && (s.mgr.running ==> n <= Current(s) || s.mgr.canceled)
  }

  lemma StepKeepsMuted(s: State, e: Event, n: nat)
    requires Possible(s, e) && Muted(s, n) && (e.Complete? ==> s.mgr.running)
    ensures Muted(Step(s, e), n)
    ensures s.log <= Step(s, e).log
    ensures forall k :: |s.log| <= k < |Step(s, e).log| ==>
      n <= Step(s, e).log[k].op || Step(s, e).log[k].called == None
  {
  }

  lemma {:induction false} RunKeepsMuted(s: State, events: seq<Event>, t: State, n: nat)
    requires Inv(s) && Runs(s, events, t) && Muted(s, n)
    ensures s.log <= t.log
    ensures forall k :: |s.log| <= k < |t.log| ==> n <= t.log[k].op || t.log[k].called == None
    decreases |events|
  {
    if events == [] {
    } else {
      StepKeepsInv(s, events[0]);
      StepKeepsMuted(s, events[0], n);
      RunKeepsMuted(Step(s, events[0]), events[1..], t, n);
    }
  }

  /** After `cancel`, a receiver never calls the handler of any operation submitted before. */
  lemma CanceledReceivesStaySilent(before: seq<Event>, s: State, after: seq<Event>, t: State)
    requires Runs(Init(M.Replacer(None)), before, s) && Runs(CancelStep(s), after, t)
    ensures forall k :: |s.log| <= k < |t.log| ==> s.mgr.submitted <= t.log[k].op || t.log[k].called == None
  {
    ReachableInv(M.Replacer(None), before, s);
    StepKeepsInv(s, Cancel);
    RunKeepsMuted(CancelStep(s), after, t, s.mgr.submitted);
  }

  /** No handler was called between `s` and `t`. */
  ghost predicate QuietSince(s: State, t: State) {
    forall k :: |s.log| <= k < |t.log| ==> t.log[k].called == None
  }

  /** As long as the user makes no further calls, no handler is called. */
  ghost predicate Silent(s: State) {
    forall events, t :: Runs(s, events, t) && Unattended(events) ==> QuietSince(s, t)
  }

  /** The user makes no further calls. */
  predicate Unattended(events: seq<Event>) {
    forall e :: e in events ==> !e.Submit? && e != Cancel
  }

  /**
   A receive that is started on an idle receiver may report to its handler if and only if the manager's cancel flag is
   clear: the first receive after a `cancel` that found the receiver idle is lost.
   */
  lemma ReceiveIsLostIff(before: seq<Event>, s: State, timeout: int, now: int)
    requires Runs(Init(M.Replacer(None)), before, s) && !s.mgr.running
    ensures Silent(SubmitStep(s, true, timeout, now)) <==> s.mgr.canceled
  {
    ReachableInv(M.Replacer(None), before, s);
    if s.mgr.canceled {
      LostFromStart(s, timeout, now);
    } else {
      var events, t := FirstReceive(s, timeout, now);
      assert t.log[|s.log|].called.Some?;
    }
  }

  lemma FirstReceive(s: State, timeout: int, now: int) returns (events: seq<Event>, t: State)
    requires Inv(s) && !s.mgr.running && !s.mgr.canceled && s.mgr.pending.Replacer?
    ensures Runs(SubmitStep(s, true, timeout, now), events, t) && Unattended(events)
    ensures t.log == s.log + [Entry(s.mgr.submitted, Some(Success))]
  {
    var u := SubmitStep(s, true, timeout, now);
    var e := Complete(Outcome(false, true, true), now);
    t := Step(u, e);
    events := [e];
    assert events[1..] == [] && Runs(t, [], t);
  }

  lemma LostFromStart(s: State, timeout: int, now: int)
    requires Inv(s) && !s.mgr.running && s.mgr.canceled && s.mgr.pending.Replacer?
    ensures Silent(SubmitStep(s, true, timeout, now))
  {
    var u := SubmitStep(s, true, timeout, now);
    SubmitKeepsInv(s, true, timeout, now);
    forall events, t | Runs(u, events, t) && Unattended(events) ensures QuietSince(u, t) {
      RunKeepsMuted(u, events, t, u.mgr.submitted);
      SubmissionsFixed(u, events, t);
      RunKeepsInv(u, events, t);
      LogIsOld(t);
    }
  }

  lemma LogIsOld(s: State)
    requires M.Inv(s.mgr) && Logged(s)
    ensures forall k :: 0 <= k < |s.log| ==> s.log[k].op < s.mgr.submitted
  {
    forall k | 0 <= k < |s.log| ensures s.log[k].op == s.mgr.started[k] {
    }
  }

  lemma {:induction false} SubmissionsFixed(s: State, events: seq<Event>, t: State)
    requires Runs(s, events, t) && Unattended(events)
    ensures t.mgr.submitted == s.mgr.submitted
    decreases |events|
  {
    if events == [] {
    } else {
      assert events[0] in events;
      assert forall e :: e in events[1..] ==> e in events;
      SubmissionsFixed(Step(s, events[0]), events[1..], t);
    }
  }

  // ---------- The client object ----------

  /** What `DatagramSender`, constructed with a queue, and `DatagramReceiver`, with a replacer, have and do. */
  class DatagramClient {
    const operationManager: M.AsyncOperationManager
    var timed: TO.State
    var timeouts: seq<int>
    var operation: M.OpId
    ghost var calls: nat
    ghost var posted: nat
    ghost var reported: nat
    ghost var log: seq<Entry>

    ghost function View(): State
      reads this, operationManager
    {
      State(operationManager.View(), timed, timeouts, calls, posted, reported, log)
    }

    ghost predicate Valid()
      reads this, operationManager
    {
      Inv(View()) && (operationManager.running ==> operation == Current(View()))
    }

    constructor (pending: M.Pending)
      ensures View() == Init(pending) && Valid() && fresh(operationManager)
    {
      operationManager := new M.AsyncOperationManager(pending);
      timed, timeouts, operation := TO.State({}, []), [], 0;
      calls, posted, reported, log := 0, 0, 0, [];
      new;
      assert View() == Init(pending);
      assert OneOperation(View());
      assert Logged(View());
    }

    /** `asyncSendOperation` and `asyncReceiveOperation`. */
    method Begin(op: M.OpId, now: int)
      requires op < |timeouts|
      modifies this`timed, this`operation
      ensures View() == BeginOperation(old(View()), op, now) && operation == op
    {
      operation := op;
      if SOCKET !in timed.open {
        timed := timed.(open := timed.open + {SOCKET});
      }
      assert timed.open == old(timed.open) + {SOCKET};
      timed := TO.Step(timed, TO.Begin(SOCKET, timeouts[op], now));
    }

    method CancelOperation()
      modifies this`timed
      ensures View() == CloseSocket(old(View()))
    {
      timed := timed.(open := timed.open - {SOCKET});
    }

    /** `asyncSend`, or `asyncReceive`, which has nothing to encode. */
    method Submit(encodes: bool, timeout: int, now: int)
      requires Valid() && Possible(View(), Event.Submit(encodes, timeout, now))
      modifies this, operationManager
      ensures View() == SubmitStep(old(View()), encodes, timeout, now) && Valid()
    {
      ghost var was := View();
      SubmitKeepsInv(was, encodes, timeout, now);
      calls := calls + 1;
      if !encodes {
        posted := posted + 1;
        assert View() == SubmitStep(was, encodes, timeout, now);
        return;
      }
      StartSubmitted(timeout, now);
      assert View() == SubmitStep(was, encodes, timeout, now);
    }

    /** The part that goes through the manager. */
    method StartSubmitted(timeout: int, now: int)
      requires operationManager.Valid() && |timeouts| == operationManager.submitted
      modifies this, operationManager
      ensures var u := old(View()).(timeouts := old(timeouts) + [timeout], mgr := M.StartStep(old(View()).mgr));
        View() == if !old(operationManager.running) then BeginOperation(u, old(operationManager.submitted), now)
                  else if old(operationManager.pendingOperations).ShouldCancel() then CloseSocket(u) else u
      ensures operation == if !old(operationManager.running) then old(operationManager.submitted) else old(operation)
    {
      var op := |timeouts|;
      timeouts := timeouts + [timeout];
      var canceling, begun := operationManager.StartOperation(op);
      if begun {
        Begin(op, now);
      }
      if canceling {
        CancelOperation();
      }
    }

    method Cancel()
      requires Valid()
      modifies this, operationManager
      ensures Valid() && View() == CancelStep(old(View()))
    {
      StepKeepsInv(View(), Event.Cancel);
      operationManager.CancelOperation();
      CancelOperation();
    }

    /** The notifier of the active operation finishes it; `called` is what its user handler is called with. */
    method Finish(called: Option<Error>, now: int)
      requires M.Inv(operationManager.View()) && operationManager.running && Logged(View())
      requires operation == Current(View())
      modifies this, operationManager
      ensures View() == EndOperation(old(View()), called, now)
      ensures operationManager.running ==> operation == Current(View())
    {
      ghost var was := View();
      log := log + [Entry(operation, called)];
      var next := operationManager.FinishOperation();
      if next.Some? {
        M.WaitingOperation(was.mgr, next.value);
        Begin(next.value, now);
      }
      assert View() == EndOperation(was, called, now);
    }

    /** The completion handler of the active operation. */
    method CompletionHandler(o: Outcome, now: int)
      requires Valid() && Completable(View())
      modifies this, operationManager
      ensures Valid() && View() == CompleteStep(old(View()), o, now)
    {
      CompleteKeepsInv(View(), o, now);
      var last := |timed.operations| - 1;
      var error := TO.Classify(timed.operations[last].target in timed.open, o.failed);
      timed := TO.Step(timed, TO.Complete(last, o.failed, now));
      if operationManager.pendingOperations.Queue? {
        if !o.full {
          error := FailedOperation;
        }
        Finish(Some(error), now);
        return;
      }
      if error == Success && !o.full {
        error := InvalidFrame;
      }
      if !o.decodes {
        error := Decoding;
      }
      var canceled := operationManager.IsCanceled();
      if canceled {
        Finish(None, now);
        return;
      }
      Finish(Some(error), now);
    }
  }
}
