/**
 `timedAsyncOperation`: an asynchronous operation on a closeable object, raced by a timer that closes the object.

 A run interleaves any number of timed operations, on any closeables, with closing and opening from elsewhere. Every
 handler is one atomic step, which is what wrapping both handlers in one `WorkSerializer` is for.
 */
module TimedOperations {
  import opened Common
  import T = Timers
  import M = OperationManager

  type Target = nat

  /** `done` is the error that the user handler was called with. */
  datatype Operation = Operation(target: Target, timer: T.State, done: Option<Error>)

  datatype State = State(open: set<Target>, operations: seq<Operation>)

  /** What asio reported is `failed`, the error that the caller sees is the result. */
  function Classify(isOpen: bool, failed: bool): Error {
    if !isOpen then Aborted else if failed then FailedOperation else Success
  }

  datatype Event =
    | Begin(target: Target, timeout: int, now: int)
    | Elapse(index: nat, now: int)
    | Timeout(index: nat, now: int)
    | Complete(index: nat, failed: bool, now: int)
    | Close(target: Target)
    | Open(target: Target)

  function NewTimer(timeout: int, now: int): T.State {
    T.Do(T.Init(), T.Submit(T.Job(T.OneShot, timeout)), now)
  }

  predicate Possible(s: State, e: Event) {
    match e
    case Begin(_, _, _) => true
    case Elapse(i, now) => i < |s.operations| && T.Possible(s.operations[i].timer, T.Elapse(now))
    case Timeout(i, now) => i < |s.operations| && T.Possible(s.operations[i].timer, T.Handle([], now))
    case Complete(i, _, _) => i < |s.operations| && s.operations[i].done == None
    case Close(_) => true
    case Open(_) => true
  }

  function AfterElapse(op: Operation, now: int): Operation {
    op.(timer := T.Step(op.timer, T.Elapse(now)))
  }

  /** The timer's handler runs. */
  function AfterTimeout(op: Operation, now: int): Operation {
    op.(timer := T.HandleWait(op.timer, [], now))
  }

  /** The timer's handler calls the timeout closure. */
  predicate Fires(op: Operation) {
    op.timer.wait == T.Elapsed && !op.timer.mgr.canceled
  }

  /** The completion handler cancels the timer before it looks at the closeable. */
  function AfterCompletion(op: Operation, error: Error, now: int): Operation {
    op.(timer := T.Do(op.timer, T.Cancel, now), done := Some(error))
  }

  function Step(s: State, e: Event): State
    requires Possible(s, e)
  {
    match e
    case Begin(target, timeout, now) =>
      s.(operations := s.operations + [Operation(target, NewTimer(timeout, now), None)])
    case Elapse(i, now) =>
      s.(operations := s.operations[i := AfterElapse(s.operations[i], now)])
    case Timeout(i, now) =>
      var op := s.operations[i];
      State(if Fires(op) then s.open - {op.target} else s.open, s.operations[i := AfterTimeout(op, now)])
    case Complete(i, failed, now) =>
      var op := s.operations[i];
      s.(operations := s.operations[i := AfterCompletion(op, Classify(op.target in s.open, failed), now)])
    case Close(target) => s.(open := s.open - {target})
    case Open(target) => s.(open := s.open + {target})
  }

  ghost predicate Runs(s: State, events: seq<Event>, t: State)
    decreases |events|
  {
    if events == [] then s == t
    else Possible(s, events[0]) && Runs(Step(s, events[0]), events[1..], t)
  }

  // ---------- The invariant ----------

  /**
   An operation's timer has one job, and at most one firing, at or after its deadline. It is canceled exactly when the
   operation has completed while it was still running.
   */
  ghost predicate Sound(op: Operation) {
    var timer := op.timer;
    && |timer.jobs| == 1 && timer.jobs[0].kind == T.OneShot
    && timer.mgr.started == [0] && timer.mgr.pending == M.Replacer(None)
    && (timer.mgr.running <==> timer.wait != T.NoWait)
    && (timer.mgr.running ==> timer.fired == [] && (timer.mgr.canceled <==> op.done.Some?))
    && (timer.wait == T.WaitAborted ==> op.done.Some?)
    && timer.expiry == timer.armedAt + timer.jobs[0].duration
    && (timer.fired == []
        || (|timer.fired| == 1 && timer.fired[0].expiry == timer.expiry <= timer.fired[0].at))
    && (!timer.mgr.running && timer.fired == [] ==> op.done.Some?)
  }

  ghost predicate Inv(s: State) {
    forall i :: 0 <= i < |s.operations| ==> Sound(s.operations[i])
  }

  lemma TimeoutKeepsSound(op: Operation, now: int)
    requires Sound(op) && T.Possible(op.timer, T.Handle([], now))
    ensures Sound(AfterTimeout(op, now))
    ensures Fires(op) <==> op.timer.wait == T.Elapsed && op.done == None
    ensures Fires(op) <==> |AfterTimeout(op, now).timer.fired| > |op.timer.fired|
  {
  }

  lemma CompletionKeepsSound(op: Operation, error: Error, now: int)
    requires Sound(op)
    ensures Sound(AfterCompletion(op, error, now))
  {
  }

  lemma StepKeepsInv(s: State, e: Event)
    requires Inv(s) && Possible(s, e)
    ensures Inv(Step(s, e))
  {
    match e
    case Timeout(i, now) => TimeoutKeepsSound(s.operations[i], now);
    case Complete(i, failed, now) =>
      CompletionKeepsSound(s.operations[i], Classify(s.operations[i].target in s.open, failed), now);
    case _ =>
  }

  lemma {:induction false} RunKeepsInv(s: State, events: seq<Event>, t: State)
    requires Inv(s) && Runs(s, events, t)
    ensures Inv(t)
    decreases |events|
  {
    if events == [] {
    } else {
      StepKeepsInv(s, events[0]);
      RunKeepsInv(Step(s, events[0]), events[1..], t);
    }
  }

  // ---------- Safety of the race ----------

  predicate Expired(op: Operation) {
    op.timer.fired != []
  }

  /**
   Once an operation has completed, no event of its timer changes what is open: neither an expiry that was queued
   before the completion nor one that comes later, in any state of any run.
   */
  lemma StaleTimerIsHarmless(open: set<Target>, events: seq<Event>, s: State, e: Event)
    requires Runs(State(open, []), events, s) && Possible(s, e)
    requires (e.Elapse? || e.Timeout?) && s.operations[e.index].done.Some?
    ensures Step(s, e).open == s.open
    ensures Expired(Step(s, e).operations[e.index]) <==> Expired(s.operations[e.index])
  {
    RunKeepsInv(State(open, []), events, s);
    assert Sound(s.operations[e.index]);
  }

  /** A target is used by one operation at a time, and nothing else closes or opens it. */
  predicate Undisturbed(events: seq<Event>, target: Target) {
    forall e :: e in events ==>
      !((e.Begin? && e.target == target) || (e.Close? && e.target == target) || (e.Open? && e.target == target))
  }

  /** Operation `i` alone decides whether its target is open. */
  ghost predicate Decides(s: State, i: nat) {
    && i < |s.operations|
    && (forall j :: 0 <= j < |s.operations| && j != i && s.operations[j].target == s.operations[i].target ==>
          s.operations[j].done.Some?)
    && (s.operations[i].target in s.open <==> !Expired(s.operations[i]))
    && (s.operations[i].done.Some? ==> (s.operations[i].done == Some(Aborted) <==> Expired(s.operations[i])))
  }

  predicate SameDeadline(s: State, t: State, i: nat)
    requires i < |s.operations|
  {
    && i < |t.operations|
    && t.operations[i].target == s.operations[i].target
    && t.operations[i].timer.expiry == s.operations[i].timer.expiry
  }

  lemma StepKeepsDecides(s: State, e: Event, i: nat)
    requires Inv(s) && Possible(s, e) && Decides(s, i) && Undisturbed([e], s.operations[i].target)
    ensures Decides(Step(s, e), i) && SameDeadline(s, Step(s, e), i)
  {
    assert e in [e];
    if e.Timeout? {
      assert Sound(s.operations[e.index]);
    }
  }

  lemma {:induction false} RunKeepsDecides(s: State, events: seq<Event>, t: State, i: nat)
    requires Inv(s) && Runs(s, events, t) && Decides(s, i) && Undisturbed(events, s.operations[i].target)
    ensures Decides(t, i) && Inv(t) && SameDeadline(s, t, i)
    decreases |events|
  {
    if events == [] {
    } else {
      assert forall e :: e in [events[0]] ==> e in events;
      assert forall e :: e in events[1..] ==> e in events;
      StepKeepsInv(s, events[0]);
      StepKeepsDecides(s, events[0], i);
      RunKeepsDecides(Step(s, events[0]), events[1..], t, i);
    }
  }

  /**
   An operation on an open target that only timed operations close, one at a time, ends with `Aborted` if and only if
   its own timer has expired before, and the timer never expires before start plus timeout.
   */
  lemma AbortedIffExpired(s: State, target: Target, timeout: int, now: int, events: seq<Event>, t: State)
    requires Inv(s) && target in s.open
    requires forall j :: 0 <= j < |s.operations| && s.operations[j].target == target ==> s.operations[j].done.Some?
    requires Runs(Step(s, Begin(target, timeout, now)), events, t) && Undisturbed(events, target)
    ensures |s.operations| < |t.operations|
    ensures var op := t.operations[|s.operations|];
      && op.target == target
      && (target in t.open <==> !Expired(op))
      && (op.done.Some? ==> (op.done == Some(Aborted) <==> Expired(op)))
      && op.timer.expiry == now + timeout
      && (Expired(op) ==> now + timeout <= op.timer.fired[0].at)
  {
    var begun := Step(s, Begin(target, timeout, now));
    StepKeepsInv(s, Begin(target, timeout, now));
    RunKeepsDecides(begun, events, t, |s.operations|);
    assert Sound(t.operations[|s.operations|]);
  }

  lemma StepKeepsDone(s: State, e: Event, i: nat)
    requires Possible(s, e) && i < |s.operations| && s.operations[i].done.Some?
    ensures i < |Step(s, e).operations| && Step(s, e).operations[i].done == s.operations[i].done
  {
  }

  lemma {:induction false} RunKeepsDone(s: State, events: seq<Event>, t: State, i: nat)
    requires Runs(s, events, t) && i < |s.operations| && s.operations[i].done.Some?
    ensures i < |t.operations| && t.operations[i].done == s.operations[i].done
    decreases |events|
  {
    if events == [] {
    } else {
      StepKeepsDone(s, events[0], i);
      RunKeepsDone(Step(s, events[0]), events[1..], t, i);
    }
  }

  /**
   The error of such an operation, for good: an abort if its timer has expired when the completion comes, otherwise what
   asio reports.
   */
  lemma CompletesAs(s: State, target: Target, timeout: int, now: int, events: seq<Event>, u: State,
                    failed: bool, later: int, after: seq<Event>, t: State)
    requires Inv(s) && target in s.open
    requires forall j :: 0 <= j < |s.operations| && s.operations[j].target == target ==> s.operations[j].done.Some?
    requires Runs(Step(s, Begin(target, timeout, now)), events, u) && Undisturbed(events, target)
    requires Possible(u, Complete(|s.operations|, failed, later))
    requires Runs(Step(u, Complete(|s.operations|, failed, later)), after, t)
    ensures |s.operations| < |t.operations|
    ensures t.operations[|s.operations|].done
      == if Expired(u.operations[|s.operations|]) then Some(Aborted)
         else if failed then Some(FailedOperation) else Some(Success)
  {
    AbortedIffExpired(s, target, timeout, now, events, u);
    RunKeepsDone(Step(u, Complete(|s.operations|, failed, later)), after, t, |s.operations|);
  }

  // ---------- The objects ----------

  class Closeable {
    var isOpen: bool

    constructor ()
      ensures isOpen
    {
      isOpen := true;
    }

    /** `Closer::close`; errors are ignored. */
    method Close()
      modifies this
      ensures !isOpen
    {
      isOpen := false;
    }
  }

  /** The state that the two handlers of one timed operation share. */
  class TimedOperation {
    const closeable: Closeable
    const timer: T.Timer
    ghost const target: Target
    var done: Option<Error>

    ghost function View(): Operation
      reads this, timer, timer.operationManager
    {
      Operation(target, timer.View(), done)
    }

    ghost predicate Valid()
      reads this, timer, timer.operationManager
    {
      timer.Valid() && T.Inv(timer.View()) && Sound(View())
    }

    constructor (closeable: Closeable, ghost target: Target, timeout: int, now: int)
      ensures this.closeable == closeable && this.target == target && fresh(timer) && fresh(timer.operationManager)
      ensures Valid() && View() == Operation(target, NewTimer(timeout, now), None)
    {
      this.closeable, this.target, done := closeable, target, None;
      timer := new T.Timer();
      new;
      T.SubmitKeepsConsistent(timer.View(), T.Job(T.OneShot, timeout), now);
      timer.Start(T.Job(T.OneShot, timeout), now);
    }

    method TimeoutHandler(now: int)
      requires Valid() && T.Possible(timer.View(), T.Handle([], now))
      modifies closeable, timer, timer.operationManager
      ensures View() == AfterTimeout(old(View()), now) && Valid()
      ensures closeable.isOpen == (old(closeable.isOpen) && !Fires(old(View())))
    {
      ghost var was := View();
      TimeoutKeepsSound(was, now);
      assert was.timer.mgr.running && (was.timer.mgr.canceled <==> was.done.Some?);
      var called := timer.WaitHandler([], now);
      assert View() == AfterTimeout(was, now);
      if called {
        closeable.Close();
      }
    }

    /** The error is what the user handler is called with. */
    method CompletionHandler(failed: bool, now: int) returns (error: Error)
      requires Valid() && done == None
      modifies this, timer, timer.operationManager
      ensures View() == AfterCompletion(old(View()), error, now) && Valid()
      ensures error == Classify(closeable.isOpen, failed)
    {
      ghost var was := View();
      timer.Cancel(now);
      error := Success;
      if !closeable.isOpen {
        error := Aborted;
      } else if failed {
        error := FailedOperation;
      }
      done := Some(error);
      assert View() == AfterCompletion(was, error, now);
      assert T.Inv(timer.View()) by {
        T.CancelKeepsConsistent(was.timer, now);
      }
      assert Sound(View()) by {
        CompletionKeepsSound(was, error, now);
      }
    }
  }
}
