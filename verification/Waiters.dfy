/**
 `Waiter::await` and `Waitable`: any number of threads wait, set waitables ready and set them back to waiting.

 The threads interleave between any two accesses to the mutex, to the flags and to the condition variable. Waiting on
 the condition variable releases the mutex and blocks in one step, and may wake up spuriously.
 */
module Waiters {
  import opened Common
  import opened WaitExpressions

  datatype WaiterStep = Locking | Testing | Failed | Blocked | Returned

  datatype SetterStep = Acquiring | Writing | Written | Released | Finished

  /** A thread inside `await`, `setReady` or `setWaiting`. */
  datatype Thread =
    | Awaiting(expression: Expression, at: WaiterStep)
    | SettingReady(flag: nat, step: SetterStep)
    | SettingWaiting(flag: nat, step: SetterStep)

  datatype State = State(lock: Option<nat>, ready: Flags, stopped: bool, threads: seq<Thread>)

  datatype Event =
    | Await(expression: Expression)
    | SetReady(flag: nat)
    | SetWaiting(flag: nat)
    | Step(thread: nat)
    | Wake(thread: nat)
    | Stop

  const INIT := State(None, {}, false, [])

  function With(s: State, t: nat, thread: Thread): State
    requires t < |s.threads|
  {
    s.(threads := s.threads[t := thread])
  }

  function Notified(thread: Thread): Thread {
    if thread.Awaiting? && thread.at == Blocked then thread.(at := Locking) else thread
  }

  /** `notify_all`. */
  function NotifyAll(threads: seq<Thread>): (r: seq<Thread>)
    ensures |r| == |threads|
    ensures forall i :: 0 <= i < |threads| ==> r[i] == Notified(threads[i])
  {
    if threads == [] then [] else [Notified(threads[0])] + NotifyAll(threads[1..])
  }

  function WaiterStepOf(s: State, t: nat): State
    requires t < |s.threads| && s.threads[t].Awaiting?
  {
    var thread := s.threads[t];
    match thread.at
    case Locking =>
      if s.lock == None then With(s, t, thread.(at := Testing)).(lock := Some(t)) else s
    case Testing =>
      if thread.expression(s.ready) || s.stopped then With(s, t, thread.(at := Returned)).(lock := None)
      else With(s, t, thread.(at := Failed))
    case Failed => With(s, t, thread.(at := Blocked)).(lock := None)
    case Blocked => s
    case Returned => s
  }

  function SetReadyStepOf(s: State, t: nat): State
    requires t < |s.threads| && s.threads[t].SettingReady?
  {
    var thread := s.threads[t];
    match thread.step
    case Acquiring =>
      if s.lock == None then With(s, t, SettingReady(thread.flag, Writing)).(lock := Some(t)) else s
    case Writing => With(s, t, SettingReady(thread.flag, Written)).(ready := s.ready + {thread.flag})
    case Written => With(s, t, SettingReady(thread.flag, Released)).(lock := None)
    case Released =>
      var u := With(s, t, SettingReady(thread.flag, Finished));
      u.(threads := NotifyAll(u.threads))
    case Finished => s
  }

  function SetWaitingStepOf(s: State, t: nat): State
    requires t < |s.threads| && s.threads[t].SettingWaiting?
  {
    var thread := s.threads[t];
    match thread.step
    case Acquiring =>
      if s.lock == None then With(s, t, SettingWaiting(thread.flag, Writing)).(lock := Some(t)) else s
    case Writing => With(s, t, SettingWaiting(thread.flag, Written)).(ready := s.ready - {thread.flag})
    case Written => With(s, t, SettingWaiting(thread.flag, Finished)).(lock := None)
    case Released => s
    case Finished => s
  }

  /** A step that a thread cannot take, because it waits for the mutex or is done, leaves the state as it is. */
  function Apply(s: State, e: Event): State {
    match e
    case Await(f) => s.(threads := s.threads + [Awaiting(f, Locking)])
    case SetReady(w) => s.(threads := s.threads + [SettingReady(w, Acquiring)])
    case SetWaiting(w) => s.(threads := s.threads + [SettingWaiting(w, Acquiring)])
    case Step(t) =>
      if t >= |s.threads| then s
      else if s.threads[t].Awaiting? then WaiterStepOf(s, t)
      else if s.threads[t].SettingReady? then SetReadyStepOf(s, t)
      else SetWaitingStepOf(s, t)
    case Wake(t) =>
      if t >= |s.threads| then s else With(s, t, Notified(s.threads[t]))
    case Stop => s.(stopped := true)
  }

  function Run(s: State, events: seq<Event>): State
    decreases |events|
  {
    if events == [] then s else Run(Apply(s, events[0]), events[1..])
  }

  // ---------- The invariant ----------

  predicate Holding(thread: Thread) {
    match thread
    case Awaiting(_, at) => at in {Testing, Failed}
    case SettingReady(_, step) => step in {Writing, Written}
    case SettingWaiting(_, step) => step in {Writing, Written}
  }

  /** The mutex is held by the one thread that is inside a critical section. */
  ghost predicate MutuallyExclusive(s: State) {
    && (s.lock.Some? ==> s.lock.value < |s.threads|)
    && (forall t :: 0 <= t < |s.threads| ==> (Holding(s.threads[t]) <==> s.lock == Some(t)))
  }

  /** A thread has written a ready flag and not yet notified. */
  predicate WillNotify(thread: Thread) {
    thread.SettingReady? && thread.step in {Written, Released}
  }

  ghost predicate NotifierOnItsWay(s: State) {
    exists t :: 0 <= t < |s.threads| && WillNotify(s.threads[t])
  }

  predicate MissesReady(thread: Thread, ready: Flags) {
    thread.Awaiting? && thread.at == Blocked && thread.expression(ready)
  }

  /** A waiter that is blocked although its expression holds is about to be notified. */
  ghost predicate NoLostWakeup(s: State) {
    forall t :: 0 <= t < |s.threads| && MissesReady(s.threads[t], s.ready) ==> NotifierOnItsWay(s)
  }

  /** The same for the waiters whose expressions are monotone, with what their test has established. */
  ghost predicate Inv(s: State) {
    MutuallyExclusive(s) && WaitersSafe(s)
  }

  ghost predicate WaitersSafe(s: State) {
    forall t :: 0 <= t < |s.threads| ==> WaiterSafe(s, s.threads[t])
  }

  ghost predicate WaiterSafe(s: State, thread: Thread) {
    thread.Awaiting? && Monotone(thread.expression) ==>
      && (thread.at == Failed ==> !thread.expression(s.ready))
      && (thread.at == Blocked && thread.expression(s.ready) ==> NotifierOnItsWay(s))
  }

  lemma WaiterKeepsExclusion(s: State, t: nat)
    requires MutuallyExclusive(s) && t < |s.threads| && s.threads[t].Awaiting?
    ensures MutuallyExclusive(WaiterStepOf(s, t))
  {
  }

  lemma SetReadyKeepsExclusion(s: State, t: nat)
    requires MutuallyExclusive(s) && t < |s.threads| && s.threads[t].SettingReady?
    ensures MutuallyExclusive(SetReadyStepOf(s, t))
  {
  }

  lemma SetWaitingKeepsExclusion(s: State, t: nat)
    requires MutuallyExclusive(s) && t < |s.threads| && s.threads[t].SettingWaiting?
    ensures MutuallyExclusive(SetWaitingStepOf(s, t))
  {
  }

  lemma ExclusionKept(s: State, e: Event)
    requires MutuallyExclusive(s)
    ensures MutuallyExclusive(Apply(s, e))
  {
    if e.Step? && e.thread < |s.threads| {
      match s.threads[e.thread]
      case Awaiting(_, _) => WaiterKeepsExclusion(s, e.thread);
      case SettingReady(_, _) => SetReadyKeepsExclusion(s, e.thread);
      case SettingWaiting(_, _) => SetWaitingKeepsExclusion(s, e.thread);
    }
  }

  predicate Notifies(s: State, e: Event) {
    e.Step? && e.thread < |s.threads| && s.threads[e.thread].SettingReady? && s.threads[e.thread].step == Released
  }

  ghost predicate NobodyBlocked(s: State) {
    forall t :: 0 <= t < |s.threads| && s.threads[t].Awaiting? ==> s.threads[t].at != Blocked
  }

  /** A thread on its way to notify stays on its way, or notifies everyone. */
  lemma NotifierKept(s: State, e: Event)
    requires NotifierOnItsWay(s)
    ensures var u := Apply(s, e);
      NotifierOnItsWay(u) || (Notifies(s, e) && NobodyBlocked(u))
  {
    var t :| 0 <= t < |s.threads| && WillNotify(s.threads[t]);
    var u := Apply(s, e);
    if !Notifies(s, e) {
      assert WillNotify(u.threads[t]);
    }
  }

  lemma WaiterKeepsSafe(s: State, t: nat)
    requires Inv(s) && t < |s.threads| && s.threads[t].Awaiting?
    requires NotifierOnItsWay(s) ==> NotifierOnItsWay(WaiterStepOf(s, t))
    ensures WaitersSafe(WaiterStepOf(s, t))
  {
  }

  /** A write happens under the mutex, so no waiter is between its failed test and blocking. */
  lemma SetReadyKeepsSafe(s: State, t: nat)
    requires Inv(s) && t < |s.threads| && s.threads[t].SettingReady?
    ensures WaitersSafe(SetReadyStepOf(s, t))
  {
    var u := SetReadyStepOf(s, t);
    if s.threads[t].step != Released {
      if NotifierOnItsWay(s) {
        NotifierKept(s, Step(t));
      }
      if s.threads[t].step == Writing {
        assert WillNotify(u.threads[t]);
      }
    }
  }

  lemma SetWaitingKeepsSafe(s: State, t: nat)
    requires Inv(s) && t < |s.threads| && s.threads[t].SettingWaiting?
    requires NotifierOnItsWay(s) ==> NotifierOnItsWay(SetWaitingStepOf(s, t))
    ensures WaitersSafe(SetWaitingStepOf(s, t))
  {
    assert s.ready - {s.threads[t].flag} <= s.ready;
  }

  lemma StepKeepsInv(s: State, e: Event)
    requires Inv(s)
    ensures Inv(Apply(s, e))
  {
    ExclusionKept(s, e);
    if NotifierOnItsWay(s) {
      NotifierKept(s, e);
    }
    if e.Step? && e.thread < |s.threads| {
      match s.threads[e.thread]
      case Awaiting(_, _) => WaiterKeepsSafe(s, e.thread);
      case SettingReady(_, _) => SetReadyKeepsSafe(s, e.thread);
      case SettingWaiting(_, _) => SetWaitingKeepsSafe(s, e.thread);
    }
  }

  lemma {:induction false} RunKeepsInv(s: State, events: seq<Event>)
    requires Inv(s)
    ensures Inv(Run(s, events))
    decreases |events|
  {
    if events == [] {
    } else {
      StepKeepsInv(s, events[0]);
      RunKeepsInv(Apply(s, events[0]), events[1..]);
    }
  }

  /**
   No lost wakeup: in every run, with any mix of threads, a waiter that is blocked on a monotone expression although the
   expression holds will be notified by a thread that has set its flag and not yet called `notify_all`.
   */
  lemma NoMonotoneWakeupIsLost(events: seq<Event>, t: nat)
    requires var s := Run(INIT, events);
      t < |s.threads| && MissesReady(s.threads[t], s.ready) && Monotone(s.threads[t].expression)
    ensures NotifierOnItsWay(Run(INIT, events))
  {
    RunKeepsInv(INIT, events);
  }

  // ---------- Only monotone expressions are safe ----------

  /** All waiters of the run wait for `f`. */
  ghost predicate AwaitsOnly(events: seq<Event>, f: Expression) {
    forall i :: 0 <= i < |events| && events[i].Await? ==> events[i].expression == f
  }

  lemma {:induction false} RunConcat(s: State, first: seq<Event>, second: seq<Event>)
    ensures Run(s, first + second) == Run(Run(s, first), second)
    decreases |first|
  {
    if first == [] {
      assert first + second == second;
    } else {
      RunConcat(Apply(s, first[0]), first[1..], second);
      assert (first + second)[1..] == first[1..] + second;
    }
  }

  ghost predicate Done(thread: Thread) {
    match thread
    case Awaiting(_, at) => at == Returned
    case SettingReady(_, step) => step == Finished
    case SettingWaiting(_, step) => step == Finished
  }

  /** The mutex is free, and every thread is done, except that some may be blocked on `f`. */
  ghost predicate Parked(s: State, f: Expression) {
    && s.lock == None
    && !s.stopped
    && forall t :: 0 <= t < |s.threads| ==> Done(s.threads[t]) || s.threads[t] == Awaiting(f, Blocked)
  }

  lemma SetWaitingRuns(s: State, f: Expression, w: nat) returns (events: seq<Event>)
    requires Parked(s, f)
    ensures AwaitsOnly(events, f)
    ensures var u := Run(s, events);
      Parked(u, f) && u.ready == s.ready - {w} && u.threads == s.threads + [SettingWaiting(w, Finished)]
  {
    var n := |s.threads|;
    events := [SetWaiting(w), Step(n), Step(n), Step(n)];
    var s1 := Apply(s, SetWaiting(w));
    var s2 := Apply(s1, Step(n));
    var s3 := Apply(s2, Step(n));
    var s4 := Apply(s3, Step(n));
    assert s4.threads == s.threads + [SettingWaiting(w, Finished)];
    UnrollFour(s, events);
  }

  lemma UnrollFour(s: State, events: seq<Event>)
    requires |events| == 4
    ensures Run(s, events) == Apply(Apply(Apply(Apply(s, events[0]), events[1]), events[2]), events[3])
  {
    assert events[1..][1..] == events[2..] && events[2..][1..] == events[3..] && events[3..][1..] == [];
    assert Run(s, events) == Run(Apply(s, events[0]), events[1..]);
    var u := Apply(Apply(s, events[0]), events[1]);
    assert Run(s, events) == Run(u, events[2..]);
    var v := Apply(u, events[2]);
    assert Run(u, events[2..]) == Run(v, events[3..]);
    assert Run(v, events[3..]) == Run(Apply(v, events[3]), []);
  }

  lemma {:induction false} MakeWaiting(s: State, f: Expression, flags: Flags) returns (events: seq<Event>)
    requires Parked(s, f)
    ensures AwaitsOnly(events, f)
    ensures var u := Run(s, events); Parked(u, f) && u.ready == s.ready - flags && s.threads <= u.threads
    decreases |flags|
  {
    if flags == {} {
      events := [];
    } else {
      var w :| w in flags;
      var first := SetWaitingRuns(s, f, w);
      var rest := MakeWaiting(Run(s, first), f, flags - {w});
      events := first + rest;
      RunConcat(s, first, rest);
    }
  }

  ghost predicate AllDone(s: State) {
    s.lock == None && !s.stopped && forall t :: 0 <= t < |s.threads| ==> Done(s.threads[t])
  }

  lemma SetReadyRuns(s: State, w: nat) returns (events: seq<Event>)
    requires AllDone(s)
    ensures forall i :: 0 <= i < |events| ==> !events[i].Await?
    ensures var u := Run(s, events); AllDone(u) && u.ready == s.ready + {w}
  {
    var n := |s.threads|;
    var first := [SetReady(w), Step(n), Step(n), Step(n)];
    events := first + [Step(n)];
    UnrollFour(s, first);
    RunConcat(s, first, [Step(n)]);
    var t := Run(s, first);
    assert t.threads == s.threads + [SettingReady(w, Released)];
    assert Run(t, [Step(n)]) == Apply(t, Step(n));
  }

  lemma {:induction false} MakeReady(s: State, flags: Flags) returns (events: seq<Event>)
    requires AllDone(s)
    ensures forall i :: 0 <= i < |events| ==> !events[i].Await?
    ensures var u := Run(s, events); AllDone(u) && u.ready == s.ready + flags
    decreases |flags|
  {
    if flags == {} {
      events := [];
    } else {
      var w :| w in flags;
      var first := SetReadyRuns(s, w);
      var rest := MakeReady(Run(s, first), flags - {w});
      events := first + rest;
      RunConcat(s, first, rest);
    }
  }

  lemma BlockOn(s: State, f: Expression) returns (events: seq<Event>)
    requires AllDone(s) && !f(s.ready)
    ensures AwaitsOnly(events, f)
    ensures var u := Run(s, events);
      Parked(u, f) && u.ready == s.ready && u.threads == s.threads + [Awaiting(f, Blocked)]
  {
    var n := |s.threads|;
    events := [Await(f), Step(n), Step(n), Step(n)];
    UnrollFour(s, events);
    var u := Run(s, events);
    assert u.threads == s.threads + [Awaiting(f, Blocked)];
  }

  /** If making more waitables ready can make `f` false, then a waiter for `f` can sleep for ever although `f` holds. */
  lemma NonMonotoneLosesWakeup(f: Expression, a: Flags, b: Flags) returns (events: seq<Event>)
    requires a <= b && f(a) && !f(b)
    ensures AwaitsOnly(events, f) && !NoLostWakeup(Run(INIT, events))
  {
    var first := MakeReady(INIT, b);
    var s := Run(INIT, first);
    assert s.ready == b;
    var second := BlockOn(s, f);
    var blocked := Run(s, second);
    var third := MakeWaiting(blocked, f, b - a);
    RunConcat(INIT, first, second);
    RunConcat(INIT, first + second, third);
    events := first + second + third;
    var u := Run(INIT, events);
    assert u.ready == a;
    assert u.threads[|s.threads|] == blocked.threads[|s.threads|] == Awaiting(f, Blocked);
    assert MissesReady(u.threads[|s.threads|], u.ready);
  }

  /** The waiters for an expression never lose a wakeup, in any run, if and only if the expression is monotone. */
  lemma NoLostWakeupIffMonotone(f: Expression)
    ensures Monotone(f) <==> forall events :: AwaitsOnly(events, f) ==> NoLostWakeup(Run(INIT, events))
  {
    if Monotone(f) {
      forall events | AwaitsOnly(events, f) ensures NoLostWakeup(Run(INIT, events)) {
        RunKeepsInv(INIT, events);
        ThreadsAwait(INIT, f, events);
      }
    } else {
      var a, b :| a <= b && f(a) && !f(b);
      var events := NonMonotoneLosesWakeup(f, a, b);
    }
  }

  ghost predicate AllAwait(s: State, f: Expression) {
    forall t :: 0 <= t < |s.threads| && s.threads[t].Awaiting? ==> s.threads[t].expression == f
  }

  lemma {:induction false} ThreadsAwait(s: State, f: Expression, events: seq<Event>)
    requires AwaitsOnly(events, f)
    requires AllAwait(s, f)
    ensures AllAwait(Run(s, events), f)
    decreases |events|
  {
    if events == [] {
    } else {
      StepAwaits(s, f, events[0]);
      ThreadsAwait(Apply(s, events[0]), f, events[1..]);
    }
  }

  lemma StepAwaits(s: State, f: Expression, e: Event)
    requires e.Await? ==> e.expression == f
    requires AllAwait(s, f)
    ensures AllAwait(Apply(s, e), f)
  {
    match e
    case Await(_) =>
    case SetReady(_) =>
    case SetWaiting(_) =>
    case Step(t) =>
      if t < |s.threads| {
        match s.threads[t]
        case Awaiting(_, _) => assert AllAwait(WaiterStepOf(s, t), f);
        case SettingReady(_, _) => assert AllAwait(SetReadyStepOf(s, t), f);
        case SettingWaiting(_, _) => assert AllAwait(SetWaitingStepOf(s, t), f);
      }
    case Wake(_) =>
    case Stop =>
  }

  // ---------- When threads return ----------

  predicate HasReturned(s: State, t: nat) {
    t < |s.threads| && s.threads[t].Awaiting? && s.threads[t].at == Returned
  }

  /** Waiter `t` holds the mutex to test its expression, and the test lets it go. */
  predicate PassesTest(s: State, t: nat) {
    && t < |s.threads| && s.threads[t].Awaiting? && s.threads[t].at == Testing && s.lock == Some(t)
    && (s.threads[t].expression(s.ready) || s.stopped)
  }

  lemma ExclusiveReturnsIff(s: State, e: Event, t: nat)
    requires MutuallyExclusive(s) && !HasReturned(s, t)
    ensures HasReturned(Apply(s, e), t) <==> e == Step(t) && PassesTest(s, t)
  {
  }

  /**
   At any moment of any run, an event lets waiter `t` return if and only if it is the waiter's own test, made under the
   mutex, of an expression that holds then, or after the context was stopped. Waking up is not enough.
   */
  lemma ReturnsIff(before: seq<Event>, e: Event, t: nat)
    requires !HasReturned(Run(INIT, before), t)
    ensures HasReturned(Apply(Run(INIT, before), e), t) <==> e == Step(t) && PassesTest(Run(INIT, before), t)
  {
    RunKeepsInv(INIT, before);
    ExclusiveReturnsIff(Run(INIT, before), e, t);
  }

  /** A blocked waiter goes on if and only if it wakes up or is notified, and then it has to take the mutex again. */
  lemma UnblocksIff(s: State, e: Event, t: nat)
    requires t < |s.threads| && s.threads[t].Awaiting? && s.threads[t].at == Blocked
    ensures var u := Apply(s, e);
      && t < |u.threads|
      && (u.threads[t] != s.threads[t] <==> e == Wake(t) || Notifies(s, e))
      && (u.threads[t] != s.threads[t] ==> u.threads[t] == s.threads[t].(at := Locking))
  {
  }

  lemma {:induction false} RunSnoc(s: State, front: seq<Event>, e: Event)
    ensures Run(s, front + [e]) == Apply(Run(s, front), e)
    decreases |front|
  {
    if front == [] {
      assert front + [e] == [e] && [e][1..] == [];
    } else {
      RunSnoc(Apply(s, front[0]), front[1..], e);
      assert (front + [e])[1..] == front[1..] + [e];
    }
  }

  lemma LastEvent(events: seq<Event>)
    requires events != []
    ensures Run(INIT, events) == Apply(Run(INIT, events[..|events| - 1]), events[|events| - 1])
  {
    var n := |events| - 1;
    assert events == events[..n] + [events[n]];
    RunSnoc(INIT, events[..n], events[n]);
  }

  lemma ExpressionKept(s: State, e: Event, t: nat)
    requires t < |s.threads| && s.threads[t].Awaiting?
    ensures var u := Apply(s, e);
      t < |u.threads| && u.threads[t].Awaiting? && u.threads[t].expression == s.threads[t].expression
      && (s.threads[t].at == Returned ==> u.threads[t] == s.threads[t])
  {
    if e.Step? && e.thread < |s.threads| {
      match s.threads[e.thread]
      case Awaiting(_, _) => assert e.thread != t ==> WaiterStepOf(s, e.thread).threads[t] == s.threads[t];
      case SettingReady(_, _) =>
        assert SetReadyStepOf(s, e.thread).threads[t] in {s.threads[t], Notified(s.threads[t])};
      case SettingWaiting(_, _) => assert SetWaitingStepOf(s, e.thread).threads[t] == s.threads[t];
    }
  }

  /**
   In every run, each waiter that has returned has done so by a test under the mutex, at event `n`: its expression was
   true of the flags at that moment, or the context had been stopped.
   */
  lemma {:induction false} ReturnedPassedTest(events: seq<Event>, t: nat) returns (n: nat)
    requires HasReturned(Run(INIT, events), t)
    ensures n < |events| && events[n] == Step(t) && PassesTest(Run(INIT, events[..n]), t)
    ensures Run(INIT, events[..n]).threads[t].expression == Run(INIT, events).threads[t].expression
    decreases |events|
  {
    assert events != [];
    var m := |events| - 1;
    var front := events[..m];
    var s := Run(INIT, front);
    LastEvent(events);
    if HasReturned(s, t) {
      n := ReturnedPassedTest(front, t);
      assert front[..n] == events[..n];
    } else {
      n := m;
      ReturnsIff(front, events[m], t);
    }
    ExpressionKept(s, events[m], t);
  }

  // ---------- What the flags say ----------

  /** The event sets flag `w` ready, or waiting. */
  ghost predicate Writes(s: State, e: Event, w: nat, value: bool) {
    && e.Step? && e.thread < |s.threads|
    && s.threads[e.thread] == if value then SettingReady(w, Writing) else SettingWaiting(w, Writing)
  }

  ghost predicate LastWrittenReady(events: seq<Event>, w: nat) {
    exists n :: 0 <= n < |events| && WritesAt(events, n, w, true)
                && forall m :: n < m < |events| ==> !WritesAt(events, m, w, false)
  }

  ghost predicate WritesAt(events: seq<Event>, n: nat, w: nat, value: bool)
    requires n < |events|
  {
    Writes(Run(INIT, events[..n]), events[n], w, value)
  }

  lemma WritesIff(s: State, e: Event, w: nat)
    ensures w in Apply(s, e).ready <==> Writes(s, e, w, true) || (w in s.ready && !Writes(s, e, w, false))
  {
  }

  /** In every run, a waitable is ready if and only if the last write to it was one of `setReady`. */
  lemma {:induction false} ReadyIffLastWritten(events: seq<Event>, w: nat)
    ensures w in Run(INIT, events).ready <==> LastWrittenReady(events, w)
    decreases |events|
  {
    if events == [] {
    } else {
      var m := |events| - 1;
      var front := events[..m];
      LastEvent(events);
      ReadyIffLastWritten(front, w);
      WritesIff(Run(INIT, front), events[m], w);
      assert forall n :: 0 <= n < m ==> events[..n] == front[..n];
      assert forall n, value :: 0 <= n < m ==> WritesAt(events, n, w, value) == WritesAt(front, n, w, value);
      assert forall value :: WritesAt(events, m, w, value) == Writes(Run(INIT, front), events[m], w, value);
    }
  }

  /** The context is stopped if and only if someone has stopped it. */
  lemma {:induction false} StoppedIff(s: State, events: seq<Event>)
    ensures Run(s, events).stopped <==> s.stopped || Stop in events
    decreases |events|
  {
    if events == [] {
    } else {
      StoppedIff(Apply(s, events[0]), events[1..]);
    }
  }

  predicate HasWritten(s: State, t: nat) {
    && t < |s.threads| && s.threads[t].SettingReady?
    && (s.threads[t].step == Written || s.threads[t].step == Released || s.threads[t].step == Finished)
  }

  /** How a thread comes to have written, and to have notified. */
  lemma HowSettersAdvance(s: State, e: Event, t: nat)
    requires MutuallyExclusive(s) && HasWritten(Apply(s, e), t)
    ensures t < |s.threads| && s.threads[t].SettingReady? && s.threads[t].flag == Apply(s, e).threads[t].flag
    ensures !HasWritten(s, t) ==>
      && e == Step(t) && Writes(s, e, s.threads[t].flag, true) && s.lock == Some(t)
      && Apply(s, e).threads[t].step == Written
    ensures Apply(s, e).threads[t].step == Finished && s.threads[t].step != Finished ==>
      e == Step(t) && Notifies(s, e)
  {
    if e.Step? && e.thread < |s.threads| && e.thread != t {
      assert t < |s.threads| && Apply(s, e).threads[t] == s.threads[t];
    }
  }

  /**
   In every run, a `setReady` that has returned has set its flag while it held the mutex, and has notified all waiters
   afterwards.
   */
  lemma {:induction false} SetterWroteAndNotified(events: seq<Event>, t: nat) returns (written: nat, notified: nat)
    requires HasWritten(Run(INIT, events), t)
    ensures written < |events| && events[written] == Step(t) && Run(INIT, events[..written]).lock == Some(t)
    ensures WritesAt(events, written, Run(INIT, events).threads[t].flag, true)
    ensures Run(INIT, events).threads[t].step == Finished ==>
      written < notified < |events| && events[notified] == Step(t) && Notifies(Run(INIT, events[..notified]), Step(t))
    decreases |events|
  {
    assert events != [];
    var m := |events| - 1;
    var front := events[..m];
    var s := Run(INIT, front);
    LastEvent(events);
    RunKeepsInv(INIT, front);
    HowSettersAdvance(s, events[m], t);
    written, notified := m, m;
    if HasWritten(s, t) {
      written, notified := SetterWroteAndNotified(front, t);
      assert front[..written] == events[..written];
      if s.threads[t].step != Finished {
        notified := m;
      } else {
        assert front[..notified] == events[..notified];
      }
    }
  }

  // ---------- Waiting inside the context ----------

  /** A queued handler: the waitables that it sets ready or waiting, and whether it stops the context. */
  datatype Handler = Handler(makesReady: Flags, makesWaiting: Flags, stops: bool)

  datatype Context = Context(ready: Flags, stopped: bool)

  function RunOne(c: Context, h: Handler): Context {
    Context(c.ready - h.makesWaiting + h.makesReady, c.stopped || h.stops)
  }

  /** The context after the first `n` handlers. */
  function After(c: Context, handlers: seq<Handler>, n: nat): Context
    requires n <= |handlers|
  {
    if n == 0 then c else RunOne(After(c, handlers, n - 1), handlers[n - 1])
  }

  predicate Settled(c: Context, expression: Expression) {
    expression(c.ready) || c.stopped
  }

  /**
   What `await` uses on a thread that runs the context; that thread alone runs handlers, so the mutex around the test is
   not contended. `handlers` are all that will ever be posted, in the order in which they run.
   */
  class ContextWaiter {
    var ready: Flags
    var stopped: bool
    var handlers: seq<Handler>

    ghost function View(): Context
      reads this
    {
      Context(ready, stopped)
    }

    /** `context.run_one()`, when there is another handler to run. */
    method RunNext()
      requires handlers != []
      modifies this
      ensures View() == RunOne(old(View()), old(handlers[0])) && handlers == old(handlers[1..])
    {
      var h := handlers[0];
      handlers := handlers[1..];
      ready := ready - h.makesWaiting + h.makesReady;
      stopped := stopped || h.stops;
    }

    /**
     Exactly the shortest prefix of the handlers runs that makes the expression true or stops the context. If there is
     no such prefix, then all of them run, and `run_one` blocks for ever.
     */
    method Await(expression: Expression) returns (executed: nat, blocked: bool)
      modifies this
      ensures executed <= |old(handlers)| && handlers == old(handlers)[executed..]
      ensures View() == After(old(View()), old(handlers), executed)
      ensures Settled(View(), expression) == !blocked
      ensures forall n :: 0 <= n < executed ==> !Settled(After(old(View()), old(handlers), n), expression)
      ensures blocked ==> executed == |old(handlers)|
    {
      ghost var start, queue := View(), handlers;
      executed, blocked := 0, false;
      while true
        invariant executed <= |queue| && handlers == queue[executed..]
        invariant View() == After(start, queue, executed)
        invariant forall n :: 0 <= n < executed ==> !Settled(After(start, queue, n), expression)
        decreases |handlers|
      {
        if expression(ready) {
          break;
        }
        if stopped {
          break;
        }
        if handlers == [] {
          blocked := true;
          break;
        }
        RunNext();
        executed := executed + 1;
      }
    }
  }
}
