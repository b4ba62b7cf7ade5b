/**
 `Timer`: one-shot and periodic timeouts on one asio timer, sequenced by a manager with a replacer.

 The asio timer holds at most one wait. `Elapse` is the moment at which asio queues the wait's handler without an
 error; `Handle` runs the queued handler, later and possibly after a cancel. User handlers are modelled by the calls
 that they make on the same timer.
 */
module Timers {
  import opened Common
  import M = OperationManager

  datatype Kind = OneShot | Periodic

  datatype Job = Job(kind: Kind, duration: int)

  datatype Wait = NoWait | Waiting | Elapsed | WaitAborted

  /** The `round`-th expiry of operation `op`, armed first at `armedAt`; its user handler ran at `at`. */
  datatype Firing = Firing(op: M.OpId, armedAt: int, round: nat, expiry: int, at: int)

  datatype State = State(
    mgr: M.State,
    jobs: seq<Job>,
    wait: Wait,
    expiry: int,
    armedAt: int,
    round: nat,
    fired: seq<Firing>)

  datatype Command = Submit(job: Job) | Cancel

  datatype Event = Call(command: Command, now: int) | Elapse(now: int) | Handle(commands: seq<Command>, now: int)

  function Init(): State {
    State(M.Init(M.Replacer(None)), [], NoWait, 0, 0, 0, [])
  }

  /** The operation started last. */
  function Current(s: State): M.OpId {
    if s.mgr.started == [] then 0 else s.mgr.started[|s.mgr.started| - 1]
  }

  /** What was submitted as operation `op`; every started operation has a job, see `Inv`. */
  function JobOf(s: State, op: M.OpId): Job {
    if op < |s.jobs| then s.jobs[op] else Job(OneShot, 0)
  }

  /** The operation that the manager has just started arms the timer. */
  function Begin(s: State, now: int): State {
    s.(wait := Waiting, expiry := now + JobOf(s, Current(s)).duration, armedAt := now, round := 0)
  }

  function CancelWait(wait: Wait): Wait {
    if wait == Waiting then WaitAborted else wait
  }

  function Do(s: State, c: Command, now: int): State {
    match c
    case Submit(job) =>
      var t := s.(mgr := M.StartStep(s.mgr), jobs := s.jobs + [job]);
      if !s.mgr.running then Begin(t, now) else t.(wait := CancelWait(s.wait))
    case Cancel =>
      s.(mgr := M.CancelStep(s.mgr), wait := CancelWait(s.wait))
  }

  function DoAll(s: State, commands: seq<Command>, now: int): State
    decreases |commands|
  {
    if commands == [] then s else DoAll(Do(s, commands[0], now), commands[1..], now)
  }

  /** The notifier calls `finishOperation`, which begins the pending operation. */
  function EndOperation(s: State, now: int): State {
    var t := s.(mgr := M.FinishStep(s.mgr), wait := NoWait);
    if s.mgr.pending.HasPendingOperation() then Begin(t, now) else t
  }

  /** The user handler of the current operation is called. */
  function Fire(s: State, now: int): State {
    s.(wait := NoWait, fired := s.fired + [Firing(Current(s), s.armedAt, s.round, s.expiry, now)])
  }

  /** `nextPeriod`. */
  function NextPeriod(s: State, now: int): State {
    if s.mgr.canceled then EndOperation(s, now)
    else s.(expiry := s.expiry + JobOf(s, Current(s)).duration, round := s.round + 1, wait := Waiting)
  }

  /** The handler of the asio wait; `commands` are the calls that the user handler makes. */
  function HandleWait(s: State, commands: seq<Command>, now: int): State {
    if s.wait == WaitAborted || s.mgr.canceled then
      EndOperation(s, now)
    else if JobOf(s, Current(s)).kind == OneShot then
      DoAll(EndOperation(Fire(s, now), now), commands, now)
    else
      NextPeriod(DoAll(Fire(s, now), commands, now), now)
  }

  predicate Possible(s: State, e: Event) {
    match e
    case Call(_, _) => true
    case Elapse(now) => s.wait == Waiting && s.expiry <= now
    case Handle(_, now) => s.wait == WaitAborted || (s.wait == Elapsed && s.expiry <= now)
  }

  function Step(s: State, e: Event): State {
    match e
    case Call(c, now) => Do(s, c, now)
    case Elapse(_) => s.(wait := Elapsed)
    case Handle(commands, now) => HandleWait(s, commands, now)
  }

  ghost predicate Runs(s: State, events: seq<Event>, t: State)
    decreases |events|
  {
    if events == [] then s == t
    else Possible(s, events[0]) && Runs(Step(s, events[0]), events[1..], t)
  }

  // ---------- The invariant ----------

  /** Expiries are a whole number of periods after the first arming, whatever the latency of the handlers. */
  ghost predicate OnSchedule(f: Firing, job: Job) {
    && f.expiry == f.armedAt + (f.round + 1) * job.duration
    && f.expiry <= f.at
    && (job.kind == OneShot ==> f.round == 0)
  }

  /** Operations fire one after the other, and each counts its rounds from zero. */
  ghost predicate Consecutive(fired: seq<Firing>) {
    && (fired != [] ==> fired[0].round == 0)
    && (forall k :: 0 < k < |fired| ==> Follows(fired[k - 1], fired[k]))
  }

  ghost predicate Follows(f: Firing, g: Firing) {
    if f.op == g.op then g.armedAt == f.armedAt && g.round == f.round + 1
    else f.op < g.op && g.round == 0
  }

  /** What holds even while a periodic user handler runs. */
  ghost predicate Consistent(s: State) {
    && M.Inv(s.mgr)
    && s.mgr.pending.Replacer?
    && |s.jobs| == s.mgr.submitted
    && (!s.mgr.running ==> s.wait == NoWait)
    && (s.mgr.running ==> s.expiry == s.armedAt + (s.round + 1) * JobOf(s, Current(s)).duration)
    && (s.fired != [] ==> s.mgr.started != [])
    && Log(s)
  }

  ghost predicate Log(s: State) {
    && (forall k :: 0 <= k < |s.fired| ==> s.fired[k].op < |s.jobs| && OnSchedule(s.fired[k], s.jobs[s.fired[k].op]))
    && Consecutive(s.fired)
    && (s.fired != [] ==> s.fired[|s.fired| - 1].op <= Current(s))
  }

  /** The firing numbered `round` of the current operation will follow the last one. */
  ghost predicate Armed(s: State, round: nat) {
    s.mgr.running ==>
      if round == 0 then s.fired == [] || s.fired[|s.fired| - 1].op < Current(s)
      else JobOf(s, Current(s)).kind == Periodic && s.fired != [] && var f := s.fired[|s.fired| - 1];
        f.op == Current(s) && f.armedAt == s.armedAt && f.round == round - 1
  }

  /** Between handlers, an operation is running if and only if the timer has its one wait. */
  ghost predicate Inv(s: State) {
    Consistent(s) && Armed(s, s.round) && (s.mgr.running ==> s.wait != NoWait)
  }

  /** Calls made while an operation runs do not touch it: at most they abort its wait. */
  ghost predicate SameOperation(s: State, t: State) {
    && t.mgr.running && t.mgr.started == s.mgr.started
    && (t.wait == s.wait || t.wait == CancelWait(s.wait))
    && t.expiry == s.expiry && t.armedAt == s.armedAt && t.round == s.round && t.fired == s.fired
    && JobOf(t, Current(t)) == JobOf(s, Current(s))
  }

  lemma CurrentIsOld(s: State)
    requires M.Inv(s.mgr) && s.mgr.started != []
    ensures Current(s) < M.Settled(s.mgr) <= s.mgr.submitted
  {
  }

  lemma CancelKeepsConsistent(s: State, now: int)
    requires Consistent(s)
    ensures Consistent(Do(s, Cancel, now)) && (Inv(s) ==> Inv(Do(s, Cancel, now)))
    ensures s.mgr.running ==> SameOperation(s, Do(s, Cancel, now))
  {
    M.CancelPreservesInv(s.mgr);
  }

  lemma SubmitKeepsLog(s: State, job: Job, now: int)
    requires Consistent(s)
    ensures Log(Do(s, Submit(job), now))
  {
    if s.mgr.started != [] {
      CurrentIsOld(s);
    }
  }

  lemma SubmitKeepsConsistent(s: State, job: Job, now: int)
    requires Consistent(s)
    ensures Consistent(Do(s, Submit(job), now)) && (Inv(s) ==> Inv(Do(s, Submit(job), now)))
    ensures s.mgr.running ==> SameOperation(s, Do(s, Submit(job), now))
  {
    M.StartPreservesInv(s.mgr);
    SubmitKeepsLog(s, job, now);
    if s.mgr.started != [] {
      CurrentIsOld(s);
    }
  }

  lemma DoKeepsConsistent(s: State, c: Command, now: int)
    requires Consistent(s)
    ensures Consistent(Do(s, c, now)) && (Inv(s) ==> Inv(Do(s, c, now)))
    ensures s.mgr.running ==> SameOperation(s, Do(s, c, now))
  {
    match c
    case Submit(job) => SubmitKeepsConsistent(s, job, now);
    case Cancel => CancelKeepsConsistent(s, now);
  }

  lemma {:induction false} DoAllKeepsConsistent(s: State, commands: seq<Command>, now: int)
    requires Consistent(s)
    ensures Consistent(DoAll(s, commands, now)) && (Inv(s) ==> Inv(DoAll(s, commands, now)))
    ensures s.mgr.running ==> SameOperation(s, DoAll(s, commands, now))
    decreases |commands|
  {
    if commands == [] {
    } else {
      DoKeepsConsistent(s, commands[0], now);
      DoAllKeepsConsistent(Do(s, commands[0], now), commands[1..], now);
    }
  }

  lemma EndRestoresInv(s: State, now: int)
    requires Consistent(s) && s.mgr.running
    ensures Inv(EndOperation(s, now))
    ensures EndOperation(s, now).mgr.running ==> Current(s) < Current(EndOperation(s, now))
  {
    CurrentIsOld(s);
    M.FinishPreservesInv(s.mgr);
  }

  lemma FireKeepsConsistent(s: State, now: int)
    requires Inv(s) && s.mgr.running && s.expiry <= now
    ensures Consistent(Fire(s, now))
    ensures JobOf(s, Current(s)).kind == Periodic ==> Armed(Fire(s, now), s.round + 1)
  {
    CurrentIsOld(s);
    var t := Fire(s, now);
    assert Consecutive(t.fired);
    assert Log(t);
  }

  lemma NextPeriodRestoresInv(s: State, now: int)
    requires Consistent(s) && s.mgr.running && Armed(s, s.round + 1)
    ensures Inv(NextPeriod(s, now))
  {
    var d := JobOf(s, Current(s)).duration;
    assert (s.round + 2) * d == (s.round + 1) * d + d;
    EndRestoresInv(s, now);
  }

  lemma HandleKeepsInv(s: State, commands: seq<Command>, now: int)
    requires Inv(s) && Possible(s, Handle(commands, now))
    ensures Inv(HandleWait(s, commands, now))
  {
    if s.wait == WaitAborted || s.mgr.canceled {
      EndRestoresInv(s, now);
    } else {
      FireKeepsConsistent(s, now);
      var fired := Fire(s, now);
      if JobOf(s, Current(s)).kind == OneShot {
        EndRestoresInv(fired, now);
        DoAllKeepsConsistent(EndOperation(fired, now), commands, now);
      } else {
        DoAllKeepsConsistent(fired, commands, now);
        NextPeriodRestoresInv(DoAll(fired, commands, now), now);
      }
    }
  }

  lemma StepKeepsInv(s: State, e: Event)
    requires Inv(s) && Possible(s, e)
    ensures Inv(Step(s, e))
  {
    match e
    case Call(c, now) => DoKeepsConsistent(s, c, now);
    case Elapse(_) =>
    case Handle(commands, now) => HandleKeepsInv(s, commands, now);
  }

  lemma {:induction false} RunKeepsInv(s: State, events: seq<Event>, t: State)
    requires Inv(s) && Runs(s, events, t)
    ensures Inv(t)
    decreases |events|
  {
    if events == [] {
    } else {
      StepKeepsInv(s, events[0]);
      RunKeepsInv(Step(s, events[0]), events[1..], t);
    }
  }

  // ---------- The schedule ----------

  /** The firings of one operation, in order. */
  function FiringsOf(fired: seq<Firing>, op: M.OpId): seq<Firing> {
    if fired == [] then []
    else
      var n := |fired| - 1;
      FiringsOf(fired[..n], op) + if fired[n].op == op then [fired[n]] else []
  }

  lemma {:induction false} FiringsAreFirings(fired: seq<Firing>, op: M.OpId)
    ensures forall f :: f in FiringsOf(fired, op) ==> f in fired && f.op == op
    decreases |fired|
  {
    if fired == [] {
    } else {
      FiringsAreFirings(fired[..|fired| - 1], op);
    }
  }

  /** The rounds of one operation count up from zero and share the instant at which it was armed. */
  ghost predicate InRounds(firings: seq<Firing>) {
    forall k :: 0 <= k < |firings| ==> firings[k].round == k && firings[k].armedAt == firings[0].armedAt
  }

  lemma {:induction false} FiringsInOrder(fired: seq<Firing>, op: M.OpId)
    requires Consecutive(fired)
    ensures InRounds(FiringsOf(fired, op))
    ensures fired != [] && fired[|fired| - 1].op < op ==> FiringsOf(fired, op) == []
    ensures fired != [] && fired[|fired| - 1].op == op ==>
      FiringsOf(fired, op) != [] && FiringsOf(fired, op)[|FiringsOf(fired, op)| - 1] == fired[|fired| - 1]
    decreases |fired|
  {
    if fired == [] {
    } else {
      var n := |fired| - 1;
      FiringsInOrder(fired[..n], op);
      if n > 0 {
        assert Follows(fired[n - 1], fired[n]);
        assert fired[..n][n - 1] == fired[n - 1];
      }
    }
  }

  /**
   In every run, the k-th expiry of an operation is its first expiry plus k intervals, however late the handlers run;
   no user handler runs before its expiry, and a one-shot timeout fires at most once.
   */
  lemma Schedule(events: seq<Event>, t: State, op: M.OpId, k: nat)
    requires Runs(Init(), events, t) && k < |FiringsOf(t.fired, op)|
    ensures var firings := FiringsOf(t.fired, op);
      && firings[0].expiry == firings[0].armedAt + JobOf(t, op).duration
      && firings[k].expiry == firings[0].expiry + k * JobOf(t, op).duration
      && firings[k].expiry <= firings[k].at
      && (JobOf(t, op).kind == OneShot ==> k == 0)
  {
    RunKeepsInv(Init(), events, t);
    FiringsInOrder(t.fired, op);
    var firings, job := FiringsOf(t.fired, op), JobOf(t, op);
    FiringOnSchedule(t, op, firings[0]);
    FiringOnSchedule(t, op, firings[k]);
    RoundsOnSchedule(firings, job, k);
  }

  lemma RoundsOnSchedule(firings: seq<Firing>, job: Job, k: nat)
    requires k < |firings| && InRounds(firings) && OnSchedule(firings[0], job) && OnSchedule(firings[k], job)
    ensures firings[0].expiry == firings[0].armedAt + job.duration
    ensures firings[k].expiry == firings[0].expiry + k * job.duration
  {
    assert (k + 1) * job.duration == k * job.duration + job.duration;
  }

  lemma FiringOnSchedule(s: State, op: M.OpId, f: Firing)
    requires Log(s) && f in FiringsOf(s.fired, op)
    ensures OnSchedule(f, JobOf(s, op)) && f.expiry <= f.at && (JobOf(s, op).kind == OneShot ==> f.round == 0)
  {
    FiringsAreFirings(s.fired, op);
  }

  // ---------- Cancel ----------

  /** None of the first `n` operations will fire: the one still there is canceled, or its wait is aborted. */
  ghost predicate Doomed(s: State, n: nat) {
    && n <= s.mgr.submitted
    && s.mgr.pending.Replacer?
    && (s.mgr.pending.HasPendingOperation() ==> n <= s.mgr.pending.GetPendingOperation())
    && (s.mgr.running ==> n <= Current(s) || s.mgr.canceled || s.wait == WaitAborted)
    && (s.wait != NoWait ==> s.mgr.running)
  }

  lemma DoKeepsDoomed(s: State, c: Command, now: int, n: nat)
    requires Doomed(s, n)
    ensures Doomed(Do(s, c, now), n)
  {
  }

  lemma {:induction false} DoAllKeepsDoomed(s: State, commands: seq<Command>, now: int, n: nat)
    requires Doomed(s, n)
    ensures Doomed(DoAll(s, commands, now), n)
    decreases |commands|
  {
    if commands == [] {
    } else {
      DoKeepsDoomed(s, commands[0], now, n);
      DoAllKeepsDoomed(Do(s, commands[0], now), commands[1..], now, n);
    }
  }

  lemma EndKeepsDoomed(s: State, now: int, n: nat)
    requires s.mgr.running && Doomed(s, n)
    ensures Doomed(EndOperation(s, now), n)
  {
  }

  lemma HandleKeepsDoomed(s: State, commands: seq<Command>, now: int, n: nat)
    requires s.wait != NoWait && Doomed(s, n)
    ensures Doomed(HandleWait(s, commands, now), n)
    ensures s.fired <= HandleWait(s, commands, now).fired
    ensures forall k :: |s.fired| <= k < |HandleWait(s, commands, now).fired| ==>
      n <= HandleWait(s, commands, now).fired[k].op
  {
    if s.wait == WaitAborted || s.mgr.canceled {
      EndKeepsDoomed(s, now, n);
    } else {
      var fired := Fire(s, now);
      if JobOf(s, Current(s)).kind == OneShot {
        EndKeepsDoomed(fired, now, n);
        DoAllKeepsDoomed(EndOperation(fired, now), commands, now, n);
        DoAllFiresNothing(EndOperation(fired, now), commands, now);
      } else {
        DoAllKeepsDoomed(fired, commands, now, n);
        DoAllFiresNothing(fired, commands, now);
        NextPeriodKeepsDoomed(DoAll(fired, commands, now), now, n);
      }
    }
  }

  lemma NextPeriodKeepsDoomed(s: State, now: int, n: nat)
    requires s.mgr.running && s.wait == NoWait && Doomed(s, n)
    ensures Doomed(NextPeriod(s, now), n) && NextPeriod(s, now).fired == s.fired
  {
    EndKeepsDoomed(s, now, n);
  }

  lemma {:induction false} DoAllFiresNothing(s: State, commands: seq<Command>, now: int)
    ensures DoAll(s, commands, now).fired == s.fired
    ensures s.mgr.running ==> DoAll(s, commands, now).mgr.running
    ensures s.mgr.running && s.wait == NoWait ==> DoAll(s, commands, now).wait == NoWait
    decreases |commands|
  {
    if commands == [] {
    } else {
      DoAllFiresNothing(Do(s, commands[0], now), commands[1..], now);
    }
  }

  lemma {:induction false} DoomedNeverFires(s: State, events: seq<Event>, t: State, n: nat)
    requires Runs(s, events, t) && Doomed(s, n)
    ensures s.fired <= t.fired
    ensures forall k :: |s.fired| <= k < |t.fired| ==> n <= t.fired[k].op
    decreases |events|
  {
    if events == [] {
    } else {
      var u := Step(s, events[0]);
      match events[0] {
        case Elapse(_) =>
        case Call(c, now) => DoKeepsDoomed(s, c, now, n);
        case Handle(commands, now) => HandleKeepsDoomed(s, commands, now, n);
      }
      assert s.fired <= u.fired;
      DoomedNeverFires(u, events[1..], t, n);
    }
  }

  /** After `cancel`, no timeout submitted before it ever fires again, even if its handler is already queued. */
  lemma CancelStopsTimeouts(s: State, now: int, events: seq<Event>, t: State)
    requires Inv(s) && Runs(Do(s, Cancel, now), events, t)
    ensures s.fired <= t.fired
    ensures forall k :: |s.fired| <= k < |t.fired| ==> s.mgr.submitted <= t.fired[k].op
  {
    DoomedNeverFires(Do(s, Cancel, now), events, t, s.mgr.submitted);
  }

  /**
   The same holds if the cancel is called inside a user handler, between any other calls of that handler; the firing
   in progress is the last one of the operations submitted until then.
   */
  lemma CancelInHandlerStopsTimeouts(s: State, before: seq<Command>, after: seq<Command>, now: int,
                                     events: seq<Event>, t: State)
    requires Inv(s) && s.wait == Elapsed && !s.mgr.canceled
    requires Runs(HandleWait(s, before + [Cancel] + after, now), events, t)
    ensures |s.fired| < |t.fired|
    ensures forall k :: |s.fired| < k < |t.fired| ==> s.mgr.submitted + Submissions(before) <= t.fired[k].op
  {
    var n := s.mgr.submitted + Submissions(before);
    var commands, fired := before + [Cancel] + after, Fire(s, now);
    if JobOf(s, Current(s)).kind == OneShot {
      CancelAmongDooms(EndOperation(fired, now), before, after, now);
      DoAllFiresNothing(EndOperation(fired, now), commands, now);
    } else {
      CancelAmongDooms(fired, before, after, now);
      DoAllFiresNothing(fired, commands, now);
      NextPeriodKeepsDoomed(DoAll(fired, commands, now), now, n);
    }
    DoomedNeverFires(HandleWait(s, commands, now), events, t, n);
  }

  function Submissions(commands: seq<Command>): nat {
    if commands == [] then 0 else (if commands[0].Submit? then 1 else 0) + Submissions(commands[1..])
  }

  lemma {:induction false} CancelAmongDooms(s: State, before: seq<Command>, after: seq<Command>, now: int)
    requires s.mgr.pending.Replacer? && (s.wait != NoWait ==> s.mgr.running)
    ensures Doomed(DoAll(s, before + [Cancel] + after, now), s.mgr.submitted + Submissions(before))
    decreases |before|
  {
    var commands := before + [Cancel] + after;
    var t := Do(s, commands[0], now);
    if before == [] {
      assert commands[1..] == after;
      DoAllKeepsDoomed(t, after, now, s.mgr.submitted);
    } else {
      assert commands[1..] == before[1..] + [Cancel] + after;
      CancelAmongDooms(t, before[1..], after, now);
    }
  }

  /** No firing of operation `op` is added in any run. */
  ghost predicate NeverFires(s: State, op: M.OpId) {
    forall events, t :: Runs(s, events, t) ==> forall k :: |s.fired| <= k < |t.fired| ==> t.fired[k].op != op
  }

  /**
   A timeout started on an idle timer is silently lost, whatever happens afterwards, if and only if the manager's cancel
   flag is set, that is after a `cancel` that found the timer idle.
   */
  lemma StaleCancelLosesTimeout(s: State, job: Job, now: int)
    requires Inv(s) && !s.mgr.running
    ensures NeverFires(Do(s, Submit(job), now), s.mgr.submitted) <==> s.mgr.canceled
  {
    var u := Do(s, Submit(job), now);
    if s.mgr.canceled {
      forall events, t | Runs(u, events, t)
        ensures forall k :: |u.fired| <= k < |t.fired| ==> t.fired[k].op != s.mgr.submitted
      {
        DoomedNeverFires(u, events, t, s.mgr.submitted + 1);
      }
    } else {
      var events, t := FirstTimeout(s, job, now, now + job.duration, []);
      assert t.fired[|u.fired|].op == s.mgr.submitted;
    }
  }

  /** With the flag clear, the timeout fires at any time from its expiry on, unless it is canceled or replaced. */
  lemma FirstTimeout(s: State, job: Job, now: int, later: int, commands: seq<Command>)
    returns (events: seq<Event>, t: State)
    requires Inv(s) && !s.mgr.running && !s.mgr.canceled && now + job.duration <= later
    ensures events == [Elapse(later), Handle(commands, later)] && Runs(Do(s, Submit(job), now), events, t)
    ensures t.fired == s.fired + [Firing(s.mgr.submitted, now, 0, now + job.duration, later)]
  {
    var u := Do(s, Submit(job), now);
    var e, h := Elapse(later), Handle(commands, later);
    var v := Step(u, e);
    t := Step(v, h);
    events := [e, h];
    assert Current(u) == s.mgr.submitted && JobOf(u, Current(u)) == job;
    DoAllFiresNothing(EndOperation(Fire(v, later), later), commands, later);
    DoAllFiresNothing(Fire(v, later), commands, later);
    assert [h][1..] == [] && Runs(t, [], t);
    assert events[1..] == [h] && Runs(v, [h], t);
  }

  // ---------- Replacement ----------

  /** What a queued handler does when no cancel keeps it from the user handler. */
  lemma QueuedHandlerFires(s: State, later: int) returns (events: seq<Event>, t: State)
    requires Inv(s) && s.wait == Elapsed && !s.mgr.canceled && s.expiry <= later
    ensures events == [Handle([], later)] && Runs(s, events, t)
    ensures t.fired == s.fired + [Firing(Current(s), s.armedAt, s.round, s.expiry, later)]
  {
    var h := Handle([], later);
    t := Step(s, h);
    events := [h];
    assert DoAll(Fire(s, later), [], later) == Fire(s, later);
    assert events[1..] == [] && Runs(t, [], t);
  }

  lemma ArmedTimerFires(s: State) returns (events: seq<Event>, t: State)
    requires Inv(s) && s.wait == Waiting && !s.mgr.canceled
    ensures Runs(s, events, t)
    ensures t.fired == s.fired + [Firing(Current(s), s.armedAt, s.round, s.expiry, s.expiry)]
  {
    var e := Elapse(s.expiry);
    StepKeepsInv(s, e);
    var rest;
    rest, t := QueuedHandlerFires(Step(s, e), s.expiry);
    events := [e] + rest;
    assert events[1..] == rest;
  }

  /**
   A timeout that is replaced, one-shot or periodic, never fires again if and only if its handler is not queued yet or
   the cancel flag keeps that from the user handler: starting another timeout aborts the wait.
   */
  lemma ReplacedNeverFiresIff(s: State, job: Job, now: int)
    requires Inv(s) && s.mgr.running
    ensures NeverFires(Do(s, Submit(job), now), Current(s)) <==> s.wait != Elapsed || s.mgr.canceled
  {
    var u := Do(s, Submit(job), now);
    SubmitKeepsConsistent(s, job, now);
    CurrentIsOld(s);
    if s.wait != Elapsed || s.mgr.canceled {
      forall events, t | Runs(u, events, t)
        ensures forall k :: |u.fired| <= k < |t.fired| ==> t.fired[k].op != Current(s)
      {
        DoomedNeverFires(u, events, t, Current(s) + 1);
      }
    } else {
      var events, t := QueuedHandlerFires(u, u.expiry);
      assert t.fired[|u.fired|].op == Current(s);
    }
  }

  /**
   The aborted wait is handled at once, whatever its expiry, without a call of the user handler, and with that the
   replacement begins: it expires its own duration later.
   */
  lemma ReplacementTakesOver(s: State, job: Job, now: int, commands: seq<Command>, later: int)
    requires Inv(s) && s.mgr.running && s.wait != Elapsed
    ensures Possible(Do(s, Submit(job), now), Handle(commands, later))
    ensures var t := Step(Do(s, Submit(job), now), Handle(commands, later));
      && t.fired == s.fired
      && t.mgr.running && !t.mgr.canceled && Current(t) == s.mgr.submitted && JobOf(t, Current(t)) == job
      && t.wait == Waiting && t.armedAt == later && t.round == 0 && t.expiry == later + job.duration
  {
  }

  /** From any moment at which the handler of the aborted wait runs, the replacement needs just its duration to fire. */
  lemma ReplacementFires(s: State, job: Job, now: int, later: int) returns (events: seq<Event>, t: State)
    requires Inv(s) && s.mgr.running && s.wait != Elapsed
    ensures Runs(Do(s, Submit(job), now), events, t)
    ensures var expiry := later + job.duration;
      t.fired == s.fired + [Firing(s.mgr.submitted, later, 0, expiry, expiry)]
  {
    var u := Do(s, Submit(job), now);
    var h := Handle([], later);
    SubmitKeepsConsistent(s, job, now);
    ReplacementTakesOver(s, job, now, [], later);
    HandleKeepsInv(u, [], later);
    var rest;
    rest, t := ArmedTimerFires(Step(u, h));
    events := [h] + rest;
    assert events[1..] == rest;
  }

  /** After a cancel, the aborted wait is handled at once, and the timer is idle and can be used again. */
  lemma CanceledTimerIsFreed(s: State, now: int, later: int)
    requires Inv(s) && s.mgr.running && s.wait != Elapsed
    ensures Possible(Do(s, Cancel, now), Handle([], later))
    ensures var t := Step(Do(s, Cancel, now), Handle([], later));
      && Inv(t) && t.fired == s.fired && t.mgr.submitted == s.mgr.submitted
      && !t.mgr.running && !t.mgr.canceled && t.wait == NoWait
  {
    CancelKeepsConsistent(s, now);
    HandleKeepsInv(Do(s, Cancel, now), [], later);
  }

  lemma IdleTimerFires(s: State, job: Job, start: int) returns (events: seq<Event>, t: State)
    requires Inv(s) && !s.mgr.running && !s.mgr.canceled
    ensures Runs(s, events, t)
    ensures var expiry := start + job.duration;
      t.fired == s.fired + [Firing(s.mgr.submitted, start, 0, expiry, expiry)]
  {
    var c := Call(Submit(job), start);
    var rest;
    rest, t := FirstTimeout(s, job, start, start + job.duration, []);
    events := [c] + rest;
    assert events[1..] == rest;
  }

  /** So a timeout that is started after that fires, at its own expiry. */
  lemma UsableAfterCancel(s: State, now: int, later: int, job: Job, start: int) returns (events: seq<Event>, t: State)
    requires Inv(s) && s.mgr.running && s.wait != Elapsed
    ensures Runs(Do(s, Cancel, now), events, t)
    ensures var expiry := start + job.duration;
      t.fired == s.fired + [Firing(s.mgr.submitted, start, 0, expiry, expiry)]
  {
    var h := Handle([], later);
    CanceledTimerIsFreed(s, now, later);
    var rest;
    rest, t := IdleTimerFires(Step(Do(s, Cancel, now), h), job, start);
    events := [h] + rest;
    assert events[1..] == rest;
  }

  // ---------- Inside handlers ----------

  lemma {:induction false} IdleCommands(s: State, commands: seq<Command>, now: int)
    requires !s.mgr.running && s.wait == NoWait && Submissions(commands) == 0
    ensures var t := DoAll(s, commands, now);
      && !t.mgr.running && t.mgr.submitted == s.mgr.submitted
      && (t.mgr.canceled <==> s.mgr.canceled || Cancel in commands)
    decreases |commands|
  {
    if commands == [] {
    } else {
      IdleCommands(Do(s, commands[0], now), commands[1..], now);
    }
  }

  lemma {:induction false} DoAllSnoc(s: State, commands: seq<Command>, c: Command, now: int)
    ensures DoAll(s, commands + [c], now) == Do(DoAll(s, commands, now), c, now)
    decreases |commands|
  {
    if commands == [] {
      assert commands + [c] == [c] && [c][1..] == [];
    } else {
      DoAllSnoc(Do(s, commands[0], now), commands[1..], c, now);
      assert (commands + [c])[1..] == commands[1..] + [c];
    }
  }

  /**
   The handler of a one-shot timeout runs on an idle timer: a timeout that it starts begins at once. It is silently lost
   if and only if the same handler has called `cancel` before, whose flag nothing clears.
   */
  lemma RestartInHandlerIsLostIff(s: State, commands: seq<Command>, job: Job, now: int)
    requires Inv(s) && s.wait == Elapsed && !s.mgr.canceled && s.expiry <= now
    requires JobOf(s, Current(s)).kind == OneShot && !s.mgr.pending.HasPendingOperation() && Submissions(commands) == 0
    ensures var t := HandleWait(s, commands + [Submit(job)], now);
      && t.mgr.running && Current(t) == s.mgr.submitted && t.wait == Waiting && t.expiry == now + job.duration
      && (NeverFires(t, s.mgr.submitted) <==> Cancel in commands)
  {
    var idle := EndOperation(Fire(s, now), now);
    FireKeepsConsistent(s, now);
    EndRestoresInv(Fire(s, now), now);
    DoAllKeepsConsistent(idle, commands, now);
    IdleCommands(idle, commands, now);
    DoAllSnoc(idle, commands, Submit(job), now);
    StaleCancelLosesTimeout(DoAll(idle, commands, now), job, now);
  }

  /**
   A periodic timeout ends at a handler if and only if its wait was aborted, or a cancel came before or inside the
   user handler. Starting another timeout inside the handler does not end it: the replacement waits on.
   */
  lemma PeriodicEndsIff(s: State, commands: seq<Command>, now: int)
    requires Inv(s) && Possible(s, Handle(commands, now)) && JobOf(s, Current(s)).kind == Periodic
    ensures var t := HandleWait(s, commands, now);
      var goesOn := s.wait == Elapsed && !s.mgr.canceled && Cancel !in commands;
      && (goesOn <==> t.mgr.running && Current(t) == Current(s))
      && (goesOn ==> t.wait == Waiting && t.expiry == s.expiry + JobOf(s, Current(s)).duration)
      && (goesOn && Submissions(commands) > 0 ==> t.mgr.pending.HasPendingOperation())
  {
    if s.wait == Elapsed && !s.mgr.canceled {
      var fired := Fire(s, now);
      FireKeepsConsistent(s, now);
      DoAllKeepsConsistent(fired, commands, now);
      CanceledByCommands(fired, commands, now);
      if Cancel in commands {
        EndRestoresInv(DoAll(fired, commands, now), now);
      }
    } else {
      EndRestoresInv(s, now);
    }
  }

  lemma {:induction false} CanceledByCommands(s: State, commands: seq<Command>, now: int)
    requires s.mgr.running
    ensures var t := DoAll(s, commands, now);
      && (t.mgr.canceled <==> s.mgr.canceled || Cancel in commands)
      && (Cancel !in commands && (Submissions(commands) > 0 || s.mgr.pending.HasPendingOperation())
          ==> t.mgr.pending.HasPendingOperation())
    decreases |commands|
  {
    if commands == [] {
    } else {
      CanceledByCommands(Do(s, commands[0], now), commands[1..], now);
    }
  }

  // ---------- The timer object ----------

  /** `Timer`. The outstanding handler captures the state of one operation. */
  class Timer {
    const operationManager: M.AsyncOperationManager
    var jobs: seq<Job>
    var operation: M.OpId
    var wait: Wait
    var expiry: int
    ghost var armedAt: int
    ghost var round: nat
    ghost var fired: seq<Firing>

    ghost function View(): State
      reads this, operationManager
    {
      State(operationManager.View(), jobs, wait, expiry, armedAt, round, fired)
    }

    ghost predicate Valid()
      reads this, operationManager
    {
      Consistent(View()) && (operationManager.running ==> operation == Current(View()))
    }

    constructor ()
      ensures fresh(operationManager) && View() == Init() && Valid() && Inv(View())
    {
      operationManager := new M.AsyncOperationManager(M.Replacer(None));
      jobs, operation, wait, expiry := [], 0, NoWait, 0;
      armedAt, round, fired := 0, 0, [];
    }

    /** `startTimeoutOperation` and `startPeriodicTimeoutOperation`. */
    method BeginOperation(op: M.OpId, now: int)
      requires op < |jobs| && operationManager.started != [] && op == Current(View())
      modifies this
      ensures View() == Begin(old(View()), now) && operation == op
    {
      operation := op;
      expiry := now + jobs[op].duration;
      wait := Waiting;
      armedAt, round := now, 0;
    }

    method CancelOperation()
      modifies this`wait
      ensures wait == CancelWait(old(wait))
    {
      if wait == Waiting {
        wait := WaitAborted;
      }
    }

    /** `startTimeout` and `startPeriodicTimeout`. */
    method Start(job: Job, now: int)
      requires Valid()
      modifies this, operationManager
      ensures Valid() && View() == Do(old(View()), Submit(job), now)
    {
      ghost var was := View();
      SubmitKeepsConsistent(was, job, now);
      var op := |jobs|;
      jobs := jobs + [job];
      var canceling, begun := operationManager.StartOperation(op);
      if begun {
        BeginOperation(op, now);
      }
      if canceling {
        CancelOperation();
      }
      assert View() == Do(was, Submit(job), now);
    }

    method Cancel(now: int)
      requires Valid()
      modifies this, operationManager
      ensures Valid() && View() == Do(old(View()), Command.Cancel, now)
    {
      CancelKeepsConsistent(View(), now);
      operationManager.CancelOperation();
      CancelOperation();
    }

    /** The calls that a user handler makes. */
    method CallHandler(commands: seq<Command>, now: int)
      requires Valid()
      modifies this, operationManager
      ensures Valid() && View() == DoAll(old(View()), commands, now)
    {
      var i := 0;
      while i < |commands|
        invariant i <= |commands| && Valid()
        invariant DoAll(View(), commands[i..], now) == DoAll(old(View()), commands, now)
      {
        match commands[i] {
          case Submit(job) => Start(job, now);
          case Cancel => Cancel(now);
        }
        assert commands[i..][1..] == commands[i + 1..];
        i := i + 1;
      }
    }

    /** The last reference to the captured state goes away, or its notifier is notified. */
    method Finish(now: int)
      requires Valid() && operationManager.running
      modifies this, operationManager
      ensures Valid() && View() == EndOperation(old(View()), now)
    {
      ghost var was := View();
      EndRestoresInv(was, now);
      wait := NoWait;
      var next := operationManager.FinishOperation();
      if next.Some? {
        M.WaitingOperation(was.mgr, next.value);
        BeginOperation(next.value, now);
      }
      assert View() == EndOperation(was, now);
    }

    method ArmNextPeriod(now: int)
      requires Valid() && operationManager.running && Armed(View(), round + 1)
      modifies this, operationManager
      ensures Valid() && View() == NextPeriod(old(View()), now)
    {
      NextPeriodRestoresInv(View(), now);
      CurrentIsOld(View());
      var canceled := operationManager.IsCanceled();
      if canceled {
        Finish(now);
        return;
      }
      expiry := expiry + jobs[operation].duration;
      wait, round := Waiting, round + 1;
    }

    method EnterHandler(now: int)
      requires Valid() && Inv(View()) && operationManager.running && expiry <= now
      modifies this
      ensures Valid() && View() == Fire(old(View()), now)
    {
      FireKeepsConsistent(View(), now);
      fired := fired + [Firing(operation, armedAt, round, expiry, now)];
      wait := NoWait;
    }

    /** `called` says that the user handler is called. */
    method WaitHandler(commands: seq<Command>, now: int) returns (called: bool)
      requires Valid() && Inv(View()) && Possible(View(), Handle(commands, now))
      modifies this, operationManager
      ensures Valid() && Inv(View()) && View() == HandleWait(old(View()), commands, now)
      ensures called == (old(wait) == Elapsed && !old(operationManager.canceled))
    {
      ghost var was := View();
      HandleKeepsInv(was, commands, now);
      CurrentIsOld(was);
      var canceled := operationManager.IsCanceled();
      called := !(wait == WaitAborted || canceled);
      if !called {
        Finish(now);
        return;
      }
      var kind := jobs[operation].kind;
      EnterHandler(now);
      if kind == OneShot {
        Finish(now);
        CallHandler(commands, now);
      } else {
        PeriodicHandlerReady(was, commands, now);
        CallHandler(commands, now);
        ArmNextPeriod(now);
      }
    }
  }

  lemma PeriodicHandlerReady(s: State, commands: seq<Command>, now: int)
    requires Inv(s) && s.mgr.running && s.expiry <= now && JobOf(s, Current(s)).kind == Periodic
    ensures var t := DoAll(Fire(s, now), commands, now); t.mgr.running && Armed(t, t.round + 1)
  {
    FireKeepsConsistent(s, now);
    DoAllKeepsConsistent(Fire(s, now), commands, now);
  }
}
