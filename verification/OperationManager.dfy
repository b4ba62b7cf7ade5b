/**
 The sequencing of asynchronous operations.

 A submitted closure is represented by its submission number. `StartOperation` and `FinishOperation`
 hold the manager's recursive mutex while they run the closure they start, so the closure that starts is
 returned to the owner, which begins it within the same atomic step.
 */
module OperationManager {
  import opened Common

  type OpId = nat

  /** `PendingOperationQueue` and `PendingOperationReplacer`. */
  datatype Pending = Queue(operations: seq<OpId>) | Replacer(operation: Option<OpId>) {

    predicate ShouldCancel() {
      Replacer?
    }

    predicate HasPendingOperation() {
      match this
      case Queue(ops) => ops != []
      case Replacer(op) => op.Some?
    }

    function Push(op: OpId): Pending {
      match this
      case Queue(ops) => Queue(ops + [op])
      case Replacer(_) => Replacer(Some(op))
    }

    function GetPendingOperation(): OpId
      requires HasPendingOperation()
    {
      match this
      case Queue(ops) => ops[0]
      case Replacer(op) => op.value
    }

    function Pop(): Pending
      requires HasPendingOperation()
    {
      match this
      case Queue(ops) => Queue(ops[1..])
      case Replacer(_) => Replacer(None)
    }

    function Reset(): Pending {
      match this
      case Queue(_) => Queue([])
      case Replacer(_) => Replacer(None)
    }

    function Contents(): seq<OpId> {
      match this
      case Queue(ops) => ops
      case Replacer(op) => if op.Some? then [op.value] else []
    }

    /** What the next `Push` overwrites. */
    function Overwritten(): seq<OpId> {
      if Replacer? then Contents() else []
    }
  }

  /**
   The manager's fields, and the history of the operations submitted to it: how many there were, and which of
   them were started, finished and dropped, in order.
   */
  datatype State = State(
    running: bool,
    canceled: bool,
    pending: Pending,
    submitted: nat,
    started: seq<OpId>,
    finished: seq<OpId>,
    dropped: seq<OpId>)

  datatype Event = Start | Finish | Cancel

  function Init(pending: Pending): State {
    State(false, false, pending.Reset(), 0, [], [], [])
  }

  function StartStep(s: State): State {
    var op := s.submitted;
    if !s.running then
      s.(running := true, submitted := op + 1, started := s.started + [op])
    else
      s.(pending := s.pending.Push(op), submitted := op + 1, dropped := s.dropped + s.pending.Overwritten())
  }

  /** The operation that a call of `finishOperation` ends: the one running, if any. */
  function Active(s: State): seq<OpId> {
    if s.running && s.started != [] then [s.started[|s.started| - 1]] else []
  }

  function FinishStep(s: State): State {
    var t := s.(canceled := false, finished := s.finished + Active(s));
    if !s.pending.HasPendingOperation() then
      t.(running := false)
    else
      t.(pending := s.pending.Pop(), started := s.started + [s.pending.GetPendingOperation()])
  }

  function CancelStep(s: State): State {
    s.(canceled := true, pending := s.pending.Reset(), dropped := s.dropped + s.pending.Contents())
  }

  function Apply(s: State, e: Event): State {
    match e
    case Start => StartStep(s)
    case Finish => FinishStep(s)
    case Cancel => CancelStep(s)
  }

  /** The state after a run of calls; `finishOperation` may also come while nothing runs. */
  function Run(s: State, events: seq<Event>): State
    decreases |events|
  {
    if events == [] then s else Run(Apply(s, events[0]), events[1..])
  }

  lemma {:induction false} RunConcat(s: State, first: seq<Event>, second: seq<Event>)
    ensures Run(s, first + second) == Run(Run(s, first), second)
    decreases |first|
  {
    if first == [] {
      assert first + second == second;
    } else {
      RunConcat(Apply(s, first[0]), first[1..], second);
      assert (first + second)[1..] == first[1..] + second;
    }
  }

  // ---------- The invariant ----------

  /** Each submission is in exactly one place, and places are filled in submission order. */
  ghost predicate Inv(s: State) {
    && (s.running ==> s.started != [])
    && s.started == s.finished + Active(s)
    && Waiting(s)
    && Conserved(s)
    && (s.pending.Queue? && s.dropped == [] ==> s.started + s.pending.Contents() == Below(s.submitted))
  }

  /** The number of submissions older than the pending ones. */
  function Settled(s: State): int {
    s.submitted - |s.pending.Contents()|
  }

  /** The pending operations are the newest submissions, without a gap. */
  ghost predicate Newest(s: State) {
    var waiting := s.pending.Contents();
    && 0 <= Settled(s)
    && (forall i :: 0 <= i < |waiting| ==> waiting[i] == Settled(s) + i)
  }

  /** Pending operations are newer than every started one. */
  ghost predicate Waiting(s: State) {
    && Newest(s)
    && (!s.running ==> s.pending.Contents() == [])
    && (forall i :: 0 <= i < |s.started| ==> s.started[i] < Settled(s))
  }

  lemma StepKeepsWaiting(s: State, e: Event)
    requires Waiting(s)
    ensures Waiting(Apply(s, e))
  {
  }

  /** The older submissions were each either started or dropped, both in submission order. */
  ghost predicate Conserved(s: State) {
    && Increasing(s.started)
    && Increasing(s.dropped)
    && |s.started| + |s.dropped| == Settled(s)
    && (forall i :: 0 <= i < |s.dropped| ==> s.dropped[i] < Settled(s))
    && (forall op :: 0 <= op < Settled(s) ==> (op in s.started <==> op !in s.dropped))
  }

  lemma InitInv(pending: Pending)
    ensures Inv(Init(pending))
  {
  }

  lemma WaitingOperation(s: State, op: OpId)
    requires Inv(s)
    ensures op in s.pending.Contents() <==> Settled(s) <= op < s.submitted
  {
    assert Settled(s) <= op < s.submitted ==> s.pending.Contents()[op - Settled(s)] == op;
  }

  lemma StartWhenIdle(s: State)
    requires Inv(s) && !s.running
    ensures Inv(StartStep(s))
  {
    var t := StartStep(s);
    BelowSnoc(s.submitted);
    assert Active(t) == [s.submitted];
    assert t.started + [] == (s.started + []) + [s.submitted];
  }

  lemma StartBehindQueue(s: State)
    requires Inv(s) && s.running && s.pending.Queue?
    ensures Inv(StartStep(s))
  {
    var t := StartStep(s);
    assert Active(t) == Active(s);
    assert t.dropped == s.dropped;
    if s.dropped == [] {
      BelowSnoc(s.submitted);
      assert s.started + t.pending.Contents() == (s.started + s.pending.Contents()) + [s.submitted];
    }
  }

  lemma StartAsReplacement(s: State)
    requires Inv(s) && s.running && s.pending.Replacer?
    ensures Inv(StartStep(s))
  {
    var t := StartStep(s);
    assert Active(t) == Active(s);
    if s.pending.HasPendingOperation() {
      WaitingOperation(s, s.pending.operation.value);
    } else {
      assert t.dropped == s.dropped;
    }
  }

  lemma StartPreservesInv(s: State)
    requires Inv(s)
    ensures Inv(StartStep(s))
  {
    if !s.running {
      StartWhenIdle(s);
    } else if s.pending.Queue? {
      StartBehindQueue(s);
    } else {
      StartAsReplacement(s);
    }
  }

  lemma FinishPreservesInv(s: State)
    requires Inv(s)
    ensures Inv(FinishStep(s))
  {
    if s.pending.HasPendingOperation() {
      var t, waiting := FinishStep(s), s.pending.Contents();
      assert t.pending.Contents() == waiting[1..];
      assert Active(t) == [waiting[0]];
      assert t.started + waiting[1..] == s.started + waiting;
    }
  }

  lemma CancelPreservesInv(s: State)
    requires Inv(s)
    ensures Inv(CancelStep(s))
  {
    assert s.dropped + [] == s.dropped;
    forall op {
      WaitingOperation(s, op);
    }
  }

  lemma StepPreservesInv(s: State, e: Event)
    requires Inv(s)
    ensures Inv(Apply(s, e))
  {
    match e
    case Start => StartPreservesInv(s);
    case Finish => FinishPreservesInv(s);
    case Cancel => CancelPreservesInv(s);
  }

  lemma {:induction false} RunPreservesInv(s: State, events: seq<Event>)
    requires Inv(s)
    ensures Inv(Run(s, events))
    ensures Run(s, events).pending.Queue? == s.pending.Queue?
    decreases |events|
  {
    if events == [] {
    } else {
      StepPreservesInv(s, events[0]);
      RunPreservesInv(Apply(s, events[0]), events[1..]);
    }
  }

  lemma ReachableInv(pending: Pending, events: seq<Event>)
    ensures Inv(Run(Init(pending), events))
    ensures Run(Init(pending), events).pending.Queue? == pending.Queue?
  {
    InitInv(pending);
    RunPreservesInv(Init(pending), events);
  }

  // ---------- Conservation and order over every run ----------

  /** Every submission is finished, active, pending or dropped, and in one of these only. */
  lemma ExactlyOnePlace(pending: Pending, events: seq<Event>, op: OpId)
    ensures var s := Run(Init(pending), events);
      var places := multiset(s.finished) + multiset(Active(s)) + multiset(s.pending.Contents()) + multiset(s.dropped);
      places[op] == if op < s.submitted then 1 else 0
  {
    ReachableInv(pending, events);
    var s := Run(Init(pending), events);
    assert multiset(s.started) == multiset(s.finished) + multiset(Active(s)) by {
      assert s.started == s.finished + Active(s);
    }
    CountIncreasing(s.started, op);
    CountIncreasing(s.pending.Contents(), op);
    CountIncreasing(s.dropped, op);
    WaitingOperation(s, op);
  }

  lemma {:induction false} CountIncreasing(s: seq<nat>, x: nat)
    requires Increasing(s)
    ensures multiset(s)[x] == if x in s then 1 else 0
  {
    if s == [] {
    } else {
      var n := |s| - 1;
      CountIncreasing(s[..n], x);
      assert s == s[..n] + [s[n]];
    }
  }

  /** Operations start in submission order, every pending one is newer than every started one. */
  lemma StartOrder(pending: Pending, events: seq<Event>)
    ensures var s := Run(Init(pending), events);
      && Increasing(s.started + s.pending.Contents())
      && (s.pending.Contents() != [] ==> s.running)
  {
    ReachableInv(pending, events);
  }

  lemma {:induction false} QueueDropsOnlyOnCancel(s: State, events: seq<Event>)
    requires s.pending.Queue? && Cancel !in events
    ensures Run(s, events).dropped == s.dropped
    decreases |events|
  {
    if events == [] {
    } else {
      QueueDropsOnlyOnCancel(Apply(s, events[0]), events[1..]);
    }
  }

  /** Without a cancel, a queue loses nothing: started operations followed by pending ones are all submissions. */
  lemma QueueIsFifo(events: seq<Event>)
    requires Cancel !in events
    ensures var s := Run(Init(Queue([])), events);
      s.started + s.pending.Contents() == Below(s.submitted)
  {
    ReachableInv(Queue([]), events);
    QueueDropsOnlyOnCancel(Init(Queue([])), events);
  }

  // ---------- Which submissions ever start ----------

  /** What has started stays started. */
  lemma {:induction false} StartedGrows(s: State, events: seq<Event>)
    ensures s.started <= Run(s, events).started
    decreases |events|
  {
    if events == [] {
    } else {
      StartedGrows(Apply(s, events[0]), events[1..]);
    }
  }

  /** A submission that is neither started nor pending never starts. */
  lemma {:induction false} GoneForGood(s: State, op: OpId, events: seq<Event>)
    requires Waiting(s)
    requires op < Settled(s) && op !in s.started
    ensures op !in Run(s, events).started
    decreases |events|
  {
    if events == [] {
    } else {
      StepKeepsWaiting(s, events[0]);
      GoneForGood(Apply(s, events[0]), op, events[1..]);
    }
  }

  function FinishesBeforeCancel(events: seq<Event>): nat {
    if events == [] || events[0] == Cancel then 0
    else (if events[0] == Finish then 1 else 0) + FinishesBeforeCancel(events[1..])
  }

  lemma {:induction false} QueuedStarts(s: State, ahead: nat, events: seq<Event>)
    requires Waiting(s) && s.pending.Queue? && ahead < |s.pending.Contents()|
    ensures s.pending.Contents()[ahead] in Run(s, events).started <==> ahead < FinishesBeforeCancel(events)
    decreases |events|
  {
    var op := s.pending.Contents()[ahead];
    if events == [] {
    } else {
      var t := Apply(s, events[0]);
      StepKeepsWaiting(s, events[0]);
      match events[0]
      case Start =>
        QueuedStarts(t, ahead, events[1..]);
      case Finish =>
        if ahead == 0 {
          assert op == t.started[|t.started| - 1];
          StartedGrows(t, events[1..]);
        } else {
          QueuedStarts(t, ahead - 1, events[1..]);
        }
      case Cancel =>
        GoneForGood(t, op, events[1..]);
    }
  }

  lemma ReplacementStarts(s: State, events: seq<Event>)
    requires Waiting(s) && s.pending.Replacer? && s.pending.HasPendingOperation()
    ensures s.pending.GetPendingOperation() in Run(s, events).started <==> events != [] && events[0] == Finish
  {
    var op := s.pending.GetPendingOperation();
    assert op == s.pending.Contents()[0] == Settled(s);
    if events != [] {
      var t := Apply(s, events[0]);
      StepKeepsWaiting(s, events[0]);
      if events[0] == Finish {
        assert op == t.started[|t.started| - 1];
        StartedGrows(t, events[1..]);
      } else {
        GoneForGood(t, op, events[1..]);
      }
    }
  }

  /** A submission in any state: it starts at once, or the calls that follow decide. */
  lemma SubmissionStartsIff(s: State, after: seq<Event>)
    requires Waiting(s)
    ensures s.submitted in Run(StartStep(s), after).started
      <==> || !s.running
           || (if s.pending.Queue? then |s.pending.Contents()| < FinishesBeforeCancel(after)
               else after != [] && after[0] == Finish)
  {
    var t := StartStep(s);
    StepKeepsWaiting(s, Start);
    if !s.running {
      assert s.submitted == t.started[|t.started| - 1];
      StartedGrows(t, after);
    } else if s.pending.Queue? {
      QueuedStarts(t, |s.pending.Contents()|, after);
    } else {
      ReplacementStarts(t, after);
    }
  }

  /**
   With a queue, a submission starts if and only if the manager is idle when it is made, or it is followed by more
   finishes than there are operations waiting before it, all of them before the next cancel.
   */
  lemma QueueStartsIff(before: seq<Event>, after: seq<Event>)
    ensures var s := Run(Init(Queue([])), before);
      s.submitted in Run(Init(Queue([])), before + [Start] + after).started
      <==> !s.running || |s.pending.Contents()| < FinishesBeforeCancel(after)
  {
    var s, t := SubmitAfter(Queue([]), before, after);
    SubmissionStartsIff(s, after);
  }

  /**
   The replacer is last-writer-wins: a submission starts if and only if the manager is idle when it is made, or the
   very next call is the finish. A later submission or a cancel in between suppresses it for good.
   */
  lemma ReplacerStartsIff(before: seq<Event>, after: seq<Event>)
    ensures var s := Run(Init(Replacer(None)), before);
      s.submitted in Run(Init(Replacer(None)), before + [Start] + after).started
      <==> !s.running || (after != [] && after[0] == Finish)
  {
    var s, t := SubmitAfter(Replacer(None), before, after);
    SubmissionStartsIff(s, after);
  }

  lemma SubmitAfter(pending: Pending, before: seq<Event>, after: seq<Event>) returns (s: State, t: State)
    requires pending.Contents() == []
    ensures s == Run(Init(pending), before) && t == StartStep(s)
    ensures Run(Init(pending), before + [Start] + after) == Run(t, after)
    ensures Waiting(s) && s.pending.Queue? == pending.Queue?
  {
    s := Run(Init(pending), before);
    t := StartStep(s);
    RunsOn(Init(pending), before, after);
    WaitingReached(pending, before);
  }

  lemma RunsOn(s: State, before: seq<Event>, after: seq<Event>)
    ensures Run(s, before + [Start] + after) == Run(StartStep(Run(s, before)), after)
  {
    RunConcat(s, before, [Start] + after);
    assert before + [Start] + after == before + ([Start] + after);
    assert ([Start] + after)[1..] == after;
  }

  lemma WaitingReached(pending: Pending, events: seq<Event>)
    ensures Waiting(Run(Init(pending), events)) && Run(Init(pending), events).pending.Queue? == pending.Queue?
  {
    ReachableInv(pending, events);
  }

  // ---------- The cancel flag ----------

  /** Some cancel comes after the last finish. */
  ghost predicate CancelSinceFinish(events: seq<Event>) {
    exists i :: 0 <= i < |events| && events[i] == Cancel && (forall j :: i < j < |events| ==> events[j] != Finish)
  }

  /** `isCanceled` is true exactly when a cancel has come since the last finish, or since construction. */
  lemma {:induction false} CanceledIff(pending: Pending, events: seq<Event>)
    ensures Run(Init(pending), events).canceled <==> CancelSinceFinish(events)
    decreases |events|
  {
    if events == [] {
    } else {
      var n := |events| - 1;
      var front, e := events[..n], events[n];
      assert events == front + [e];
      RunConcat(Init(pending), front, [e]);
      assert Run(Run(Init(pending), front), [e]) == Apply(Run(Init(pending), front), e);
      CanceledIff(pending, front);
      assert forall i :: 0 <= i < n ==> events[i] == front[i];
    }
  }

  /**
   An operation started by `startOperation` starts canceled exactly when a cancel came after the last finish: the flag
   of a cancel that found the manager idle is not cleared, and hits the next operation. One started by
   `finishOperation`, which is the oldest pending one, never starts canceled.
   */
  lemma StartsCanceledIff(pending: Pending, events: seq<Event>)
    ensures var s := Run(Init(pending), events);
      && (!s.running ==> Active(StartStep(s)) == [s.submitted]
                         && (StartStep(s).canceled <==> CancelSinceFinish(events)))
      && (s.pending.Contents() != [] ==> Active(FinishStep(s)) == s.pending.Contents()[..1]
                                         && !FinishStep(s).canceled)
  {
    CanceledIff(pending, events);
    ReachableInv(pending, events);
    var waiting := Run(Init(pending), events).pending.Contents();
    assert waiting != [] ==> waiting[..1] == [waiting[0]];
  }

  /** If cancel is only called while an operation runs, then no operation starts canceled. */
  lemma {:induction false} NoStaleCancel(s: State, events: seq<Event>)
    requires s.canceled ==> s.running
    requires forall i :: 0 <= i < |events| && events[i] == Cancel ==> Run(s, events[..i]).running
    ensures Run(s, events).canceled ==> Run(s, events).running
    decreases |events|
  {
    if events == [] {
    } else {
      assert events[0] == Cancel ==> s.running by {
        assert events[..0] == [];
      }
      var rest := events[1..];
      forall i | 0 <= i < |rest| && rest[i] == Cancel ensures Run(Apply(s, events[0]), rest[..i]).running {
        assert events[..i + 1][1..] == rest[..i];
        assert events[i + 1] == Cancel;
      }
      NoStaleCancel(Apply(s, events[0]), rest);
    }
  }

  // ---------- The manager itself ----------

  /** `AsyncOperationManager`. The last four fields are the history; the program does not store them. */
  class AsyncOperationManager {
    var running: bool
    var canceled: bool
    var pendingOperations: Pending
    ghost var submitted: nat
    ghost var started: seq<OpId>
    ghost var finished: seq<OpId>
    ghost var dropped: seq<OpId>

    ghost function View(): State
      reads this
    {
      State(running, canceled, pendingOperations, submitted, started, finished, dropped)
    }

    ghost predicate Valid()
      reads this
    {
      Inv(View())
    }

    constructor (pending: Pending)
      ensures Valid() && View() == Init(pending)
    {
      running, canceled, pendingOperations := false, false, pending.Reset();
      submitted, started, finished, dropped := 0, [], [], [];
      new;
      InitInv(pending);
    }

    /** `canceling` says that the canceling operation is called, `begun` that the submitted operation is. */
    method StartOperation(op: OpId) returns (canceling: bool, begun: bool)
      requires Valid() && op == submitted
      modifies this
      ensures Valid() && View() == StartStep(old(View()))
      ensures begun == !old(running)
      ensures canceling == (old(running) && pendingOperations.ShouldCancel())
    {
      StartPreservesInv(View());
      ghost var was := View();
      submitted := submitted + 1;
      if !running {
        running := true;
        started := started + [op];
        assert View() == StartStep(was);
        return false, true;
      }
      canceling := pendingOperations.ShouldCancel();
      dropped := dropped + pendingOperations.Overwritten();
      pendingOperations := pendingOperations.Push(op);
      begun := false;
      assert View() == StartStep(was);
    }

    /** Returns the pending operation that begins, if there is one. */
    method FinishOperation() returns (next: Option<OpId>)
      requires Valid()
      modifies this
      ensures Valid() && View() == FinishStep(old(View()))
      ensures next == if old(pendingOperations.HasPendingOperation())
                      then Some(old(pendingOperations).GetPendingOperation()) else None
    {
      FinishPreservesInv(View());
      ghost var was := View();
      finished := finished + Active(View());
      canceled := false;
      if !pendingOperations.HasPendingOperation() {
        running := false;
        assert View() == FinishStep(was);
        return None;
      }
      var pendingOperation := pendingOperations.GetPendingOperation();
      pendingOperations := pendingOperations.Pop();
      started := started + [pendingOperation];
      next := Some(pendingOperation);
      assert View() == FinishStep(was);
    }

    /** The canceling operation is always called. */
    method CancelOperation()
      requires Valid()
      modifies this
      ensures Valid() && View() == CancelStep(old(View()))
    {
      CancelPreservesInv(View());
      canceled := true;
      dropped := dropped + pendingOperations.Contents();
      pendingOperations := pendingOperations.Reset();
    }

    method IsCanceled() returns (c: bool)
      ensures c == View().canceled
    {
      c := canceled;
    }
  }
}
