/**
 `ServiceClient`: calls that resolve, connect, write, read a frame header and read a frame body, each phase a timed
 operation on what is left of one timeout.

 The machine lets asio deliver completions, expiries and clock readings in any order. A step that arms a timer reads
 the clock up to three times: for the time spent, for the start time of a two-stage operation, and for the expiry.
 `jitter` bounds the distance of the readings within one step; with no jitter they are equal.
 */
module ServiceClients {
  import opened Common
  import TO = TimedOperations
  import M = OperationManager

  const SOCKET: TO.Target := 0

  /** Each call that resolves a host name uses a resolver of its own. */
  function ResolverOf(id: M.OpId): TO.Target {
    id + 1
  }

  /** `direct` calls are given endpoints, possibly none; the others are given a host name. */
  datatype Request = Request(direct: bool, endpoints: bool, timeout: int)

  datatype Readings = Readings(spent: int, start: int, expiry: int)

  datatype Phase = Resolving | Connecting | Writing | ReadingHeader | ReadingBody

  /**
   The captured state of the active call: `timeout` and `startTime` as `updateTimeout` maintains them, and their
   copies inside `asyncConnect` and `asyncRead`. History: when the call began, whether a cancel came after its resolve
   phase, and whether there was an endpoint to connect to.
   */
  datatype Call = Call(
    id: M.OpId,
    phase: Phase,
    timeout: int,
    startTime: int,
    innerTimeout: int,
    innerStart: int,
    began: int,
    canceled: bool,
    connectable: bool)

  /**
   What asio reports for a phase, and what is in the data: an error, all the expected bytes transferred, endpoints
   found, a frame without payload, a decoder that accepts what it is given.
   */
  datatype Outcome = Outcome(failed: bool, full: bool, endpoints: bool, empty: bool, decodes: bool)

  /** A user handler was called at `at`. */
  datatype Result = Result(call: Call, error: Error, expired: bool, at: int)

  datatype State = State(
    mgr: M.State,
    timed: TO.State,
    requests: seq<Request>,
    call: Option<Call>,
    clock: int,
    calls: nat,
    posted: nat,
    reported: nat,
    results: seq<Result>)

  datatype Event =
    | AsyncCall(encodes: bool, request: Request, readings: Readings)
    | RunPost
    | Cancel
    | Elapse(index: nat)
    | Timeout(index: nat)
    | Complete(outcome: Outcome, readings: Readings)
    | SetClock(time: int)

  function Init(clock: int): State {
    State(M.Init(M.Queue([])), TO.State({}, []), [], None, clock, 0, 0, 0, [])
  }

  function RequestOf(s: State, id: M.OpId): Request {
    if id < |s.requests| then s.requests[id] else Request(false, false, 0)
  }

  function Arm(s: State, call: Call, target: TO.Target, timeout: int, now: int): State {
    s.(timed := TO.Step(s.timed, TO.Begin(target, timeout, now)), call := Some(call))
  }

  /** `async_connect` opens the socket when it tries the first endpoint. */
  function BeginConnect(s: State, call: Call, endpoints: bool, timeout: int, now: int): State {
    var open := if endpoints then s.timed.open + {SOCKET} else s.timed.open;
    Arm(s.(timed := s.timed.(open := open)), call.(phase := Connecting, connectable := endpoints), SOCKET, timeout, now)
  }

  /** `asyncCallOperation`, with a new socket and, for a host name, a new resolver. */
  function BeginCall(s: State, id: M.OpId, r: Readings): State {
    var request := RequestOf(s, id);
    var call := Call(id, Resolving, request.timeout, r.spent, request.timeout, r.start, r.spent, false, true);
    var clean := s.(timed := s.timed.(open := s.timed.open - {SOCKET}));
    if request.direct then
      BeginConnect(clean, call, request.endpoints, request.timeout, r.expiry)
    else
      Arm(clean.(timed := clean.timed.(open := clean.timed.open + {ResolverOf(id)})), call, ResolverOf(id),
          request.timeout, r.expiry)
  }

  function UpdateTimeout(call: Call, now: int): Call {
    call.(timeout := call.timeout - (now - call.startTime), startTime := now)
  }

  /** The last timed operation is the one of the current phase. */
  function LastOperation(s: State): TO.Operation
    requires s.timed.operations != []
  {
    s.timed.operations[|s.timed.operations| - 1]
  }

  /** Closes the socket, notifies the manager, which may begin the next call, and calls the user handler. */
  function FinishCall(s: State, error: Error, r: Readings): State
    requires s.call.Some? && s.timed.operations != []
  {
    var result := Result(s.call.value, error, TO.Expired(LastOperation(s)), s.clock);
    var t := s.(timed := s.timed.(open := s.timed.open - {SOCKET}), mgr := M.FinishStep(s.mgr), call := None,
                results := s.results + [result]);
    if s.mgr.pending.HasPendingOperation() then BeginCall(t, s.mgr.pending.GetPendingOperation(), r) else t
  }

  /** Decoding is tried on whatever the read delivers, and its failure takes precedence. */
  function DecodeOutcome(error: Error, decodes: bool): Error {
    if decodes then error else Decoding
  }

  /** The handler of the current phase, called with `error`. */
  function HandlePhase(s: State, error: Error, o: Outcome, r: Readings): State
    requires s.call.Some? && s.timed.operations != []
  {
    var call := s.call.value;
    match call.phase
    case Resolving =>
      if error != Success then FinishCall(s, error, r)
      else BeginConnect(s, call, o.endpoints, call.innerTimeout - (r.spent - call.innerStart), r.expiry)
    case Connecting =>
      if error != Success then FinishCall(s, error, r)
      else
        var updated := UpdateTimeout(call, r.spent);
        Arm(s, updated.(phase := Writing), SOCKET, updated.timeout, r.expiry)
    case Writing =>
      if !o.full || error != Success then FinishCall(s, if !o.full then FailedOperation else error, r)
      else
        var updated := UpdateTimeout(call, r.spent);
        Arm(s, updated.(phase := ReadingHeader, innerTimeout := updated.timeout, innerStart := r.start), SOCKET,
            updated.timeout, r.expiry)
    case ReadingHeader =>
      if error != Success then FinishCall(s, DecodeOutcome(error, o.decodes), r)
      else if !o.full then FinishCall(s, DecodeOutcome(InvalidFrame, o.decodes), r)
      else if o.empty then FinishCall(s, DecodeOutcome(Success, o.decodes), r)
      else
        Arm(s, call.(phase := ReadingBody), SOCKET, call.innerTimeout - (r.spent - call.innerStart), r.expiry)
    case ReadingBody =>
      var e := if error != Success then error else if !o.full then InvalidFrame else Success;
      FinishCall(s, DecodeOutcome(e, o.decodes), r)
  }

  /** The operation of the current phase has not completed. */
  predicate Completable(s: State) {
    s.call.Some? && s.timed.operations != [] && LastOperation(s).done == None
  }

  predicate Near(r: Readings, jitter: nat) {
    r.spent <= r.start <= r.expiry <= r.spent + jitter
  }

  predicate Possible(s: State, e: Event, jitter: nat) {
    match e
    case AsyncCall(_, _, r) => Near(r, jitter)
    case RunPost => s.posted > 0
    case Cancel => true
    case Elapse(i) => TO.Possible(s.timed, TO.Elapse(i, s.clock))
    case Timeout(i) => TO.Possible(s.timed, TO.Timeout(i, s.clock))
    case Complete(_, r) =>
      Near(r, jitter) && Completable(s)
    case SetClock(_) => true
  }

  function AsyncCallStep(s: State, encodes: bool, request: Request, r: Readings): State {
    var t := s.(calls := s.calls + 1);
    if !encodes then t.(posted := s.posted + 1)
    else
      var u := t.(requests := s.requests + [request], mgr := M.StartStep(s.mgr));
      if !s.mgr.running then BeginCall(u, s.mgr.submitted, r) else u
  }

  function CompleteStep(s: State, o: Outcome, r: Readings): State
    requires Completable(s)
  {
    var last := |s.timed.operations| - 1;
    var timed := TO.Step(s.timed, TO.Complete(last, o.failed, s.clock));
    HandlePhase(s.(timed := timed), timed.operations[last].done.value, o, r)
  }

  /** `cancel` drops the pending calls and closes the socket. */
  function CancelStep(s: State): State {
    var call :=
      if s.call.Some? && s.call.value.phase != Resolving then Some(s.call.value.(canceled := true)) else s.call;
    s.(mgr := M.CancelStep(s.mgr), timed := s.timed.(open := s.timed.open - {SOCKET}), call := call)
  }

  function Step(s: State, e: Event, jitter: nat): State
    requires Possible(s, e, jitter)
  {
    match e
    case AsyncCall(encodes, request, r) => AsyncCallStep(s, encodes, request, r)
    case RunPost => s.(posted := s.posted - 1, reported := s.reported + 1)
    case Cancel => CancelStep(s)
    case Elapse(i) => s.(timed := TO.Step(s.timed, TO.Elapse(i, s.clock)))
    case Timeout(i) => s.(timed := TO.Step(s.timed, TO.Timeout(i, s.clock)))
    case Complete(o, r) => CompleteStep(s, o, r)
    case SetClock(time) => s.(clock := time)
  }

  ghost predicate Runs(s: State, events: seq<Event>, t: State, jitter: nat)
    decreases |events|
  {
    if events == [] then s == t
    else Possible(s, events[0], jitter) && Runs(Step(s, events[0], jitter), events[1..], t, jitter)
  }

  // ---------- The invariant ----------

  ghost predicate Inv(s: State, jitter: nat) {
    Accounted(s) && Timely(s, jitter) && Reported(s)
  }

  ghost predicate Timely(s: State, jitter: nat) {
    && TO.Inv(s.timed)
    && OneTimerLeft(s)
    && (s.call.Some? ==> OnDeadline(s, jitter) && Explained(s))
  }

  /** Every call is somewhere, and handlers are called in submission order. */
  ghost predicate Accounted(s: State) {
    && M.Inv(s.mgr)
    && s.mgr.pending.Queue?
    && |s.requests| == s.mgr.submitted
    && s.calls == s.posted + s.reported + s.mgr.submitted
    && M.Active(s.mgr) == (if s.call.Some? then [s.call.value.id] else [])
    && (s.mgr.running <==> s.call.Some?)
    && |s.results| == |s.mgr.finished|
    && (forall i :: 0 <= i < |s.results| ==> s.results[i].call.id == s.mgr.finished[i])
  }

  function TargetOf(call: Call): TO.Target {
    if call.phase == Resolving then ResolverOf(call.id) else SOCKET
  }

  /** Only the operation of the current phase has not completed. */
  ghost predicate OneTimerLeft(s: State) {
    var n := |s.timed.operations|;
    && (forall i :: 0 <= i < n - 1 ==> s.timed.operations[i].done.Some?)
    && (n > 0 ==> (s.timed.operations[n - 1].done.Some? <==> s.call == None))
    && (s.call.Some? ==> n > 0 && LastOperation(s).target == TargetOf(s.call.value))
  }

  /** The instant at which the budget of a call runs out. */
  function Deadline(s: State, call: Call): int {
    call.began + RequestOf(s, call.id).timeout
  }

  /** Every phase works towards the same deadline. */
  ghost predicate OnDeadline(s: State, jitter: nat)
    requires s.call.Some? && s.timed.operations != []
  {
    var call := s.call.value;
    var deadline := Deadline(s, call);
    && Budgeted(call, deadline, jitter)
    && deadline <= LastOperation(s).timer.expiry <= deadline + 2 * jitter
  }

  ghost predicate Budgeted(call: Call, deadline: int, jitter: nat) {
    && call.startTime + call.timeout == deadline
    && (call.phase in {Resolving, ReadingHeader} ==>
          deadline <= call.innerStart + call.innerTimeout <= deadline + jitter)
  }

  /** What the current phase works on is closed only for a reason. */
  ghost predicate Explained(s: State)
    requires s.call.Some? && s.timed.operations != []
  {
    var call := s.call.value;
    if call.phase == Resolving then
      (TargetOf(call) in s.timed.open <==> !TO.Expired(LastOperation(s))) && SOCKET !in s.timed.open && !call.canceled
    else
      SOCKET in s.timed.open <==> !TO.Expired(LastOperation(s)) && !call.canceled && call.connectable
  }

  /** A user handler is told of an abort only if there was a reason, and of success only if there was none. */
  ghost predicate ResultExplained(r: Result) {
    && (r.error == Aborted ==> r.expired || r.call.canceled || !r.call.connectable)
    && (r.error == Success ==> !r.expired && !r.call.canceled && r.call.connectable)
  }

  ghost predicate Reported(s: State) {
    forall i :: 0 <= i < |s.results| ==> ResultExplained(s.results[i])
  }

  ghost predicate AllDone(timed: TO.State) {
    TO.Inv(timed) && forall i :: 0 <= i < |timed.operations| ==> timed.operations[i].done.Some?
  }

  // ---------- Timers ----------

  lemma BeginCallKeepsTimely(s: State, id: M.OpId, r: Readings, jitter: nat)
    requires AllDone(s.timed) && Near(r, jitter)
    ensures Timely(BeginCall(s, id, r), jitter)
    ensures var t := BeginCall(s, id, r);
      && t == s.(timed := t.timed, call := t.call) && t.call.Some? && t.call.value.id == id
      && t.call.value.began == r.spent
      && t.timed.operations != [] && !TO.Expired(LastOperation(t))
  {
  }

  lemma FinishCallKeepsTimely(s: State, error: Error, r: Readings, jitter: nat)
    requires AllDone(s.timed) && s.timed.operations != [] && s.call.Some? && Near(r, jitter)
    ensures Timely(FinishCall(s, error, r), jitter)
  {
    if s.mgr.pending.HasPendingOperation() {
      var result := Result(s.call.value, error, TO.Expired(LastOperation(s)), s.clock);
      var t := s.(timed := s.timed.(open := s.timed.open - {SOCKET}), mgr := M.FinishStep(s.mgr), call := None,
                  results := s.results + [result]);
      BeginCallKeepsTimely(t, s.mgr.pending.GetPendingOperation(), r, jitter);
    }
  }

  lemma ArmKeepsTimely(s: State, call: Call, target: TO.Target, timeout: int, now: int, jitter: nat)
    requires AllDone(s.timed) && target == TargetOf(call)
    requires Budgeted(call, Deadline(s, call), jitter)
    requires Deadline(s, call) <= now + timeout <= Deadline(s, call) + 2 * jitter
    requires call.phase != Resolving && (SOCKET in s.timed.open <==> !call.canceled && call.connectable)
    ensures Timely(Arm(s, call, target, timeout, now), jitter)
  {
  }

  /** The state in which the completion handler of the current phase runs, after it was told of `error`. */
  ghost predicate PhaseDone(s: State, error: Error, jitter: nat) {
    && AllDone(s.timed) && s.timed.operations != [] && s.call.Some?
    && Budgeted(s.call.value, Deadline(s, s.call.value), jitter)
    && (if s.call.value.phase == Resolving then SOCKET !in s.timed.open && !s.call.value.canceled
        else error != Aborted ==> SOCKET in s.timed.open && !s.call.value.canceled && s.call.value.connectable)
  }

  lemma HandleResolve(s: State, error: Error, o: Outcome, r: Readings, jitter: nat)
    requires PhaseDone(s, error, jitter) && Near(r, jitter) && s.call.value.phase == Resolving
    ensures Timely(HandlePhase(s, error, o, r), jitter)
  {
    if error != Success {
      FinishCallKeepsTimely(s, error, r, jitter);
    } else {
      var call := s.call.value.(phase := Connecting, connectable := o.endpoints);
      var open := if o.endpoints then s.timed.open + {SOCKET} else s.timed.open;
      ArmKeepsTimely(s.(timed := s.timed.(open := open)), call, SOCKET,
                     call.innerTimeout - (r.spent - call.innerStart), r.expiry, jitter);
    }
  }

  lemma HandleConnectOrWrite(s: State, error: Error, o: Outcome, r: Readings, jitter: nat)
    requires PhaseDone(s, error, jitter) && Near(r, jitter) && s.call.value.phase in {Connecting, Writing}
    ensures Timely(HandlePhase(s, error, o, r), jitter)
  {
    FinishCallKeepsTimely(s, error, r, jitter);
    FinishCallKeepsTimely(s, FailedOperation, r, jitter);
    if error == Success {
      var updated := UpdateTimeout(s.call.value, r.spent);
      ArmKeepsTimely(s, updated.(phase := Writing), SOCKET, updated.timeout, r.expiry, jitter);
      var reading := updated.(phase := ReadingHeader, innerTimeout := updated.timeout, innerStart := r.start);
      ArmKeepsTimely(s, reading, SOCKET, updated.timeout, r.expiry, jitter);
    }
  }

  lemma HandleRead(s: State, error: Error, o: Outcome, r: Readings, jitter: nat)
    requires PhaseDone(s, error, jitter) && Near(r, jitter) && s.call.value.phase in {ReadingHeader, ReadingBody}
    ensures Timely(HandlePhase(s, error, o, r), jitter)
  {
    var call := s.call.value;
    if call.phase == ReadingHeader && error == Success && o.full && !o.empty {
      ArmKeepsTimely(s, call.(phase := ReadingBody), SOCKET, call.innerTimeout - (r.spent - call.innerStart),
                     r.expiry, jitter);
    } else {
      FinishCallKeepsTimely(s, DecodeOutcome(error, o.decodes), r, jitter);
      FinishCallKeepsTimely(s, DecodeOutcome(InvalidFrame, o.decodes), r, jitter);
    }
  }

  lemma CompletionIsPhaseDone(s: State, o: Outcome, r: Readings, jitter: nat)
    requires Timely(s, jitter) && Possible(s, Complete(o, r), jitter)
    ensures var last := |s.timed.operations| - 1;
      var timed := TO.Step(s.timed, TO.Complete(last, o.failed, s.clock));
      && timed.open == s.timed.open
      && timed.operations[last].done == Some(TO.Classify(TargetOf(s.call.value) in s.timed.open, o.failed))
      && PhaseDone(s.(timed := timed), timed.operations[last].done.value, jitter)
      && (TO.Expired(timed.operations[last]) <==> TO.Expired(LastOperation(s)))
  {
    TO.StepKeepsInv(s.timed, TO.Complete(|s.timed.operations| - 1, o.failed, s.clock));
  }

  lemma CompleteKeepsTimely(s: State, o: Outcome, r: Readings, jitter: nat)
    requires Timely(s, jitter) && Possible(s, Complete(o, r), jitter)
    ensures Timely(CompleteStep(s, o, r), jitter)
  {
    CompletionIsPhaseDone(s, o, r, jitter);
    var last := |s.timed.operations| - 1;
    var timed := TO.Step(s.timed, TO.Complete(last, o.failed, s.clock));
    var t, error := s.(timed := timed), timed.operations[last].done.value;
    match s.call.value.phase
    case Resolving => HandleResolve(t, error, o, r, jitter);
    case Connecting => HandleConnectOrWrite(t, error, o, r, jitter);
    case Writing => HandleConnectOrWrite(t, error, o, r, jitter);
    case ReadingHeader => HandleRead(t, error, o, r, jitter);
    case ReadingBody => HandleRead(t, error, o, r, jitter);
  }

  // ---------- Accounts ----------

  lemma FinishCallReports(s: State, error: Error, r: Readings)
    requires s.call.Some? && s.timed.operations != []
    ensures FinishCall(s, error, r).results
      == s.results + [Result(s.call.value, error, TO.Expired(LastOperation(s)), s.clock)]
  {
  }

  lemma FinishCallKeepsAccounted(s: State, error: Error, r: Readings)
    requires Accounted(s) && s.call.Some? && s.timed.operations != []
    ensures Accounted(FinishCall(s, error, r))
  {
    M.FinishPreservesInv(s.mgr);
    var t := FinishCall(s, error, r);
    FinishCallReports(s, error, r);
    assert M.FinishStep(s.mgr).finished == s.mgr.finished + [s.call.value.id];
    if s.mgr.pending.HasPendingOperation() {
      assert M.Active(t.mgr) == [s.mgr.pending.GetPendingOperation()] == [t.call.value.id];
    }
  }

  /** The call goes on to its next phase. */
  ghost predicate Continues(s: State, t: State)
    requires s.call.Some?
  {
    && t == s.(timed := t.timed, call := t.call)
    && t.call.Some? && t.call.value.id == s.call.value.id && t.call.value.began == s.call.value.began
    && t.timed.operations != [] && !TO.Expired(LastOperation(t))
  }

  /** A phase handler either continues the call or finishes it with `e`, which is an abort only if `error` is one. */
  lemma HandlePhaseCases(s: State, error: Error, o: Outcome, r: Readings) returns (e: Error)
    requires s.call.Some? && s.timed.operations != []
    ensures Continues(s, HandlePhase(s, error, o, r)) || HandlePhase(s, error, o, r) == FinishCall(s, e, r)
    ensures error != Success ==> HandlePhase(s, error, o, r) == FinishCall(s, e, r)
    ensures (e == Aborted ==> error == Aborted) && (e == Success ==> error == Success)
  {
    e := error;
    match s.call.value.phase
    case Resolving =>
    case Connecting =>
    case Writing => if !o.full { e := FailedOperation; }
    case ReadingHeader => e := DecodeOutcome(if error == Success && !o.full then InvalidFrame else error, o.decodes);
    case ReadingBody => e := DecodeOutcome(if error == Success && !o.full then InvalidFrame else error, o.decodes);
  }

  lemma CompleteKeepsReported(s: State, o: Outcome, r: Readings, jitter: nat)
    requires Timely(s, jitter) && Reported(s) && Possible(s, Complete(o, r), jitter)
    ensures Reported(CompleteStep(s, o, r))
  {
    CompletionIsPhaseDone(s, o, r, jitter);
    var last := |s.timed.operations| - 1;
    var timed := TO.Step(s.timed, TO.Complete(last, o.failed, s.clock));
    var t := s.(timed := timed);
    var e := HandlePhaseCases(t, timed.operations[last].done.value, o, r);
    FinishCallReports(t, e, r);
  }

  lemma CompleteKeepsAccounted(s: State, o: Outcome, r: Readings, jitter: nat)
    requires Accounted(s) && Possible(s, Complete(o, r), jitter)
    ensures Accounted(CompleteStep(s, o, r))
  {
    var last := |s.timed.operations| - 1;
    var timed := TO.Step(s.timed, TO.Complete(last, o.failed, s.clock));
    var t := s.(timed := timed);
    var e := HandlePhaseCases(t, timed.operations[last].done.value, o, r);
    FinishCallKeepsAccounted(t, e, r);
  }

  lemma AsyncCallKeepsAccounted(s: State, encodes: bool, request: Request, r: Readings)
    requires Accounted(s)
    ensures Accounted(AsyncCallStep(s, encodes, request, r))
  {
    M.StartPreservesInv(s.mgr);
  }

  lemma AsyncCallKeepsTimely(s: State, encodes: bool, request: Request, r: Readings, jitter: nat)
    requires Timely(s, jitter) && Near(r, jitter) && s.mgr.running == s.call.Some?
    requires s.call.Some? ==> s.call.value.id < |s.requests|
    ensures Timely(AsyncCallStep(s, encodes, request, r), jitter)
  {
    if encodes && !s.mgr.running {
      var u := s.(calls := s.calls + 1, requests := s.requests + [request], mgr := M.StartStep(s.mgr));
      BeginCallKeepsTimely(u, s.mgr.submitted, r, jitter);
    }
  }

  lemma ActiveCallHasRequest(s: State)
    requires Accounted(s) && s.call.Some?
    ensures s.call.value.id < |s.requests|
  {
    assert s.call.value.id == s.mgr.started[|s.mgr.started| - 1];
  }

  lemma AsyncCallKeepsInv(s: State, encodes: bool, request: Request, r: Readings, jitter: nat)
    requires Inv(s, jitter) && Near(r, jitter)
    ensures Inv(AsyncCallStep(s, encodes, request, r), jitter)
  {
    if s.call.Some? {
      ActiveCallHasRequest(s);
    }
    AsyncCallKeepsAccounted(s, encodes, request, r);
    AsyncCallKeepsTimely(s, encodes, request, r, jitter);
  }

  lemma CancelKeepsInv(s: State, jitter: nat)
    requires Inv(s, jitter)
    ensures Inv(CancelStep(s), jitter)
  {
    M.CancelPreservesInv(s.mgr);
  }

  lemma TimerKeepsTimely(s: State, e: Event, jitter: nat)
    requires Timely(s, jitter) && Possible(s, e, jitter) && (e.Elapse? || e.Timeout?)
    ensures Timely(Step(s, e, jitter), jitter) && Step(s, e, jitter) == s.(timed := Step(s, e, jitter).timed)
    ensures !(s.call.Some? && e.index == |s.timed.operations| - 1) ==> Step(s, e, jitter).timed.open == s.timed.open
  {
    var inner := if e.Elapse? then TO.Elapse(e.index, s.clock) else TO.Timeout(e.index, s.clock);
    TO.StepKeepsInv(s.timed, inner);
    assert TO.Sound(s.timed.operations[e.index]);
  }

  lemma StepKeepsInv(s: State, e: Event, jitter: nat)
    requires Inv(s, jitter) && Possible(s, e, jitter)
    ensures Inv(Step(s, e, jitter), jitter)
  {
    match e
    case AsyncCall(encodes, request, r) => AsyncCallKeepsInv(s, encodes, request, r, jitter);
    case RunPost =>
    case Cancel => CancelKeepsInv(s, jitter);
    case Elapse(_) => TimerKeepsTimely(s, e, jitter);
    case Timeout(_) => TimerKeepsTimely(s, e, jitter);
    case Complete(o, r) =>
      CompleteKeepsTimely(s, o, r, jitter);
      CompleteKeepsReported(s, o, r, jitter);
      CompleteKeepsAccounted(s, o, r, jitter);
    case SetClock(_) =>
  }

  lemma {:induction false} RunKeepsInv(s: State, events: seq<Event>, t: State, jitter: nat)
    requires Inv(s, jitter) && Runs(s, events, t, jitter)
    ensures Inv(t, jitter)
    decreases |events|
  {
    if events == [] {
    } else {
      StepKeepsInv(s, events[0], jitter);
      RunKeepsInv(Step(s, events[0], jitter), events[1..], t, jitter);
    }
  }

  lemma RunFromInit(clock: int, events: seq<Event>, t: State, jitter: nat)
    requires Runs(Init(clock), events, t, jitter)
    ensures Inv(t, jitter)
  {
    M.InitInv(M.Queue([]));
    RunKeepsInv(Init(clock), events, t, jitter);
  }

  // ---------- Main results ----------

  /**
   In every run, each call made is in exactly one account: its encoding error is posted or reported, or its handler
   was called, or it is active, pending, or dropped by a cancel. Handlers are called once per call, in submission order.
   */
  lemma CallsAreConserved(clock: int, events: seq<Event>, t: State, jitter: nat)
    requires Runs(Init(clock), events, t, jitter)
    ensures t.calls == t.posted + t.reported + |t.results| + (if t.call.Some? then 1 else 0)
                       + |t.mgr.pending.Contents()| + |t.mgr.dropped|
    ensures forall i, j :: 0 <= i < j < |t.results| ==> t.results[i].call.id < t.results[j].call.id
    ensures t.call.Some? ==> forall i :: 0 <= i < |t.results| ==> t.results[i].call.id < t.call.value.id
    ensures forall i :: 0 <= i < |t.results| ==> t.results[i].call.id !in t.mgr.dropped
  {
    RunFromInit(clock, events, t, jitter);
    HandlersInOrder(t);
  }

  lemma HandlersInOrder(s: State)
    requires Accounted(s)
    ensures forall i, j :: 0 <= i < j < |s.results| ==> s.results[i].call.id < s.results[j].call.id
    ensures s.call.Some? ==> forall i :: 0 <= i < |s.results| ==> s.results[i].call.id < s.call.value.id
    ensures forall i :: 0 <= i < |s.results| ==> s.results[i].call.id !in s.mgr.dropped
    ensures |s.results| + (if s.call.Some? then 1 else 0) + |s.mgr.pending.Contents()| + |s.mgr.dropped|
      == s.mgr.submitted
  {
    assert s.mgr.started == s.mgr.finished + M.Active(s.mgr);
    forall i | 0 <= i < |s.results| ensures s.results[i].call.id == s.mgr.started[i] < M.Settled(s.mgr) {
    }
    forall i | 0 <= i < |s.results| ensures s.results[i].call.id !in s.mgr.dropped {
      assert s.mgr.started[i] in s.mgr.started;
    }
  }

  /**
   One deadline for the whole call: in every run, whichever phase is active, its timer is set for the instant at which
   the call began plus the caller's timeout, up to the clock readings within single steps; that slack does not
   accumulate over the phases. If each step reads the clock once, then the instant is exact.
   */
  lemma OneDeadline(clock: int, events: seq<Event>, t: State, jitter: nat)
    requires Runs(Init(clock), events, t, jitter) && t.call.Some?
    ensures t.timed.operations != []
    ensures Deadline(t, t.call.value) <= LastOperation(t).timer.expiry <= Deadline(t, t.call.value) + 2 * jitter
    ensures jitter == 0 ==> LastOperation(t).timer.expiry == Deadline(t, t.call.value)
  {
    RunFromInit(clock, events, t, jitter);
  }

  /**
   A stale timer is harmless: in every run, only the timer of the active call's current phase can close anything.
   Timers of earlier phases and of earlier calls, which hold references to the same socket, change nothing.
   */
  lemma StaleTimersAreHarmless(clock: int, events: seq<Event>, s: State, e: Event, jitter: nat)
    requires Runs(Init(clock), events, s, jitter) && Possible(s, e, jitter) && (e.Elapse? || e.Timeout?)
    requires s.call == None || e.index < |s.timed.operations| - 1
    ensures Step(s, e, jitter).timed.open == s.timed.open
    ensures Step(s, e, jitter).call == s.call && Step(s, e, jitter).results == s.results
  {
    RunFromInit(clock, events, s, jitter);
    TimerKeepsTimely(s, e, jitter);
  }

  // ---------- Which calls are made, and which begin ----------

  /** What the encoder accepts becomes a request, in order. */
  function Requests(events: seq<Event>): seq<Request> {
    if events == [] then []
    else
      (if events[0].AsyncCall? && events[0].encodes then [events[0].request] else []) + Requests(events[1..])
  }

  /** The number of calls that the encoder rejects. */
  function Rejected(events: seq<Event>): nat {
    if events == [] then 0
    else (if events[0].AsyncCall? && !events[0].encodes then 1 else 0) + Rejected(events[1..])
  }

  /** The same state with other accounts of calls. */
  function WithAccounts(s: State, calls: nat, posted: nat, reported: nat): State {
    s.(calls := calls, posted := posted, reported := reported)
  }

  lemma FinishKeepsAccounts(s: State, error: Error, r: Readings, calls: nat, posted: nat, reported: nat)
    requires s.call.Some? && s.timed.operations != []
    ensures FinishCall(WithAccounts(s, calls, posted, reported), error, r)
      == WithAccounts(FinishCall(s, error, r), calls, posted, reported)
    ensures var t := FinishCall(s, error, r); t.requests == s.requests && t.mgr.submitted == s.mgr.submitted
  {
  }

  lemma HandlerKeepsAccounts(s: State, error: Error, o: Outcome, r: Readings, calls: nat, posted: nat, reported: nat)
    requires s.call.Some? && s.timed.operations != []
    ensures HandlePhase(WithAccounts(s, calls, posted, reported), error, o, r)
      == WithAccounts(HandlePhase(s, error, o, r), calls, posted, reported)
    ensures var t := HandlePhase(s, error, o, r); t.requests == s.requests && t.mgr.submitted == s.mgr.submitted
  {
    forall e: Error {
      FinishKeepsAccounts(s, e, r, calls, posted, reported);
    }
    match s.call.value.phase
    case Resolving =>
    case Connecting =>
    case Writing =>
    case ReadingHeader =>
    case ReadingBody =>
  }

  lemma CompletionKeepsAccounts(s: State, o: Outcome, r: Readings, calls: nat, posted: nat, reported: nat)
    requires Completable(s)
    ensures CompleteStep(WithAccounts(s, calls, posted, reported), o, r)
      == WithAccounts(CompleteStep(s, o, r), calls, posted, reported)
    ensures var t := CompleteStep(s, o, r); t.requests == s.requests && t.mgr.submitted == s.mgr.submitted
  {
    var last := |s.timed.operations| - 1;
    var timed := TO.Step(s.timed, TO.Complete(last, o.failed, s.clock));
    var error := timed.operations[last].done.value;
    HandlerKeepsAccounts(s.(timed := timed), error, o, r, calls, posted, reported);
  }

  lemma StepCollects(s: State, e: Event, jitter: nat)
    requires Possible(s, e, jitter)
    ensures var t := Step(s, e, jitter);
      && t.requests == s.requests + Requests([e])
      && t.posted + t.reported == s.posted + s.reported + Rejected([e])
  {
    assert [e][1..] == [];
    if e.Complete? {
      CompletionKeepsAccounts(s, e.outcome, e.readings, s.calls, s.posted, s.reported);
      assert WithAccounts(s, s.calls, s.posted, s.reported) == s;
    }
  }

  lemma FirstCollected(events: seq<Event>)
    requires events != []
    ensures Requests(events) == Requests([events[0]]) + Requests(events[1..])
    ensures Rejected(events) == Rejected([events[0]]) + Rejected(events[1..])
  {
    assert [events[0]][1..] == [];
  }

  lemma {:induction false} RunsCollectRequests(s: State, events: seq<Event>, t: State, jitter: nat)
    requires Runs(s, events, t, jitter)
    ensures t.requests == s.requests + Requests(events)
    ensures t.posted + t.reported == s.posted + s.reported + Rejected(events)
    decreases |events|
  {
    if events == [] {
    } else {
      var u := Step(s, events[0], jitter);
      StepCollects(s, events[0], jitter);
      FirstCollected(events);
      RunsCollectRequests(u, events[1..], t, jitter);
      assert t.requests == s.requests + Requests(events) by {
        ConcatAssociates(s.requests, Requests([events[0]]), Requests(events[1..]));
      }
    }
  }

  /**
   In every run, the encoder decides: each call that it rejects has its error posted or reported; each call that it
   accepts is submitted to the manager with its own request.
   */
  lemma EncoderDecides(clock: int, events: seq<Event>, t: State, jitter: nat)
    requires Runs(Init(clock), events, t, jitter)
    ensures t.posted + t.reported == Rejected(events)
    ensures t.requests == Requests(events) && t.mgr.submitted == |Requests(events)|
  {
    RunFromInit(clock, events, t, jitter);
    RunsCollectRequests(Init(clock), events, t, jitter);
  }

  /** The state without the account of the rejected calls. */
  function Accepted(s: State): State {
    WithAccounts(s, s.mgr.submitted, 0, 0)
  }

  /** The events that are not about rejected calls. */
  function WithoutRejected(events: seq<Event>): seq<Event> {
    if events == [] then []
    else if events[0].RunPost? || (events[0].AsyncCall? && !events[0].encodes) then WithoutRejected(events[1..])
    else [events[0]] + WithoutRejected(events[1..])
  }

  /** A run goes in the same way without the calls that the encoder rejects: they touch no call, no timer, no socket. */
  lemma {:induction false} RejectedCallsTouchNothing(s: State, events: seq<Event>, t: State, jitter: nat)
    requires Runs(s, events, t, jitter)
    ensures Runs(Accepted(s), WithoutRejected(events), Accepted(t), jitter)
    decreases |events|
  {
    if events == [] {
    } else {
      var e := events[0];
      var u := Step(s, e, jitter);
      RejectedCallsTouchNothing(u, events[1..], t, jitter);
      if e.RunPost? || (e.AsyncCall? && !e.encodes) {
        assert Accepted(u) == Accepted(s);
      } else {
        if e.Complete? {
          CompletionKeepsAccounts(s, e.outcome, e.readings, s.mgr.submitted, 0, 0);
        }
        assert Possible(Accepted(s), e, jitter) && Step(Accepted(s), e, jitter) == Accepted(u);
        assert WithoutRejected(events)[1..] == WithoutRejected(events[1..]);
      }
    }
  }

  /** The calls of the manager's methods that an event makes. */
  function ManagerCalls(s: State, e: Event, jitter: nat): seq<M.Event>
    requires Possible(s, e, jitter)
  {
    match e
    case AsyncCall(encodes, _, _) => if encodes then [M.Start] else []
    case Cancel => [M.Cancel]
    case Complete(o, r) => if |CompleteStep(s, o, r).results| > |s.results| then [M.Finish] else []
    case _ => []
  }

  ghost function RunCalls(s: State, events: seq<Event>, jitter: nat): seq<M.Event>
    decreases |events|
  {
    if events == [] || !Possible(s, events[0], jitter) then []
    else ManagerCalls(s, events[0], jitter) + RunCalls(Step(s, events[0], jitter), events[1..], jitter)
  }

  lemma CompletionFinishes(s: State, o: Outcome, r: Readings)
    requires Completable(s)
    ensures var t := CompleteStep(s, o, r);
      t.mgr == if |t.results| > |s.results| then M.FinishStep(s.mgr) else s.mgr
  {
    var last := |s.timed.operations| - 1;
    var timed := TO.Step(s.timed, TO.Complete(last, o.failed, s.clock));
    var t := s.(timed := timed);
    var e := HandlePhaseCases(t, timed.operations[last].done.value, o, r);
    FinishCallReports(t, e, r);
  }

  lemma StepCallsManager(s: State, e: Event, jitter: nat)
    requires Possible(s, e, jitter)
    ensures Step(s, e, jitter).mgr == M.Run(s.mgr, ManagerCalls(s, e, jitter))
  {
    var calls := ManagerCalls(s, e, jitter);
    if e.Complete? {
      CompletionFinishes(s, e.outcome, e.readings);
    }
    if calls != [] {
      assert calls[1..] == [];
      assert M.Run(s.mgr, calls) == M.Apply(s.mgr, calls[0]);
    }
  }

  /** Every run of the client is a run of its manager: what holds of all of these holds of the calls. */
  lemma {:induction false} RunsManager(s: State, events: seq<Event>, t: State, jitter: nat)
    requires Runs(s, events, t, jitter)
    ensures t.mgr == M.Run(s.mgr, RunCalls(s, events, jitter))
    decreases |events|
  {
    if events == [] {
    } else {
      var u := Step(s, events[0], jitter);
      StepCallsManager(s, events[0], jitter);
      RunsManager(u, events[1..], t, jitter);
      M.RunConcat(s.mgr, ManagerCalls(s, events[0], jitter), RunCalls(u, events[1..], jitter));
    }
  }

  /**
   A call that is made at any moment of any run begins if and only if no call is active, or it is followed by more ends
   of calls than there are calls waiting before it, all of them before the next cancel.
   */
  lemma CallBeginsIff(clock: int, before: seq<Event>, s: State, request: Request, r: Readings,
                      events: seq<Event>, t: State, jitter: nat)
    requires Runs(Init(clock), before, s, jitter) && Near(r, jitter)
    requires Runs(AsyncCallStep(s, true, request, r), events, t, jitter)
    ensures s.mgr.submitted in t.mgr.started
      <==> || s.call == None
           || |s.mgr.pending.Contents()|
              < M.FinishesBeforeCancel(RunCalls(AsyncCallStep(s, true, request, r), events, jitter))
  {
    RunFromInit(clock, before, s, jitter);
    var u := AsyncCallStep(s, true, request, r);
    RunsManager(u, events, t, jitter);
    M.SubmissionStartsIff(s.mgr, RunCalls(u, events, jitter));
  }

  // ---------- What each completion reports ----------

  lemma {:induction false} ResultsGrow(s: State, events: seq<Event>, t: State, jitter: nat)
    requires Runs(s, events, t, jitter)
    ensures s.results <= t.results
    decreases |events|
  {
    if events == [] {
    } else {
      var e := events[0];
      if e.Complete? {
        CompletionAddsResult(s, e.outcome, e.readings);
      }
      ResultsGrow(Step(s, e, jitter), events[1..], t, jitter);
    }
  }

  lemma CompletionAddsResult(s: State, o: Outcome, r: Readings)
    requires Completable(s)
    ensures s.results <= CompleteStep(s, o, r).results
  {
    var last := |s.timed.operations| - 1;
    var timed := TO.Step(s.timed, TO.Complete(last, o.failed, s.clock));
    var t := s.(timed := timed);
    var e := HandlePhaseCases(t, timed.operations[last].done.value, o, r);
    FinishCallReports(t, e, r);
  }

  /** The phase works on something open, asio reports no error, and there is a next phase. */
  predicate GoesOn(call: Call, isOpen: bool, o: Outcome) {
    && isOpen && !o.failed
    && match call.phase
       case Resolving => true
       case Connecting => true
       case Writing => o.full
       case ReadingHeader => o.full && !o.empty
       case ReadingBody => false
  }

  predicate Reads(call: Call) {
    call.phase == ReadingHeader || call.phase == ReadingBody
  }

  /** When a call that does not go on is told of which error. */
  ghost predicate ToldOf(error: Error, call: Call, isOpen: bool, o: Outcome) {
    var cut := call.phase == Writing && !o.full;
    var undecoded := Reads(call) && !o.decodes;
    && (error == Success <==> Reads(call) && isOpen && !o.failed && o.full && o.decodes)
    && (error == InvalidFrame <==> Reads(call) && isOpen && !o.failed && !o.full && o.decodes)
    && (error == Decoding <==> undecoded)
    && (error == Aborted <==> !isOpen && !cut && !undecoded)
    && (error == FailedOperation <==> cut || (isOpen && o.failed && !undecoded))
    && error != Encoding
  }

  lemma CompletionTells(s: State, o: Outcome, r: Readings, jitter: nat)
    requires Timely(s, jitter) && Possible(s, Complete(o, r), jitter)
    ensures var t, call, isOpen := CompleteStep(s, o, r), s.call.value, TargetOf(s.call.value) in s.timed.open;
      if GoesOn(call, isOpen, o) then
        t.results == s.results && t.call.Some? && t.call.value.id == call.id
      else
        && t.results == s.results + [Result(call, t.results[|s.results|].error, TO.Expired(LastOperation(s)), s.clock)]
        && ToldOf(t.results[|s.results|].error, call, isOpen, o)
  {
    CompletionIsPhaseDone(s, o, r, jitter);
    var last := |s.timed.operations| - 1;
    var t := s.(timed := TO.Step(s.timed, TO.Complete(last, o.failed, s.clock)));
    forall e: Error {
      FinishCallReports(t, e, r);
    }
  }

  /**
   At every completion of every run: the call goes on exactly if its phase works on something open, without an error and
   with a next phase; otherwise its handler is called, and which error it is told of is `ToldOf`, for good.
   */
  lemma CompletionsAreReported(clock: int, before: seq<Event>, s: State, o: Outcome, r: Readings, jitter: nat,
                               after: seq<Event>, t: State)
    requires Runs(Init(clock), before, s, jitter) && Possible(s, Complete(o, r), jitter)
    requires Runs(CompleteStep(s, o, r), after, t, jitter)
    ensures var call, isOpen := s.call.value, TargetOf(s.call.value) in s.timed.open;
      if GoesOn(call, isOpen, o) then
        CompleteStep(s, o, r).call.Some? && CompleteStep(s, o, r).call.value.id == call.id
        && CompleteStep(s, o, r).results == s.results
      else
        |s.results| < |t.results| && t.results[|s.results|].call == call
        && ToldOf(t.results[|s.results|].error, call, isOpen, o)
  {
    RunFromInit(clock, before, s, jitter);
    CompletionTells(s, o, r, jitter);
    ResultsGrow(CompleteStep(s, o, r), after, t, jitter);
  }

  // ---------- Calls that cannot succeed any more ----------

  /** The handler of call `id` has not been called with success. */
  ghost predicate NoSuccess(s: State, id: M.OpId) {
    forall i :: 0 <= i < |s.results| && s.results[i].call.id == id ==> s.results[i].error != Success
  }

  /** The handler of call `id` is not called with success in any run. */
  ghost predicate NeverSucceeds(s: State, id: M.OpId, jitter: nat) {
    forall events, t :: Runs(s, events, t, jitter) ==> NoSuccess(t, id)
  }

  /** Call `id` has begun, has not succeeded, and what it works on, if it is still active, is closed. */
  ghost predicate Lost(s: State, id: M.OpId) {
    && id in s.mgr.started && NoSuccess(s, id)
    && (s.call.Some? && s.call.value.id == id ==> TargetOf(s.call.value) !in s.timed.open)
  }

  lemma StartedIsOld(s: State, id: M.OpId)
    requires M.Inv(s.mgr) && id in s.mgr.started
    ensures id < s.mgr.submitted
    ensures s.mgr.pending.HasPendingOperation() ==> id < s.mgr.pending.GetPendingOperation()
  {
    if s.mgr.pending.HasPendingOperation() {
      assert s.mgr.pending.GetPendingOperation() == s.mgr.pending.Contents()[0] == M.Settled(s.mgr);
    }
  }

  lemma FinishCallKeepsLost(s: State, error: Error, r: Readings, id: M.OpId)
    requires M.Inv(s.mgr) && s.call.Some? && s.timed.operations != [] && id in s.mgr.started && NoSuccess(s, id)
    requires s.call.value.id == id ==> error != Success
    ensures Lost(FinishCall(s, error, r), id)
  {
    StartedIsOld(s, id);
    FinishCallReports(s, error, r);
    var t := FinishCall(s, error, r);
    assert s.mgr.started <= t.mgr.started;
    assert t.call.Some? ==> t.call.value.id != id;
  }

  lemma CompleteKeepsLost(s: State, o: Outcome, r: Readings, id: M.OpId, jitter: nat)
    requires Inv(s, jitter) && Possible(s, Complete(o, r), jitter) && Lost(s, id)
    ensures Lost(CompleteStep(s, o, r), id)
  {
    CompletionIsPhaseDone(s, o, r, jitter);
    var last := |s.timed.operations| - 1;
    var timed := TO.Step(s.timed, TO.Complete(last, o.failed, s.clock));
    var t, error := s.(timed := timed), timed.operations[last].done.value;
    var e := HandlePhaseCases(t, error, o, r);
    if HandlePhase(t, error, o, r) == FinishCall(t, e, r) {
      FinishCallKeepsLost(t, e, r, id);
    }
  }

  lemma StepKeepsLost(s: State, e: Event, id: M.OpId, jitter: nat)
    requires Inv(s, jitter) && Possible(s, e, jitter) && Lost(s, id)
    ensures Lost(Step(s, e, jitter), id)
  {
    match e
    case AsyncCall(_, _, _) => StartedIsOld(s, id);
    case RunPost =>
    case Cancel =>
    case Elapse(_) =>
    case Timeout(_) =>
    case Complete(o, r) => CompleteKeepsLost(s, o, r, id, jitter);
    case SetClock(_) =>
  }

  lemma {:induction false} LostNeverSucceeds(s: State, events: seq<Event>, t: State, id: M.OpId, jitter: nat)
    requires Inv(s, jitter) && Lost(s, id) && Runs(s, events, t, jitter)
    ensures NoSuccess(t, id)
    decreases |events|
  {
    if events == [] {
    } else {
      StepKeepsInv(s, events[0], jitter);
      StepKeepsLost(s, events[0], id, jitter);
      LostNeverSucceeds(Step(s, events[0], jitter), events[1..], t, id, jitter);
    }
  }

  /** The report takes a call from each phase to the next one, and from the last one to its end. */
  predicate Good(o: Outcome) {
    !o.failed && o.full && o.endpoints
  }

  const GOOD := Outcome(false, true, true, true, true)

  function PhasesLeft(phase: Phase): nat {
    match phase
    case Resolving => 4
    case Connecting => 3
    case Writing => 2
    case ReadingHeader => 1
    case ReadingBody => 0
  }

  predicate Last(phase: Phase, o: Outcome) {
    phase == ReadingBody || (phase == ReadingHeader && o.empty)
  }

  /** What a good report does to a call that works on something open. */
  lemma GoodReport(s: State, o: Outcome, r: Readings, jitter: nat)
    requires Inv(s, jitter) && s.call.Some? && TargetOf(s.call.value) in s.timed.open && Near(r, jitter) && Good(o)
    ensures Possible(s, Complete(o, r), jitter)
    ensures var t, call := CompleteStep(s, o, r), s.call.value;
      if Last(call.phase, o) then
        t.results == s.results + [Result(call, DecodeOutcome(Success, o.decodes), false, s.clock)]
      else
        && t.results == s.results && t.call.Some? && t.call.value.id == call.id
        && PhasesLeft(t.call.value.phase) == PhasesLeft(call.phase) - 1
        && TargetOf(t.call.value) in t.timed.open
  {
    CompletionIsPhaseDone(s, o, r, jitter);
    var last := |s.timed.operations| - 1;
    var t := s.(timed := TO.Step(s.timed, TO.Complete(last, false, s.clock)));
    if Last(s.call.value.phase, o) {
      FinishCallReports(t, DecodeOutcome(Success, o.decodes), r);
    }
  }

  lemma {:induction false} SuccessRun(s: State, r: Readings, jitter: nat) returns (events: seq<Event>, t: State)
    requires Inv(s, jitter) && s.call.Some? && TargetOf(s.call.value) in s.timed.open && Near(r, jitter)
    ensures Runs(s, events, t, jitter) && !NoSuccess(t, s.call.value.id)
    decreases PhasesLeft(s.call.value.phase)
  {
    var e := Complete(GOOD, r);
    GoodReport(s, GOOD, r, jitter);
    StepKeepsInv(s, e, jitter);
    var u := Step(s, e, jitter);
    var rest := [];
    if Last(s.call.value.phase, GOOD) {
      t := u;
      assert t.results[|s.results|].error == Success;
    } else {
      rest, t := SuccessRun(u, r, jitter);
    }
    events := [e] + rest;
    assert events[1..] == rest;
  }

  lemma ActiveHasNoSuccess(s: State)
    requires Accounted(s) && s.call.Some?
    ensures s.call.value.id in s.mgr.started && NoSuccess(s, s.call.value.id)
  {
    HandlersInOrder(s);
    assert M.Active(s.mgr) == [s.call.value.id];
  }

  lemma NeverSucceedsIffLost(s: State, jitter: nat)
    requires Inv(s, jitter) && s.call.Some?
    ensures NeverSucceeds(s, s.call.value.id, jitter) <==> TargetOf(s.call.value) !in s.timed.open
  {
    var id := s.call.value.id;
    if TargetOf(s.call.value) in s.timed.open {
      var events, t := SuccessRun(s, Readings(s.clock, s.clock, s.clock), jitter);
    } else {
      ActiveHasNoSuccess(s);
      forall events, t | Runs(s, events, t, jitter) ensures NoSuccess(t, id) {
        LostNeverSucceeds(s, events, t, id, jitter);
      }
    }
  }

  /**
   At any moment of any run, the active call cannot succeed any more in any continuation if and only if what its phase
   works on is closed: by the expiry of that phase's timer, by a cancel after the resolve phase, or because there was no
   endpoint to connect to. So a call whose handler is told of success worked on something open from beginning to end,
   and as long as that is open, nothing that happened before keeps the call from success.
   */
  lemma NeverSucceedsIffClosed(clock: int, before: seq<Event>, s: State, jitter: nat)
    requires Runs(Init(clock), before, s, jitter) && s.call.Some?
    ensures NeverSucceeds(s, s.call.value.id, jitter) <==> TargetOf(s.call.value) !in s.timed.open
    ensures s.timed.operations != []
    ensures var call := s.call.value;
      TargetOf(call) !in s.timed.open
      <==> TO.Expired(LastOperation(s)) || (call.phase != Resolving && (call.canceled || !call.connectable))
  {
    RunFromInit(clock, before, s, jitter);
    NeverSucceedsIffLost(s, jitter);
  }

  /**
   `cancel` makes sure that the active call does not succeed, whatever happens afterwards, if and only if the call is
   past its resolve phase or its resolver has already timed out: the socket is closed, the resolver is not, and a call
   that is still resolving goes on to connect, write and read.
   */
  lemma CancelFailsCallIff(clock: int, before: seq<Event>, s: State, jitter: nat)
    requires Runs(Init(clock), before, s, jitter) && s.call.Some?
    ensures s.timed.operations != []
    ensures NeverSucceeds(CancelStep(s), s.call.value.id, jitter)
      <==> s.call.value.phase != Resolving || TO.Expired(LastOperation(s))
  {
    RunFromInit(clock, before, s, jitter);
    CancelKeepsInv(s, jitter);
    NeverSucceedsIffLost(CancelStep(s), jitter);
  }

  // ---------- Endpoints ----------

  /** A call that was resolved to no endpoints, or was given none, does not succeed. */
  lemma ResolvedToNothing(clock: int, before: seq<Event>, s: State, o: Outcome, r: Readings, jitter: nat)
    requires Runs(Init(clock), before, s, jitter) && Possible(s, Complete(o, r), jitter)
    requires s.call.value.phase == Resolving && !o.endpoints
    ensures NeverSucceeds(CompleteStep(s, o, r), s.call.value.id, jitter)
  {
    RunFromInit(clock, before, s, jitter);
    StepKeepsInv(s, Complete(o, r), jitter);
    var id, u := s.call.value.id, CompleteStep(s, o, r);
    ResolvedToNothingIsLost(s, o, r, jitter);
    forall events, t | Runs(u, events, t, jitter) ensures NoSuccess(t, id) {
      LostNeverSucceeds(u, events, t, id, jitter);
    }
  }

  lemma ResolvedToNothingIsLost(s: State, o: Outcome, r: Readings, jitter: nat)
    requires Inv(s, jitter) && Possible(s, Complete(o, r), jitter)
    requires s.call.value.phase == Resolving && !o.endpoints
    ensures Lost(CompleteStep(s, o, r), s.call.value.id)
  {
    ActiveHasNoSuccess(s);
    CompletionIsPhaseDone(s, o, r, jitter);
    var last := |s.timed.operations| - 1;
    var timed := TO.Step(s.timed, TO.Complete(last, o.failed, s.clock));
    var t, error := s.(timed := timed), timed.operations[last].done.value;
    if error != Success {
      FinishCallKeepsLost(t, error, r, s.call.value.id);
    }
  }

  /** A call on given endpoints never resolves, and is connectable exactly if there are any. */
  predicate Routed(call: Call, request: Request) {
    request.direct ==> call.phase != Resolving && (call.connectable <==> request.endpoints)
  }

  ghost predicate AllRouted(s: State) {
    && (s.call.Some? ==> s.call.value.id < |s.requests| && Routed(s.call.value, s.requests[s.call.value.id]))
    && (forall i :: 0 <= i < |s.results| ==>
          s.results[i].call.id < |s.requests| && Routed(s.results[i].call, s.requests[s.results[i].call.id]))
  }

  lemma FinishCallKeepsRouted(s: State, error: Error, r: Readings)
    requires Accounted(s) && s.call.Some? && s.timed.operations != [] && AllRouted(s)
    ensures AllRouted(FinishCall(s, error, r))
  {
    FinishCallReports(s, error, r);
    if s.mgr.pending.HasPendingOperation() {
      M.WaitingOperation(s.mgr, s.mgr.pending.GetPendingOperation());
    }
  }

  lemma HandlePhaseKeepsRouted(s: State, error: Error, o: Outcome, r: Readings)
    requires Accounted(s) && s.call.Some? && s.timed.operations != [] && AllRouted(s)
    ensures AllRouted(HandlePhase(s, error, o, r))
  {
    var e := HandlePhaseCases(s, error, o, r);
    if HandlePhase(s, error, o, r) == FinishCall(s, e, r) {
      FinishCallKeepsRouted(s, e, r);
    }
  }

  lemma CompleteKeepsRouted(s: State, o: Outcome, r: Readings)
    requires Accounted(s) && Completable(s) && AllRouted(s)
    ensures AllRouted(CompleteStep(s, o, r))
  {
    var last := |s.timed.operations| - 1;
    var timed := TO.Step(s.timed, TO.Complete(last, o.failed, s.clock));
    HandlePhaseKeepsRouted(s.(timed := timed), timed.operations[last].done.value, o, r);
  }

  lemma StepKeepsRouted(s: State, e: Event, jitter: nat)
    requires Inv(s, jitter) && Possible(s, e, jitter) && AllRouted(s)
    ensures AllRouted(Step(s, e, jitter))
  {
    match e
    case AsyncCall(_, _, _) =>
    case RunPost =>
    case Cancel =>
    case Elapse(_) =>
    case Timeout(_) =>
    case Complete(o, r) => CompleteKeepsRouted(s, o, r);
    case SetClock(_) =>
  }

  lemma {:induction false} RunKeepsRouted(s: State, events: seq<Event>, t: State, jitter: nat)
    requires Inv(s, jitter) && Runs(s, events, t, jitter) && AllRouted(s)
    ensures Inv(t, jitter) && AllRouted(t)
    decreases |events|
  {
    if events == [] {
    } else {
      StepKeepsInv(s, events[0], jitter);
      StepKeepsRouted(s, events[0], jitter);
      RunKeepsRouted(Step(s, events[0], jitter), events[1..], t, jitter);
    }
  }

  /** In every run, a call that was given its endpoints skips the resolve phase, and needs at least one to succeed. */
  lemma DirectCallsNeedEndpoints(clock: int, events: seq<Event>, t: State, jitter: nat)
    requires Runs(Init(clock), events, t, jitter)
    ensures t.call.Some? ==>
      && t.call.value.id < |t.requests|
      && (t.requests[t.call.value.id].direct ==> t.call.value.phase != Resolving)
    ensures forall i :: 0 <= i < |t.results| ==>
      && t.results[i].call.id < |t.requests|
      && (t.results[i].error == Success && t.requests[t.results[i].call.id].direct ==>
            t.requests[t.results[i].call.id].endpoints)
  {
    RunFromInit(clock, [], Init(clock), jitter);
    RunKeepsRouted(Init(clock), events, t, jitter);
    forall i | 0 <= i < |t.results| ensures ResultExplained(t.results[i]) {
    }
  }

  // ---------- From the beginning of a call to its end ----------

  /** The event makes another call the active one. */
  predicate Begins(s: State, e: Event, jitter: nat)
    requires Possible(s, e, jitter)
  {
    var t := Step(s, e, jitter);
    t.call.Some? && (s.call == None || s.call.value.id != t.call.value.id)
  }

  /** If call `id` is active, then it began at `at`. */
  ghost predicate BeganAt(s: State, id: M.OpId, at: int) {
    id in s.mgr.started && (s.call.Some? && s.call.value.id == id ==> s.call.value.began == at)
  }

  lemma CompleteKeepsBegan(s: State, o: Outcome, r: Readings, id: M.OpId, at: int)
    requires Accounted(s) && Completable(s) && BeganAt(s, id, at)
    ensures BeganAt(CompleteStep(s, o, r), id, at)
  {
    var last := |s.timed.operations| - 1;
    var timed := TO.Step(s.timed, TO.Complete(last, o.failed, s.clock));
    var t := s.(timed := timed);
    var e := HandlePhaseCases(t, timed.operations[last].done.value, o, r);
    StartedIsOld(s, id);
    var u := CompleteStep(s, o, r);
    assert u.mgr == s.mgr || u.mgr == M.FinishStep(s.mgr);
    assert s.mgr.started <= u.mgr.started;
  }

  lemma StepKeepsBegan(s: State, e: Event, id: M.OpId, at: int, jitter: nat)
    requires Inv(s, jitter) && Possible(s, e, jitter) && BeganAt(s, id, at)
    ensures BeganAt(Step(s, e, jitter), id, at)
  {
    match e
    case AsyncCall(_, _, _) => StartedIsOld(s, id);
    case RunPost =>
    case Cancel =>
    case Elapse(_) =>
    case Timeout(_) =>
    case Complete(o, r) => CompleteKeepsBegan(s, o, r, id, at);
    case SetClock(_) =>
  }

  lemma {:induction false} RunKeepsBegan(s: State, events: seq<Event>, t: State, id: M.OpId, at: int, jitter: nat)
    requires Inv(s, jitter) && Runs(s, events, t, jitter) && BeganAt(s, id, at)
    ensures Inv(t, jitter) && BeganAt(t, id, at)
    decreases |events|
  {
    if events == [] {
    } else {
      StepKeepsInv(s, events[0], jitter);
      StepKeepsBegan(s, events[0], id, at, jitter);
      RunKeepsBegan(Step(s, events[0], jitter), events[1..], t, id, at, jitter);
    }
  }

  lemma FinishCallReadsClock(s: State, error: Error, r: Readings)
    requires s.call.Some? && s.timed.operations != []
    ensures var t := FinishCall(s, error, r); t.call.Some? ==> t.call.value.began == r.spent
  {
  }

  lemma CompletionReadsClock(s: State, o: Outcome, r: Readings)
    requires Completable(s)
    ensures var t := CompleteStep(s, o, r);
      t.call.Some? && t.call.value.id != s.call.value.id ==> t.call.value.began == r.spent
  {
    var last := |s.timed.operations| - 1;
    var timed := TO.Step(s.timed, TO.Complete(last, o.failed, s.clock));
    var u := s.(timed := timed);
    var error := HandlePhaseCases(u, timed.operations[last].done.value, o, r);
    FinishCallReadsClock(u, error, r);
  }

  lemma BeginningReadsClock(s: State, e: Event, jitter: nat)
    requires Possible(s, e, jitter) && Begins(s, e, jitter)
    ensures e.AsyncCall? || e.Complete?
    ensures Step(s, e, jitter).call.value.began == e.readings.spent
  {
    match e
    case AsyncCall(_, _, _) =>
    case RunPost =>
    case Cancel =>
    case Elapse(_) =>
    case Timeout(_) =>
    case Complete(o, r) => CompletionReadsClock(s, o, r);
    case SetClock(_) =>
  }

  /**
   The timer of every phase of a call is set for the clock reading of the step that began the call, plus the timeout
   that the user gave for this call, up to the readings within single steps.
   */
  lemma DeadlineCountsFromBeginning(clock: int, before: seq<Event>, s: State, e: Event,
                                    events: seq<Event>, t: State, jitter: nat)
    requires Runs(Init(clock), before, s, jitter) && Possible(s, e, jitter) && Begins(s, e, jitter)
    requires Runs(Step(s, e, jitter), events, t, jitter)
    requires t.call.Some? && t.call.value.id == Step(s, e, jitter).call.value.id
    ensures (e.AsyncCall? || e.Complete?) && t.timed.operations != [] && t.call.value.id < |t.requests|
    ensures var deadline := e.readings.spent + t.requests[t.call.value.id].timeout;
      deadline <= LastOperation(t).timer.expiry <= deadline + 2 * jitter
  {
    RunFromInit(clock, before, s, jitter);
    BeginningReadsClock(s, e, jitter);
    StepKeepsInv(s, e, jitter);
    ActiveHasNoSuccess(Step(s, e, jitter));
    RunKeepsBegan(Step(s, e, jitter), events, t, t.call.value.id, e.readings.spent, jitter);
    ActiveCallHasRequest(t);
  }

  /** While no call is active, the socket is closed. */
  ghost predicate AtRest(s: State) {
    s.call == None ==> SOCKET !in s.timed.open
  }

  lemma StepKeepsAtRest(s: State, e: Event, jitter: nat)
    requires Possible(s, e, jitter) && AtRest(s)
    ensures AtRest(Step(s, e, jitter))
  {
    if e.Complete? {
      var last := |s.timed.operations| - 1;
      var timed := TO.Step(s.timed, TO.Complete(last, e.outcome.failed, s.clock));
      var error := HandlePhaseCases(s.(timed := timed), timed.operations[last].done.value, e.outcome, e.readings);
    }
  }

  /** In every run, the end of a call closes the socket, and nothing opens it until the next call begins. */
  lemma {:induction false} SocketClosedBetweenCalls(s: State, events: seq<Event>, t: State, jitter: nat)
    requires AtRest(s) && Runs(s, events, t, jitter)
    ensures t.call == None ==> SOCKET !in t.timed.open
    decreases |events|
  {
    if events == [] {
    } else {
      StepKeepsAtRest(s, events[0], jitter);
      SocketClosedBetweenCalls(Step(s, events[0], jitter), events[1..], t, jitter);
    }
  }

  // ---------- How a timeout is reported ----------

  /**
   How a timeout reaches the user handler: as an abort, except that an unfinished write is reported as a failed
   operation, and that a decoder which rejects the empty buffer turns a read's abort into a decoding error.
   */
  lemma TimeoutIsReportedAs(clock: int, events: seq<Event>, s: State, o: Outcome, r: Readings, jitter: nat)
    requires Runs(Init(clock), events, s, jitter) && Possible(s, Complete(o, r), jitter)
    requires TO.Expired(LastOperation(s))
    ensures var error :=
        if s.call.value.phase == Writing && !o.full then FailedOperation
        else if s.call.value.phase in {ReadingHeader, ReadingBody} && !o.decodes then Decoding
        else Aborted;
      CompleteStep(s, o, r).results == s.results + [Result(s.call.value, error, true, s.clock)]
  {
    RunFromInit(clock, events, s, jitter);
    CompletionIsPhaseDone(s, o, r, jitter);
    var last := |s.timed.operations| - 1;
    var t := s.(timed := TO.Step(s.timed, TO.Complete(last, o.failed, s.clock)));
    forall e: Error {
      FinishCallReports(t, e, r);
    }
  }

  /** The timer of the last operation expires at once, and its handler closes the socket. */
  lemma LastTimerExpires(s: State, timeout: int, jitter: nat) returns (events: seq<Event>, t: State)
    requires s.timed.operations != [] && timeout <= 0
    requires LastOperation(s) == TO.Operation(SOCKET, TO.NewTimer(timeout, s.clock), None)
    ensures Runs(s, events, t, jitter) && t == s.(timed := t.timed) && t.timed.operations != []
    ensures t.timed.open == s.timed.open - {SOCKET}
    ensures LastOperation(t) == LastOperation(s).(timer := LastOperation(t).timer) && TO.Expired(LastOperation(t))
  {
    var i := |s.timed.operations| - 1;
    var u := Step(s, Elapse(i), jitter);
    t := Step(u, Timeout(i), jitter);
    events := [Elapse(i), Timeout(i)];
    assert [Timeout(i)][1..] == [] && Runs(t, [], t, jitter);
    assert events[1..] == [Timeout(i)] && Runs(u, [Timeout(i)], t, jitter);
  }

  lemma ConnectsAtOnce(clock: int, r: Readings, jitter: nat) returns (events: seq<Event>, s: State)
    requires r == Readings(clock, clock, clock)
    ensures Runs(Init(clock), events, s, jitter) && s.clock == clock && s.results == []
    ensures s.call.Some? && s.call.value.phase == Writing && s.timed.operations != []
    ensures LastOperation(s) == TO.Operation(SOCKET, TO.NewTimer(0, clock), None)
    ensures s.mgr.pending == M.Queue([])
  {
    var a, c := AsyncCall(true, Request(true, true, 0), r), Complete(GOOD, r);
    var u := Step(Init(clock), a, jitter);
    s := Step(u, c, jitter);
    events := [a, c];
    assert [c][1..] == [] && Runs(s, [], s, jitter);
    assert events[1..] == [c] && Runs(u, [c], s, jitter);
  }

  lemma {:induction false} RunConcat(s: State, first: seq<Event>, u: State, second: seq<Event>, t: State, jitter: nat)
    requires Runs(s, first, u, jitter) && Runs(u, second, t, jitter)
    ensures Runs(s, first + second, t, jitter)
    decreases |first|
  {
    if first == [] {
      assert first + second == second;
    } else {
      RunConcat(Step(s, first[0], jitter), first[1..], u, second, t, jitter);
      assert (first + second)[1..] == first[1..] + second;
    }
  }

  /** A run into the middle of a write whose timer expires: a call with a timeout of zero that gets its connection. */
  lemma TimeoutInWrite(clock: int, jitter: nat) returns (events: seq<Event>, s: State)
    ensures Runs(Init(clock), events, s, jitter)
    ensures s.call.Some? && s.call.value.phase == Writing && Completable(s) && TO.Expired(LastOperation(s))
    ensures CompleteStep(s, Outcome(true, false, true, true, true), Readings(clock, clock, clock)).results
      == [Result(s.call.value, FailedOperation, true, clock)]
  {
    var r := Readings(clock, clock, clock);
    var connect, u := ConnectsAtOnce(clock, r, jitter);
    var expire, t := LastTimerExpires(u, 0, jitter);
    RunConcat(Init(clock), connect, u, expire, t, jitter);
    events, s := connect + expire, t;
    TimeoutIsReportedAs(clock, events, s, Outcome(true, false, true, true, true), r, jitter);
  }

  // ---------- Punctuality ----------

  /**
   The clock does not go back, readings are not older than the step that takes them, and the clock does not pass the
   expiry of the current phase's timer while that phase goes on: expired timers run at once.
   */
  predicate Urgent(s: State, e: Event) {
    match e
    case SetClock(time) =>
      s.clock <= time && (s.call.Some? && s.timed.operations != [] && s.clock < time
                          ==> time <= LastOperation(s).timer.expiry)
    case AsyncCall(_, _, r) => s.clock <= r.spent
    case Complete(_, r) => s.clock <= r.spent
    case _ => true
  }

  ghost predicate UrgentRuns(s: State, events: seq<Event>, t: State, jitter: nat)
    decreases |events|
  {
    if events == [] then s == t
    else
      && Possible(s, events[0], jitter) && Urgent(s, events[0])
      && UrgentRuns(Step(s, events[0], jitter), events[1..], t, jitter)
  }

  /** The latest instant at which the handler of a call may begin. */
  function Latest(call: Call, timeout: int, jitter: nat): int {
    call.began + (if timeout < 0 then 0 else timeout) + 2 * jitter
  }

  ghost predicate Punctual(s: State, jitter: nat) {
    && (s.call.Some? ==> CallOnTime(s, s.call.value, jitter))
    && (forall i :: 0 <= i < |s.results| ==> OnTime(s.results[i], RequestOf(s, s.results[i].call.id).timeout, jitter))
  }

  ghost predicate CallOnTime(s: State, call: Call, jitter: nat) {
    && s.clock <= Latest(call, RequestOf(s, call.id).timeout, jitter)
    && (s.timed.operations != [] && TO.Expired(LastOperation(s)) ==> Deadline(s, call) <= s.clock)
  }

  /** No handler begins after its deadline, and no timer has expired before it. */
  ghost predicate OnTime(r: Result, timeout: int, jitter: nat) {
    && r.at <= Latest(r.call, timeout, jitter)
    && (r.expired ==> r.call.began + timeout <= r.at)
  }

  lemma FinishCallKeepsPunctual(s: State, error: Error, r: Readings, jitter: nat)
    requires AllDone(s.timed) && s.timed.operations != [] && s.call.Some? && Near(r, jitter) && s.clock <= r.spent
    requires Punctual(s, jitter)
    ensures Punctual(FinishCall(s, error, r), jitter)
  {
    FinishCallReports(s, error, r);
    var t := FinishCall(s, error, r);
    assert t.requests == s.requests && t.clock == s.clock;
    if s.mgr.pending.HasPendingOperation() {
      var result := Result(s.call.value, error, TO.Expired(LastOperation(s)), s.clock);
      var u := s.(timed := s.timed.(open := s.timed.open - {SOCKET}), mgr := M.FinishStep(s.mgr), call := None,
                  results := s.results + [result]);
      BeginCallKeepsTimely(u, s.mgr.pending.GetPendingOperation(), r, jitter);
    }
  }

  lemma CompleteKeepsPunctual(s: State, o: Outcome, r: Readings, jitter: nat)
    requires Timely(s, jitter) && Punctual(s, jitter) && Possible(s, Complete(o, r), jitter) && s.clock <= r.spent
    ensures Punctual(CompleteStep(s, o, r), jitter)
  {
    CompletionIsPhaseDone(s, o, r, jitter);
    var last := |s.timed.operations| - 1;
    var timed := TO.Step(s.timed, TO.Complete(last, o.failed, s.clock));
    var t := s.(timed := timed);
    var error := timed.operations[last].done.value;
    var e := HandlePhaseCases(t, error, o, r);
    assert Punctual(t, jitter);
    if !Continues(t, HandlePhase(t, error, o, r)) {
      FinishCallKeepsPunctual(t, e, r, jitter);
    }
  }

  lemma TimerKeepsPunctual(s: State, e: Event, jitter: nat)
    requires Timely(s, jitter) && Punctual(s, jitter) && Possible(s, e, jitter) && (e.Elapse? || e.Timeout?)
    ensures Punctual(Step(s, e, jitter), jitter)
  {
    if s.call.Some? && e.index == |s.timed.operations| - 1 {
      assert TO.Sound(LastOperation(s));
      if e.Timeout? {
        TO.TimeoutKeepsSound(LastOperation(s), s.clock);
      }
    }
  }

  lemma AsyncCallKeepsPunctual(s: State, encodes: bool, request: Request, r: Readings, jitter: nat)
    requires Inv(s, jitter) && Punctual(s, jitter) && Near(r, jitter) && s.clock <= r.spent
    ensures Punctual(AsyncCallStep(s, encodes, request, r), jitter)
  {
    if s.call.Some? {
      ActiveCallHasRequest(s);
    }
    forall i | 0 <= i < |s.results| ensures s.results[i].call.id < |s.requests| {
      HandlersInOrder(s);
      ResultHasRequest(s, i);
    }
    if encodes && !s.mgr.running {
      var u := s.(calls := s.calls + 1, requests := s.requests + [request], mgr := M.StartStep(s.mgr));
      BeginCallKeepsTimely(u, s.mgr.submitted, r, jitter);
    }
  }

  lemma ResultHasRequest(s: State, i: nat)
    requires Accounted(s) && i < |s.results|
    ensures s.results[i].call.id < |s.requests|
  {
    assert s.mgr.started[i] == s.mgr.finished[i];
  }

  lemma StepKeepsPunctual(s: State, e: Event, jitter: nat)
    requires Inv(s, jitter) && Punctual(s, jitter) && Possible(s, e, jitter) && Urgent(s, e)
    ensures Punctual(Step(s, e, jitter), jitter)
  {
    match e
    case AsyncCall(encodes, request, r) => AsyncCallKeepsPunctual(s, encodes, request, r, jitter);
    case RunPost =>
    case Cancel =>
    case Elapse(_) => TimerKeepsPunctual(s, e, jitter);
    case Timeout(_) => TimerKeepsPunctual(s, e, jitter);
    case Complete(o, r) => CompleteKeepsPunctual(s, o, r, jitter);
    case SetClock(_) =>
  }

  lemma {:induction false} UrgentRunIsPunctual(s: State, events: seq<Event>, t: State, jitter: nat)
    requires Inv(s, jitter) && Punctual(s, jitter) && UrgentRuns(s, events, t, jitter)
    ensures Inv(t, jitter) && Punctual(t, jitter)
    decreases |events|
  {
    if events == [] {
    } else {
      StepKeepsInv(s, events[0], jitter);
      StepKeepsPunctual(s, events[0], jitter);
      UrgentRunIsPunctual(Step(s, events[0], jitter), events[1..], t, jitter);
    }
  }

  /**
   If expired timers run at once, then the handler of every call begins no later than the start of the call plus
   max(timeout, 0). A call that no cancel and no missing endpoint has closed is aborted no earlier than start plus
   timeout, and a call whose timer has expired never succeeds.
   */
  lemma CallsEndOnTime(clock: int, events: seq<Event>, t: State, jitter: nat, i: nat)
    requires UrgentRuns(Init(clock), events, t, jitter) && i < |t.results|
    ensures var r := t.results[i];
      var timeout := RequestOf(t, r.call.id).timeout;
      && r.at <= r.call.began + (if timeout < 0 then 0 else timeout) + 2 * jitter
      && (r.error == Aborted && !r.call.canceled && r.call.connectable ==> r.call.began + timeout <= r.at)
      && (r.expired ==> r.error != Success)
  {
    M.InitInv(M.Queue([]));
    UrgentRunIsPunctual(Init(clock), events, t, jitter);
    assert ResultExplained(t.results[i]);
  }

  // ---------- The client object ----------

  /** `AsyncState`, shared by the handlers of one call. */
  class AsyncState {
    const id: M.OpId
    var phase: Phase
    var timeout: int
    var startTime: int
    var innerTimeout: int
    var innerStart: int
    const began: int
    ghost var canceled: bool
    ghost var connectable: bool

    ghost function View(): Call
      reads this
    {
      Call(id, phase, timeout, startTime, innerTimeout, innerStart, began, canceled, connectable)
    }

    constructor (id: M.OpId, timeout: int, r: Readings)
      ensures View() == Call(id, Resolving, timeout, r.spent, timeout, r.start, r.spent, false, true)
    {
      this.id, this.timeout, startTime, began := id, timeout, r.spent, r.spent;
      phase, innerTimeout, innerStart, canceled, connectable := Resolving, timeout, r.start, false, true;
    }

    method ChargeTimeout(now: int)
      modifies this
      ensures View() == UpdateTimeout(old(View()), now)
    {
      var timeSpent := now - startTime;
      startTime := now;
      timeout := timeout - timeSpent;
    }
  }

  /** `timed` is what asio keeps for the client: open sockets and resolvers, running operations and their timers. */
  class ServiceClient {
    const operationManager: M.AsyncOperationManager
    var requests: seq<Request>
    var state: AsyncState?
    var timed: TO.State
    ghost var clock: int
    ghost var calls: nat
    ghost var posted: nat
    ghost var reported: nat
    ghost var results: seq<Result>

    ghost function View(): State
      reads this, operationManager, state
    {
      State(operationManager.View(), timed, requests, if state == null then None else Some(state.View()),
            clock, calls, posted, reported, results)
    }

    ghost predicate Valid()
      reads this, operationManager, state
    {
      Accounted(View())
    }

    constructor (ghost clock: int)
      ensures View() == Init(clock) && Valid() && fresh(operationManager)
    {
      operationManager := new M.AsyncOperationManager(M.Queue([]));
      requests, state, timed := [], null, TO.State({}, []);
      this.clock, calls, posted, reported, results := clock, 0, 0, 0, [];
    }

    method StartTimed(target: TO.Target, timeout: int, now: int)
      requires state != null
      modifies this`timed
      ensures View() == Arm(old(View()), state.View(), target, timeout, now)
    {
      timed := TO.Step(timed, TO.Begin(target, timeout, now));
    }

    method StartConnect(endpoints: bool, timeout: int, now: int)
      requires state != null
      modifies this`timed, state
      ensures View() == BeginConnect(old(View()), old(state.View()), endpoints, timeout, now)
    {
      state.phase := Connecting;
      state.connectable := endpoints;
      if endpoints {
        timed := timed.(open := timed.open + {SOCKET});
      }
      StartTimed(SOCKET, timeout, now);
    }

    /** `asyncCallOperation`. */
    method CallOperation(id: M.OpId, r: Readings)
      requires id < |requests|
      modifies this`timed, this`state
      ensures View() == BeginCall(old(View()), id, r) && fresh(state)
    {
      var request := requests[id];
      state := new AsyncState(id, request.timeout, r);
      timed := timed.(open := timed.open - {SOCKET});
      if request.direct {
        StartConnect(request.endpoints, request.timeout, r.expiry);
      } else {
        timed := timed.(open := timed.open + {ResolverOf(id)});
        StartTimed(ResolverOf(id), request.timeout, r.expiry);
      }
    }

    method AsyncCall(encodes: bool, request: Request, r: Readings)
      requires Valid()
      modifies this, operationManager
      ensures View() == AsyncCallStep(old(View()), encodes, request, r) && Valid()
    {
      ghost var was := View();
      calls := calls + 1;
      assert View() == was.(calls := was.calls + 1);
      if encodes {
        StartCall(request, r);
      } else {
        posted := posted + 1;
      }
      assert View() == AsyncCallStep(was, encodes, request, r);
      AsyncCallKeepsAccounted(was, encodes, request, r);
    }

    /** The part that goes through the manager. */
    method StartCall(request: Request, r: Readings)
      requires operationManager.Valid() && |requests| == operationManager.submitted
      modifies this, operationManager
      ensures var u := old(View()).(requests := old(requests) + [request], mgr := M.StartStep(old(View()).mgr));
        View() == if old(operationManager.running) then u else BeginCall(u, old(operationManager.submitted), r)
    {
      var id := |requests|;
      requests := requests + [request];
      var canceling, begun := operationManager.StartOperation(id);
      if begun {
        CallOperation(id, r);
      }
    }

    method Cancel()
      requires Valid()
      modifies this, operationManager, state
      ensures Valid() && View() == CancelStep(old(View()))
    {
      ghost var was := View();
      M.CancelPreservesInv(was.mgr);
      operationManager.CancelOperation();
      timed := timed.(open := timed.open - {SOCKET});
      if state != null && state.phase != Resolving {
        state.canceled := true;
      }
      assert View() == CancelStep(was);
    }

    /** The three steps with which every handler ends a call; the user handler is called last. */
    method EndCall(error: Error, r: Readings)
      requires Valid() && state != null && timed.operations != []
      modifies this, operationManager
      ensures Valid() && View() == FinishCall(old(View()), error, r)
    {
      ghost var was := View();
      FinishCallKeepsAccounted(was, error, r);
      timed := timed.(open := timed.open - {SOCKET});
      results := results + [Result(state.View(), error, TO.Expired(LastOperation(was)), clock)];
      state := null;
      var next := operationManager.FinishOperation();
      if next.Some? {
        M.WaitingOperation(was.mgr, next.value);
        CallOperation(next.value, r);
      }
      assert View() == FinishCall(was, error, r);
    }

    method ResolveHandler(error: Error, o: Outcome, r: Readings)
      requires Valid() && state != null && state.phase == Resolving && timed.operations != []
      modifies this, operationManager, state
      ensures Valid() && View() == HandlePhase(old(View()), error, o, r)
    {
      if error != Success {
        EndCall(error, r);
        return;
      }
      var newTimeout := state.innerTimeout - (r.spent - state.innerStart);
      StartConnect(o.endpoints, newTimeout, r.expiry);
    }

    method ConnectHandler(error: Error, ghost o: Outcome, r: Readings)
      requires Valid() && state != null && state.phase == Connecting && timed.operations != []
      modifies this, operationManager, state
      ensures Valid() && View() == HandlePhase(old(View()), error, o, r)
    {
      if error != Success {
        EndCall(error, r);
        return;
      }
      state.ChargeTimeout(r.spent);
      state.phase := Writing;
      StartTimed(SOCKET, state.timeout, r.expiry);
    }

    method WriteHandler(error: Error, o: Outcome, r: Readings)
      requires Valid() && state != null && state.phase == Writing && timed.operations != []
      modifies this, operationManager, state
      ensures Valid() && View() == HandlePhase(old(View()), error, o, r)
    {
      if !o.full {
        EndCall(FailedOperation, r);
        return;
      }
      if error != Success {
        EndCall(error, r);
        return;
      }
      state.ChargeTimeout(r.spent);
      state.phase, state.innerTimeout, state.innerStart := ReadingHeader, state.timeout, r.start;
      StartTimed(SOCKET, state.timeout, r.expiry);
    }

    /** The message layer's handler: it decodes what the stream layer delivers. */
    method Deliver(error: Error, decodes: bool, r: Readings)
      requires Valid() && state != null && timed.operations != []
      modifies this, operationManager
      ensures Valid() && View() == FinishCall(old(View()), DecodeOutcome(error, decodes), r)
    {
      if !decodes {
        EndCall(Decoding, r);
      } else {
        EndCall(error, r);
      }
    }

    method HeaderHandler(error: Error, o: Outcome, r: Readings)
      requires Valid() && state != null && state.phase == ReadingHeader && timed.operations != []
      modifies this, operationManager, state
      ensures Valid() && View() == HandlePhase(old(View()), error, o, r)
    {
      if error != Success {
        Deliver(error, o.decodes, r);
      } else if !o.full {
        Deliver(InvalidFrame, o.decodes, r);
      } else if o.empty {
        Deliver(Success, o.decodes, r);
      } else {
        var newTimeout := state.innerTimeout - (r.spent - state.innerStart);
        state.phase := ReadingBody;
        StartTimed(SOCKET, newTimeout, r.expiry);
      }
    }

    method BodyHandler(error: Error, o: Outcome, r: Readings)
      requires Valid() && state != null && state.phase == ReadingBody && timed.operations != []
      modifies this, operationManager
      ensures Valid() && View() == HandlePhase(old(View()), error, o, r)
    {
      if error != Success {
        Deliver(error, o.decodes, r);
      } else if !o.full {
        Deliver(InvalidFrame, o.decodes, r);
      } else {
        Deliver(Success, o.decodes, r);
      }
    }

    /** The completion handler of the current phase cancels its timer, and calls the handler with the error. */
    method CompletionHandler(o: Outcome, r: Readings, now: int)
      requires Valid() && Completable(View()) && now == clock
      modifies this, operationManager, state
      ensures Valid() && View() == CompleteStep(old(View()), o, r)
    {
      var last := |timed.operations| - 1;
      ghost var was := View();
      timed := TO.Step(timed, TO.Complete(last, o.failed, now));
      assert View() == was.(timed := timed);
      CallPhaseHandler(timed.operations[last].done.value, o, r);
    }

    method CallPhaseHandler(error: Error, o: Outcome, r: Readings)
      requires Valid() && state != null && timed.operations != []
      modifies this, operationManager, state
      ensures Valid() && View() == HandlePhase(old(View()), error, o, r)
    {
      match state.phase {
        case Resolving => ResolveHandler(error, o, r);
        case Connecting => ConnectHandler(error, o, r);
        case Writing => WriteHandler(error, o, r);
        case ReadingHeader => HeaderHandler(error, o, r);
        case ReadingBody => BodyHandler(error, o, r);
      }
    }
  }
}
