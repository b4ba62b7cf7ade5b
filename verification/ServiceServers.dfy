/**
 `ServiceServer`: an accept loop that re-arms itself, replaced by every new advertisement.

 asio holds the outstanding accepts. One completes with a connection or with an error, and its handler runs later;
 closing the acceptor completes it with an error.
 */
module ServiceServers {
  import opened Common
  import M = OperationManager

  datatype Status = Outstanding | Connected | Failed

  /** An accept on behalf of the loop started by submission `loop`, whose notifier its handler holds. */
  datatype Accept = Accept(loop: M.OpId, status: Status)

  /** `handled` lists the loops that handed a connection to `handleService`, one entry for each connection. */
  datatype State = State(
    mgr: M.State,
    running: bool,
    acceptorOpen: bool,
    accepts: seq<Accept>,
    handled: seq<M.OpId>)

  datatype Event = Advertise | Cancel | Complete(index: nat, connected: bool) | Handle(index: nat)

  function Init(): State {
    State(M.Init(M.Replacer(None)), false, false, [], [])
  }

  function CloseAll(accepts: seq<Accept>): (r: seq<Accept>)
    ensures |r| == |accepts|
    ensures forall i :: 0 <= i < |r| ==> r[i].loop == accepts[i].loop && r[i].status != Outstanding
    ensures forall i :: 0 <= i < |r| && accepts[i].status != Outstanding ==> r[i] == accepts[i]
  {
    if accepts == [] then []
    else
      var a := accepts[0];
      [if a.status == Outstanding then a.(status := Failed) else a] + CloseAll(accepts[1..])
  }

  /** The canceling operation. */
  function StopLoop(s: State): State {
    s.(running := false, acceptorOpen := false, accepts := CloseAll(s.accepts))
  }

  /** `accept` opens the acceptor if it is closed. */
  function AcceptNext(s: State, loop: M.OpId): State {
    s.(acceptorOpen := true, accepts := s.accepts + [Accept(loop, Outstanding)])
  }

  /** `advertiseServiceOperation`. */
  function BeginLoop(s: State, loop: M.OpId): State {
    AcceptNext(s.(running := true), loop)
  }

  function AdvertiseStep(s: State): State {
    var t := s.(mgr := M.StartStep(s.mgr));
    if !s.mgr.running then BeginLoop(t, s.mgr.submitted) else StopLoop(t)
  }

  function CancelStep(s: State): State {
    StopLoop(s.(mgr := M.CancelStep(s.mgr)))
  }

  /** The handler's captured state goes away, and with it the notifier of its loop. */
  function EndLoop(s: State): State {
    var t := s.(mgr := M.FinishStep(s.mgr));
    if s.mgr.pending.HasPendingOperation() then BeginLoop(t, s.mgr.pending.GetPendingOperation()) else t
  }

  function HandleStep(s: State, i: nat): State
    requires i < |s.accepts|
  {
    var a := s.accepts[i];
    var t := s.(accepts := s.accepts[..i] + s.accepts[i + 1..]);
    if !s.running then EndLoop(t)
    else if a.status == Connected && !s.mgr.canceled then AcceptNext(t.(handled := s.handled + [a.loop]), a.loop)
    else AcceptNext(t, a.loop)
  }

  predicate Possible(s: State, e: Event) {
    match e
    case Advertise => true
    case Cancel => true
    case Complete(i, _) => i < |s.accepts| && s.accepts[i].status == Outstanding
    case Handle(i) => i < |s.accepts| && s.accepts[i].status != Outstanding
  }

  function Step(s: State, e: Event): State
    requires Possible(s, e)
  {
    match e
    case Advertise => AdvertiseStep(s)
    case Cancel => CancelStep(s)
    case Complete(i, connected) =>
      s.(accepts := s.accepts[i := s.accepts[i].(status := if connected then Connected else Failed)])
    case Handle(i) => HandleStep(s, i)
  }

  ghost predicate Runs(s: State, events: seq<Event>, t: State)
    decreases |events|
  {
    if events == [] then s == t
    else Possible(s, events[0]) && Runs(Step(s, events[0]), events[1..], t)
  }

  // ---------- The invariant ----------

  /** The manager's active operation is the one loop, which has the one accept. */
  ghost predicate OneLoop(s: State) {
    && |s.accepts| == |M.Active(s.mgr)| <= 1
    && (s.accepts != [] ==> M.Active(s.mgr) == [s.accepts[0].loop])
    && (s.running ==> s.accepts != [])
    && (s.acceptorOpen <==> s.running)
    && (!s.running && s.accepts != [] ==> s.accepts[0].status != Outstanding)
  }

  ghost predicate Inv(s: State) {
    M.Inv(s.mgr) && s.mgr.pending.Replacer? && OneLoop(s)
  }

  lemma EndLoopKeepsInv(s: State)
    requires M.Inv(s.mgr) && s.mgr.pending.Replacer? && s.mgr.running
    requires s.accepts == [] && !s.running && !s.acceptorOpen
    ensures Inv(EndLoop(s))
  {
    M.FinishPreservesInv(s.mgr);
    var t := EndLoop(s);
    if s.mgr.pending.HasPendingOperation() {
      assert M.Active(t.mgr) == [s.mgr.pending.GetPendingOperation()];
    }
  }

  lemma AdvertiseKeepsInv(s: State)
    requires Inv(s)
    ensures Inv(AdvertiseStep(s))
  {
    M.StartPreservesInv(s.mgr);
  }

  lemma CancelKeepsInv(s: State)
    requires Inv(s)
    ensures Inv(CancelStep(s))
  {
    M.CancelPreservesInv(s.mgr);
  }

  lemma HandleKeepsInv(s: State, i: nat)
    requires Inv(s) && i < |s.accepts| && s.accepts[i].status != Outstanding
    ensures Inv(HandleStep(s, i))
  {
    assert s.accepts[..i] + s.accepts[i + 1..] == [];
    if !s.running {
      EndLoopKeepsInv(s.(accepts := []));
    }
  }

  lemma StepKeepsInv(s: State, e: Event)
    requires Inv(s) && Possible(s, e)
    ensures Inv(Step(s, e))
  {
    match e
    case Advertise => AdvertiseKeepsInv(s);
    case Cancel => CancelKeepsInv(s);
    case Complete(_, _) =>
    case Handle(i) => HandleKeepsInv(s, i);
  }

  lemma {:induction false} RunKeepsInv(s: State, events: seq<Event>, t: State)
    requires Inv(s) && Runs(s, events, t)
    ensures Inv(t)
    decreases |events|
  {
    if events == [] {
    } else {
      StepKeepsInv(s, events[0]);
      RunKeepsInv(Step(s, events[0]), events[1..], t);
    }
  }

  lemma ReachableInv(events: seq<Event>, t: State)
    requires Runs(Init(), events, t)
    ensures Inv(t)
  {
    M.InitInv(M.Replacer(None));
    RunKeepsInv(Init(), events, t);
  }

  /**
   In every run, at most one accept is outstanding or waiting to be handled, and it belongs to the operation that the
   manager considers active: a new loop starts only when the notifier of the old one has finished. The acceptor is open
   exactly while that loop has not been told to stop.
   */
  lemma OneAccept(events: seq<Event>, t: State)
    requires Runs(Init(), events, t)
    ensures |t.accepts| <= 1
    ensures t.accepts != [] <==> t.mgr.running
    ensures forall a :: a in t.accepts ==> M.Active(t.mgr) == [a.loop]
    ensures t.acceptorOpen <==> t.running
    ensures t.running ==> t.mgr.running
  {
    ReachableInv(events, t);
  }

  // ---------- Which connections are handed over ----------

  /** The event hands a connection over. */
  predicate HandsOver(s: State, e: Event) {
    && e.Handle? && e.index < |s.accepts|
    && s.accepts[e.index].status == Connected && s.running && !s.mgr.canceled
  }

  /**
   At any moment of any run, an event hands a connection to `handleService` if and only if it is the handler of an
   accept that was successful, of a loop that has not been told to stop, while the cancel flag is clear. A failed accept
   is skipped, and the loop accepts again.
   */
  lemma HandsOverIff(before: seq<Event>, s: State, e: Event)
    requires Runs(Init(), before, s) && Possible(s, e)
    ensures Step(s, e).handled != s.handled <==> HandsOver(s, e)
    ensures HandsOver(s, e) ==> Step(s, e).handled == s.handled + M.Active(s.mgr)
    ensures e.Handle? && s.running ==> Step(s, e).accepts == [Accept(s.accepts[e.index].loop, Outstanding)]
  {
    ReachableInv(before, s);
    if e.Handle? {
      assert s.accepts[..e.index] + s.accepts[e.index + 1..] == [];
    }
  }

  /** The environment's part: clients connect, accepts fail, handlers run. */
  predicate Unattended(events: seq<Event>) {
    forall e :: e in events ==> e != Advertise && e != Cancel
  }

  /** The number of connections that come in. */
  function Connections(events: seq<Event>): nat {
    if events == [] then 0
    else (if events[0].Complete? && events[0].connected then 1 else 0) + Connections(events[1..])
  }

  /** The number of connections that are accepted and not yet handled. */
  function Accepted(s: State): nat {
    if s.accepts != [] && s.accepts[0].status == Connected then 1 else 0
  }

  lemma StepCounts(s: State, e: Event)
    requires Inv(s) && Possible(s, e)
    ensures var t := Step(s, e);
      && |s.handled| <= |t.handled|
      && |t.handled| + Accepted(t) <= |s.handled| + Accepted(s) + Connections([e])
      && (s.running && !s.mgr.canceled && e != Advertise && e != Cancel ==>
            && t.running && !t.mgr.canceled
            && |t.handled| + Accepted(t) == |s.handled| + Accepted(s) + Connections([e]))
  {
    assert [e][1..] == [];
    if e.Handle? {
      assert s.accepts[..e.index] + s.accepts[e.index + 1..] == [];
    }
  }

  lemma {:induction false} RunCounts(s: State, events: seq<Event>, t: State)
    requires Inv(s) && Runs(s, events, t)
    ensures |t.handled| + Accepted(t) <= |s.handled| + Accepted(s) + Connections(events)
    ensures s.running && !s.mgr.canceled && Unattended(events) ==>
      |t.handled| + Accepted(t) == |s.handled| + Accepted(s) + Connections(events)
    decreases |events|
  {
    if events == [] {
    } else {
      assert events[0] in events && [events[0]][1..] == [];
      assert forall e :: e in events[1..] ==> e in events;
      StepKeepsInv(s, events[0]);
      StepCounts(s, events[0]);
      RunCounts(Step(s, events[0]), events[1..], t);
    }
  }

  /** In every run, no more connections are handed over than come in. */
  lemma NothingIsHandledTwice(events: seq<Event>, t: State)
    requires Runs(Init(), events, t)
    ensures |t.handled| + Accepted(t) <= Connections(events)
  {
    ReachableInv([], Init());
    RunCounts(Init(), events, t);
  }

  /**
   As long as a loop runs with the flag clear and the user does not intervene, every connection that comes in is handed
   over, once, except the one that still waits for its handler.
   */
  lemma EveryConnectionIsHandled(before: seq<Event>, s: State, events: seq<Event>, t: State)
    requires Runs(Init(), before, s) && s.running && !s.mgr.canceled
    requires Runs(s, events, t) && Unattended(events)
    ensures |t.handled| + Accepted(t) == |s.handled| + Accepted(s) + Connections(events)
  {
    ReachableInv(before, s);
    RunCounts(s, events, t);
  }

  // ---------- Which loops begin ----------

  /** The calls of the manager's methods that an event makes. */
  function ManagerCalls(s: State, e: Event): seq<M.Event> {
    match e
    case Advertise => [M.Start]
    case Cancel => [M.Cancel]
    case Complete(_, _) => []
    case Handle(_) => if s.running then [] else [M.Finish]
  }

  ghost function RunCalls(s: State, events: seq<Event>): seq<M.Event>
    decreases |events|
  {
    if events == [] || !Possible(s, events[0]) then []
    else ManagerCalls(s, events[0]) + RunCalls(Step(s, events[0]), events[1..])
  }

  lemma StepCallsManager(s: State, e: Event)
    requires Possible(s, e)
    ensures Step(s, e).mgr == M.Run(s.mgr, ManagerCalls(s, e))
  {
    var calls := ManagerCalls(s, e);
    if calls != [] {
      assert calls[1..] == [];
      assert M.Run(s.mgr, calls) == M.Apply(s.mgr, calls[0]);
    }
  }

  /** Every run of the server is a run of its manager; a stopped loop finishes when its accept is handled. */
  lemma {:induction false} RunsManager(s: State, events: seq<Event>, t: State)
    requires Runs(s, events, t)
    ensures t.mgr == M.Run(s.mgr, RunCalls(s, events))
    decreases |events|
  {
    if events == [] {
    } else {
      var u := Step(s, events[0]);
      StepCallsManager(s, events[0]);
      RunsManager(u, events[1..], t);
      M.RunConcat(s.mgr, ManagerCalls(s, events[0]), RunCalls(u, events[1..]));
    }
  }

  /**
   A loop that is advertised at any moment of any run begins if and only if none is active, or the active one ends
   before the next advertisement or cancel.
   */
  lemma LoopBeginsIff(before: seq<Event>, s: State, events: seq<Event>, t: State)
    requires Runs(Init(), before, s) && Runs(Step(s, Advertise), events, t)
    ensures var calls := RunCalls(Step(s, Advertise), events);
      s.mgr.submitted in t.mgr.started <==> !s.mgr.running || (calls != [] && calls[0] == M.Finish)
  {
    ReachableInv(before, s);
    RunsManager(Step(s, Advertise), events, t);
    M.SubmissionStartsIff(s.mgr, RunCalls(Step(s, Advertise), events));
  }

  // ---------- Cancel and replacement ----------

  /** The loops before `n` hand over nothing any more: the one that still has an accept was told to stop. */
  ghost predicate Stopped(s: State, n: nat) {
    && n <= s.mgr.submitted
    && (s.mgr.pending.Replacer? && s.mgr.pending.HasPendingOperation() ==> n <= s.mgr.pending.GetPendingOperation())
    && (forall a :: a in s.accepts ==> n <= a.loop || !s.running)
  }

  lemma StepKeepsStopped(s: State, e: Event, n: nat)
    requires Inv(s) && Possible(s, e) && Stopped(s, n)
    ensures Stopped(Step(s, e), n)
    ensures s.handled <= Step(s, e).handled
    ensures forall k :: |s.handled| <= k < |Step(s, e).handled| ==> n <= Step(s, e).handled[k]
  {
    if e.Handle? {
      assert s.accepts[e.index] in s.accepts;
      assert s.accepts[..e.index] + s.accepts[e.index + 1..] == [];
    }
  }

  lemma {:induction false} RunKeepsStopped(s: State, events: seq<Event>, t: State, n: nat)
    requires Inv(s) && Runs(s, events, t) && Stopped(s, n)
    ensures s.handled <= t.handled
    ensures forall k :: |s.handled| <= k < |t.handled| ==> n <= t.handled[k]
    decreases |events|
  {
    if events == [] {
    } else {
      var u := Step(s, events[0]);
      StepKeepsInv(s, events[0]);
      StepKeepsStopped(s, events[0], n);
      RunKeepsStopped(u, events[1..], t, n);
    }
  }

  /**
   Once `cancel` is called, or `advertiseService` while a loop is active, no loop advertised before ever hands another
   connection to `handleService`, not even one that has already been accepted.
   */
  lemma OldLoopsHandleNothing(before: seq<Event>, s: State, e: Event, after: seq<Event>, t: State)
    requires Runs(Init(), before, s) && (e == Cancel || (e == Advertise && s.mgr.running))
    requires Runs(Step(s, e), after, t)
    ensures s.handled <= t.handled
    ensures forall k :: |s.handled| <= k < |t.handled| ==> s.mgr.submitted <= t.handled[k]
  {
    ReachableInv(before, s);
    StepKeepsInv(s, e);
    RunKeepsStopped(Step(s, e), after, t, s.mgr.submitted);
  }

  // ---------- The cancel flag ----------

  /** As long as the user does not intervene, no connection is handed over. */
  ghost predicate DropsAll(s: State) {
    forall events, t :: Runs(s, events, t) && Unattended(events) ==> t.handled == s.handled
  }

  /** A loop that runs with the cancel flag set accepts every connection and drops it. */
  ghost predicate Deaf(s: State) {
    s.running && s.mgr.canceled
  }

  lemma {:induction false} DeafStaysDeaf(s: State, events: seq<Event>, t: State)
    requires Inv(s) && Deaf(s) && Runs(s, events, t) && Unattended(events)
    ensures t.handled == s.handled && t.mgr.running
    decreases |events|
  {
    if events == [] {
    } else {
      assert events[0] in events;
      assert forall e :: e in events[1..] ==> e in events;
      StepKeepsInv(s, events[0]);
      DeafStaysDeaf(Step(s, events[0]), events[1..], t);
    }
  }

  /**
   A server advertised while no loop is active drops all its connections for as long as the user does not intervene, if
   and only if the manager's cancel flag is set, that is after a `cancel` that found nothing to cancel.
   */
  lemma DeafIffCanceled(before: seq<Event>, s: State)
    requires Runs(Init(), before, s) && !s.mgr.running
    ensures DropsAll(Step(s, Advertise)) <==> s.mgr.canceled
  {
    ReachableInv(before, s);
    if s.mgr.canceled {
      DeafFromStart(s);
    } else {
      var events, t := FirstConnection(s);
    }
  }

  lemma DeafFromStart(s: State)
    requires Inv(s) && !s.mgr.running && s.mgr.canceled
    ensures DropsAll(Step(s, Advertise))
  {
    var a := Step(s, Advertise);
    StepKeepsInv(s, Advertise);
    forall events, t | Runs(a, events, t) && Unattended(events) ensures t.handled == s.handled {
      DeafStaysDeaf(a, events, t);
    }
  }

  lemma FirstConnection(s: State) returns (events: seq<Event>, t: State)
    requires Inv(s) && !s.mgr.running && !s.mgr.canceled
    ensures Runs(Step(s, Advertise), events, t) && Unattended(events) && t.handled == s.handled + [s.mgr.submitted]
  {
    var a := Step(s, Advertise);
    assert a.accepts == [Accept(s.mgr.submitted, Outstanding)];
    var c := Step(a, Complete(0, true));
    t := Step(c, Handle(0));
    events := [Complete(0, true), Handle(0)];
    assert events[1..] == [Handle(0)] && [Handle(0)][1..] == [];
    assert Runs(t, [], t);
    assert Runs(c, [Handle(0)], t);
  }

  // ---------- The server object ----------

  class ServiceServer {
    const operationManager: M.AsyncOperationManager
    var running: bool
    var acceptorOpen: bool
    var accepts: seq<Accept>
    var handled: seq<M.OpId>

    ghost function View(): State
      reads this, operationManager
    {
      State(operationManager.View(), running, acceptorOpen, accepts, handled)
    }

    ghost predicate Valid()
      reads this, operationManager
    {
      Inv(View())
    }

    constructor ()
      ensures Valid() && View() == Init() && fresh(operationManager)
    {
      operationManager := new M.AsyncOperationManager(M.Replacer(None));
      running, acceptorOpen, accepts, handled := false, false, [], [];
    }

    method CancelOperation()
      modifies this
      ensures View() == StopLoop(old(View()))
    {
      running := false;
      acceptorOpen := false;
      accepts := CloseAll(accepts);
    }

    method AcceptConnection(loop: M.OpId)
      modifies this
      ensures View() == AcceptNext(old(View()), loop)
    {
      if !acceptorOpen {
        acceptorOpen := true;
      }
      accepts := accepts + [Accept(loop, Outstanding)];
    }

    method AdvertiseOperation(loop: M.OpId)
      modifies this
      ensures View() == BeginLoop(old(View()), loop)
    {
      running := true;
      AcceptConnection(loop);
    }

    /** `op` names the submitted closure. */
    method AdvertiseService(op: M.OpId)
      requires Valid() && op == operationManager.submitted
      modifies this, operationManager
      ensures Valid() && View() == AdvertiseStep(old(View()))
    {
      StepKeepsInv(View(), Advertise);
      var canceling, begun := operationManager.StartOperation(op);
      if canceling {
        CancelOperation();
      }
      if begun {
        AdvertiseOperation(op);
      }
    }

    method Cancel()
      requires Valid()
      modifies this, operationManager
      ensures Valid() && View() == CancelStep(old(View()))
    {
      StepKeepsInv(View(), Event.Cancel);
      operationManager.CancelOperation();
      CancelOperation();
    }

    /** The last reference to the loop's state goes away. */
    method FinishLoop()
      requires operationManager.Valid()
      modifies this, operationManager
      ensures View() == EndLoop(old(View()))
    {
      var next := operationManager.FinishOperation();
      if next.Some? {
        AdvertiseOperation(next.value);
      }
    }

    method AcceptHandler(index: nat)
      requires Valid() && Possible(View(), Handle(index))
      modifies this, operationManager
      ensures Valid() && View() == HandleStep(old(View()), index)
    {
      ghost var was := View();
      StepKeepsInv(was, Handle(index));
      var accept := accepts[index];
      accepts := accepts[..index] + accepts[index + 1..];
      if !running {
        FinishLoop();
        return;
      }
      var canceled := operationManager.IsCanceled();
      if accept.status == Connected && !canceled {
        handled := handled + [accept.loop];
      }
      AcceptConnection(accept.loop);
    }
  }
}
