/**
 `FinishedOperationNotifier`: the token that ties the end of an operation to `finishOperation`.

 Every operation that starts creates one notifier, which travels by move through the closures of its handlers.
 The model covers any number of notifiers and every order of submissions, cancels, moves, notifications and
 destructions. Ownership in the program is linear, except that nothing stops a handler from calling `notify` on a
 notifier that has already been used or moved from.
 */
module Notifiers {
  import opened Common
  import M = OperationManager

  datatype Notifier = Notifier(op: M.OpId, enabled: bool)

  /** `ended` lists the operations on whose behalf `finishOperation` was called, in call order. */
  datatype System = System(mgr: M.State, notifiers: seq<Notifier>, ended: seq<M.OpId>)

  datatype Action = Submit | Cancel | Move(from: nat) | Notify(index: nat) | Destroy(index: nat)

  function Init(pending: M.Pending): System {
    System(M.Init(pending), [], [])
  }

  predicate Possible(s: System, a: Action) {
    match a
    case Submit => true
    case Cancel => true
    case Move(i) => i < |s.notifiers|
    case Notify(i) => i < |s.notifiers|
    case Destroy(i) => i < |s.notifiers|
  }

  /** An operation that the manager begins creates its notifier. */
  function Begin(s: System, mgr: M.State): System {
    if |mgr.started| > |s.mgr.started| then
      s.(mgr := mgr, notifiers := s.notifiers + [Notifier(mgr.started[|mgr.started| - 1], true)])
    else
      s.(mgr := mgr)
  }

  function Disable(s: System, i: nat): System
    requires i < |s.notifiers|
  {
    s.(notifiers := s.notifiers[i := s.notifiers[i].(enabled := false)])
  }

  function CallFinish(s: System, i: nat): System
    requires i < |s.notifiers|
  {
    Begin(Disable(s, i).(ended := s.ended + [s.notifiers[i].op]), M.FinishStep(s.mgr))
  }

  function Step(s: System, a: Action): System
    requires Possible(s, a)
  {
    match a
    case Submit => Begin(s, M.StartStep(s.mgr))
    case Cancel => s.(mgr := M.CancelStep(s.mgr))
    case Move(i) => Disable(s, i).(notifiers := Disable(s, i).notifiers + [s.notifiers[i]])
    case Notify(i) => CallFinish(s, i)
    case Destroy(i) => if s.notifiers[i].enabled then CallFinish(s, i) else s
  }

  // ---------- One operation at a time ----------

  /**
   Mutual exclusion: the manager runs exactly when one notifier is enabled, and that notifier belongs to the operation
   started last.
   */
  ghost predicate Exclusive(s: System) {
    && M.Inv(s.mgr)
    && (s.mgr.running <==> exists i :: 0 <= i < |s.notifiers| && s.notifiers[i].enabled)
    && (forall i :: 0 <= i < |s.notifiers| && s.notifiers[i].enabled ==> M.Active(s.mgr) == [s.notifiers[i].op])
    && (forall i, j :: 0 <= i < j < |s.notifiers| ==> !(s.notifiers[i].enabled && s.notifiers[j].enabled))
  }

  lemma InitExclusive(pending: M.Pending)
    ensures Exclusive(Init(pending))
  {
    M.InitInv(pending);
  }

  lemma FinishKeepsExclusive(s: System, i: nat)
    requires Exclusive(s) && i < |s.notifiers| && s.notifiers[i].enabled
    ensures Exclusive(CallFinish(s, i))
  {
    M.FinishPreservesInv(s.mgr);
    var t := CallFinish(s, i);
    if t.mgr.running {
      assert t.notifiers[|t.notifiers| - 1].enabled;
    }
  }

  lemma SubmitKeepsExclusive(s: System)
    requires Exclusive(s)
    ensures Exclusive(Step(s, Submit))
  {
    M.StartPreservesInv(s.mgr);
    var t := Step(s, Submit);
    if s.mgr.running {
      assert t.notifiers == s.notifiers && M.Active(t.mgr) == M.Active(s.mgr);
    } else {
      assert t.notifiers[|s.notifiers|].enabled;
    }
  }

  lemma MoveKeepsExclusive(s: System, i: nat)
    requires Exclusive(s) && i < |s.notifiers|
    ensures Exclusive(Step(s, Move(i)))
  {
    var t := Step(s, Move(i));
    assert t.notifiers[|s.notifiers|] == s.notifiers[i];
    assert forall k :: 0 <= k < |s.notifiers| && k != i ==> t.notifiers[k] == s.notifiers[k];
  }

  /** A call of `notify` respects the discipline if its notifier was neither used nor moved from. */
  predicate Disciplined(s: System, a: Action) {
    Possible(s, a) && (a.Notify? ==> s.notifiers[a.index].enabled)
  }

  /**
   A stray `notify` while an operation runs ends that operation, although another notifier for it is still enabled. If
   an operation is pending, it starts, and two operations run at once.
   */
  lemma StrayNotifyEndsOwned(s: System, i: nat) returns (k: nat)
    requires Exclusive(s) && i < |s.notifiers| && !s.notifiers[i].enabled && s.mgr.running
    ensures var t := CallFinish(s, i);
      && k < |s.notifiers| && t.notifiers[k] == s.notifiers[k] && s.notifiers[k].enabled
      && t.mgr.finished == s.mgr.finished + [s.notifiers[k].op]
      && (s.mgr.pending.HasPendingOperation() ==>
            && |t.notifiers| == |s.notifiers| + 1
            && t.notifiers[|s.notifiers|] == Notifier(s.mgr.pending.GetPendingOperation(), true))
    ensures !Exclusive(CallFinish(s, i))
  {
    var t := CallFinish(s, i);
    k :| 0 <= k < |s.notifiers| && s.notifiers[k].enabled;
    assert t.notifiers[k].enabled;
  }

  /** On an idle manager, a stray `notify` clears the cancel flag and does nothing else to the manager. */
  lemma StrayNotifyWhenIdle(s: System, i: nat)
    requires Exclusive(s) && i < |s.notifiers| && !s.notifiers[i].enabled && !s.mgr.running
    ensures CallFinish(s, i).mgr == s.mgr.(canceled := false) && CallFinish(s, i).notifiers == s.notifiers
    ensures Exclusive(CallFinish(s, i))
  {
    M.FinishPreservesInv(s.mgr);
    assert s.mgr.finished + [] == s.mgr.finished;
  }

  /**
   An action keeps mutual exclusion if and only if it is disciplined or nothing runs: only a `notify` on a notifier that
   was used or moved from, made while an operation runs, breaks it.
   */
  lemma KeepsExclusiveIff(s: System, a: Action)
    requires Exclusive(s) && Possible(s, a)
    ensures Exclusive(Step(s, a)) <==> Disciplined(s, a) || !s.mgr.running
  {
    match a
    case Submit => SubmitKeepsExclusive(s);
    case Cancel => M.CancelPreservesInv(s.mgr);
    case Move(i) => MoveKeepsExclusive(s, i);
    case Destroy(i) => if s.notifiers[i].enabled { FinishKeepsExclusive(s, i); }
    case Notify(i) =>
      if s.notifiers[i].enabled {
        FinishKeepsExclusive(s, i);
      } else if s.mgr.running {
        var k := StrayNotifyEndsOwned(s, i);
      } else {
        StrayNotifyWhenIdle(s, i);
      }
  }

  // ---------- One finish for each operation ----------

  /** The operations of the enabled notifiers. */
  function Owners(notifiers: seq<Notifier>): multiset<M.OpId> {
    if notifiers == [] then multiset{}
    else
      var n := |notifiers| - 1;
      Owners(notifiers[..n]) + if notifiers[n].enabled then multiset{notifiers[n].op} else multiset{}
  }

  /** The operations on whose behalf `finishOperation` was called, and those on whose behalf it may still be called. */
  function Accounted(s: System): multiset<M.OpId> {
    multiset(s.ended) + Owners(s.notifiers)
  }

  /**
   Every started operation either has one enabled notifier, or `finishOperation` has been called once on its behalf, and
   not both.
   */
  ghost predicate Balanced(s: System) {
    Accounted(s) == multiset(s.mgr.started)
  }

  /** The number of calls of `finishOperation` in excess. */
  function Excess(s: System): int {
    |Accounted(s)| - |s.mgr.started|
  }

  lemma {:induction false} DisableTakesOwner(notifiers: seq<Notifier>, i: nat)
    requires i < |notifiers|
    ensures var n := notifiers[i];
      Owners(notifiers)
        == Owners(notifiers[i := n.(enabled := false)]) + if n.enabled then multiset{n.op} else multiset{}
    decreases |notifiers|
  {
    var n, m := |notifiers| - 1, notifiers[i].(enabled := false);
    if i == n {
      assert notifiers[i := m][..n] == notifiers[..n];
    } else {
      DisableTakesOwner(notifiers[..n], i);
      assert notifiers[i := m][..n] == notifiers[..n][i := m];
    }
  }

  lemma AddOwner(notifiers: seq<Notifier>, n: Notifier)
    ensures Owners(notifiers + [n]) == Owners(notifiers) + if n.enabled then multiset{n.op} else multiset{}
  {
    assert (notifiers + [n])[..|notifiers|] == notifiers;
  }

  /** An operation that begins brings its owner with it. */
  lemma BeginAddsOwner(s: System, mgr: M.State)
    requires mgr.started == s.mgr.started || exists op :: mgr.started == s.mgr.started + [op]
    ensures var t := Begin(s, mgr);
      Accounted(t) + multiset(s.mgr.started) == Accounted(s) + multiset(t.mgr.started)
  {
    if mgr.started != s.mgr.started {
      var op :| mgr.started == s.mgr.started + [op];
      AddOwner(s.notifiers, Notifier(op, true));
    }
  }

  /** What an action adds to the calls of `finishOperation` and the owners, beyond what it starts. */
  lemma StepBalance(s: System, a: Action)
    requires Possible(s, a)
    ensures Accounted(Step(s, a)) + multiset(s.mgr.started)
      == Accounted(s) + multiset(Step(s, a).mgr.started)
         + if Disciplined(s, a) then multiset{} else multiset{s.notifiers[a.index].op}
  {
    match a
    case Submit => BeginAddsOwner(s, M.StartStep(s.mgr));
    case Cancel =>
    case Move(i) =>
      DisableTakesOwner(s.notifiers, i);
      AddOwner(Disable(s, i).notifiers, s.notifiers[i]);
    case Notify(i) => FinishBalance(s, i);
    case Destroy(i) => FinishBalance(s, i);
  }

  lemma FinishBalance(s: System, i: nat)
    requires i < |s.notifiers|
    ensures Accounted(CallFinish(s, i)) + multiset(s.mgr.started)
      == Accounted(s) + multiset(CallFinish(s, i).mgr.started)
         + if s.notifiers[i].enabled then multiset{} else multiset{s.notifiers[i].op}
  {
    var n := s.notifiers[i];
    var u := Disable(s, i).(ended := s.ended + [n.op]);
    assert Accounted(u) == Accounted(s) + if n.enabled then multiset{} else multiset{n.op} by {
      DisableTakesOwner(s.notifiers, i);
    }
    BeginAddsOwner(u, M.FinishStep(s.mgr));
  }

  // ---------- Whole runs ----------

  /** A run of any actions at all. */
  ghost predicate Happens(s: System, actions: seq<Action>, t: System)
    decreases |actions|
  {
    if actions == [] then s == t
    else Possible(s, actions[0]) && Happens(Step(s, actions[0]), actions[1..], t)
  }

  /** A run of disciplined actions. */
  ghost predicate Runs(s: System, actions: seq<Action>, t: System)
    decreases |actions|
  {
    if actions == [] then s == t
    else Disciplined(s, actions[0]) && Runs(Step(s, actions[0]), actions[1..], t)
  }

  lemma StepExcess(s: System, a: Action)
    requires Possible(s, a)
    ensures Excess(Step(s, a)) == Excess(s) + if Disciplined(s, a) then 0 else 1
    ensures Balanced(s) && Disciplined(s, a) ==> Balanced(Step(s, a))
  {
    StepBalance(s, a);
    var extra := if Disciplined(s, a) then multiset{} else multiset{s.notifiers[a.index].op};
    Difference(Accounted(Step(s, a)), multiset(s.mgr.started), Accounted(s), multiset(Step(s, a).mgr.started), extra);
  }

  lemma Difference<T>(a: multiset<T>, b: multiset<T>, c: multiset<T>, d: multiset<T>, extra: multiset<T>)
    requires a + b == c + d + extra
    ensures |a| + |b| == |c| + |d| + |extra|
    ensures b == c && extra == multiset{} ==> a == d
  {
    assert |a + b| == |c + d + extra|;
    if b == c && extra == multiset{} {
      assert a == (a + b) - b == d;
    }
  }

  /** Each stray `notify` is one call of `finishOperation` too many, and no later action makes up for it. */
  lemma {:induction false} ExcessGrows(s: System, actions: seq<Action>, t: System)
    requires Happens(s, actions, t)
    ensures Excess(s) <= Excess(t)
    ensures Runs(s, actions, t) <==> Excess(t) == Excess(s)
    ensures Runs(s, actions, t) && Balanced(s) ==> Balanced(t)
    decreases |actions|
  {
    if actions == [] {
    } else {
      StepExcess(s, actions[0]);
      ExcessGrows(Step(s, actions[0]), actions[1..], t);
    }
  }

  /**
   `finishOperation` has been called exactly once for each started operation that no enabled notifier owns, if and only
   if every `notify` of the run was disciplined.
   */
  lemma FinishesOnceIff(pending: M.Pending, actions: seq<Action>, t: System)
    requires Happens(Init(pending), actions, t)
    ensures Balanced(t) <==> Runs(Init(pending), actions, t)
  {
    ExcessGrows(Init(pending), actions, t);
  }

  lemma {:induction false} RunKeepsExclusive(s: System, actions: seq<Action>, t: System)
    requires Exclusive(s) && s.ended == s.mgr.finished && Runs(s, actions, t)
    ensures Exclusive(t) && t.ended == t.mgr.finished
    decreases |actions|
  {
    if actions == [] {
    } else {
      KeepsExclusiveIff(s, actions[0]);
      RunKeepsExclusive(Step(s, actions[0]), actions[1..], t);
    }
  }

  /**
   In every disciplined run, at most one operation is active, and `finishOperation` was called exactly once for every
   other started operation, in starting order; when no enabled notifier is left, for every started operation.
   */
  lemma NotifierDiscipline(pending: M.Pending, actions: seq<Action>, t: System)
    requires Runs(Init(pending), actions, t)
    ensures t.mgr.started == t.ended + M.Active(t.mgr) && Increasing(t.mgr.started)
    ensures t.mgr.pending.Contents() != [] ==> t.mgr.running
    ensures t.mgr.running <==> exists i :: 0 <= i < |t.notifiers| && t.notifiers[i].enabled
    ensures (forall i :: 0 <= i < |t.notifiers| ==> !t.notifiers[i].enabled) ==> t.ended == t.mgr.started
  {
    InitExclusive(pending);
    RunKeepsExclusive(Init(pending), actions, t);
  }

  // ---------- Scopes ----------

  /** The action uses notifier `i` up: it moves it away, notifies it, or ends its life. */
  predicate Uses(a: Action, i: nat) {
    a == Move(i) || a == Notify(i) || a == Destroy(i)
  }

  lemma StepDisables(s: System, a: Action, i: nat)
    requires Possible(s, a) && i < |s.notifiers|
    ensures i < |Step(s, a).notifiers|
    ensures Uses(a, i) || !s.notifiers[i].enabled ==> !Step(s, a).notifiers[i].enabled
  {
  }

  /** In every run, a notifier that has been used is never enabled again. */
  lemma {:induction false} UsedStaysDisabled(s: System, actions: seq<Action>, t: System, i: nat)
    requires Happens(s, actions, t) && i < |t.notifiers|
    requires (i < |s.notifiers| && !s.notifiers[i].enabled) || (exists a :: a in actions && Uses(a, i))
    ensures !t.notifiers[i].enabled
    decreases |actions|
  {
    if actions == [] {
    } else {
      var u := Step(s, actions[0]);
      if i < |s.notifiers| {
        StepDisables(s, actions[0], i);
      }
      if !(i < |u.notifiers| && !u.notifiers[i].enabled) {
        var a :| a in actions && Uses(a, i);
        assert a != actions[0];
        assert a in actions[1..];
      }
      UsedStaysDisabled(u, actions[1..], t, i);
    }
  }

  lemma {:induction false} RunsHappen(s: System, actions: seq<Action>, t: System)
    requires Runs(s, actions, t)
    ensures Happens(s, actions, t)
    decreases |actions|
  {
    if actions == [] {
    } else {
      RunsHappen(Step(s, actions[0]), actions[1..], t);
    }
  }

  /**
   Scopes are enough: in every disciplined run at the end of which all notifiers have been destroyed, with or without a
   `notify` before, `finishOperation` was called exactly once for each started operation, and nothing is active or
   pending.
   */
  lemma ScopesFinishEverything(pending: M.Pending, actions: seq<Action>, t: System)
    requires Runs(Init(pending), actions, t)
    requires forall i: nat :: i < |t.notifiers| ==> Destroy(i) in actions
    ensures t.ended == t.mgr.started == t.mgr.finished
    ensures !t.mgr.running && t.mgr.pending.Contents() == []
  {
    RunsHappen(Init(pending), actions, t);
    forall i: nat | i < |t.notifiers| ensures !t.notifiers[i].enabled {
      assert Destroy(i) in actions && Uses(Destroy(i), i);
      UsedStaysDisabled(Init(pending), actions, t, i);
    }
    NotifierDiscipline(pending, actions, t);
    InitExclusive(pending);
    RunKeepsExclusive(Init(pending), actions, t);
  }

  /** The calls of the manager's methods that an action makes. */
  function ManagerCalls(s: System, a: Action): seq<M.Event>
    requires Possible(s, a)
  {
    match a
    case Submit => [M.Start]
    case Cancel => [M.Cancel]
    case Move(_) => []
    case Notify(_) => [M.Finish]
    case Destroy(i) => if s.notifiers[i].enabled then [M.Finish] else []
  }

  ghost function RunCalls(s: System, actions: seq<Action>): seq<M.Event>
    decreases |actions|
  {
    if actions == [] || !Possible(s, actions[0]) then []
    else ManagerCalls(s, actions[0]) + RunCalls(Step(s, actions[0]), actions[1..])
  }

  lemma StepCallsManager(s: System, a: Action)
    requires Possible(s, a)
    ensures Step(s, a).mgr == M.Run(s.mgr, ManagerCalls(s, a))
  {
    var calls := ManagerCalls(s, a);
    if calls != [] {
      assert calls[1..] == [];
      assert M.Run(s.mgr, calls) == M.Apply(s.mgr, calls[0]);
    }
  }

  /** Every run of notifiers is a run of the manager; each `notify` and each enabled notifier destroyed is a finish. */
  lemma {:induction false} RunsManager(s: System, actions: seq<Action>, t: System)
    requires Happens(s, actions, t)
    ensures t.mgr == M.Run(s.mgr, RunCalls(s, actions))
    decreases |actions|
  {
    if actions == [] {
    } else {
      var u := Step(s, actions[0]);
      StepCallsManager(s, actions[0]);
      RunsManager(u, actions[1..], t);
      M.RunConcat(s.mgr, ManagerCalls(s, actions[0]), RunCalls(u, actions[1..]));
    }
  }

  // ---------- The notifier object ----------

  class FinishedOperationNotifier {
    const operationManager: M.AsyncOperationManager
    var enabled: bool

    constructor (operationManager: M.AsyncOperationManager)
      ensures this.operationManager == operationManager && enabled
    {
      this.operationManager := operationManager;
      enabled := true;
    }

    constructor MoveFrom(other: FinishedOperationNotifier)
      modifies other
      ensures operationManager == other.operationManager && enabled == old(other.enabled) && !other.enabled
    {
      operationManager := other.operationManager;
      enabled := other.enabled;
      new;
      other.enabled := false;
    }

    /** The destructor. */
    method Destroy() returns (next: Option<M.OpId>)
      requires operationManager.Valid()
      modifies operationManager
      ensures operationManager.Valid()
      ensures operationManager.View() == if enabled then M.FinishStep(old(operationManager.View()))
                                         else old(operationManager.View())
      ensures next.Some? <==> enabled && |operationManager.started| > |old(operationManager.started)|
    {
      next := None;
      if enabled {
        next := operationManager.FinishOperation();
      }
    }

    method Notify() returns (next: Option<M.OpId>)
      requires operationManager.Valid()
      modifies this, operationManager
      ensures operationManager.Valid() && !enabled
      ensures operationManager.View() == M.FinishStep(old(operationManager.View()))
      ensures next.Some? <==> |operationManager.started| > |old(operationManager.started)|
    {
      enabled := false;
      next := operationManager.FinishOperation();
    }
  }
}
