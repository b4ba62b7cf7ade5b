/** The `&&` and `||` operators that build wait expressions out of waitables. */
module WaitExpressions {

  /** The waitables that are ready. */
  type Flags = set<nat>

  type Expression = Flags -> bool

  function Is(w: nat): Expression {
    ready => w in ready
  }

  // The eight overloads: each operand is a waitable or an expression.

  function AndFlagFlag(lhs: nat, rhs: nat): Expression {
    ready => lhs in ready && rhs in ready
  }

  function AndExprFlag(lhs: Expression, rhs: nat): Expression {
    ready => lhs(ready) && rhs in ready
  }

  function AndFlagExpr(lhs: nat, rhs: Expression): Expression {
    ready => lhs in ready && rhs(ready)
  }

  function AndExprExpr(lhs: Expression, rhs: Expression): Expression {
    ready => lhs(ready) && rhs(ready)
  }

  function OrFlagFlag(lhs: nat, rhs: nat): Expression {
    ready => lhs in ready || rhs in ready
  }

  function OrExprFlag(lhs: Expression, rhs: nat): Expression {
    ready => lhs(ready) || rhs in ready
  }

  function OrFlagExpr(lhs: nat, rhs: Expression): Expression {
    ready => lhs in ready || rhs(ready)
  }

  function OrExprExpr(lhs: Expression, rhs: Expression): Expression {
    ready => lhs(ready) || rhs(ready)
  }

  /** What a user writes. */
  datatype Formula = Flag(w: nat) | And(l: Formula, r: Formula) | Or(l: Formula, r: Formula)

  /** The closure that the operators build; overload resolution looks at the operands. */
  function Build(f: Formula): Expression {
    match f
    case Flag(w) => Is(w)
    case And(Flag(v), Flag(w)) => AndFlagFlag(v, w)
    case And(l, Flag(w)) => AndExprFlag(Build(l), w)
    case And(Flag(v), r) => AndFlagExpr(v, Build(r))
    case And(l, r) => AndExprExpr(Build(l), Build(r))
    case Or(Flag(v), Flag(w)) => OrFlagFlag(v, w)
    case Or(l, Flag(w)) => OrExprFlag(Build(l), w)
    case Or(Flag(v), r) => OrFlagExpr(v, Build(r))
    case Or(l, r) => OrExprExpr(Build(l), Build(r))
  }

  /** What it means. */
  predicate Holds(f: Formula, ready: Flags) {
    match f
    case Flag(w) => w in ready
    case And(l, r) => Holds(l, ready) && Holds(r, ready)
    case Or(l, r) => Holds(l, ready) || Holds(r, ready)
  }

  lemma {:induction false} BuildMeansFormula(f: Formula, ready: Flags)
    ensures Build(f)(ready) <==> Holds(f, ready)
  {
    if !f.Flag? {
      BuildMeansFormula(f.l, ready);
      BuildMeansFormula(f.r, ready);
    }
  }

  /** Making more waitables ready never makes the expression false. */
  ghost predicate Monotone(e: Expression) {
    forall a, b :: a <= b && e(a) ==> e(b)
  }

  lemma {:induction false} MoreReady(f: Formula, a: Flags, b: Flags)
    requires a <= b && Holds(f, a)
    ensures Holds(f, b)
  {
    match f
    case Flag(_) =>
    case And(l, r) => MoreReady(l, a, b); MoreReady(r, a, b);
    case Or(l, r) => if Holds(l, a) { MoreReady(l, a, b); } else { MoreReady(r, a, b); }
  }

  /** Every tree of `&&` and `||` over waitables evaluates to its formula and is monotone. */
  lemma {:induction false} OperatorsAreMonotone(f: Formula)
    ensures Monotone(Build(f)) && forall ready :: Build(f)(ready) <==> Holds(f, ready)
  {
    forall ready ensures Build(f)(ready) <==> Holds(f, ready) {
      BuildMeansFormula(f, ready);
    }
    forall a, b | a <= b && Build(f)(a) ensures Build(f)(b) {
      MoreReady(f, a, b);
    }
  }
}
