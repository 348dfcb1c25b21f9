/** Dependency expressions, their value, and the passes that return a rewritten tree. */
module Expressions {
  import opened Symbols

  datatype Option<+T> = None | Some(value: T)

  datatype Relation = Equal | Unequal | Less | LessEqual | Greater | GreaterEqual

  datatype Connective = Conj | Disj {
    function Dual(): Connective { if Conj? then Disj else Conj }

    /** `EXPR_AND` or `EXPR_OR`. */
    function Apply(a: Tri, b: Tri): Tri { if Conj? then Min(a, b) else Max(a, b) }

    /** The neutral operand. */
    function Unit(): Symbol { if Conj? then SymYes else SymNo }
  }

  datatype Expr =
    | Sym(sym: Symbol)
    | Cmp(rel: Relation, left: Symbol, right: Symbol)
    | Not(arg: Expr)
    | Bin(op: Connective, l: Expr, r: Expr)
  {
    predicate IsBin(c: Connective) {
      Bin? && op == c
    }

    /** A literal `y` or `n`. */
    predicate IsYn() {
      this == Sym(SymYes) || this == Sym(SymNo)
    }
  }

  function Truth(b: bool): Tri { if b then YES else NO }

  predicate Holds(rel: Relation, order: int) {
    match rel
    case Equal => order == 0
    case Unequal => order != 0
    case Less => order < 0
    case LessEqual => order <= 0
    case Greater => order > 0
    case GreaterEqual => order >= 0
  }

  /** `expr_calc_value` over settled symbols. */
  function Eval(e: Expr, env: Env): Tri {
    match e
    case Sym(s) => env.tri(s)
    case Cmp(rel, s, t) => Truth(Holds(rel, env.cmp(s, t)))
    case Not(x) => Neg(Eval(x, env))
    case Bin(c, x, y) => c.Apply(Eval(x, env), Eval(y, env))
  }

  /** The three predefined symbols have their fixed values. */
  predicate Grounded(env: Env) {
    env.tri(SymYes) == YES && env.tri(SymMod) == MOD && env.tri(SymNo) == NO
  }

  /** Equal value in every settled configuration. */
  ghost predicate Equivalent(e1: Expr, e2: Expr) {
    forall env: Env :: WellFormed(env) ==> Eval(e1, env) == Eval(e2, env)
  }

  function Size(e: Expr): (n: nat)
    ensures n >= 1
  {
    match e
    case Sym(_) => 1
    case Cmp(_, _, _) => 1
    case Not(x) => 1 + Size(x)
    case Bin(_, x, y) => 1 + Size(x) + Size(y)
  }

  // ----- expr_eliminate_yn -----

  /** Some connective has a literal `y` or `n` operand. */
  predicate HasYn(e: Expr) {
    e.Bin? && (e.l.IsYn() || e.r.IsYn() || HasYn(e.l) || HasYn(e.r))
  }

  /** One connective whose operands are already reduced. */
  function ReduceYn(c: Connective, x: Expr, y: Expr): Expr {
    if x == Sym(c.Dual().Unit()) then x
    else if x == Sym(c.Unit()) then y
    else if y == Sym(c.Dual().Unit()) then y
    else if y == Sym(c.Unit()) then x
    else Bin(c, x, y)
  }

  /** Drops neutral operands and collapses absorbed connectives. The result has
      no literal operand left, and is smaller whenever there was one. */
  function EliminateYn(e: Expr): (r: Expr)
    ensures !HasYn(r)
    ensures Size(r) <= Size(e)
    ensures HasYn(e) ==> Size(r) < Size(e)
  {
    match e
    case Bin(c, x, y) => ReduceYn(c, EliminateYn(x), EliminateYn(y))
    case _ => e
  }

  lemma {:induction false} EliminateYnPreserves(e: Expr, env: Env)
    requires Grounded(env)
    ensures Eval(EliminateYn(e), env) == Eval(e, env)
  {
    match e
    case Bin(_, x, y) =>
      EliminateYnPreserves(x, env);
      EliminateYnPreserves(y, env);
    case _ =>
  }

  // ----- expr_eliminate_eq and expr_eq -----

  /** Same node type: the same constructor, relation and connective. */
  predicate SameType(e1: Expr, e2: Expr) {
    match e1
    case Sym(_) => e2.Sym?
    case Cmp(rel, _, _) => e2.Cmp? && e2.rel == rel
    case Not(_) => e2.Not?
    case Bin(c, _, _) => e2.IsBin(c)
  }

  /** Cancels operands of `c` common to both trees, replacing each cancelled
      operand by the neutral one, without tidying up. */
  function Cancel(c: Connective, e1: Expr, e2: Expr): (r: (Expr, Expr))
    ensures Size(r.0) <= Size(e1) && Size(r.1) <= Size(e2)
    ensures e1.Bin? ==> r.0.IsBin(e1.op) || e1.op != c
    ensures e2.Bin? ==> r.1.IsBin(e2.op) || e2.op != c
    decreases Size(e1) + Size(e2), if e1.IsBin(c) || e2.IsBin(c) then 0 else 3
  {
    if e1.IsBin(c) then
      var a := Cancel(c, e1.l, e2);
      var b := Cancel(c, e1.r, a.1);
      (Bin(c, a.0, b.0), b.1)
    else if e2.IsBin(c) then
      var a := Cancel(c, e1, e2.l);
      var b := Cancel(c, a.0, e2.r);
      (b.0, Bin(c, a.1, b.1))
    else if (e1 == e2 && e1.IsYn()) || !ExprEq(e1, e2) then
      (e1, e2)
    else
      (Sym(c.Unit()), Sym(c.Unit()))
  }

  function EliminateEq(e1: Expr, e2: Expr): (r: (Expr, Expr))
    decreases Size(e1) + Size(e2), 1
  {
    var a := if e1.Bin? then Cancel(e1.op, e1, e2) else (e1, e2);
    var b := if !SameType(a.0, a.1) && a.1.Bin? then Cancel(a.1.op, a.0, a.1) else a;
    (EliminateYn(b.0), EliminateYn(b.1))
  }

  predicate ExprEq(e1: Expr, e2: Expr)
    decreases Size(e1) + Size(e2), 2
  {
    SameType(e1, e2) &&
    match e1
    case Cmp(_, s, t) => e2.left == s && e2.right == t
    case Sym(s) => e2.sym == s
    case Not(x) => ExprEq(x, e2.arg)
    case Bin(_, _, _) =>
      var r := EliminateEq(e1, e2);
      r.0.Sym? && r.1.Sym? && r.0.sym == r.1.sym
  }

  /** The operands that `Cancel` removes, taken from the first tree and joined by `c`. */
  function Common(c: Connective, e1: Expr, e2: Expr): Expr
    decreases Size(e1) + Size(e2)
  {
    if e1.IsBin(c) then
      Bin(c, Common(c, e1.l, e2), Common(c, e1.r, Cancel(c, e1.l, e2).1))
    else if e2.IsBin(c) then
      Bin(c, Common(c, e1, e2.l), Common(c, Cancel(c, e1, e2.l).0, e2.r))
    else if (e1 == e2 && e1.IsYn()) || !ExprEq(e1, e2) then
      Sym(c.Unit())
    else
      e1
  }

  lemma Regroup(c: Connective, p: Tri, q: Tri, x: Tri, y: Tri)
    ensures c.Apply(c.Apply(p, x), c.Apply(q, y)) == c.Apply(c.Apply(p, q), c.Apply(x, y))
    ensures c.Apply(p, c.Apply(q, x)) == c.Apply(c.Apply(p, q), x)
  {
  }

  /** Each tree is the common part combined with what is left of it. */
  lemma {:induction false} CancelFactors(c: Connective, e1: Expr, e2: Expr, env: Env)
    requires Grounded(env)
    ensures Eval(e1, env) == c.Apply(Eval(Common(c, e1, e2), env), Eval(Cancel(c, e1, e2).0, env))
    ensures Eval(e2, env) == c.Apply(Eval(Common(c, e1, e2), env), Eval(Cancel(c, e1, e2).1, env))
    decreases Size(e1) + Size(e2), if e1.IsBin(c) || e2.IsBin(c) then 0 else 3
  {
    if e1.IsBin(c) {
      var a := Cancel(c, e1.l, e2);
      var b := Cancel(c, e1.r, a.1);
      CancelFactors(c, e1.l, e2, env);
      CancelFactors(c, e1.r, a.1, env);
      var p, q := Eval(Common(c, e1.l, e2), env), Eval(Common(c, e1.r, a.1), env);
      assert Eval(Common(c, e1, e2), env) == c.Apply(p, q);
      assert Cancel(c, e1, e2) == (Bin(c, a.0, b.0), b.1);
      Regroup(c, p, q, Eval(a.0, env), Eval(b.0, env));
      Regroup(c, p, q, Eval(b.1, env), YES);
    } else if e2.IsBin(c) {
      var a := Cancel(c, e1, e2.l);
      var b := Cancel(c, a.0, e2.r);
      CancelFactors(c, e1, e2.l, env);
      CancelFactors(c, a.0, e2.r, env);
      var p, q := Eval(Common(c, e1, e2.l), env), Eval(Common(c, a.0, e2.r), env);
      assert Eval(Common(c, e1, e2), env) == c.Apply(p, q);
      assert Cancel(c, e1, e2) == (b.0, Bin(c, a.1, b.1));
      Regroup(c, p, q, Eval(a.1, env), Eval(b.1, env));
      Regroup(c, p, q, Eval(b.0, env), YES);
    } else if !(e1 == e2 && e1.IsYn()) && ExprEq(e1, e2) {
      ExprEqSound(e1, e2, env);
    }
  }

  /** `expr_eq` answers yes only for expressions of equal value, in every
      environment whatever values the symbols have. */
  lemma {:induction false} ExprEqSound(e1: Expr, e2: Expr, env: Env)
    requires Grounded(env) && ExprEq(e1, e2)
    ensures Eval(e1, env) == Eval(e2, env)
    decreases Size(e1) + Size(e2), 2
  {
    match e1
    case Not(x) => ExprEqSound(x, e2.arg, env);
    case Bin(c, _, _) =>
      CancelFactors(c, e1, e2, env);
      var a := Cancel(c, e1, e2);
      EliminateYnPreserves(a.0, env);
      EliminateYnPreserves(a.1, env);
    case _ =>
  }

  lemma CancelOrdered(c: Connective, e1: Expr, e2: Expr, env: Env)
    requires Grounded(env)
    requires Eval(Cancel(c, e1, e2).0, env) <= Eval(Cancel(c, e1, e2).1, env)
    ensures Eval(e1, env) <= Eval(e2, env)
  {
    CancelFactors(c, e1, e2, env);
  }

  /** When everything cancels from the second tree, it is implied by the first:
      this is the test for "a superset of the dependencies". */
  lemma EliminateEqSuperset(e1: Expr, e2: Expr, env: Env)
    requires Grounded(env)
    requires EliminateEq(e1, e2).1 == Sym(SymYes)
    ensures Eval(e1, env) <= Eval(e2, env)
  {
    var a := if e1.Bin? then Cancel(e1.op, e1, e2) else (e1, e2);
    var b := if !SameType(a.0, a.1) && a.1.Bin? then Cancel(a.1.op, a.0, a.1) else a;
    EliminateYnPreserves(b.1, env);
    assert Eval(b.1, env) == YES;
    if !SameType(a.0, a.1) && a.1.Bin? {
      CancelOrdered(a.1.op, a.0, a.1, env);
    }
    if e1.Bin? {
      CancelOrdered(e1.op, e1, e2, env);
    }
  }

  /** Every operand of `c` is a literal. */
  predicate Blanked(c: Connective, e: Expr) {
    if e.IsBin(c) then Blanked(c, e.l) && Blanked(c, e.r) else e.IsYn()
  }

  lemma {:induction false} CancelBlankRight(c: Connective, e: Expr, t: Expr)
    requires Blanked(c, t)
    ensures Cancel(c, e, t) == (e, t)
    decreases Size(e) + Size(t)
  {
    if e.IsBin(c) {
      CancelBlankRight(c, e.l, t);
      CancelBlankRight(c, e.r, t);
    } else if t.IsBin(c) {
      CancelBlankRight(c, e, t.l);
      CancelBlankRight(c, e, t.r);
    }
  }

  lemma {:induction false} CancelBlankLeft(c: Connective, u: Expr, t: Expr)
    requires u.IsYn()
    ensures Cancel(c, u, t) == (u, t)
  {
    if t.IsBin(c) {
      CancelBlankLeft(c, u, t.l);
      CancelBlankLeft(c, u, t.r);
    }
  }

  lemma {:induction false} CancelSkipsBlank(c: Connective, e: Expr, t: Expr, u: Expr)
    requires Blanked(c, t)
    ensures Cancel(c, e, Bin(c, t, u)) == (Cancel(c, e, u).0, Bin(c, t, Cancel(c, e, u).1))
    decreases e
  {
    if e.IsBin(c) {
      CancelSkipsBlank(c, e.l, t, u);
      CancelSkipsBlank(c, e.r, t, Cancel(c, e.l, u).1);
    } else {
      CancelBlankRight(c, e, t);
    }
  }

  lemma {:induction false} CancelStopsBlank(c: Connective, e: Expr, t: Expr, u: Expr)
    requires Blanked(c, Cancel(c, e, t).0)
    ensures Cancel(c, e, Bin(c, t, u)) == (Cancel(c, e, t).0, Bin(c, Cancel(c, e, t).1, u))
    decreases e
  {
    if e.IsBin(c) {
      var a := Cancel(c, e.l, t);
      assert Cancel(c, e, t).0 == Bin(c, a.0, Cancel(c, e.r, a.1).0);
      CancelStopsBlank(c, e.l, t, u);
      CancelStopsBlank(c, e.r, a.1, u);
    } else {
      var a := Cancel(c, e, t);
      CancelLeafStays(c, e, t);
      CancelBlankLeft(c, a.0, u);
    }
  }

  lemma {:induction false} CancelLeafStays(c: Connective, e: Expr, t: Expr)
    requires !e.IsBin(c)
    ensures !Cancel(c, e, t).0.IsBin(c)
    decreases t
  {
    if t.IsBin(c) {
      CancelLeafStays(c, e, t.l);
      CancelLeafStays(c, Cancel(c, e, t.l).0, t.r);
    }
  }

  lemma {:induction false} CancelSelf(c: Connective, e: Expr)
    ensures Cancel(c, e, e).0 == Cancel(c, e, e).1 && Blanked(c, Cancel(c, e, e).0)
    decreases Size(e), if e.IsBin(c) then 0 else 2
  {
    if e.IsBin(c) {
      CancelSelf(c, e.l);
      CancelSelf(c, e.r);
      CancelStopsBlank(c, e.l, e.l, e.r);
      CancelSkipsBlank(c, e.r, Cancel(c, e.l, e.l).1, e.r);
    } else {
      ExprEqReflexive(e);
    }
  }

  lemma {:induction false} BlankedCollapses(c: Connective, e: Expr)
    requires Blanked(c, e)
    ensures EliminateYn(e).IsYn()
  {
    if e.IsBin(c) {
      BlankedCollapses(c, e.l);
      BlankedCollapses(c, e.r);
    }
  }

  /** `expr_eq` recognises an expression as equal to its copy. */
  lemma {:induction false} ExprEqReflexive(e: Expr)
    ensures ExprEq(e, e)
    decreases Size(e), 1
  {
    match e
    case Not(x) => ExprEqReflexive(x);
    case Bin(c, _, _) =>
      CancelSelf(c, e);
      BlankedCollapses(c, Cancel(c, e, e).0);
    case _ =>
  }
}
