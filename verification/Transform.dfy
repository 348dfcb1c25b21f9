/** The pass that pushes negation inwards and removes comparisons of bool symbols. */
module Transform {
  import opened Symbols
  import opened Expressions

  function Negated(rel: Relation): Relation {
    match rel
    case Equal => Unequal
    case Unequal => Equal
    case Less => GreaterEqual
    case LessEqual => Greater
    case Greater => LessEqual
    case GreaterEqual => Less
  }

  predicate IsLiteral(s: Symbol) {
    s == SymYes || s == SymMod || s == SymNo
  }

  /** A comparison of a bool symbol with `y`, `m` or `n`. */
  predicate TestsBool(e: Expr) {
    e.Cmp? && (e.rel == Equal || e.rel == Unequal) && e.left.Type() == SBool && IsLiteral(e.right)
  }

  function TransformCmp(e: Expr): Expr
    requires e.Cmp?
  {
    if !TestsBool(e) then e
    else if e.right == SymNo then
      if e.rel == Equal then Not(Sym(e.left)) else Sym(e.left)
    else if e.right == SymMod then
      if e.rel == Equal then Sym(SymNo) else Sym(SymYes)
    else
      if e.rel == Equal then Sym(e.left) else Not(Sym(e.left))
  }

  /** Negation doubles the weight, so a De Morgan step loses weight although it
      adds a node. */
  function Weight(e: Expr): (w: nat)
    ensures w >= 1
  {
    match e
    case Sym(_) => 1
    case Cmp(_, _, _) => 2
    case Not(x) => 2 * Weight(x)
    case Bin(_, x, y) => 1 + Weight(x) + Weight(y)
  }

  /** `expr_transform`, which runs itself again on the larger tree that a
      De Morgan step produces. */
  function Transformed(e: Expr): (r: Expr)
    ensures Weight(r) <= Weight(e)
    decreases Weight(e)
  {
    match e
    case Sym(_) => e
    case Cmp(_, _, _) => TransformCmp(e)
    case Bin(c, x, y) => Bin(c, Transformed(x), Transformed(y))
    case Not(x) =>
      var x' := Transformed(x);
      match x'
      case Not(y) => Transformed(y)
      case Cmp(rel, s, t) => Cmp(Negated(rel), s, t)
      case Bin(c, y, z) =>
        assert Weight(Not(y)) == 2 * Weight(y) && Weight(Not(z)) == 2 * Weight(z);
        Transformed(Bin(c.Dual(), Not(y), Not(z)))
      case Sym(s) =>
        if s == SymYes then Sym(SymNo)
        else if s == SymMod then Sym(SymMod)
        else if s == SymNo then Sym(SymYes)
        else Not(x')
  }

  /** Negation normal form: negation stands only before a symbol that is not
      `y`, `m` or `n`, and no bool symbol is compared with one of these. */
  predicate Normal(e: Expr) {
    match e
    case Sym(_) => true
    case Cmp(_, _, _) => !TestsBool(e)
    case Not(x) => x.Sym? && !IsLiteral(x.sym)
    case Bin(_, x, y) => Normal(x) && Normal(y)
  }

  lemma {:induction false} TransformedIsNormal(e: Expr)
    ensures Normal(Transformed(e))
    decreases Weight(e)
  {
    match e
    case Sym(_) =>
    case Cmp(_, _, _) =>
    case Bin(_, x, y) =>
      TransformedIsNormal(x);
      TransformedIsNormal(y);
    case Not(x) =>
      TransformedIsNormal(x);
      match Transformed(x)
      case Bin(c, y, z) =>
        assert Weight(Not(y)) == 2 * Weight(y) && Weight(Not(z)) == 2 * Weight(z);
        TransformedIsNormal(Bin(c.Dual(), Not(y), Not(z)));
      case _ =>
  }

  /** The normal forms are exactly the expressions the pass leaves alone. */
  lemma {:induction false} NormalIsFixed(e: Expr)
    ensures Normal(e) <==> Transformed(e) == e
  {
    match e
    case Sym(_) =>
    case Cmp(_, _, _) =>
    case Bin(_, x, y) =>
      NormalIsFixed(x);
      NormalIsFixed(y);
    case Not(x) =>
      if Transformed(e) == e { TransformedIsNormal(e); }
  }

  // ----- the same in one pass -----

  /** Negation of an expression that is not a connective. */
  function NegatedLeaf(e: Expr): Expr
    requires !e.Bin?
  {
    match e
    case Not(x) => x
    case Cmp(rel, s, t) => Cmp(Negated(rel), s, t)
    case Sym(s) =>
      if s == SymYes then Sym(SymNo)
      else if s == SymMod then Sym(SymMod)
      else if s == SymNo then Sym(SymYes)
      else Not(e)
  }

  /** Negation normal form by one descent: every leaf in its place, every connective
      turned into its dual under an odd number of negations. */
  function Nnf(e: Expr, negated: bool): Expr {
    match e
    case Sym(_) => if negated then NegatedLeaf(e) else e
    case Cmp(_, _, _) =>
      var leaf := TransformCmp(e);
      if negated then NegatedLeaf(leaf) else leaf
    case Not(x) => Nnf(x, !negated)
    case Bin(c, x, y) => Bin(if negated then c.Dual() else c, Nnf(x, negated), Nnf(y, negated))
  }

  lemma {:induction false} NnfNormal(e: Expr, negated: bool)
    ensures Normal(Nnf(e, negated))
  {
    match e
    case Sym(_) =>
    case Cmp(_, _, _) =>
    case Not(x) => NnfNormal(x, !negated);
    case Bin(_, x, y) =>
      NnfNormal(x, negated);
      NnfNormal(y, negated);
  }

  /** The negation of a normal expression. */
  function Opposite(e: Expr): Expr {
    if e.Bin? then Bin(e.op.Dual(), Opposite(e.l), Opposite(e.r)) else NegatedLeaf(e)
  }

  lemma {:induction false} NnfOpposite(e: Expr, negated: bool)
    ensures Opposite(Nnf(e, negated)) == Nnf(e, !negated)
  {
    match e
    case Sym(_) =>
    case Cmp(_, _, _) =>
    case Not(x) => NnfOpposite(x, !negated);
    case Bin(_, x, y) =>
      NnfOpposite(x, negated);
      NnfOpposite(y, negated);
  }

  lemma {:induction false} TransformedOpposite(e: Expr)
    requires Normal(e)
    ensures Transformed(Not(e)) == Opposite(e)
  {
    NormalIsFixed(e);
    if e.Bin? {
      TransformedOpposite(e.l);
      TransformedOpposite(e.r);
    }
  }

  lemma TransformedNot(x: Expr)
    ensures Transformed(Not(x)) == Transformed(Not(Transformed(x)))
  {
    TransformedIsNormal(x);
    NormalIsFixed(Transformed(x));
  }

  /** However often the pass runs itself again, the result is that of one descent. */
  lemma {:induction false} TransformedIsNnf(e: Expr)
    ensures Transformed(e) == Nnf(e, false)
  {
    match e
    case Sym(_) =>
    case Cmp(_, _, _) =>
    case Bin(_, x, y) =>
      TransformedIsNnf(x);
      TransformedIsNnf(y);
    case Not(x) =>
      TransformedIsNnf(x);
      TransformedNot(x);
      NnfNormal(x, false);
      TransformedOpposite(Nnf(x, false));
      NnfOpposite(x, false);
  }

  lemma TransformedIdempotent(e: Expr)
    ensures Transformed(Transformed(e)) == Transformed(e)
  {
    TransformedIsNormal(e);
    NormalIsFixed(Transformed(e));
  }

  lemma TransformCmpPreserves(e: Expr, env: Env)
    requires WellFormed(env) && e.Cmp?
    ensures Eval(TransformCmp(e), env) == Eval(e, env)
  {
    if TestsBool(e) {
      EqualsConstant(env, e.left, e.right);
      SettledValues(env, e.left);
    }
  }

  /** The pass keeps the value in every settled configuration. */
  lemma {:induction false} TransformedPreserves(e: Expr, env: Env)
    requires WellFormed(env)
    ensures Eval(Transformed(e), env) == Eval(e, env)
    decreases Weight(e)
  {
    hide WellFormed, TransformCmp;
    match e
    case Sym(_) =>
    case Cmp(_, _, _) => TransformCmpPreserves(e, env);
    case Bin(_, x, y) =>
      TransformedPreserves(x, env);
      TransformedPreserves(y, env);
    case Not(x) =>
      TransformedPreserves(x, env);
      match Transformed(x)
      case Not(y) => TransformedPreserves(y, env);
      case Bin(c, y, z) =>
        assert Weight(Not(y)) == 2 * Weight(y) && Weight(Not(z)) == 2 * Weight(z);
        TransformedPreserves(Bin(c.Dual(), Not(y), Not(z)), env);
      case Sym(s) => SettledValues(env, s);
      case Cmp(_, _, _) =>
  }

  // ----- expr_trans_compare -----

  function Flipped(ty: Relation): Relation {
    if ty == Equal then Unequal else Equal
  }

  /** `expr_trans_compare`: the expression that tests whether `e` has (`Equal`)
      or lacks (`Unequal`) the value of `sym`, which is `y` or `n`; the null
      expression is `None`. */
  function TransCompare(e: Expr, ty: Relation, sym: Symbol): Expr
    requires ty == Equal || ty == Unequal
    requires sym == SymYes || sym == SymNo
  {
    match e
    case Sym(s) => Cmp(ty, s, sym)
    case Not(x) => TransCompare(x, Flipped(ty), sym)
    case Cmp(_, _, _) => if (ty == Equal) == (sym == SymYes) then e else Not(e)
    case Bin(c, x, y) =>
      var op := if sym == SymYes then c else c.Dual();
      var both := Bin(op, TransCompare(x, Equal, sym), TransCompare(y, Equal, sym));
      if ty == Equal then both else Not(both)
  }

  function TransCompareNull(e: Option<Expr>, ty: Relation, sym: Symbol): Expr
    requires ty == Equal || ty == Unequal
    requires sym == SymYes || sym == SymNo
  {
    match e
    case Some(x) => TransCompare(x, ty, sym)
    case None => if ty == Equal then Sym(sym) else Not(Sym(sym))
  }

  /** Every operand standing alone is a bool or tristate symbol, or `y`, `m` or `n`. */
  predicate LogicOperands(e: Expr) {
    match e
    case Sym(s) => s.IsLogic() || IsLiteral(s)
    case Cmp(_, _, _) => true
    case Not(x) => LogicOperands(x)
    case Bin(_, x, y) => LogicOperands(x) && LogicOperands(y)
  }

  /** No negated operand has the value `m`. */
  predicate NegationsSharp(e: Expr, env: Env) {
    match e
    case Sym(_) => true
    case Cmp(_, _, _) => true
    case Not(x) => Eval(x, env) != MOD && NegationsSharp(x, env)
    case Bin(_, x, y) => NegationsSharp(x, env) && NegationsSharp(y, env)
  }

  lemma OperandAgainstLiteral(s: Symbol, k: Symbol, env: Env)
    requires WellFormed(env)
    requires s.IsLogic() || IsLiteral(s)
    requires k == SymYes || k == SymNo
    ensures env.cmp(s, k) == 0 <==> env.tri(s) == env.tri(k)
  {
    SettledValues(env, s);
    if s.IsLogic() {
      EqualsConstant(env, s, k);
    } else {
      var c: Configuration :| Settled(c) && Observes(env, c);
      LettersAreText();
      StrCmpZero(TextOf(c, s), TextOf(c, k));
    }
  }

  /** The comparison with `y` or `n` is correct wherever no negation is applied to `m`. */
  lemma {:induction false} TransCompareCorrect(e: Expr, ty: Relation, sym: Symbol, env: Env)
    requires WellFormed(env) && LogicOperands(e) && NegationsSharp(e, env)
    requires ty == Equal || ty == Unequal
    requires sym == SymYes || sym == SymNo
    ensures Eval(TransCompare(e, ty, sym), env) == Truth((Eval(e, env) == env.tri(sym)) == (ty == Equal))
  {
    hide WellFormed;
    SettledValues(env, sym);
    match e
    case Sym(s) => OperandAgainstLiteral(s, sym, env);
    case Cmp(_, _, _) =>
    case Not(x) => TransCompareCorrect(x, Flipped(ty), sym, env);
    case Bin(c, x, y) =>
      TransCompareCorrect(x, Equal, sym, env);
      TransCompareCorrect(y, Equal, sym, env);
  }

  /** For one negated symbol the comparison is right exactly when the symbol is not `m`. */
  lemma NegatedOperandExact(s: Symbol, ty: Relation, sym: Symbol, env: Env)
    requires WellFormed(env) && (s.IsLogic() || IsLiteral(s))
    requires ty == Equal || ty == Unequal
    requires sym == SymYes || sym == SymNo
    ensures Eval(TransCompare(Not(Sym(s)), ty, sym), env)
            == Truth((Eval(Not(Sym(s)), env) == env.tri(sym)) == (ty == Equal))
            <==> env.tri(s) != MOD
  {
    OperandAgainstLiteral(s, sym, env);
    SettledValues(env, sym);
  }
}
