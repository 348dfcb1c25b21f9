/** Joining two operands of one connective into a single equivalent operand. */
module Joins {
  import opened Symbols
  import opened Expressions

  predicate EqualityTest(e: Expr) {
    e.Cmp? && (e.rel == Equal || e.rel == Unequal)
  }

  /** The symbol a first operand is about, when it is a symbol or an (un)equality
      with at most one negation before it. */
  function Subject1(e: Expr): Option<Symbol> {
    match e
    case Sym(s) => Some(s)
    case Cmp(_, s, _) => if EqualityTest(e) then Some(s) else None
    case Not(x) => if x.Sym? then Some(x.sym) else if EqualityTest(x) then Some(x.left) else None
    case Bin(_, _, _) => None
  }

  /** The same for a second operand, which may be negated only as a symbol. */
  function Subject2(e: Expr): Option<Symbol> {
    match e
    case Sym(s) => Some(s)
    case Cmp(_, s, _) => if EqualityTest(e) then Some(s) else None
    case Not(x) => if x.Sym? then Some(x.sym) else None
    case Bin(_, _, _) => None
  }

  /** The bool or tristate symbol that both operands are about. */
  function CommonSubject(e1: Expr, e2: Expr): Option<Symbol> {
    var s1, s2 := Subject1(e1), Subject2(e2);
    if s1.Some? && s2.Some? && s1 == s2 && s1.value.IsLogic() then s1 else None
  }

  predicate Tests(e: Expr, rel: Relation, k: Symbol) {
    e.Cmp? && e.rel == rel && e.right == k
  }

  predicate TestEither(e1: Expr, e2: Expr, rel: Relation, k: Symbol, k': Symbol) {
    (Tests(e1, rel, k) && Tests(e2, rel, k')) || (Tests(e1, rel, k') && Tests(e2, rel, k))
  }

  predicate SymbolAndTest(e1: Expr, e2: Expr, rel: Relation, k: Symbol) {
    (e1.Sym? && Tests(e2, rel, k)) || (e2.Sym? && Tests(e1, rel, k))
  }

  /** The rules of `expr_join_or` for two operands about the symbol `s`. */
  function OrRule(s: Symbol, e1: Expr, e2: Expr): Option<Expr> {
    if s.Type() == STristate then
      if TestEither(e1, e2, Equal, SymYes, SymMod) then Some(Cmp(Unequal, s, SymNo))
      else if TestEither(e1, e2, Equal, SymYes, SymNo) then Some(Cmp(Unequal, s, SymMod))
      else if TestEither(e1, e2, Equal, SymMod, SymNo) then Some(Cmp(Unequal, s, SymYes))
      else None
    else if (e1 == Not(Sym(s)) && e2.Sym?) || (e2 == Not(Sym(s)) && e1.Sym?) then Some(Sym(SymYes))
    else None
  }

  /** `expr_join_or`. */
  function JoinOr(e1: Expr, e2: Expr): Option<Expr> {
    if ExprEq(e1, e2) then Some(e1)
    else
      match CommonSubject(e1, e2)
      case None => None
      case Some(s) => OrRule(s, e1, e2)
  }

  /** An equality and an inequality of one tristate symbol with two constants. */
  function JoinConstants(s: Symbol, equal: Symbol, unequal: Symbol): Option<Expr> {
    if !equal.IsConst() || !unequal.IsConst() then None
    else if equal != unequal then Some(Cmp(Equal, s, equal))
    else Some(Sym(SymNo))
  }

  /** The rules of `expr_join_and` for two operands about the symbol `s`. */
  function AndRule(s: Symbol, e1: Expr, e2: Expr): Option<Expr> {
    if SymbolAndTest(e1, e2, Equal, SymYes) then Some(Cmp(Equal, s, SymYes))
    else if SymbolAndTest(e1, e2, Unequal, SymNo) then Some(Sym(s))
    else if SymbolAndTest(e1, e2, Unequal, SymMod) then Some(Cmp(Equal, s, SymYes))
    else if s.Type() != STristate || !e1.Cmp? || !e2.Cmp? then None
    else if e1.rel == Equal && e2.rel == Unequal && JoinConstants(s, e1.right, e2.right).Some?
    then JoinConstants(s, e1.right, e2.right)
    else if e1.rel == Unequal && e2.rel == Equal && JoinConstants(s, e2.right, e1.right).Some?
    then JoinConstants(s, e2.right, e1.right)
    else if TestEither(e1, e2, Unequal, SymYes, SymNo) then Some(Cmp(Equal, s, SymMod))
    else if TestEither(e1, e2, Unequal, SymYes, SymMod) then Some(Cmp(Equal, s, SymNo))
    else if TestEither(e1, e2, Unequal, SymMod, SymNo) then Some(Cmp(Equal, s, SymYes))
    else None
  }

  /** `expr_join_and`. */
  function JoinAnd(e1: Expr, e2: Expr): Option<Expr> {
    if ExprEq(e1, e2) then Some(e1)
    else
      match CommonSubject(e1, e2)
      case None => None
      case Some(s) => AndRule(s, e1, e2)
  }

  function Join(c: Connective, e1: Expr, e2: Expr): Option<Expr> {
    if c.Conj? then JoinAnd(e1, e2) else JoinOr(e1, e2)
  }

  // ----- when operands are joined -----

  predicate IsName(k: Symbol) {
    k == SymYes || k == SymMod || k == SymNo
  }

  /** Two operands of `||` that say the same as one: a bool symbol and its negation,
      or two different tests of a tristate symbol for a value. */
  predicate OrPattern(x: Expr, y: Expr) {
    || (x.Sym? && x.sym.Type() == SBool && y == Not(x))
    || (x.Cmp? && y.Cmp? && x.rel == y.rel == Equal && x.left == y.left && x.left.Type() == STristate
        && IsName(x.right) && IsName(y.right) && x.right != y.right)
  }

  /** Two operands of `&&` that say the same as one: a symbol and a test that decides
      it, or two tests of a tristate symbol with constants, of which at least one is
      an inequality. */
  predicate AndPattern(x: Expr, y: Expr) {
    || (x.Sym? && x.sym.IsLogic()
        && (y == Cmp(Equal, x.sym, SymYes) || y == Cmp(Unequal, x.sym, SymNo) || y == Cmp(Unequal, x.sym, SymMod)))
    || (x.Cmp? && y.Cmp? && x.left == y.left && x.left.Type() == STristate && y.rel == Unequal
        && ((x.rel == Equal && x.right.IsConst() && y.right.IsConst())
            || (x.rel == Unequal && IsName(x.right) && IsName(y.right) && x.right != y.right)))
  }

  /** Two operands of one connective, in either order, that can do with one. */
  predicate Redundant(c: Connective, x: Expr, y: Expr) {
    || x == y || ExprEq(x, y)
    || (c.Conj? && (AndPattern(x, y) || AndPattern(y, x)))
    || (c.Disj? && (OrPattern(x, y) || OrPattern(y, x)))
  }

  /** Exactly these operands are joined. */
  lemma JoinsRedundant(c: Connective, x: Expr, y: Expr)
    ensures Join(c, x, y).Some? <==> Redundant(c, x, y)
  {
    hide ExprEq;
    if x == y { ExprEqReflexive(x); }
  }

  /** No tristate symbol is tested against a constant other than `y`, `m` and
      `n` that stands for a tristate value, such as `"1"`. */
  predicate NamesOnly(e: Expr) {
    match e
    case Sym(_) => true
    case Cmp(_, s, k) => s.Type() == STristate && k.Const? ==> Denotes(k) == -1
    case Not(x) => NamesOnly(x)
    case Bin(_, x, y) => NamesOnly(x) && NamesOnly(y)
  }

  lemma TestValue(e: Expr, env: Env)
    requires WellFormed(env) && EqualityTest(e) && e.left.IsLogic() && e.right.IsConst()
    ensures Eval(e, env) == Truth((env.tri(e.left) == Denotes(e.right)) == (e.rel == Equal))
  {
    EqualsConstant(env, e.left, e.right);
  }

  function LiteralValue(k: Symbol): int {
    if k == SymYes then 2 else if k == SymMod then 1 else if k == SymNo then 0 else -1
  }

  /** Against the names `y`, `m`, `n`, or any other constant for a tristate symbol. */
  lemma NameTestValue(s: Symbol, rel: Relation, k: Symbol, env: Env)
    requires WellFormed(env) && s.IsLogic() && k.IsConst() && (rel == Equal || rel == Unequal)
    requires !k.Const? || (s.Type() == STristate && NamesOnly(Cmp(rel, s, k)))
    ensures Eval(Cmp(rel, s, k), env) == Truth((env.tri(s) == LiteralValue(k)) == (rel == Equal))
  {
    TestValue(Cmp(rel, s, k), env);
  }

  lemma JoinOrSound(e1: Expr, e2: Expr, env: Env)
    requires WellFormed(env) && JoinOr(e1, e2).Some?
    ensures Eval(JoinOr(e1, e2).value, env) == Max(Eval(e1, env), Eval(e2, env))
  {
    if ExprEq(e1, e2) {
      ExprEqGrounded(e1, e2, env);
    } else {
      OrRuleSound(CommonSubject(e1, e2).value, e1, e2, env);
    }
  }

  lemma ExprEqGrounded(e1: Expr, e2: Expr, env: Env)
    requires WellFormed(env) && ExprEq(e1, e2)
    ensures Eval(e1, env) == Eval(e2, env)
  {
    SettledValues(env, SymYes);
    ExprEqSound(e1, e2, env);
  }

  lemma OrRuleSound(s: Symbol, e1: Expr, e2: Expr, env: Env)
    requires WellFormed(env) && s.IsLogic() && Subject1(e1) == Some(s) && Subject2(e2) == Some(s)
    requires OrRule(s, e1, e2).Some?
    ensures Eval(OrRule(s, e1, e2).value, env) == Max(Eval(e1, env), Eval(e2, env))
  {
    hide WellFormed, NamesOnly;
    SettledValues(env, s);
    if s.Type() == STristate {
      NameTestValue(s, Equal, e1.right, env);
      NameTestValue(s, Equal, e2.right, env);
      NameTestValue(s, Unequal, OrRule(s, e1, e2).value.right, env);
    }
  }

  /** Whether `equal` and `unequal`, being different constants, nevertheless
      stand for the same tristate value. */
  predicate Aliased(equal: Symbol, unequal: Symbol)
    requires equal.IsConst() && unequal.IsConst()
  {
    equal != unequal && Denotes(equal) == Denotes(unequal) >= 0
  }

  lemma JoinConstantsValue(s: Symbol, k: Symbol, k': Symbol, env: Env)
    requires WellFormed(env) && s.Type() == STristate
    requires k.IsConst() && k'.IsConst()
    ensures Eval(JoinConstants(s, k, k').value, env) == Min(Eval(Cmp(Equal, s, k), env), Eval(Cmp(Unequal, s, k'), env))
            <==> !(Aliased(k, k') && env.tri(s) == Denotes(k))
  {
    SettledValues(env, s);
    TestValue(Cmp(Equal, s, k), env);
    TestValue(Cmp(Unequal, s, k'), env);
  }

  /** The rule for two constants keeps the value in all settled configurations
      exactly when the constants are not two spellings of one tristate value. */
  lemma JoinConstantsExact(s: Symbol, k: Symbol, k': Symbol)
    requires s.Type() == STristate
    requires k.IsConst() && k'.IsConst()
    ensures Equivalent(JoinConstants(s, k, k').value, Bin(Conj, Cmp(Equal, s, k), Cmp(Unequal, s, k')))
            <==> !Aliased(k, k')
  {
    var joined, both := JoinConstants(s, k, k').value, Bin(Conj, Cmp(Equal, s, k), Cmp(Unequal, s, k'));
    forall env: Env | WellFormed(env)
      ensures Eval(joined, env) == Eval(both, env) <==> !(Aliased(k, k') && env.tri(s) == Denotes(k))
    {
      JoinConstantsValue(s, k, k', env);
    }
    if Aliased(k, k') {
      var env := TristateReaches(s, Denotes(k));
      assert Eval(joined, env) != Eval(both, env);
    }
  }

  /** `FOO="0" && FOO!=n` is rewritten to `FOO="0"`, which is `y` when FOO is `n`. */
  lemma NumericConstantBreaksJoin(s: Symbol)
    requires s.Type() == STristate
    ensures JoinAnd(Cmp(Equal, s, Const("0")), Cmp(Unequal, s, SymNo)) == Some(Cmp(Equal, s, Const("0")))
    ensures !Equivalent(Cmp(Equal, s, Const("0")), Bin(Conj, Cmp(Equal, s, Const("0")), Cmp(Unequal, s, SymNo)))
  {
    assert Denotes(Const("0")) == 0 by {
      assert DigitsEnd("0", 0, 8) == 1;
      assert DigitsValue("0", 0, 1, 8) == 0;
    }
    JoinConstantsExact(s, Const("0"), SymNo);
  }

  lemma JoinAndSound(e1: Expr, e2: Expr, env: Env)
    requires WellFormed(env) && JoinAnd(e1, e2).Some?
    requires NamesOnly(e1) && NamesOnly(e2)
    ensures Eval(JoinAnd(e1, e2).value, env) == Min(Eval(e1, env), Eval(e2, env))
  {
    if ExprEq(e1, e2) {
      ExprEqGrounded(e1, e2, env);
    } else if e1.Sym? || e2.Sym? {
      AndRuleSymbol(CommonSubject(e1, e2).value, e1, e2, env);
    } else {
      AndRuleTests(CommonSubject(e1, e2).value, e1, e2, env);
    }
  }

  lemma AndRuleSymbol(s: Symbol, e1: Expr, e2: Expr, env: Env)
    requires WellFormed(env) && s.IsLogic() && Subject1(e1) == Some(s) && Subject2(e2) == Some(s)
    requires AndRule(s, e1, e2).Some? && (e1.Sym? || e2.Sym?)
    ensures Eval(AndRule(s, e1, e2).value, env) == Min(Eval(e1, env), Eval(e2, env))
  {
    hide WellFormed, NamesOnly;
    var test := if e1.Sym? then e2 else e1;
    assert test.Cmp? && test.left == s && !test.right.Const?;
    NameTestValue(s, test.rel, test.right, env);
    NameTestValue(s, Equal, SymYes, env);
  }

  /** What a test of `s` amounts to when `s` has the value `t`. */
  function TestTruth(e: Expr, t: Tri): Tri {
    if e.Cmp? then Truth((t == LiteralValue(e.right)) == (e.rel == Equal)) else NO
  }

  lemma AndRuleTruth(s: Symbol, e1: Expr, e2: Expr, t: Tri)
    requires s.Type() == STristate && AndRule(s, e1, e2).Some?
    requires EqualityTest(e1) && EqualityTest(e2) && e1.right.IsConst() && e2.right.IsConst()
    ensures TestTruth(AndRule(s, e1, e2).value, t) == Min(TestTruth(e1, t), TestTruth(e2, t))
    ensures var j := AndRule(s, e1, e2).value;
      j == Sym(SymNo) || j == Cmp(Equal, s, e1.right) || j == Cmp(Equal, s, e2.right)
      || (EqualityTest(j) && j.left == s && LiteralValue(j.right) >= 0)
  {
  }

  lemma AndRuleTests(s: Symbol, e1: Expr, e2: Expr, env: Env)
    requires WellFormed(env) && s.IsLogic() && Subject1(e1) == Some(s) && Subject2(e2) == Some(s)
    requires AndRule(s, e1, e2).Some? && !e1.Sym? && !e2.Sym?
    requires NamesOnly(e1) && NamesOnly(e2)
    ensures Eval(AndRule(s, e1, e2).value, env) == Min(Eval(e1, env), Eval(e2, env))
  {
    hide WellFormed;
    SettledValues(env, s);
    var t := env.tri(s);
    assert Eval(e1, env) == TestTruth(e1, t) by { NameTestValue(s, e1.rel, e1.right, env); }
    assert Eval(e2, env) == TestTruth(e2, t) by { NameTestValue(s, e2.rel, e2.right, env); }
    AndRuleTruth(s, e1, e2, t);
    var j := AndRule(s, e1, e2).value;
    if j.Cmp? {
      assert Eval(j, env) == TestTruth(j, t) by { NameTestValue(s, j.rel, j.right, env); }
    }
  }

  lemma JoinShape(c: Connective, e1: Expr, e2: Expr)
    requires Join(c, e1, e2).Some?
    ensures Size(Join(c, e1, e2).value) + 1 <= Size(e1) + Size(e2)
    ensures !e1.IsBin(c) ==> !Join(c, e1, e2).value.IsBin(c)
  {
    hide ExprEq, CommonSubject;
  }

  lemma JoinNames(c: Connective, e1: Expr, e2: Expr)
    requires Join(c, e1, e2).Some? && NamesOnly(e1) && NamesOnly(e2)
    ensures NamesOnly(Join(c, e1, e2).value)
  {
    hide ExprEq, Denotes;
  }

  /** A join keeps the value and the discipline on constants where that is
      observed, and together with the literal that replaces the other operand it
      is no larger. */
  lemma JoinSound(c: Connective, e1: Expr, e2: Expr)
    requires Join(c, e1, e2).Some?
    ensures NamesOnly(e1) && NamesOnly(e2) ==>
      Equivalent(Join(c, e1, e2).value, Bin(c, e1, e2)) && NamesOnly(Join(c, e1, e2).value)
    ensures Size(Join(c, e1, e2).value) + 1 <= Size(e1) + Size(e2)
    ensures !e1.IsBin(c) ==> !Join(c, e1, e2).value.IsBin(c)
  {
    hide JoinAnd, JoinOr, NamesOnly, WellFormed;
    JoinShape(c, e1, e2);
    if NamesOnly(e1) && NamesOnly(e2) {
      JoinNames(c, e1, e2);
      forall env: Env | WellFormed(env)
        ensures Eval(Join(c, e1, e2).value, env) == Eval(Bin(c, e1, e2), env)
      {
        if c.Conj? { JoinAndSound(e1, e2, env); } else { JoinOrSound(e1, e2, env); }
      }
    }
  }
}
