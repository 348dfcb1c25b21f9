/** Dependency expressions of menu entries, and the test that puts an entry into
    the submenu of a preceding symbol. */
module Submenus {
  import opened Symbols
  import opened Expressions
  import opened Transform
  import opened Joins
  import opened Duplicates
  import opened Canonical
  import opened SymbolEquations

  // ----- nullable expressions -----

  /** The null expression counts as `y`. */
  function ValueOf(e: Option<Expr>, env: Env): Tri {
    if e.Some? then Eval(e.value, env) else YES
  }

  /** `expr_alloc_and`. */
  function AllocAnd(e1: Option<Expr>, e2: Option<Expr>): Option<Expr> {
    if e1.None? then e2 else if e2.None? then e1 else Some(Bin(Conj, e1.value, e2.value))
  }

  predicate NamesOnlyOpt(e: Option<Expr>) {
    e.Some? ==> NamesOnly(e.value)
  }

  // ----- rewrite_m -----

  /** Every bare `m` becomes `m && MODULES`. */
  function RewriteM(e: Expr, modules: Symbol): Expr {
    match e
    case Sym(s) => if s == SymMod then Bin(Conj, e, Sym(modules)) else e
    case Cmp(_, _, _) => e
    case Not(x) => Not(RewriteM(x, modules))
    case Bin(c, x, y) => Bin(c, RewriteM(x, modules), RewriteM(y, modules))
  }

  function RewriteMOpt(e: Option<Expr>, modules: Symbol): Option<Expr> {
    if e.Some? then Some(RewriteM(e.value, modules)) else None
  }

  /** The environment in which `m` is no more than the modules symbol. */
  ghost function WithoutModules(env: Env, modules: Symbol): Env {
    Env(s => BoundedTri(env, modules, s), env.cmp)
  }

  ghost function BoundedTri(env: Env, modules: Symbol, s: Symbol): Tri {
    if s == SymMod then Min(env.tri(SymMod), env.tri(modules)) else env.tri(s)
  }

  /** The rewritten expression has the value the original would have if `m` were
      bounded by the modules symbol; with modules enabled nothing changes. */
  lemma {:induction false} RewriteMMeaning(e: Expr, modules: Symbol, env: Env)
    ensures Eval(RewriteM(e, modules), env) == Eval(e, WithoutModules(env, modules))
  {
    match e
    case Sym(_) =>
    case Cmp(_, _, _) =>
    case Not(x) => RewriteMMeaning(x, modules, env);
    case Bin(_, x, y) =>
      RewriteMMeaning(x, modules, env);
      RewriteMMeaning(y, modules, env);
  }

  lemma {:induction false} RewriteMNames(e: Expr, modules: Symbol)
    ensures NamesOnly(RewriteM(e, modules)) == NamesOnly(e)
  {
    match e
    case Sym(_) =>
    case Cmp(_, _, _) =>
    case Not(x) => RewriteMNames(x, modules);
    case Bin(_, x, y) =>
      RewriteMNames(x, modules);
      RewriteMNames(y, modules);
  }

  lemma {:induction false} TransformedNames(e: Expr)
    requires NamesOnly(e)
    ensures NamesOnly(Transformed(e))
    decreases Weight(e)
  {
    match e
    case Sym(_) =>
    case Cmp(_, _, _) =>
    case Bin(_, x, y) =>
      TransformedNames(x);
      TransformedNames(y);
    case Not(x) =>
      TransformedNames(x);
      match Transformed(x)
      case Not(y) => TransformedNames(y);
      case Bin(c, y, z) =>
        assert Weight(Not(y)) == 2 * Weight(y) && Weight(Not(z)) == 2 * Weight(z);
        TransformedNames(Bin(c.Dual(), Not(y), Not(z)));
      case _ =>
  }

  /** A condition as it is written: only bool and tristate symbols, `y`, `m` and
      `n` stand alone. */
  predicate Plain(e: Option<Expr>) {
    e.Some? ==> LogicOperands(e.value) && NamesOnly(e.value)
  }

  /** A condition in the form that the passes leave it in. */
  predicate Proper(e: Option<Expr>) {
    e.Some? ==> Regular(true, e.value) && NamesOnly(e.value)
  }

  predicate NormalOpt(e: Option<Expr>) {
    e.Some? ==> Normal(e.value)
  }

  predicate LogicModules(modules: Symbol) {
    modules.IsLogic() || IsLiteral(modules)
  }

  lemma {:induction false} RewriteMLogic(e: Expr, modules: Symbol)
    requires LogicOperands(e) && LogicModules(modules)
    ensures LogicOperands(RewriteM(e, modules))
  {
    match e
    case Sym(_) =>
    case Cmp(_, _, _) =>
    case Not(x) => RewriteMLogic(x, modules);
    case Bin(_, x, y) =>
      RewriteMLogic(x, modules);
      RewriteMLogic(y, modules);
  }

  lemma {:induction false} TransformedLogic(e: Expr)
    requires LogicOperands(e)
    ensures LogicOperands(Transformed(e))
    decreases Weight(e)
  {
    match e
    case Sym(_) =>
    case Cmp(_, _, _) =>
    case Bin(_, x, y) =>
      TransformedLogic(x);
      TransformedLogic(y);
    case Not(x) =>
      TransformedLogic(x);
      match Transformed(x)
      case Not(y) => TransformedLogic(y);
      case Bin(c, y, z) =>
        assert Weight(Not(y)) == 2 * Weight(y) && Weight(Not(z)) == 2 * Weight(z);
        TransformedLogic(Bin(c.Dual(), Not(y), Not(z)));
      case _ =>
  }

  lemma TransformedProper(e: Expr)
    requires LogicOperands(e) && NamesOnly(e)
    ensures Proper(Some(Transformed(e)))
  {
    TransformedLogic(e);
    TransformedIsNormal(e);
    TransformedNames(e);
  }

  /** `expr_eliminate_dups` as a function of a possibly null expression. */
  method Deduplicate(e: Option<Expr>) returns (r: Option<Expr>)
    ensures r.None? <==> e.None?
    ensures (Proper(e) ==> Proper(r)) && (NormalOpt(e) ==> NormalOpt(r))
    ensures e.Some? && Irredundant(e.value) ==> r == e
    ensures NamesOnlyOpt(e) ==>
      NamesOnlyOpt(r) && forall env: Env :: WellFormed(env) ==> ValueOf(r, env) == ValueOf(e, env)
  {
    if e.None? {
      return None;
    }
    hide Regular, Irredundant, Quiescent, NamesOnly;
    var reducer := new Reducer(e.value);
    reducer.EliminateDups();
    r := Some(reducer.root);
    RegularIsNormal(e.value);
    RegularIsNormal(reducer.root);
  }

  lemma RegularIsNormal(e: Expr)
    ensures Regular(false, e) <==> Normal(e)
  {
  }

  /** `d` is the minimum of the inherited condition and the entry's own with `m`
      rewritten, and proper if the inherited one is. */
  ghost predicate Inherited(d: Option<Expr>, outer: Option<Expr>, own: Option<Expr>, modules: Symbol) {
    && (NamesOnlyOpt(outer) && NamesOnlyOpt(own) ==> NamesOnlyOpt(d) && SameVisibility(d, outer, own, modules))
    && (Proper(outer) && Plain(own) && LogicModules(modules) ==> Proper(d))
    && (NormalOpt(outer) ==> NormalOpt(d))
  }

  ghost predicate SameVisibility(d: Option<Expr>, outer: Option<Expr>, own: Option<Expr>, modules: Symbol) {
    forall env: Env :: WellFormed(env) ==>
      ValueOf(d, env) == Min(ValueOf(outer, env), ValueOf(own, WithoutModules(env, modules)))
  }

  /** The condition of an entry or of one of its properties, once the dependency
      it inherits is added. */
  method Inherit(outer: Option<Expr>, own: Option<Expr>, modules: Symbol) returns (r: Option<Expr>)
    ensures Inherited(r, outer, own, modules)
  {
    var base := RewriteMOpt(own, modules);
    if base.Some? {
      base := Some(Transformed(base.value));
    }
    var both := AllocAnd(outer, base);
    if Proper(outer) && Plain(own) && LogicModules(modules) { CombinedProper(outer, own, modules); }
    assert NormalOpt(outer) ==> NormalOpt(both) by {
      if own.Some? { TransformedIsNormal(RewriteM(own.value, modules)); }
    }
    hide Proper, Plain, Normal;
    r := Deduplicate(both);
    if NamesOnlyOpt(outer) && NamesOnlyOpt(own) {
      if own.Some? {
        RewriteMNames(own.value, modules);
        TransformedNames(RewriteM(own.value, modules));
      }
      forall env: Env | WellFormed(env)
        ensures ValueOf(both, env) == Min(ValueOf(outer, env), ValueOf(own, WithoutModules(env, modules)))
      {
        if own.Some? {
          TransformedPreserves(RewriteM(own.value, modules), env);
          RewriteMMeaning(own.value, modules, env);
        }
      }
    }
  }

  lemma CombinedProper(outer: Option<Expr>, own: Option<Expr>, modules: Symbol)
    requires Proper(outer) && Plain(own) && LogicModules(modules)
    ensures var base := RewriteMOpt(own, modules);
      Proper(AllocAnd(outer, if base.Some? then Some(Transformed(base.value)) else None))
  {
    if own.Some? {
      RewriteMNames(own.value, modules);
      RewriteMLogic(own.value, modules);
      TransformedProper(RewriteM(own.value, modules));
    }
  }

  /** `expr_trans_bool`: a test of a tristate symbol against `n` becomes the symbol. */
  function TransBool(e: Expr): Expr {
    match e
    case Bin(c, x, y) => Bin(c, TransBool(x), TransBool(y))
    case Not(x) => Not(TransBool(x))
    case Cmp(rel, s, t) => if rel == Unequal && s.Type() == STristate && t == SymNo then Sym(s) else e
    case Sym(_) => e
  }

  function TransBoolOpt(e: Option<Expr>): Option<Expr> {
    if e.Some? then Some(TransBool(e.value)) else None
  }

  /** On a normal expression this loses the difference between `m` and `y` only. */
  lemma {:induction false} TransBoolVisible(e: Expr, env: Env)
    requires WellFormed(env) && Normal(e)
    ensures Eval(TransBool(e), env) <= Eval(e, env)
    ensures Eval(TransBool(e), env) != NO <==> Eval(e, env) != NO
  {
    match e
    case Sym(_) =>
    case Not(x) =>
    case Cmp(rel, s, t) =>
      if rel == Unequal && s.Type() == STristate && t == SymNo {
        SettledValues(env, s);
        OperandAgainstLiteral(s, SymNo, env);
      }
    case Bin(_, x, y) =>
      TransBoolVisible(x, env);
      TransBoolVisible(y, env);
  }

  /** Some tristate symbol is tested for not being `n`. */
  predicate TestsNotNo(e: Expr) {
    match e
    case Sym(_) => false
    case Cmp(rel, s, t) => rel == Unequal && s.Type() == STristate && t == SymNo
    case Not(x) => TestsNotNo(x)
    case Bin(_, x, y) => TestsNotNo(x) || TestsNotNo(y)
  }

  /** No such test is left, and expressions without one are left alone. */
  lemma {:induction false} TransBoolExact(e: Expr)
    ensures !TestsNotNo(TransBool(e)) && (!TestsNotNo(e) ==> TransBool(e) == e)
  {
    match e
    case Sym(_) =>
    case Cmp(_, _, _) =>
    case Not(x) => TransBoolExact(x);
    case Bin(_, x, y) =>
      TransBoolExact(x);
      TransBoolExact(y);
  }

  lemma {:induction false} TransBoolProper(e: Expr)
    requires Regular(true, e) && NamesOnly(e)
    ensures Regular(true, TransBool(e)) && NamesOnly(TransBool(e))
  {
    if e.Bin? {
      TransBoolProper(e.l);
      TransBoolProper(e.r);
    }
  }

  // ----- submenu placement -----

  predicate ContainsSymbol(e: Expr, s: Symbol) {
    match e
    case Sym(t) => t == s
    case Cmp(_, t, u) => t == s || u == s
    case Not(x) => ContainsSymbol(x, s)
    case Bin(_, x, y) => ContainsSymbol(x, s) || ContainsSymbol(y, s)
  }

  /** `expr_depends_symbol`: the expression can hold only if the symbol does. */
  predicate DependsSymbol(e: Expr, s: Symbol) {
    match e
    case Sym(t) => t == s
    case Bin(c, x, y) => c.Conj? && (DependsSymbol(x, s) || DependsSymbol(y, s))
    case Cmp(rel, t, k) => t == s && if rel == Equal then k == SymYes || k == SymMod else rel == Unequal && k == SymNo
    case Not(_) => false
  }

  lemma {:induction false} ContainsMentions(e: Expr, s: Symbol)
    ensures ContainsSymbol(e, s) <==> s in Mentions(e)
  {
    match e
    case Sym(_) =>
    case Cmp(_, _, _) =>
    case Not(x) => ContainsMentions(x, s);
    case Bin(_, x, y) =>
      ContainsMentions(x, s);
      ContainsMentions(y, s);
  }

  /** An operand that holds only if the symbol is set: `s`, `s=y`, `s=m` or `s!=n`. */
  predicate Requires(x: Expr, s: Symbol) {
    x == Sym(s) || x == Cmp(Equal, s, SymYes) || x == Cmp(Equal, s, SymMod) || x == Cmp(Unequal, s, SymNo)
  }

  ghost predicate HasRequirement(e: Expr, s: Symbol) {
    exists q: Path :: Operand(Conj, e, q) && Requires(At(e, q), s)
  }

  /** The expression depends on the symbol exactly when one of the operands of its
      outermost `&&` chain requires it. */
  lemma {:induction false} DependsExactly(e: Expr, s: Symbol)
    ensures DependsSymbol(e, s) <==> HasRequirement(e, s)
  {
    if e.IsBin(Conj) {
      DependsExactly(e.l, s);
      DependsExactly(e.r, s);
      if q: Path :| Operand(Conj, e, q) && Requires(At(e, q), s) {
        assert q != [];
        assert Operand(Conj, Child(e, q[0]), q[1..]) && At(Child(e, q[0]), q[1..]) == At(e, q);
      }
      if HasRequirement(e.l, s) { RequirementIn(e, false, s); }
      if HasRequirement(e.r, s) { RequirementIn(e, true, s); }
    } else if Requires(e, s) {
      var q: Path := [];
      assert Operand(Conj, e, q) && At(e, q) == e;
    } else {
      forall q: Path | Operand(Conj, e, q) ensures At(e, q) == e { assert q == []; }
    }
  }

  lemma RequirementIn(e: Expr, right: bool, s: Symbol)
    requires e.IsBin(Conj) && HasRequirement(Child(e, right), s)
    ensures HasRequirement(e, s)
  {
    var q: Path :| Operand(Conj, Child(e, right), q) && Requires(At(Child(e, right), q), s);
    var p: Path := [right] + q;
    assert p[1..] == q;
    assert Operand(Conj, e, p) && At(e, p) == At(Child(e, right), q);
  }

  lemma {:induction false} DependsSound(e: Expr, s: Symbol, env: Env)
    requires WellFormed(env) && s.IsLogic() && DependsSymbol(e, s) && Eval(e, env) != NO
    ensures env.tri(s) != NO
  {
    match e
    case Sym(_) =>
    case Cmp(rel, t, k) => EqualsConstant(env, t, k);
    case Bin(_, x, y) =>
      if DependsSymbol(x, s) { DependsSound(x, s, env); } else { DependsSound(y, s, env); }
  }

  /** Without any condition on the configuration, the comparison with `n` of a
      normal expression errs on one side only. */
  lemma {:induction false} TransCompareUnder(e: Expr, ty: Relation, env: Env)
    requires WellFormed(env) && LogicOperands(e) && Normal(e) && (ty == Equal || ty == Unequal)
    ensures Eval(TransCompare(e, ty, SymNo), env) != MOD
    ensures Eval(TransCompare(e, ty, SymNo), env) == Truth(ty == Unequal) ==> Eval(e, env) != NO
  {
    SettledValues(env, SymNo);
    match e
    case Sym(s) => OperandAgainstLiteral(s, SymNo, env);
    case Cmp(_, _, _) =>
    case Not(x) => OperandAgainstLiteral(x.sym, SymNo, env);
    case Bin(_, x, y) =>
      TransCompareUnder(x, Equal, env);
      TransCompareUnder(y, Equal, env);
  }

  lemma {:induction false} TransCompareNames(e: Expr, ty: Relation, sym: Symbol)
    requires NamesOnly(e) && (ty == Equal || ty == Unequal) && (sym == SymYes || sym == SymNo)
    ensures NamesOnly(TransCompare(e, ty, sym))
  {
    match e
    case Sym(_) =>
    case Cmp(_, _, _) =>
    case Not(x) => TransCompareNames(x, Flipped(ty), sym);
    case Bin(_, x, y) =>
      TransCompareNames(x, Equal, sym);
      TransCompareNames(y, Equal, sym);
  }

  /** No symbol that the condition negates is `m`. */
  predicate Sharp(e: Option<Expr>, env: Env) {
    e.Some? ==> NegationsSharp(e.value, env)
  }

  /** The condition "`e` is not `n`", normalised. */
  function NotNoForm(e: Option<Expr>): Expr {
    Transformed(TransCompareNull(e, Unequal, SymNo))
  }

  /** It never holds wrongly, and it holds whenever it should unless `e` negates a
      symbol that is `m`. */
  lemma NotNoFormMeaning(e: Option<Expr>)
    requires Proper(e)
    ensures NamesOnly(NotNoForm(e))
    ensures forall env: Env :: WellFormed(env) && Eval(NotNoForm(e), env) == YES ==> ValueOf(e, env) != NO
    ensures forall env: Env :: WellFormed(env) && Sharp(e, env) && ValueOf(e, env) != NO ==>
      Eval(NotNoForm(e), env) == YES
  {
    var t := TransCompareNull(e, Unequal, SymNo);
    if e.Some? { TransCompareNames(e.value, Unequal, SymNo); }
    TransformedNames(t);
    forall env: Env | WellFormed(env)
      ensures Eval(NotNoForm(e), env) == YES ==> ValueOf(e, env) != NO
      ensures Sharp(e, env) && ValueOf(e, env) != NO ==> Eval(NotNoForm(e), env) == YES
    {
      SettledValues(env, SymNo);
      TransformedPreserves(t, env);
      if e.Some? {
        TransCompareUnder(e.value, Unequal, env);
        if Sharp(e, env) { TransCompareCorrect(e.value, Unequal, SymNo, env); }
      }
    }
  }

  /** The same without operands that could be joined. */
  method NotNo(e: Option<Expr>) returns (r: Expr)
    ensures Proper(e) ==> forall env: Env :: WellFormed(env) ==> Eval(r, env) == Eval(NotNoForm(e), env)
    ensures Irredundant(NotNoForm(e)) ==> r == NotNoForm(e)
  {
    hide Irredundant, Proper;
    var d := Deduplicate(Some(Transformed(TransCompareNull(e, Unequal, SymNo))));
    r := d.value;
    if Proper(e) {
      NotNoFormMeaning(e);
      forall env: Env | WellFormed(env) ensures Eval(r, env) == Eval(NotNoForm(e), env) {
        assert ValueOf(d, env) == ValueOf(Some(NotNoForm(e)), env);
      }
    }
  }

  /** An entry with condition `dep` is rightly in the submenu of `sym`: it can be
      visible only if the symbol is set, or only if the prompt of the symbol is
      visible; the latter in every configuration where no symbol negated in `dep`
      is `m`. */
  ghost predicate Placed(sym: Symbol, prompt: Option<Expr>, dep: Option<Expr>) {
    && dep.Some? && ContainsSymbol(dep.value, sym)
    && (sym.IsLogic() && Proper(prompt) && Proper(dep) ==>
          || (forall env: Env :: WellFormed(env) && Eval(dep.value, env) != NO ==> env.tri(sym) != NO)
          || (forall env: Env :: WellFormed(env) && Sharp(dep, env) && Eval(dep.value, env) != NO ==>
            ValueOf(prompt, env) != NO))
  }

  /** An entry that does not mention the symbol is refused, one that depends on it
      belongs, and of the others those belong whose condition has all operands that
      the prompt has, which is said here for conditions without joinable operands. */
  ghost predicate Decided(sym: Symbol, prompt: Option<Expr>, dep: Option<Expr>, belongs: bool) {
    if dep.None? || !ContainsSymbol(dep.value, sym) then !belongs
    else if DependsSymbol(dep.value, sym) then belongs
    else Irredundant(NotNoForm(dep)) && Irredundant(NotNoForm(prompt)) ==>
      belongs == (EliminateEq(NotNoForm(dep), NotNoForm(prompt)).1 == Sym(SymYes))
  }

  /** Whether the entry with condition `dep` goes into the submenu of `sym`, whose
      prompt has the condition `prompt`. */
  method BelongsUnder(sym: Symbol, prompt: Option<Expr>, dep: Option<Expr>) returns (belongs: bool)
    ensures belongs ==> Placed(sym, prompt, dep)
    ensures Decided(sym, prompt, dep, belongs)
  {
    hide Irredundant, Proper, NotNoForm;
    if dep.None? || !ContainsSymbol(dep.value, sym) {
      return false;
    }
    if DependsSymbol(dep.value, sym) {
      forall env: Env | WellFormed(env) && Eval(dep.value, env) != NO && sym.IsLogic()
        ensures env.tri(sym) != NO
      {
        DependsSound(dep.value, sym, env);
      }
      return true;
    }
    var base := NotNo(prompt);
    var cond := NotNo(dep);
    var residue := EliminateEq(cond, base);
    belongs := residue.1 == Sym(SymYes);
    if belongs && Proper(prompt) && Proper(dep) {
      NotNoFormMeaning(prompt);
      NotNoFormMeaning(dep);
      forall env: Env | WellFormed(env) && Sharp(dep, env) && Eval(dep.value, env) != NO
        ensures ValueOf(prompt, env) != NO
      {
        SettledValues(env, SymYes);
        EliminateEqSuperset(cond, base, env);
      }
    }
  }

  /** An entry that mentions the symbol without depending on it goes below it exactly
      when all operands of the prompt's condition are among those of its own. */
  lemma PlacedByOperands(sym: Symbol, prompt: Option<Expr>, dep: Option<Expr>, belongs: bool)
    requires Decided(sym, prompt, dep, belongs)
    requires dep.Some? && ContainsSymbol(dep.value, sym) && !DependsSymbol(dep.value, sym)
    requires Irredundant(NotNoForm(dep)) && Clean(NotNoForm(dep)) && NotNoForm(dep).IsBin(Conj)
    requires Irredundant(NotNoForm(prompt)) && Clean(NotNoForm(prompt))
    requires !NotNoForm(prompt).IsBin(Disj) && !NotNoForm(prompt).IsYn()
    ensures belongs <==> OperandsOf(Conj, NotNoForm(prompt)) <= OperandsOf(Conj, NotNoForm(dep))
  {
    hide Irredundant, NotNoForm;
    ResidueExact(NotNoForm(dep), NotNoForm(prompt));
  }

  lemma DoubleNegation(s: Symbol)
    requires s.Config?
    ensures Transformed(Not(Not(Sym(s)))) == Sym(s)
  {
    assert Transformed(Sym(s)) == Sym(s);
    assert Transformed(Not(Sym(s))) == Not(Sym(s));
  }

  lemma EntryAgainstNo(a: Symbol, s: Symbol, q: Symbol)
    requires a.Type() == STristate && s.Type() == SBool && q.Type() == SBool && s.Config? && q.Config?
    ensures Transformed(TransCompare(Bin(Conj, Not(Sym(a)), Bin(Disj, Sym(s), Sym(q))), Unequal, SymNo))
         == Bin(Conj, Cmp(Equal, a, SymNo), Bin(Disj, Sym(s), Sym(q)))
  {
    var dep := TransCompare(Bin(Conj, Not(Sym(a)), Bin(Disj, Sym(s), Sym(q))), Unequal, SymNo);
    assert dep == Not(Bin(Disj, Cmp(Unequal, a, SymNo), Bin(Conj, Cmp(Equal, s, SymNo), Cmp(Equal, q, SymNo)))) by {
      assert TransCompare(Not(Sym(a)), Equal, SymNo) == Cmp(Unequal, a, SymNo);
      assert TransCompare(Bin(Disj, Sym(s), Sym(q)), Equal, SymNo)
        == Bin(Conj, Cmp(Equal, s, SymNo), Cmp(Equal, q, SymNo));
    }
    hide TransCompare;
    var none := Bin(Conj, Not(Sym(s)), Not(Sym(q)));
    assert Transformed(Bin(Conj, Cmp(Equal, s, SymNo), Cmp(Equal, q, SymNo))) == none;
    assert Transformed(Bin(Disj, Not(Not(Sym(s))), Not(Not(Sym(q))))) == Bin(Disj, Sym(s), Sym(q)) by {
      DoubleNegation(s);
      DoubleNegation(q);
    }
    assert Transformed(Not(none)) == Bin(Disj, Sym(s), Sym(q)) by {
      NormalIsFixed(none);
    }
    assert Transformed(Not(Cmp(Unequal, a, SymNo))) == Cmp(Equal, a, SymNo);
    assert Transformed(dep) == Transformed(Bin(Conj, Not(Cmp(Unequal, a, SymNo)), Not(none)));
  }

  lemma CancelSame(test: Expr)
    requires test.Cmp?
    ensures Cancel(Conj, test, test) == (Sym(SymYes), Sym(SymYes))
  {
  }

  lemma CancelNothing(s: Symbol, q: Symbol)
    ensures Cancel(Conj, Bin(Disj, Sym(s), Sym(q)), Sym(SymYes)).1 == Sym(SymYes)
  {
  }

  lemma CancelFirst(test: Expr, either: Expr)
    requires test.Cmp?
    ensures Cancel(Conj, Bin(Conj, test, either), test).1 == Cancel(Conj, either, Cancel(Conj, test, test).1).1
  {
    hide ExprEq;
  }

  lemma EntryCoversPrompt(a: Symbol, s: Symbol, q: Symbol)
    requires a.Type() == STristate
    ensures EliminateEq(Bin(Conj, Cmp(Equal, a, SymNo), Bin(Disj, Sym(s), Sym(q))), Cmp(Equal, a, SymNo)).1
      == Sym(SymYes)
  {
    var test, either := Cmp(Equal, a, SymNo), Bin(Disj, Sym(s), Sym(q));
    hide Cancel, ExprEq;
    CancelSame(test);
    CancelNothing(s, q);
    CancelFirst(test, either);
  }

  /** With a negated symbol at `m` the second guarantee fails: an entry that
      depends on `!A && (S || Q)` goes into the submenu of S although the prompt
      condition of S is `A=n`, and while A is `m` and Q is `y` the entry is visible
      and the prompt is not. */
  method ModuleBreaksSuperset(a: Symbol, s: Symbol, q: Symbol) returns (belongs: bool, ghost env: Env)
    requires a == Config(0, STristate) && s == Config(1, SBool) && q == Config(2, SBool)
    ensures var dep, prompt := Bin(Conj, Not(Sym(a)), Bin(Disj, Sym(s), Sym(q))), Cmp(Equal, a, SymNo);
      && Proper(Some(dep)) && Proper(Some(prompt)) && belongs
      && WellFormed(env) && Eval(dep, env) != NO && Eval(prompt, env) == NO
  {
    hide EliminateEq, Transformed, TransCompare, Eval, WellFormed, Irredundant;
    var dep, prompt := Bin(Conj, Not(Sym(a)), Bin(Disj, Sym(s), Sym(q))), Cmp(Equal, a, SymNo);
    EntryAgainstNo(a, s, q);
    EntryCoversPrompt(a, s, q);
    EntryQuiescent(a, s, q);
    PromptAgainstNo(a);
    EntryMentions(a, s, q);
    belongs := BelongsUnder(s, Some(prompt), Some(dep));
    env := OneModule(a, q);
    EntryShows(a, s, q, env);
  }

  lemma EntryMentions(a: Symbol, s: Symbol, q: Symbol)
    requires a != s
    ensures var dep := Bin(Conj, Not(Sym(a)), Bin(Disj, Sym(s), Sym(q)));
      ContainsSymbol(dep, s) && !DependsSymbol(dep, s)
  {
    assert ContainsSymbol(Bin(Disj, Sym(s), Sym(q)), s);
  }

  /** Neither the entry's condition nor the prompt's has operands to join. */
  lemma EntryQuiescent(a: Symbol, s: Symbol, q: Symbol)
    requires a.Type() == STristate && s.Type() == SBool && q.Type() == SBool && s != q
    ensures Irredundant(Cmp(Equal, a, SymNo))
    ensures Irredundant(Bin(Conj, Cmp(Equal, a, SymNo), Bin(Disj, Sym(s), Sym(q))))
  {
    hide Irredundant;
    var test, either := Cmp(Equal, a, SymNo), Bin(Disj, Sym(s), Sym(q));
    TwoQuiescent(Disj, Sym(s), Sym(q));
    TwoQuiescent(Conj, test, either);
    QuiescentIsIrredundant(test);
    QuiescentIsIrredundant(Bin(Conj, test, either));
  }

  /** Two operands that cannot be joined either way, each without joinable operands. */
  lemma TwoQuiescent(c: Connective, x: Expr, y: Expr)
    requires !x.IsBin(c) && !y.IsBin(c) && Quiescent(x) && Quiescent(y)
    requires Join(c, x, y) == None && Join(c, y, x) == None
    ensures Quiescent(Bin(c, x, y))
  {
    hide Join;
    var e := Bin(c, x, y);
    forall q: Path | Operand(c, e, q) ensures (q == [false] && At(e, q) == x) || (q == [true] && At(e, q) == y) {
      assert q != [];
      assert OnSpine(c, Child(e, q[0]), q[1..]);
      assert q[1..] == [];
      assert q == [q[0]];
    }
  }

  lemma EntryShows(a: Symbol, s: Symbol, q: Symbol, env: Env)
    requires env.tri(a) == MOD && env.tri(q) == YES && env.cmp(a, SymNo) != 0
    ensures Eval(Bin(Conj, Not(Sym(a)), Bin(Disj, Sym(s), Sym(q))), env) != NO && Eval(Cmp(Equal, a, SymNo), env) == NO
  {
    var no, either := Not(Sym(a)), Bin(Disj, Sym(s), Sym(q));
    assert Eval(Sym(a), env) == MOD && Eval(Sym(q), env) == YES;
    assert Eval(no, env) == MOD;
    assert Eval(either, env) == Max(Eval(Sym(s), env), YES) == YES;
    assert Eval(Bin(Conj, no, either), env) == Min(MOD, YES);
  }

  lemma PromptAgainstNo(a: Symbol)
    requires a.Type() == STristate
    ensures Transformed(TransCompare(Cmp(Equal, a, SymNo), Unequal, SymNo)) == Cmp(Equal, a, SymNo)
  {
  }

  lemma OneModule(a: Symbol, q: Symbol) returns (env: Env)
    requires a == Config(0, STristate) && q == Config(2, SBool)
    ensures WellFormed(env) && env.tri(a) == MOD && env.tri(q) == YES && env.cmp(a, SymNo) != 0
  {
    var c := Configuration(YES, (x: Symbol) => if x == a then MOD else if x == q then YES else NO, x => "");
    env := EnvOf(c);
    assert Settled(c) && Observes(env, c);
    EqualsConstant(env, a, SymNo);
    SettledValues(env, SymNo);
  }
}
