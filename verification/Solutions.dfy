/** On an acyclic graph the equations have exactly one solution. */
module Solutions {
  import opened Symbols
  import opened Expressions
  import opened SymbolEquations
  import opened EvaluationState

  /** Two assignments with their modules values give the symbols in `ss` the same reading. */
  ghost predicate Agree(c: Cells, m: Tri, c': Cells, m': Tri, ss: set<Symbol>) {
    forall t :: t in ss && t.Config? ==>
      && t in c && t in c' && c[t].tri == c'[t].tri && c[t].text == c'[t].text
      && (t.IsLogic() && c[t].tri == MOD ==> m == m')
  }

  ghost predicate AgreeAll(c: Cells, m: Tri, c': Cells, m': Tri, es: seq<Option<Expr>>) {
    forall e :: e in es ==> Agree(c, m, c', m', MentionsOpt(e))
  }

  lemma StringAgrees(c: Cells, m: Tri, c': Cells, m': Tri, s: Symbol)
    requires Agree(c, m, c', m', {s})
    ensures StringAt(c, m, s) == StringAt(c', m', s) && TriAt(c, s) == TriAt(c', s) && RawText(c, s) == RawText(c', s)
  {
    assert s in {s};
  }

  lemma {:induction false} EvalAgrees(c: Cells, m: Tri, c': Cells, m': Tri, e: Expr)
    requires Agree(c, m, c', m', Mentions(e))
    ensures Eval(e, CellsEnv(c, m)) == Eval(e, CellsEnv(c', m'))
  {
    hide CompareText, StringAt, TriAt;
    match e
    case Sym(s) => StringAgrees(c, m, c', m', s);
    case Cmp(_, s, t) =>
      StringAgrees(c, m, c', m', s);
      StringAgrees(c, m, c', m', t);
    case Not(x) => EvalAgrees(c, m, c', m', x);
    case Bin(_, x, y) =>
      EvalAgrees(c, m, c', m', x);
      EvalAgrees(c, m, c', m', y);
  }

  lemma ValueAgrees(c: Cells, m: Tri, c': Cells, m': Tri, e: Option<Expr>, absent: Tri)
    requires Agree(c, m, c', m', MentionsOpt(e))
    ensures Value(e, absent, c, m) == Value(e, absent, c', m')
  {
    if e.Some? { EvalAgrees(c, m, c', m', e.value); }
  }

  lemma {:induction false} FirstActiveAgrees(c: Cells, m: Tri, c': Cells, m': Tri, es: seq<Option<Expr>>)
    requires AgreeAll(c, m, c', m', es)
    ensures FirstActive(es, c, m) == FirstActive(es, c', m')
  {
    hide Value, Agree;
    if es != [] {
      assert es[0] in es;
      ValueAgrees(c, m, c', m', es[0], YES);
      FirstActiveAgrees(c, m, c', m', es[1..]);
    }
  }

  lemma {:induction false} PromptMaxAgrees(c: Cells, m: Tri, c': Cells, m': Tri, d: Decl, s: Symbol,
      ps: seq<Option<Expr>>)
    requires AgreeAll(c, m, c', m', ps)
    requires d.choiceOf.Some? ==> TriAt(c, d.choiceOf.value) == TriAt(c', d.choiceOf.value)
    ensures PromptMax(d, s, ps, c, m) == PromptMax(d, s, ps, c', m')
  {
    hide Value, Agree, TriAt;
    if ps != [] {
      var p := ps[|ps| - 1];
      assert p in ps;
      ValueAgrees(c, m, c', m', p, YES);
      PromptMaxAgrees(c, m, c', m', d, s, ps[..|ps| - 1]);
    }
  }

  lemma VisibleAgrees(c: Cells, m: Tri, c': Cells, m': Tri, d: Decl, s: Symbol)
    requires AgreeAll(c, m, c', m', d.prompts)
    requires d.choiceOf.Some? ==> TriAt(c, d.choiceOf.value) == TriAt(c', d.choiceOf.value)
    requires s.Type() == STristate ==> m == m'
    ensures VisibleTri(d, s, c, m) == VisibleTri(d, s, c', m')
  {
    hide PromptMax, TriAt, AgreeAll;
    PromptMaxAgrees(c, m, c', m', d, s, d.prompts);
  }

  lemma BoundsAgree(c: Cells, m: Tri, c': Cells, m': Tri, d: Decl, s: Symbol)
    requires AgreeAll(c, m, c', m', d.prompts)
    requires AgreeAll(c, m, c', m', DependencyParts(d))
    requires d.choiceOf.Some? ==> TriAt(c, d.choiceOf.value) == TriAt(c', d.choiceOf.value)
    requires s.Type() == STristate ==> m == m'
    ensures Bounds(d, s, c, m) == Bounds(d, s, c', m')
  {
    hide VisibleTri, Value, TriAt, Agree;
    VisibleAgrees(c, m, c', m', d, s);
    assert d.dirDep in DependencyParts(d) && d.revDep in DependencyParts(d) && d.implied in DependencyParts(d);
    ValueAgrees(c, m, c', m', d.dirDep, YES);
    ValueAgrees(c, m, c', m', d.revDep, NO);
    ValueAgrees(c, m, c', m', d.implied, NO);
  }

  /** The value of the default that applies is mentioned too. */
  lemma DefaultAgrees(c: Cells, m: Tri, c': Cells, m': Tri, d: Decl, u: User, visible: Tri)
    requires AgreeAll(c, m, c', m', DefaultConds(d))
    requires forall f :: f in d.defaults ==> Agree(c, m, c', m', Mentions(f.value))
    ensures DefaultTri(d, c, m) == DefaultTri(d, c', m')
    ensures ProposedText(d, u, visible, c, m) == ProposedText(d, u, visible, c', m')
  {
    hide Value, Agree, FirstActive, CellsEnv, RawText;
    FirstActiveAgrees(c, m, c', m', DefaultConds(d));
    var i := FirstActive(DefaultConds(d), c, m);
    if i < |d.defaults| {
      var f := d.defaults[i];
      assert f in d.defaults && DefaultConds(d)[i] == f.cond && f.cond in DefaultConds(d);
      ValueAgrees(c, m, c', m', f.cond, YES);
      EvalAgrees(c, m, c', m', f.value);
      if f.value.Sym? { StringAgrees(c, m, c', m', f.value.sym); }
    }
  }

  lemma ClampAgrees(c: Cells, m: Tri, c': Cells, m': Tri, d: Decl, s: Symbol, text: string)
    requires AgreeAll(c, m, c', m', RangeConds(d))
    requires forall r :: r in d.ranges ==> Agree(c, m, c', m', {r.lo}) && Agree(c, m, c', m', {r.hi})
    ensures ClampText(d, s, text, c, m) == ClampText(d, s, text, c', m')
  {
    hide Value, Agree, FirstActive, RawText, StrToLL;
    FirstActiveAgrees(c, m, c', m', RangeConds(d));
    var i := FirstActive(RangeConds(d), c, m);
    if i < |d.ranges| {
      assert d.ranges[i] in d.ranges;
      StringAgrees(c, m, c', m', d.ranges[i].lo);
      StringAgrees(c, m, c', m', d.ranges[i].hi);
    }
  }

  lemma {:induction false} FirstDefaultAgrees(c: Cells, m: Tri, c': Cells, m': Tri, vis: map<Symbol, Tri>,
      fs: seq<Default>)
    requires forall f :: f in fs ==> Agree(c, m, c', m', MentionsOpt(f.cond))
    ensures FirstDefault(vis, fs, c, m) == FirstDefault(vis, fs, c', m')
  {
    hide Value, Agree;
    if fs != [] {
      assert fs[0] in fs;
      ValueAgrees(c, m, c', m', fs[0].cond, YES);
      FirstDefaultAgrees(c, m, c', m', vis, fs[1..]);
    }
  }

  lemma MembersAgree(c: Cells, m: Tri, c': Cells, m': Tri, g: Graph, ms: seq<Symbol>)
    requires forall n :: n in ms && n in g.decls ==>
      && AgreeAll(c, m, c', m', g.decls[n].prompts)
      && (g.decls[n].choiceOf.Some? ==> TriAt(c, g.decls[n].choiceOf.value) == TriAt(c', g.decls[n].choiceOf.value))
      && (n.Type() == STristate ==> m == m')
    ensures MemberVisibility(g, ms, c, m) == MemberVisibility(g, ms, c', m')
  {
    hide VisibleTri, TriAt, AgreeAll;
    forall n | n in ms && n in g.decls
      ensures VisibleTri(g.decls[n], n, c, m) == VisibleTri(g.decls[n], n, c', m')
    {
      VisibleAgrees(c, m, c', m', g.decls[n], n);
    }
  }

  // ----- one equation -----

  /** The two assignments agree below `k`, and on the modules value wherever it matters there. */
  ghost predicate AgreeBelow(g: Graph, rank: Symbol -> nat, c: Cells, c': Cells, k: nat) {
    && c.Keys == c'.Keys == g.decls.Keys
    && (forall t :: t in g.decls && rank(t) < k ==> c[t] == c'[t])
    && (forall t :: t in g.decls && t.Type() == SBool ==> c[t].tri != MOD)
  }

  lemma ModulesAgree(g: Graph, rank: Symbol -> nat, c: Cells, c': Cells, k: nat)
    requires Ranked(g, rank) && AgreeBelow(g, rank, c, c', k) && Below(g, rank, {g.modules}, k)
    ensures TriAt(c, g.modules) == TriAt(c', g.modules)
  {
    hide Ranked;
    assert g.modules in {g.modules};
  }

  lemma BelowAgrees(g: Graph, rank: Symbol -> nat, c: Cells, c': Cells, ss: set<Symbol>, k: nat)
    requires Ranked(g, rank) && AgreeBelow(g, rank, c, c', k) && Below(g, rank, ss, k)
    ensures Agree(c, TriAt(c, g.modules), c', TriAt(c', g.modules), ss)
  {
    hide RankedChoice, TriAt;
    forall t | t in ss && t.Config? && t.IsLogic() && c[t].tri == MOD
      ensures TriAt(c, g.modules) == TriAt(c', g.modules)
    {
      assert RankedPlain(g, rank, t, g.decls[t]);
      ModulesAgree(g, rank, c, c', k);
    }
  }

  lemma BelowAllAgrees(g: Graph, rank: Symbol -> nat, c: Cells, c': Cells, es: seq<Option<Expr>>, k: nat)
    requires Ranked(g, rank) && AgreeBelow(g, rank, c, c', k) && BelowAll(g, rank, es, k)
    ensures AgreeAll(c, TriAt(c, g.modules), c', TriAt(c', g.modules), es)
  {
    hide Ranked, AgreeBelow, TriAt, Agree;
    forall e | e in es ensures Agree(c, TriAt(c, g.modules), c', TriAt(c', g.modules), MentionsOpt(e)) {
      BelowAgrees(g, rank, c, c', MentionsOpt(e), k);
    }
  }

  lemma PlainRanked(g: Graph, rank: Symbol -> nat, s: Symbol)
    requires Ranked(g, rank) && s in g.decls && s.Type() != SUnknown
    ensures RankedPlain(g, rank, s, g.decls[s])
    ensures g.decls[s].choiceOf.Some? ==>
      var c := g.decls[s].choiceOf.value;
      c.Config? && c in g.decls && g.decls[c].isChoice && rank(c) < rank(s)
    ensures g.decls[s].isChoice ==> s.IsLogic()
  {
    hide RankedPlain;
    if g.decls[s].isChoice { assert RankedChoice(g, rank, s, g.decls[s]); }
  }

  lemma PartsAgree(g: Graph, rank: Symbol -> nat, c: Cells, c': Cells, s: Symbol)
    requires Ranked(g, rank) && s in g.decls && s.Type() != SUnknown && AgreeBelow(g, rank, c, c', rank(s))
    ensures var d, m, m' := g.decls[s], TriAt(c, g.modules), TriAt(c', g.modules);
      && Bounds(d, s, c, m) == Bounds(d, s, c', m')
      && AgreeAll(c, m, c', m', DefaultConds(d))
      && AgreeAll(c, m, c', m', RangeConds(d))
      && (s.Type() == STristate ==> m == m')
  {
    hide Ranked, TriAt, AgreeAll, Bounds, BelowAll;
    var d, m, m', k := g.decls[s], TriAt(c, g.modules), TriAt(c', g.modules), rank(s);
    PlainRanked(g, rank, s);
    if s.Type() == STristate { ModulesAgree(g, rank, c, c', k); }
    BelowAllAgrees(g, rank, c, c', d.prompts, k);
    BelowAllAgrees(g, rank, c, c', DependencyParts(d), k);
    BelowAllAgrees(g, rank, c, c', DefaultConds(d), k);
    BelowAllAgrees(g, rank, c, c', RangeConds(d), k);
    if d.choiceOf.Some? { ChoiceTriAgrees(g, rank, c, c', s); }
    BoundsAgree(c, m, c', m', d, s);
  }

  lemma ChoiceTriAgrees(g: Graph, rank: Symbol -> nat, c: Cells, c': Cells, s: Symbol)
    requires Ranked(g, rank) && s in g.decls && s.Type() != SUnknown && AgreeBelow(g, rank, c, c', rank(s))
    requires g.decls[s].choiceOf.Some?
    ensures var x := g.decls[s].choiceOf.value; x in c && x in c' && c[x] == c'[x] && TriAt(c, x) == TriAt(c', x)
  {
    hide Ranked;
    PlainRanked(g, rank, s);
  }

  lemma DefaultPartsAgree(g: Graph, rank: Symbol -> nat, c: Cells, c': Cells, s: Symbol)
    requires Ranked(g, rank) && s in g.decls && s.Type() != SUnknown && AgreeBelow(g, rank, c, c', rank(s))
    ensures var d, m, m' := g.decls[s], TriAt(c, g.modules), TriAt(c', g.modules);
      && (!d.isChoice ==> forall f :: f in d.defaults ==> Agree(c, m, c', m', Mentions(f.value)))
      && (forall r :: r in d.ranges ==> Agree(c, m, c', m', {r.lo}) && Agree(c, m, c', m', {r.hi}))
  {
    hide Ranked, TriAt, Agree, AgreeBelow, BelowAll;
    var d, m, m', k := g.decls[s], TriAt(c, g.modules), TriAt(c', g.modules), rank(s);
    PlainRanked(g, rank, s);
    forall f | f in d.defaults && !d.isChoice ensures Agree(c, m, c', m', Mentions(f.value)) {
      BelowAgrees(g, rank, c, c', Mentions(f.value), k);
    }
    forall r | r in d.ranges ensures Agree(c, m, c', m', {r.lo}) && Agree(c, m, c', m', {r.hi}) {
      BelowAgrees(g, rank, c, c', {r.lo}, k);
      BelowAgrees(g, rank, c, c', {r.hi}, k);
    }
  }

  /** What the members of a choice see while it is calculated. */
  lemma DuringAgrees(g: Graph, rank: Symbol -> nat, c: Cells, c': Cells, s: Symbol, x: Cell, ss: set<Symbol>)
    requires Ranked(g, rank) && s in g.decls && x.tri == YES && AgreeBelow(g, rank, c, c', rank(s))
    requires Below(g, rank, ss - {s}, rank(s))
    ensures Agree(c[s := x], TriAt(c, g.modules), c'[s := x], TriAt(c', g.modules), ss)
  {
    hide Ranked, TriAt;
    BelowAgrees(g, rank, c, c', ss - {s}, rank(s));
    forall t | t in ss && t.Config?
      ensures t in c[s := x] && t in c'[s := x] && c[s := x][t].tri == c'[s := x][t].tri
      ensures c[s := x][t].text == c'[s := x][t].text
      ensures t.IsLogic() && c[s := x][t].tri == MOD ==> TriAt(c, g.modules) == TriAt(c', g.modules)
    {
      if t != s { assert t in ss - {s}; }
    }
  }

  lemma MemberRanked(g: Graph, rank: Symbol -> nat, s: Symbol, n: Symbol)
    requires Ranked(g, rank) && s in g.decls && g.decls[s].isChoice && n in g.decls[s].members
    ensures n in g.decls && g.decls[n].choiceOf == Some(s)
    ensures PromptsBelow(g, rank, g.decls[n], s, rank(s))
    ensures n.Type() == STristate ==> Below(g, rank, {g.modules}, rank(s))
  {
    hide RankedPlain, PromptsBelow;
    assert RankedChoice(g, rank, s, g.decls[s]);
  }

  lemma PickAgrees(g: Graph, rank: Symbol -> nat, c: Cells, c': Cells, s: Symbol, u: User, x: Cell)
    requires Ranked(g, rank) && s in g.decls && s.Config? && g.decls[s].isChoice && s.Type() != SUnknown
    requires x.tri == YES && AgreeBelow(g, rank, c, c', rank(s))
    ensures var d, m, m' := g.decls[s], TriAt(c, g.modules), TriAt(c', g.modules);
      PickMember(d, u, MemberVisibility(g, d.members, c[s := x], m), c[s := x], m)
      == PickMember(d, u, MemberVisibility(g, d.members, c'[s := x], m'), c'[s := x], m')
  {
    hide Ranked, TriAt, Agree, AgreeBelow, MemberVisibility, FirstDefault, FirstShown, Shown;
    var d, m, m', k := g.decls[s], TriAt(c, g.modules), TriAt(c', g.modules), rank(s);
    forall n | n in d.members && n in g.decls
      ensures AgreeAll(c[s := x], m, c'[s := x], m', g.decls[n].prompts)
      ensures g.decls[n].choiceOf.Some? ==>
        TriAt(c[s := x], g.decls[n].choiceOf.value) == TriAt(c'[s := x], g.decls[n].choiceOf.value)
      ensures n.Type() == STristate ==> m == m'
    {
      MemberRanked(g, rank, s, n);
      MemberPromptsAgree(g, rank, c, c', s, x, n);
      TriOverridden(c, c', s, x);
      if n.Type() == STristate { ModulesAgree(g, rank, c, c', k); }
    }
    MembersAgree(c[s := x], m, c'[s := x], m', g, d.members);
    PlainRanked(g, rank, s);
    forall f | f in d.defaults
      ensures Agree(c[s := x], m, c'[s := x], m', MentionsOpt(f.cond))
    {
      var i :| 0 <= i < |d.defaults| && d.defaults[i] == f;
      assert DefaultConds(d)[i] == f.cond;
      DuringAgrees(g, rank, c, c', s, x, MentionsOpt(f.cond));
    }
    FirstDefaultAgrees(c[s := x], m, c'[s := x], m', MemberVisibility(g, d.members, c[s := x], m), d.defaults);
  }

  lemma TriOverridden(c: Cells, c': Cells, s: Symbol, x: Cell)
    requires s.Config?
    ensures TriAt(c[s := x], s) == TriAt(c'[s := x], s)
  {
  }

  lemma MemberPromptsAgree(g: Graph, rank: Symbol -> nat, c: Cells, c': Cells, s: Symbol, x: Cell, n: Symbol)
    requires Ranked(g, rank) && s in g.decls && x.tri == YES && AgreeBelow(g, rank, c, c', rank(s))
    requires n in g.decls && PromptsBelow(g, rank, g.decls[n], s, rank(s))
    ensures AgreeAll(c[s := x], TriAt(c, g.modules), c'[s := x], TriAt(c', g.modules), g.decls[n].prompts)
  {
    hide Ranked, TriAt, Agree, AgreeBelow;
    forall p | p in g.decls[n].prompts
      ensures Agree(c[s := x], TriAt(c, g.modules), c'[s := x], TriAt(c', g.modules), MentionsOpt(p))
    {
      DuringAgrees(g, rank, c, c', s, x, MentionsOpt(p));
    }
  }

  lemma LogicAgrees(g: Graph, rank: Symbol -> nat, c: Cells, c': Cells, s: Symbol, u: User, b: Cell)
    requires Ranked(g, rank) && s in g.decls && s.IsLogic() && AgreeBelow(g, rank, c, c', rank(s))
    ensures LogicCell(g, u, b, c, TriAt(c, g.modules), s) == LogicCell(g, u, b, c', TriAt(c', g.modules), s)
  {
    hide Ranked, TriAt, AgreeAll, Agree, AgreeBelow, Bounds, DefaultTri, PickMember, MemberVisibility;
    var d, m, m' := g.decls[s], TriAt(c, g.modules), TriAt(c', g.modules);
    PartsAgree(g, rank, c, c', s);
    DefaultPartsAgree(g, rank, c, c', s);
    if !d.isChoice { DefaultAgrees(c, m, c', m', d, u, NO); }
    if d.choiceOf.Some? { ChoiceTriAgrees(g, rank, c, c', s); }
    assert LogicTri(d, s, u, b, c, m) == LogicTri(d, s, u, b, c', m');
    if d.isChoice { PickAgrees(g, rank, c, c', s, u, b.(tri := YES)); }
  }

  /** An equation depends only on symbols of lower rank. */
  lemma EquationAgrees(g: Graph, rank: Symbol -> nat, users: Users, c: Cells, c': Cells, s: Symbol)
    requires Ranked(g, rank) && s in g.decls && s in users && AgreeBelow(g, rank, c, c', rank(s))
    ensures Equation(g, users, c, s) == Equation(g, users, c', s)
  {
    hide Ranked, TriAt, AgreeAll, Agree, AgreeBelow, Bounds, LogicCell, ProposedText, ClampText;
    var d, m, m' := g.decls[s], TriAt(c, g.modules), TriAt(c', g.modules);
    if s.Type() != SUnknown {
      PartsAgree(g, rank, c, c', s);
      var b := Bounds(d, s, c, m);
      if s.IsLogic() {
        LogicAgrees(g, rank, c, c', s, users[s], b);
      } else {
        PlainRanked(g, rank, s);
        DefaultPartsAgree(g, rank, c, c', s);
        DefaultAgrees(c, m, c', m', d, users[s], b.visible);
        ClampAgrees(c, m, c', m', d, s, ProposedText(d, users[s], b.visible, c, m));
      }
    }
  }

  lemma BoolEquation(g: Graph, users: Users, c: Cells, s: Symbol)
    requires s in g.decls && s in users && s.Type() == SBool
    ensures Equation(g, users, c, s).tri != MOD
  {
    hide Bounds, DefaultTri, PickMember, MemberVisibility, TriAt;
  }

  // ----- uniqueness and existence -----

  lemma {:induction false} SolutionsAgreeBelow(g: Graph, rank: Symbol -> nat, users: Users, c: Cells, c': Cells, k: nat)
    requires Ranked(g, rank) && Solution(g, users, c) && Solution(g, users, c')
    ensures AgreeBelow(g, rank, c, c', k)
  {
    hide Ranked, Equation;
    forall t | t in g.decls && t.Type() == SBool ensures c[t].tri != MOD { BoolEquation(g, users, c, t); }
    if k > 0 {
      SolutionsAgreeBelow(g, rank, users, c, c', k - 1);
      forall t | t in g.decls && rank(t) < k
        ensures c[t] == c'[t]
      {
        if rank(t) == k - 1 { EquationAgrees(g, rank, users, c, c', t); }
      }
    }
  }

  /** At most one assignment satisfies all equations. */
  lemma SolutionUnique(g: Graph, rank: Symbol -> nat, users: Users, c: Cells, c': Cells)
    requires Ranked(g, rank) && Solution(g, users, c) && Solution(g, users, c')
    ensures c == c'
  {
    hide Ranked, Equation;
    forall t | t in g.decls ensures c[t] == c'[t] {
      SolutionsAgreeBelow(g, rank, users, c, c', rank(t) + 1);
    }
  }

  /** All symbols calculated `n` times over, starting from nothing. */
  ghost function Iterated(g: Graph, users: Users, n: nat): (c: Cells)
    requires users.Keys == g.decls.Keys
    ensures c.Keys == g.decls.Keys
  {
    if n == 0 then map s | s in g.decls :: Cell(NO, "", None, NO, NO, NO, NO)
    else map s | s in g.decls :: Equation(g, users, Iterated(g, users, n - 1), s)
  }

  lemma IteratedBool(g: Graph, users: Users, n: nat, s: Symbol)
    requires users.Keys == g.decls.Keys && s in g.decls && s.Type() == SBool
    ensures Iterated(g, users, n)[s].tri != MOD
  {
    hide Equation;
    if n > 0 { BoolEquation(g, users, Iterated(g, users, n - 1), s); }
  }

  /** After `n` rounds the symbols of rank below `n` no longer change. */
  lemma {:induction false} IterationSettles(g: Graph, rank: Symbol -> nat, users: Users, n: nat)
    requires Ranked(g, rank) && users.Keys == g.decls.Keys
    ensures AgreeBelow(g, rank, Iterated(g, users, n), Iterated(g, users, n + 1), n)
  {
    hide Ranked, Equation;
    var c, c' := Iterated(g, users, n), Iterated(g, users, n + 1);
    forall t | t in g.decls && t.Type() == SBool ensures c[t].tri != MOD { IteratedBool(g, users, n, t); }
    if n > 0 {
      var b := Iterated(g, users, n - 1);
      IterationSettles(g, rank, users, n - 1);
      forall t | t in g.decls && rank(t) < n
        ensures c[t] == c'[t]
      {
        AgreeBelowLower(g, rank, b, c, rank(t), n - 1);
        EquationAgrees(g, rank, users, b, c, t);
      }
    }
  }

  lemma AgreeBelowLower(g: Graph, rank: Symbol -> nat, c: Cells, c': Cells, j: nat, k: nat)
    requires j <= k && AgreeBelow(g, rank, c, c', k)
    ensures AgreeBelow(g, rank, c, c', j)
  {
  }

  lemma {:induction false} RankBound(rank: Symbol -> nat, ss: set<Symbol>) returns (n: nat)
    ensures forall s :: s in ss ==> rank(s) < n
    decreases ss
  {
    if ss == {} {
      n := 0;
    } else {
      var s :| s in ss;
      var m := RankBound(rank, ss - {s});
      n := if rank(s) < m then m else rank(s) + 1;
    }
  }

  /** On an acyclic graph the equations have a solution. */
  lemma SolutionExists(g: Graph, rank: Symbol -> nat, users: Users) returns (c: Cells)
    requires Ranked(g, rank) && users.Keys == g.decls.Keys
    ensures Solution(g, users, c)
  {
    hide Ranked, Equation;
    var n := RankBound(rank, g.decls.Keys);
    c := Iterated(g, users, n);
    IterationSettles(g, rank, users, n);
  }
}
