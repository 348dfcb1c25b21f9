/** What acyclicity and the equations give an evaluation to start with. */
module EvaluationTheory {
  import opened Symbols
  import opened Expressions
  import opened SymbolEquations
  import opened EvaluationState

  lemma PlainFacts(g: Graph, w: World, s: Symbol)
    requires Theory(g, w) && s in g.decls && s.Type() != SUnknown
    ensures RankedPlain(g, w.rank, s, g.decls[s])
    ensures s.Type() == STristate ==> ModulesReady(g, w, w.rank(s))
  {
    hide Solution, UserPicks, BelowAll, RankedChoice;
    assert g.modules in {g.modules};
  }

  lemma ValueFacts(g: Graph, w: World, s: Symbol)
    requires Theory(g, w) && s in g.decls && s.Type() == SBool
    ensures s in w.sigma && w.sigma[s].tri != MOD
  {
    hide Ranked, UserPicks;
    BoolNotMod(g, w.users, w.sigma, s);
  }

  lemma MemberFacts(g: Graph, w: World, c: Symbol, m: Symbol)
    requires Theory(g, w) && c in g.decls && g.decls[c].isChoice && m in g.decls[c].members
    ensures m.Config? && m in g.decls && m.IsLogic() && m != c && w.rank(c) < w.rank(m)
    ensures !g.decls[m].isChoice && g.decls[m].choiceOf == Some(c)
    ensures g.decls[m].prompts != [] && forall p :: p in g.decls[m].prompts ==> c in MentionsOpt(p)
    ensures PromptsBelow(g, w.rank, g.decls[m], c, w.rank(c))
    ensures m.Type() == STristate ==> ModulesReady(g, w, w.rank(c))
  {
    hide Solution, UserPicks, RankedPlain, PromptsBelow;
    assert RankedChoice(g, w.rank, c, g.decls[c]);
    assert g.modules in {g.modules};
  }

  lemma ChoiceFacts(g: Graph, w: World, c: Symbol)
    requires Theory(g, w) && c in g.decls && g.decls[c].isChoice
    ensures c.Config? && c.IsLogic() && g.decls[c].choiceOf.None?
    ensures forall i, j :: 0 <= i < j < |g.decls[c].members| ==> g.decls[c].members[i] != g.decls[c].members[j]
    ensures forall f :: f in g.decls[c].defaults ==> f.value.Sym? && f.value.sym in g.decls[c].members
    ensures w.users.Keys == g.decls.Keys
    ensures w.users[c].pick.Some? ==> w.users[c].pick.value in g.decls[c].members
  {
    hide RankedPlain, Equation;
    assert RankedChoice(g, w.rank, c, g.decls[c]);
  }

  lemma ChoiceOfFacts(g: Graph, w: World, s: Symbol)
    requires Theory(g, w) && s in g.decls && g.decls[s].choiceOf.Some?
    ensures var c := g.decls[s].choiceOf.value;
      c in g.decls && g.decls[c].isChoice && s in g.decls[c].members
  {
    hide Solution, UserPicks, RankedPlain, RankedChoice;
  }

  /** In a solution, a symbol that is `m` ranks above the modules symbol. */
  lemma ModAboveModules(g: Graph, w: World, t: Symbol)
    requires Theory(g, w) && t in g.decls && t.IsLogic() && t in w.sigma && w.sigma[t].tri == MOD
    ensures !g.modules.Config? || w.rank(g.modules) < w.rank(t)
  {
    hide Theory;
    if t.Type() == SBool {
      ValueFacts(g, w, t);
    } else {
      PlainFacts(g, w, t);
    }
  }

  /** Symbols that rank below `k` are read with their values in the solution. */
  lemma BelowSees(g: Graph, w: World, k: nat, a: State, ss: set<Symbol>)
    requires Theory(g, w) && Good(g, w, k, a) && Below(g, w.rank, ss, k)
    ensures Sees(g, w, k, a, w.sigma, ss)
  {
    hide Theory;
    forall t | t in ss && t.Config? && t.IsLogic() && w.sigma[t].tri == MOD
      ensures ModulesReady(g, w, k)
    {
      ModAboveModules(g, w, t);
    }
  }

  lemma BelowAllSees(g: Graph, w: World, k: nat, a: State, es: seq<Option<Expr>>)
    requires Theory(g, w) && Shape(g, a) && Good(g, w, k, a) && BelowAll(g, w.rank, es, k)
    ensures SeesAll(g, w, k, a, w.sigma, es)
  {
    hide Theory, Good, Sees, Mentions, MentionsOpt;
    forall e | e in es ensures Sees(g, w, k, a, w.sigma, MentionsOpt(e)) {
      BelowSees(g, w, k, a, MentionsOpt(e));
    }
  }

  /** All that the value of a symbol is calculated from can be read. */
  lemma PartsSeen(g: Graph, w: World, a: State, s: Symbol)
    requires Theory(g, w) && s in g.decls && s.Type() != SUnknown && Shape(g, a) && Good(g, w, w.rank(s), a)
    ensures SeesAll(g, w, w.rank(s), a, w.sigma, g.decls[s].prompts)
    ensures SeesAll(g, w, w.rank(s), a, w.sigma, DependencyParts(g.decls[s]))
    ensures SeesAll(g, w, w.rank(s), a, w.sigma, DefaultConds(g.decls[s]))
    ensures SeesAll(g, w, w.rank(s), a, w.sigma, RangeConds(g.decls[s]))
  {
    hide Theory, Good, SeesAll, BelowAll;
    PlainFacts(g, w, s);
    BelowAllSees(g, w, w.rank(s), a, g.decls[s].prompts);
    BelowAllSees(g, w, w.rank(s), a, DependencyParts(g.decls[s]));
    BelowAllSees(g, w, w.rank(s), a, DefaultConds(g.decls[s]));
    BelowAllSees(g, w, w.rank(s), a, RangeConds(g.decls[s]));
  }

  lemma DefaultSeen(g: Graph, w: World, a: State, s: Symbol, i: nat)
    requires Theory(g, w) && s in g.decls && s.Type() != SUnknown && Shape(g, a) && Good(g, w, w.rank(s), a)
    requires !g.decls[s].isChoice && i < |g.decls[s].defaults|
    ensures Sees(g, w, w.rank(s), a, w.sigma, Mentions(g.decls[s].defaults[i].value))
  {
    hide Theory, Good, Sees, BelowAll;
    PlainFacts(g, w, s);
    assert g.decls[s].defaults[i] in g.decls[s].defaults;
    BelowSees(g, w, w.rank(s), a, Mentions(g.decls[s].defaults[i].value));
  }

  lemma RangeSeen(g: Graph, w: World, a: State, s: Symbol, i: nat)
    requires Theory(g, w) && s in g.decls && s.Type() != SUnknown && Shape(g, a) && Good(g, w, w.rank(s), a)
    requires i < |g.decls[s].ranges|
    ensures Sees(g, w, w.rank(s), a, w.sigma, {g.decls[s].ranges[i].lo})
    ensures Sees(g, w, w.rank(s), a, w.sigma, {g.decls[s].ranges[i].hi})
  {
    hide Theory, Good, Sees, BelowAll;
    PlainFacts(g, w, s);
    assert g.decls[s].ranges[i] in g.decls[s].ranges;
    BelowSees(g, w, w.rank(s), a, {g.decls[s].ranges[i].lo});
    BelowSees(g, w, w.rank(s), a, {g.decls[s].ranges[i].hi});
  }

  /** A symbol that is about to be calculated. */
  lemma Starts(g: Graph, w: World, a: State, s: Symbol)
    requires Theory(g, w) && s in g.decls && s.Type() != SUnknown && Shape(g, a) && Good(g, w, w.rank(s), a)
    ensures Startable(g, w, w.rank(s), s)
    ensures g.decls[s].choiceOf.Some? ==> ChoiceInReach(g, w, w.rank(s), a, w.sigma, s)
  {
    hide Theory, Good, Sees;
    PlainFacts(g, w, s);
    if g.decls[s].choiceOf.Some? {
      var c := g.decls[s].choiceOf.value;
      ChoiceOfFacts(g, w, s);
      MemberFacts(g, w, c, s);
      BelowSees(g, w, w.rank(s), a, {c});
    }
  }

  /** What the members of a choice see while the choice is being calculated. */
  ghost function During(w: World, c: Symbol, x: Cell): Cells {
    w.sigma[c := x]
  }

  lemma DuringSees(g: Graph, w: World, a: State, c: Symbol, x: Cell, ss: set<Symbol>)
    requires Theory(g, w) && Shape(g, a) && Good(g, w, w.rank(c), a) && c in a.valid && SameValue(x, a.cell[c])
    requires x.tri == YES
    requires Below(g, w.rank, ss - {c}, w.rank(c))
    ensures Sees(g, w, w.rank(c), a, During(w, c, x), ss)
  {
    hide Theory;
    BelowSees(g, w, w.rank(c), a, ss - {c});
  }

  lemma MemberStarts(g: Graph, w: World, a: State, c: Symbol, x: Cell, m: Symbol)
    requires Theory(g, w) && Shape(g, a) && Good(g, w, w.rank(c), a) && c in a.valid && SameValue(x, a.cell[c])
    requires x.tri == YES
    requires c in g.decls && g.decls[c].isChoice && m in g.decls[c].members
    ensures m in g.decls && g.decls[m].choiceOf == Some(c)
    ensures Startable(g, w, w.rank(c), m)
    ensures ChoiceInReach(g, w, w.rank(c), a, During(w, c, x), m)
    ensures SeesAll(g, w, w.rank(c), a, During(w, c, x), g.decls[m].prompts)
  {
    hide Theory, Good, Sees;
    MemberFacts(g, w, c, m);
    var d := g.decls[m];
    DuringSees(g, w, a, c, x, {c});
    forall e | e in d.prompts ensures Sees(g, w, w.rank(c), a, During(w, c, x), MentionsOpt(e)) {
      DuringSees(g, w, a, c, x, MentionsOpt(e));
    }
  }

  lemma ChoiceDefaultsSeen(g: Graph, w: World, a: State, c: Symbol, x: Cell)
    requires Theory(g, w) && Shape(g, a) && Good(g, w, w.rank(c), a) && c in a.valid && SameValue(x, a.cell[c])
    requires x.tri == YES
    requires c in g.decls && g.decls[c].isChoice
    ensures SeesAll(g, w, w.rank(c), a, During(w, c, x), DefaultConds(g.decls[c]))
    ensures forall f :: f in g.decls[c].defaults ==> f.value.Sym? && f.value.sym in g.decls[c].members
  {
    hide Theory, Good, Sees, Mentions, MentionsOpt, BelowAll, Below, SameValue;
    ChoiceFacts(g, w, c);
    PlainFacts(g, w, c);
    forall e | e in DefaultConds(g.decls[c]) ensures Sees(g, w, w.rank(c), a, During(w, c, x), MentionsOpt(e)) {
      BelowAllAt(g, w.rank, DefaultConds(g.decls[c]), w.rank(c), e, c);
      DuringSees(g, w, a, c, x, MentionsOpt(e));
    }
  }

  lemma BelowAllAt(g: Graph, rank: Symbol -> nat, es: seq<Option<Expr>>, k: nat, e: Option<Expr>, c: Symbol)
    requires BelowAll(g, rank, es, k) && e in es
    ensures Below(g, rank, MentionsOpt(e) - {c}, k)
  {
  }

  ghost function MemberSet(d: Decl): set<Symbol> {
    set m | m in d.members
  }

  /** The visibility of the listed members has been calculated. */
  ghost predicate MembersShown(g: Graph, target: Cells, modules: Tri, a: State, ms: seq<Symbol>) {
    forall m :: m in ms ==>
      m in g.decls && m in a.cell && a.cell[m].visible == VisibleTri(g.decls[m], m, target, modules)
  }

  /** A choice in the middle of its calculation. */
  ghost predicate InChoice(g: Graph, w: World, a: State, c: Symbol, x: Cell) {
    && Shape(g, a) && c in g.decls && g.decls[c].isChoice
    && c in a.valid && a.cell[c] == x && x.tri == YES
  }

  lemma InChoiceOf(g: Graph, w: World, a: State, c: Symbol, x: Cell)
    requires InChoice(g, w, a, c, x)
    ensures c in g.decls && g.decls[c].isChoice
  {
  }

  /** Calculating the visibility of one member changes nothing else. */
  lemma MemberFramed(g: Graph, w: World, k: nat, a: State, b: State, m: Symbol, mv: set<Symbol>)
    requires Shape(g, a) && Shape(g, b) && m in g.decls && m in mv && g.decls[m].choiceOf.Some?
    requires Good(g, w, k, a) && Good(g, w, k, b) && Framed(g, w, k, {m}, {}, a, b)
    requires SameValue(a.cell[m], b.cell[m]) && a.users[m] == b.users[m]
    ensures Framed(g, w, k, {}, mv, a, b)
  {
  }

  lemma MemberStep(g: Graph, w: World, a: State, b: State, c: Symbol, x: Cell, m: Symbol, ms: seq<Symbol>)
    requires Theory(g, w) && InChoice(g, w, a, c, x) && Shape(g, b) && m in g.decls[c].members && m in g.decls
    requires Good(g, w, w.rank(c), a) && Good(g, w, w.rank(c), b) && Framed(g, w, w.rank(c), {m}, {}, a, b)
    requires a.users[m] == b.users[m]
    requires b.cell[m] == Bounded(a.cell[m], Bounds(g.decls[m], m, During(w, c, x), ModulesOf(g, w)))
    requires MembersShown(g, During(w, c, x), ModulesOf(g, w), a, ms) && forall n :: n in ms ==> n in g.decls[c].members
    ensures Framed(g, w, w.rank(c), {}, MemberSet(g.decls[c]), a, b)
    ensures InChoice(g, w, b, c, x)
    ensures MembersShown(g, During(w, c, x), ModulesOf(g, w), b, ms + [m])
  {
    hide Theory, VisibleTri, Bound, Good;
    MemberFacts(g, w, c, m);
    ChoiceFacts(g, w, c);
    assert m in MemberSet(g.decls[c]);
    MemberFramed(g, w, w.rank(c), a, b, m, MemberSet(g.decls[c]));
    forall n | n in ms + [m]
      ensures n in g.decls && b.cell[n].visible == VisibleTri(g.decls[n], n, During(w, c, x), ModulesOf(g, w))
    {
      if n != m {
        MemberFacts(g, w, c, n);
      }
    }
  }

  /** Evaluating a condition of the choice leaves the members' visibility alone. */
  lemma ChoiceStep(g: Graph, w: World, a: State, b: State, c: Symbol, x: Cell)
    requires Theory(g, w) && InChoice(g, w, a, c, x) && Shape(g, b)
    requires Framed(g, w, w.rank(c), {}, {}, a, b)
    requires MembersShown(g, During(w, c, x), ModulesOf(g, w), a, g.decls[c].members)
    ensures InChoice(g, w, b, c, x)
    ensures MembersShown(g, During(w, c, x), ModulesOf(g, w), b, g.decls[c].members)
  {
    hide Theory, VisibleTri;
    ChoiceFacts(g, w, c);
    forall n | n in g.decls[c].members
      ensures n in g.decls && b.cell[n].visible == VisibleTri(g.decls[n], n, During(w, c, x), ModulesOf(g, w))
    {
      MemberFacts(g, w, c, n);
    }
  }

  /** Whether the members so far leave the choice its user value. */
  lemma KeepStep(g: Graph, w: World, a: State, c: Symbol, x: Cell, ms: seq<Symbol>, m: Symbol)
    requires Theory(g, w) && Shape(g, a) && Good(g, w, w.rank(c), a)
    requires c in g.decls && g.decls[c].isChoice && m in g.decls[c].members
    requires MembersShown(g, During(w, c, x), ModulesOf(g, w), a, ms + [m])
    ensures m in g.decls
    ensures MembersHaveUsers(g, w.users, During(w, c, x), ModulesOf(g, w), ms + [m]) <==>
      && MembersHaveUsers(g, w.users, During(w, c, x), ModulesOf(g, w), ms)
      && (a.cell[m].visible != NO ==> a.users[m].has)
  {
    hide Theory, VisibleTri, During, GoodCells, UserAfter;
    MemberFacts(g, w, c, m);
    assert m in ms + [m];
  }

  lemma NoMembersHave(g: Graph, users: Users, cells: Cells, modules: Tri)
    ensures MembersHaveUsers(g, users, cells, modules, [])
  {
  }

  lemma ShownByCell(g: Graph, target: Cells, modules: Tri, a: State, ms: seq<Symbol>, m: Symbol)
    requires MembersShown(g, target, modules, a, ms) && m in ms
    ensures m in a.cell
    ensures Shown(MemberVisibility(g, ms, target, modules), m) <==> a.cell[m].visible != NO
  {
    hide VisibleTri;
  }

  lemma SeesAllAt(g: Graph, w: World, k: nat, a: State, target: Cells, es: seq<Option<Expr>>, i: nat)
    requires Shape(g, a) && SeesAll(g, w, k, a, target, es) && i < |es|
    ensures Sees(g, w, k, a, target, MentionsOpt(es[i]))
  {
    assert es[i] in es;
  }

  lemma ChoiceUsersKept(g: Graph, w: World, a: State, b: State, c: Symbol)
    requires Shape(g, a) && Shape(g, b) && c in g.decls
    requires Framed(g, w, w.rank(c), {}, MemberSet(g.decls[c]), a, b)
    ensures a.users[c] == b.users[c]
  {
  }

  lemma SolvedLogic(g: Graph, w: World, s: Symbol)
    requires Theory(g, w) && s in g.decls && s.IsLogic()
    ensures s in w.users && s in w.sigma
    ensures var m := ModulesOf(g, w);
      w.sigma[s] == LogicCell(g, w.users[s], Bounds(g.decls[s], s, w.sigma, m), w.sigma, m, s)
  {
    hide Ranked, UserPicks, LogicCell, Bounds;
    assert w.sigma[s] == Equation(g, w.users, w.sigma, s);
  }

  lemma SolvedText(g: Graph, w: World, s: Symbol)
    requires Theory(g, w) && s in g.decls && !s.IsLogic() && s.Type() != SUnknown
    ensures s in w.users && s in w.sigma
    ensures var d, m := g.decls[s], ModulesOf(g, w);
      var b := Bounds(d, s, w.sigma, m);
      w.sigma[s] == b.(text := ClampText(d, s, ProposedText(d, w.users[s], b.visible, w.sigma, m), w.sigma, m))
  {
    hide Ranked, UserPicks, ClampText, ProposedText, Bounds;
    assert w.sigma[s] == Equation(g, w.users, w.sigma, s);
  }

  lemma SolvedUnknown(g: Graph, w: World, s: Symbol)
    requires Theory(g, w) && s in g.decls && s.Type() == SUnknown
    ensures s in w.sigma && w.sigma[s] == Cell(NO, g.decls[s].name, None, NO, NO, NO, NO)
  {
    hide Ranked, UserPicks, Bounds;
    assert w.sigma[s] == Equation(g, w.users, w.sigma, s);
  }

  /** The calculation of `s` may begin: all calculated symbols up to its rank are
      right, and the modules symbol is settled unless it is `s` itself. */
  ghost predicate Ready(g: Graph, w: World, a: State, s: Symbol) {
    && Good(g, w, w.rank(s), a)
    && (forall t :: t in a.valid && w.rank(t) == w.rank(s) ==>
      && a.cell[t] == w.sigma[t]
      && (g.decls[t].choiceOf.Some? ==> g.decls[t].choiceOf.value in a.valid)
      && (g.decls[t].isChoice ==> ChoiceUser(g, w, a, t)))
    && (g.modules.Config? && s != g.modules && w.rank(g.modules) == w.rank(s) ==>
      g.modules in a.valid && a.modulesVal == w.sigma[g.modules].tri)
  }

  lemma GoodIsReady(g: Graph, w: World, a: State, s: Symbol)
    requires Good(g, w, w.rank(s) + 1, a)
    ensures Ready(g, w, a, s)
  {
    hide UserAfter;
    GoodLower(g, w, w.rank(s), w.rank(s) + 1, a);
  }

  /** Marking a symbol as being calculated. */
  function Begun(a: State, s: Symbol): State {
    a.(valid := a.valid + {s})
  }

  lemma Begins(g: Graph, w: World, a: State, s: Symbol)
    requires s in g.decls && s !in a.valid && Shape(g, a) && Ready(g, w, a, s)
    ensures Shape(g, Begun(a, s)) && Good(g, w, w.rank(s), Begun(a, s))
    ensures a.users[s] == w.users[s]
  {
    hide UserAfter;
  }

  /** The state after the calculation of `s`, with the modules value taken over. */
  function Ended(g: Graph, b: State, s: Symbol): State {
    if s == g.modules then b.(modulesVal := TriAt(b.cell, s)) else b
  }

  /** A calculation that gave `s` its state in the solution is complete. */
  lemma Ends(g: Graph, w: World, a: State, b: State, s: Symbol, mv: set<Symbol>)
    requires s in g.decls && s !in a.valid && Shape(g, a) && Ready(g, w, a, s)
    requires Shape(g, b) && Good(g, w, w.rank(s), b) && Framed(g, w, w.rank(s), {s}, mv, Begun(a, s), b)
    requires b.cell[s] == w.sigma[s] && (g.decls[s].isChoice ==> ChoiceUser(g, w, b, s))
    requires g.decls[s].choiceOf.Some? ==> g.decls[s].choiceOf.value in b.valid
    requires forall m :: m in mv ==> m in g.decls && g.decls[m].choiceOf == Some(s)
    ensures Shape(g, Ended(g, b, s)) && Good(g, w, w.rank(s) + 1, Ended(g, b, s))
    ensures Framed(g, w, w.rank(s) + 1, {}, {}, a, Ended(g, b, s)) && s in b.valid
  {
    EndsGood(g, w, a, b, s, mv);
    EndsFramed(g, w, a, b, s, mv);
  }

  lemma EndsFramed(g: Graph, w: World, a: State, b: State, s: Symbol, mv: set<Symbol>)
    requires s in g.decls && s !in a.valid && Shape(g, a) && Shape(g, b)
    requires Framed(g, w, w.rank(s), {s}, mv, Begun(a, s), b)
    requires forall m :: m in mv ==> m in g.decls && g.decls[m].choiceOf == Some(s)
    ensures Framed(g, w, w.rank(s) + 1, {}, {}, a, Ended(g, b, s)) && s in b.valid
  {
    var c, k := Ended(g, b, s), w.rank(s);
    assert s in Begun(a, s).valid;
    forall t | t in g.decls && w.rank(t) >= k + 1
      ensures t in a.valid <==> t in c.valid
      ensures a.users[t] == c.users[t] && c.cell[t] == a.cell[t].(visible := c.cell[t].visible)
      ensures VisibleKept(g, w, k + 1, a, t) ==> c.cell[t].visible == a.cell[t].visible
    {
      assert t != s && (t in a.valid <==> t in Begun(a, s).valid);
      if VisibleKept(g, w, k + 1, a, t) {
        assert t !in mv;
        assert VisibleKept(g, w, k, Begun(a, s), t);
      }
    }
  }

  lemma EndsGood(g: Graph, w: World, a: State, b: State, s: Symbol, mv: set<Symbol>)
    requires s in g.decls && s !in a.valid && Shape(g, a) && Ready(g, w, a, s)
    requires Shape(g, b) && Good(g, w, w.rank(s), b) && Framed(g, w, w.rank(s), {s}, mv, Begun(a, s), b)
    requires b.cell[s] == w.sigma[s] && (g.decls[s].isChoice ==> ChoiceUser(g, w, b, s))
    requires g.decls[s].choiceOf.Some? ==> g.decls[s].choiceOf.value in b.valid
    requires forall m :: m in mv ==> m in g.decls && g.decls[m].choiceOf == Some(s)
    ensures Shape(g, Ended(g, b, s)) && Good(g, w, w.rank(s) + 1, Ended(g, b, s))
  {
    hide Framed, Ready, GoodCells, GoodUsers;
    EndsCells(g, w, a, b, s, mv);
    EndsUsers(g, w, a, b, s, mv);
  }

  lemma EndsCells(g: Graph, w: World, a: State, b: State, s: Symbol, mv: set<Symbol>)
    requires s in g.decls && s !in a.valid && Shape(g, a) && Ready(g, w, a, s)
    requires Shape(g, b) && Good(g, w, w.rank(s), b) && Framed(g, w, w.rank(s), {s}, mv, Begun(a, s), b)
    requires b.cell[s] == w.sigma[s]
    requires g.decls[s].choiceOf.Some? ==> g.decls[s].choiceOf.value in b.valid
    requires forall m :: m in mv ==> m in g.decls && g.decls[m].choiceOf == Some(s)
    ensures GoodCells(g, w, w.rank(s) + 1, Ended(g, b, s))
  {
    hide Framed, Ready, GoodUsers;
    var c := Ended(g, b, s);
    forall t | t in c.valid && w.rank(t) < w.rank(s) + 1
      ensures c.cell[t] == w.sigma[t]
      ensures g.decls[t].choiceOf.Some? ==> g.decls[t].choiceOf.value in c.valid
    {
      if w.rank(t) == w.rank(s) && t != s {
        EndsPeer(g, w, a, b, s, mv, t);
      }
    }
    EndsModules(g, w, a, b, s, mv);
  }

  lemma EndsUsers(g: Graph, w: World, a: State, b: State, s: Symbol, mv: set<Symbol>)
    requires s in g.decls && s !in a.valid && Shape(g, a) && Ready(g, w, a, s)
    requires Shape(g, b) && Good(g, w, w.rank(s), b) && Framed(g, w, w.rank(s), {s}, mv, Begun(a, s), b)
    requires g.decls[s].isChoice ==> ChoiceUser(g, w, b, s)
    requires forall m :: m in mv ==> m in g.decls && g.decls[m].choiceOf == Some(s)
    ensures GoodUsers(g, w, w.rank(s) + 1, Ended(g, b, s))
  {
    hide Framed, Ready, GoodCells, UserAfter;
    var c := Ended(g, b, s);
    forall t | t in c.valid && w.rank(t) < w.rank(s) + 1 && g.decls[t].isChoice
      ensures ChoiceUser(g, w, c, t)
    {
      if w.rank(t) == w.rank(s) && t != s {
        EndsPeer(g, w, a, b, s, mv, t);
      }
    }
  }

  /** A symbol of the same rank that was calculated before keeps its state. */
  lemma EndsPeer(g: Graph, w: World, a: State, b: State, s: Symbol, mv: set<Symbol>, t: Symbol)
    requires s in g.decls && s !in a.valid && Shape(g, a) && Shape(g, b) && Ready(g, w, a, s)
    requires Framed(g, w, w.rank(s), {s}, mv, Begun(a, s), b)
    requires forall m :: m in mv ==> m in g.decls && g.decls[m].choiceOf == Some(s)
    requires t in b.valid && w.rank(t) == w.rank(s) && t != s
    ensures b.cell[t] == w.sigma[t]
    ensures g.decls[t].choiceOf.Some? ==> g.decls[t].choiceOf.value in b.valid
    ensures g.decls[t].isChoice ==> ChoiceUser(g, w, b, t)
  {
    hide Good, UserAfter;
    assert t in Begun(a, s).valid && t in a.valid;
    assert t !in mv;
    assert VisibleKept(g, w, w.rank(s), Begun(a, s), t);
  }

  lemma EndsModules(g: Graph, w: World, a: State, b: State, s: Symbol, mv: set<Symbol>)
    requires s in g.decls && s !in a.valid && Shape(g, a) && Shape(g, b) && Ready(g, w, a, s)
    requires Good(g, w, w.rank(s), b) && Framed(g, w, w.rank(s), {s}, mv, Begun(a, s), b)
    requires b.cell[s] == w.sigma[s]
    ensures ModulesGood(g, w, w.rank(s) + 1, Ended(g, b, s))
    ensures s in b.valid
  {
    hide GoodUsers;
    assert s in Begun(a, s).valid;
  }

  /** A member reads which member its choice selected. */
  lemma ChoiceValue(g: Graph, w: World, a: State, s: Symbol)
    requires Theory(g, w) && Shape(g, a) && Good(g, w, w.rank(s), a) && s in g.decls && g.decls[s].choiceOf.Some?
    requires g.decls[s].choiceOf.value in a.valid
    ensures var c := g.decls[s].choiceOf.value;
      c in a.cell && c in w.sigma && a.cell[c] == w.sigma[c]
  {
    hide Theory;
    ChoiceOfFacts(g, w, s);
    MemberFacts(g, w, g.decls[s].choiceOf.value, s);
  }

  ghost function ChangedMembers(g: Graph, s: Symbol): set<Symbol>
    requires s in g.decls
  {
    if g.decls[s].isChoice then MemberSet(g.decls[s]) else {}
  }

  lemma LogicStored(g: Graph, w: World, a: State, b: State, s: Symbol, x: Cell)
    requires Theory(g, w) && s in g.decls && s.Type() != SUnknown && Shape(g, a) && Shape(g, b) && s in a.valid
    requires Good(g, w, w.rank(s), b) && Framed(g, w, w.rank(s), {}, {}, a, b)
    requires g.decls[s].choiceOf.Some? ==> g.decls[s].choiceOf.value in a.valid
    requires x == b.cell[s].(tri := x.tri)
    ensures Good(g, w, w.rank(s), WithCell(b, s, x)) && s in b.valid
    ensures Framed(g, w, w.rank(s), {s}, ChangedMembers(g, s), a, WithCell(b, s, x))
    ensures b.cell[s] == a.cell[s] && a.users[s] == b.users[s]
  {
    hide Theory, Good, Framed, ChangedMembers;
    var k, mv := w.rank(s), ChangedMembers(g, s);
    CellKept(g, w, k, a, b, s);
    InertAt(g, w, k, b, s);
    SetBounds(g, w, k, b, s, x);
    FramedMore(g, w, k, {s}, {}, {s}, mv, b, WithCell(b, s, x));
    FramedWiden(g, w, k, {s}, mv, a, b);
    FramedTransitive(g, w, k, {s}, mv, a, b, WithCell(b, s, x));
  }

  lemma InertAt(g: Graph, w: World, k: nat, a: State, s: Symbol)
    requires Shape(g, a) && Good(g, w, k, a) && s in g.decls
    ensures g.decls[s].choiceOf.Some? ==> a.cell[s].dir == a.cell[s].rev == a.cell[s].imp == NO
  {
    hide GoodUsers;
  }

  /** The selected member is stored in the choice, which keeps its user value only
      if all its visible members have one. */
  function WithPick(a: State, s: Symbol, pick: Option<Symbol>, keep: bool): State
    requires s in a.cell && s in a.users
  {
    var u := a.users[s];
    WithCell(a, s, a.cell[s].(pick := pick, tri := if pick.Some? then a.cell[s].tri else NO))
      .(users := a.users[s := u.(has := u.has && keep)])
  }

  lemma ChoiceStored(g: Graph, w: World, a: State, b: State, c: State, s: Symbol, pick: Option<Symbol>, keep: bool)
    requires Theory(g, w) && s in g.decls && g.decls[s].isChoice && Shape(g, a) && Shape(g, b) && Shape(g, c)
    requires s in b.valid
    requires Good(g, w, w.rank(s), c)
    requires Framed(g, w, w.rank(s), {s}, ChangedMembers(g, s), a, b)
    requires Framed(g, w, w.rank(s), {}, MemberSet(g.decls[s]), b, c)
    ensures Shape(g, WithPick(c, s, pick, keep)) && Good(g, w, w.rank(s), WithPick(c, s, pick, keep))
    ensures Framed(g, w, w.rank(s), {s}, ChangedMembers(g, s), a, WithPick(c, s, pick, keep))
    ensures c.cell[s] == b.cell[s] && c.users[s] == b.users[s] && s in c.valid
  {
    hide Theory, Good, Framed, MemberSet;
    var k, mv := w.rank(s), MemberSet(g.decls[s]);
    ChoiceFacts(g, w, s);
    ChoiceCellKept(g, w, b, c, s);
    var x := c.cell[s].(pick := pick, tri := if pick.Some? then c.cell[s].tri else NO);
    SetBounds(g, w, k, c, s, x);
    SetUser(g, w, k, WithCell(c, s, x), s, c.users[s].(has := c.users[s].has && keep));
    FramedMore(g, w, k, {}, mv, {s}, mv, b, c);
    FramedMore(g, w, k, {s}, {}, {s}, mv, c, WithCell(c, s, x));
    FramedMore(g, w, k, {s}, {}, {s}, mv, WithCell(c, s, x), WithPick(c, s, pick, keep));
    FramedTransitive(g, w, k, {s}, mv, a, b, c);
    FramedTransitive(g, w, k, {s}, mv, a, c, WithCell(c, s, x));
    FramedTransitive(g, w, k, {s}, mv, a, WithCell(c, s, x), WithPick(c, s, pick, keep));
  }

  lemma SetUser(g: Graph, w: World, k: nat, a: State, s: Symbol, u: User)
    requires Shape(g, a) && Good(g, w, k, a) && s in a.valid && w.rank(s) >= k && g.decls[s].isChoice
    ensures Shape(g, a.(users := a.users[s := u])) && Good(g, w, k, a.(users := a.users[s := u]))
    ensures Framed(g, w, k, {s}, {}, a, a.(users := a.users[s := u]))
  {
    hide GoodCells, GoodUsers, Framed;
    var b := a.(users := a.users[s := u]);
    UserCells(g, w, k, a, b);
    UserUsers(g, w, k, a, s, u);
    UserFramed(g, w, k, a, s, u);
  }

  lemma UserFramed(g: Graph, w: World, k: nat, a: State, s: Symbol, u: User)
    requires Shape(g, a) && s in a.valid && w.rank(s) >= k
    ensures Framed(g, w, k, {s}, {}, a, a.(users := a.users[s := u]))
  {
  }

  lemma UserCells(g: Graph, w: World, k: nat, a: State, b: State)
    requires Shape(g, a) && Good(g, w, k, a) && b == a.(users := b.users) && b.users.Keys == a.users.Keys
    ensures GoodCells(g, w, k, b) && w.sigma.Keys == w.users.Keys == g.decls.Keys && b.need == {}
  {
    hide GoodUsers;
  }

  lemma UserUsers(g: Graph, w: World, k: nat, a: State, s: Symbol, u: User)
    requires Shape(g, a) && Good(g, w, k, a) && s in a.valid && w.rank(s) >= k && g.decls[s].isChoice
    ensures GoodUsers(g, w, k, a.(users := a.users[s := u]))
  {
    hide GoodCells, UserAfter;
  }

  lemma ChoiceCellKept(g: Graph, w: World, b: State, c: State, s: Symbol)
    requires Theory(g, w) && s in g.decls && g.decls[s].isChoice && Shape(g, b) && Shape(g, c)
    requires Framed(g, w, w.rank(s), {}, MemberSet(g.decls[s]), b, c)
    ensures c.cell[s] == b.cell[s] && c.users[s] == b.users[s] && (s in b.valid ==> s in c.valid)
  {
    hide Theory;
    ChoiceFacts(g, w, s);
    if s in MemberSet(g.decls[s]) { MemberFacts(g, w, s, s); }
  }

  /** The cell of a choice that is `y`, once its member is selected. */
  ghost function Picked(g: Graph, w: World, s: Symbol, x: Cell): Cell
    requires s in g.decls && s in w.users
  {
    var d, t, m := g.decls[s], During(w, s, x), ModulesOf(g, w);
    var pick := PickMember(d, w.users[s], MemberVisibility(g, d.members, t, m), t, m);
    x.(pick := pick, tri := if pick.Some? then x.tri else NO)
  }

  lemma LogicSolved(g: Graph, w: World, s: Symbol, b: Cell, t: Tri, x: Cell)
    requires Theory(g, w) && s in g.decls && s.IsLogic() && s in w.users
    requires b == Bounds(g.decls[s], s, w.sigma, ModulesOf(g, w))
    requires t == LogicTri(g.decls[s], s, w.users[s], b, w.sigma, ModulesOf(g, w))
    requires x == if g.decls[s].isChoice && t == YES then Picked(g, w, s, b.(tri := t)) else b.(tri := t)
    ensures s in w.sigma && x == w.sigma[s]
  {
    hide Theory, Bounds, LogicTri, PickMember, MemberVisibility;
    SolvedLogic(g, w, s);
  }

  /** The user value that the calculation leaves a choice. */
  lemma ChoiceUserLeft(g: Graph, w: World, a: State, s: Symbol, b: Cell, t: Tri, keep: bool)
    requires Theory(g, w) && s in g.decls && g.decls[s].isChoice && s in w.users && s in a.users
    requires b == Bounds(g.decls[s], s, w.sigma, ModulesOf(g, w))
    requires t == LogicTri(g.decls[s], s, w.users[s], b, w.sigma, ModulesOf(g, w))
    requires t == YES ==>
      (keep <==> MembersHaveUsers(g, w.users, During(w, s, b.(tri := YES)), ModulesOf(g, w), g.decls[s].members))
    requires a.users[s] == if t == YES then w.users[s].(has := w.users[s].has && keep) else w.users[s]
    ensures ChoiceUser(g, w, a, s)
  {
    hide Theory, Bounds, LogicTri, MembersHaveUsers;
  }

  lemma SeenText(g: Graph, a: State, target: Cells, s: Symbol)
    requires Shape(g, a) && Seen(g, a, target, {s})
    ensures RawText(a.cell, s) == RawText(target, s)
  {
    assert s in {s};
  }

  lemma TextNotChoice(g: Graph, w: World, s: Symbol)
    requires Theory(g, w) && s in g.decls && !s.IsLogic()
    ensures !g.decls[s].isChoice && g.decls[s].choiceOf.None?
  {
    hide Theory;
    if g.decls[s].isChoice { ChoiceFacts(g, w, s); }
    if g.decls[s].choiceOf.Some? {
      ChoiceOfFacts(g, w, s);
      MemberFacts(g, w, g.decls[s].choiceOf.value, s);
    }
  }

  lemma TextStored(g: Graph, w: World, a: State, b: State, s: Symbol, x: Cell)
    requires Theory(g, w) && s in g.decls && s.Type() != SUnknown && Shape(g, a) && Shape(g, b) && s in a.valid
    requires g.decls[s].choiceOf.None?
    requires Good(g, w, w.rank(s), b) && Framed(g, w, w.rank(s), {}, {}, a, b)
    ensures Good(g, w, w.rank(s), WithCell(b, s, x)) && s in b.valid
    ensures Framed(g, w, w.rank(s), {s}, {}, a, WithCell(b, s, x))
    ensures Framed(g, w, w.rank(s), {s}, {}, b, WithCell(b, s, x))
    ensures b.cell[s] == a.cell[s] && a.users[s] == b.users[s]
  {
    hide Theory, Good, Framed;
    var k := w.rank(s);
    CellKept(g, w, k, a, b, s);
    SetBounds(g, w, k, b, s, x);
    FramedWiden(g, w, k, {s}, {}, a, b);
    FramedTransitive(g, w, k, {s}, {}, a, b, WithCell(b, s, x));
  }

  lemma ReadyNeeds(g: Graph, w: World, a: State, s: Symbol)
    requires Ready(g, w, a, s)
    ensures a.need == {}
  {
    hide GoodUsers;
  }

  lemma NothingNeeded(g: Graph, w: World, k: nat, a: State)
    requires Good(g, w, k, a)
    ensures a.need == {}
  {
    hide GoodUsers;
  }

  lemma UnknownStored(g: Graph, w: World, a: State, s: Symbol)
    requires Theory(g, w) && s in g.decls && s.Type() == SUnknown && Shape(g, a) && s in a.valid
    requires Good(g, w, w.rank(s), a)
    ensures var x := a.cell[s].(tri := NO, text := g.decls[s].name);
      && s in w.sigma && x == w.sigma[s]
      && Good(g, w, w.rank(s), WithCell(a, s, x))
      && Framed(g, w, w.rank(s), {s}, ChangedMembers(g, s), a, WithCell(a, s, x))
    ensures g.decls[s].choiceOf.None? && !g.decls[s].isChoice
  {
    hide Theory, Good, Framed, ChangedMembers;
    var x := a.cell[s].(tri := NO, text := g.decls[s].name);
    SolvedUnknown(g, w, s);
    TextNotChoice(g, w, s);
    SetUnknown(g, w, w.rank(s), a, s, x);
    FramedMore(g, w, w.rank(s), {s}, {}, {s}, ChangedMembers(g, s), a, WithCell(a, s, x));
  }

  lemma SetUnknown(g: Graph, w: World, k: nat, a: State, s: Symbol, x: Cell)
    requires Shape(g, a) && Good(g, w, k, a) && s in a.valid && w.rank(s) >= k && s.Type() == SUnknown
    requires g.decls[s].choiceOf.None? && x == a.cell[s].(tri := NO, text := x.text)
    ensures x == Cell(NO, x.text, None, NO, NO, NO, NO)
    ensures Shape(g, WithCell(a, s, x)) && Good(g, w, k, WithCell(a, s, x))
    ensures Framed(g, w, k, {s}, {}, a, WithCell(a, s, x))
  {
    hide GoodUsers, GoodCells, Framed;
    SameUsers(g, w, k, a, WithCell(a, s, x));
    UnknownCells(g, w, k, a, s, x);
    BoundsFramed(g, w, k, a, s, x);
  }

  lemma UnknownCells(g: Graph, w: World, k: nat, a: State, s: Symbol, x: Cell)
    requires Shape(g, a) && GoodCells(g, w, k, a) && s in a.valid && w.rank(s) >= k && s.Type() == SUnknown
    requires g.decls[s].choiceOf.None? && x == a.cell[s].(tri := NO, text := x.text)
    ensures x == Cell(NO, x.text, None, NO, NO, NO, NO) && GoodCells(g, w, k, WithCell(a, s, x))
  {
  }

  lemma BoundsValue(d: Decl, s: Symbol, cells: Cells, modules: Tri)
    ensures var b := Bounds(d, s, cells, modules); b.tri == NO && b.text == "n" && b.pick == None
  {
    hide VisibleTri, Bound;
  }

  /** Before its new value is calculated a symbol has the empty one. */
  lemma Cleared(g: Graph, w: World, a: State, b: State, s: Symbol, x: Cell)
    requires Theory(g, w) && s in g.decls && s.Type() != SUnknown && Shape(g, a) && Shape(g, b) && s in a.valid
    requires Good(g, w, w.rank(s), b) && Framed(g, w, w.rank(s), {s}, {}, a, b)
    requires x == b.cell[s].(tri := x.tri, text := x.text, pick := x.pick)
    ensures Good(g, w, w.rank(s), WithCell(b, s, x)) && s in b.valid
    ensures Framed(g, w, w.rank(s), {s}, {}, a, WithCell(b, s, x))
  {
    hide Theory, Good, Framed;
    var k := w.rank(s);
    ValidKept(g, w, k, {s}, {}, a, b);
    InertAt(g, w, k, b, s);
    SetBounds(g, w, k, b, s, x);
    FramedTransitive(g, w, k, {s}, {}, a, b, WithCell(b, s, x));
  }

  lemma ValidKept(g: Graph, w: World, k: nat, ex: set<Symbol>, mv: set<Symbol>, a: State, b: State)
    requires Shape(g, a) && Shape(g, b) && Framed(g, w, k, ex, mv, a, b)
    ensures a.valid <= b.valid
  {
  }

  lemma ChangedMembersOf(g: Graph, w: World, s: Symbol)
    requires Theory(g, w) && s in g.decls
    ensures forall m :: m in ChangedMembers(g, s) ==> m in g.decls && g.decls[m].choiceOf == Some(s)
  {
    hide Theory;
    forall m | m in ChangedMembers(g, s)
      ensures m in g.decls && g.decls[m].choiceOf == Some(s)
    {
      MemberFacts(g, w, s, m);
    }
  }

  /** The modules value needs no update when its symbol kept its value. */
  lemma ModulesTaken(g: Graph, w: World, a: State, b: State, s: Symbol)
    requires s in g.decls && s !in a.valid && Shape(g, a) && Shape(g, b) && Ready(g, w, a, s)
    requires Framed(g, w, w.rank(s), {s}, ChangedMembers(g, s), Begun(a, s), b)
    ensures s == g.modules && b.cell[s].tri == a.cell[s].tri ==> Ended(g, b, s) == b
  {
  }

  /** The calculation of `s`, begun in `a`, has given it its state. */
  ghost predicate Calculated(g: Graph, w: World, a: State, b: State, s: Symbol) {
    && s in g.decls && s !in a.valid && Shape(g, a) && Shape(g, b) && Shape(g, Begun(a, s))
    && Ready(g, w, a, s) && Good(g, w, w.rank(s), b)
    && Framed(g, w, w.rank(s), {s}, ChangedMembers(g, s), Begun(a, s), b)
    && b.cell[s] == w.sigma[s] && (g.decls[s].isChoice ==> ChoiceUser(g, w, b, s))
    && (g.decls[s].choiceOf.Some? ==> g.decls[s].choiceOf.value in b.valid)
  }

  lemma CalculatedEnds(g: Graph, w: World, a: State, b: State, s: Symbol)
    requires Theory(g, w) && Calculated(g, w, a, b, s)
    ensures Shape(g, a) && Shape(g, Ended(g, b, s)) && Good(g, w, w.rank(s) + 1, Ended(g, b, s))
    ensures Framed(g, w, w.rank(s) + 1, {}, {}, a, Ended(g, b, s)) && s in b.valid && b.need == {}
    ensures s == g.modules && b.cell[s].tri == a.cell[s].tri ==> Ended(g, b, s) == b
  {
    hide Theory, Ready, Good, Framed, ChangedMembers, ChoiceUser;
    ChangedMembersOf(g, w, s);
    Ends(g, w, a, b, s, ChangedMembers(g, s));
    ModulesTaken(g, w, a, b, s);
    NothingNeeded(g, w, w.rank(s), b);
  }

  // ----- whole evaluations -----

  /** Nothing is being calculated and all that has been calculated is right. */
  ghost predicate AllGood(g: Graph, w: World, a: State) {
    forall k: nat :: Good(g, w, k, a)
  }

  /** A state in which nothing is calculated yet, for the user values of `w`. */
  ghost predicate Blank(g: Graph, w: World, a: State) {
    && Shape(g, a) && a.valid == {} && a.need == {} && a.users == w.users
    && Inert(g, a.cell)
    && a.modulesVal == TriAt(a.cell, g.modules)
  }

  lemma ClearedReady(g: Graph, w: World, a: State)
    requires Theory(g, w) && Blank(g, w, a)
    ensures g.modules in g.decls ==> Ready(g, w, a, g.modules)
    ensures g.modules !in g.decls ==> AllGood(g, w, a)
  {
    hide Equation, RankedPlain, RankedChoice, UserAfter;
    if g.modules !in g.decls {
      assert !g.modules.Config?;
      forall k: nat ensures Good(g, w, k, a) {
        assert TriAt(map[], g.modules) == TriAt(a.cell, g.modules);
      }
    }
  }

  lemma ModulesDone(g: Graph, w: World, a: State, b: State)
    requires Blank(g, w, a) && g.modules in g.decls && Shape(g, b)
    requires Good(g, w, w.rank(g.modules) + 1, b) && Framed(g, w, w.rank(g.modules) + 1, {}, {}, a, b)
    requires g.modules in b.valid
    ensures AllGood(g, w, b)
  {
    hide UserAfter;
    forall k: nat ensures Good(g, w, k, b) {}
  }

  lemma AllGoodStep(g: Graph, w: World, a: State, b: State, s: Symbol)
    requires AllGood(g, w, a) && Shape(g, a) && Shape(g, b) && s in g.decls
    requires Good(g, w, w.rank(s) + 1, b) && Framed(g, w, w.rank(s) + 1, {}, {}, a, b)
    ensures AllGood(g, w, b) && a.valid <= b.valid
  {
    hide Good;
    forall k: nat ensures Good(g, w, k, b) {
      assert Good(g, w, k, a);
      if k <= w.rank(s) + 1 {
        GoodLower(g, w, k, w.rank(s) + 1, b);
      } else {
        GoodLift(g, w, w.rank(s) + 1, k, a, b);
      }
    }
  }

  /** In such a state every calculated symbol has the state of the solution. */
  lemma AllGoodAgrees(g: Graph, w: World, a: State, s: Symbol)
    requires AllGood(g, w, a) && s in a.valid
    ensures s in a.cell && s in w.sigma && a.cell[s] == w.sigma[s]
  {
    hide GoodUsers;
    assert Good(g, w, w.rank(s) + 1, a);
  }

  /** A state may be invalidated as a whole and calculated again for new user values. */
  lemma AllGoodClears(g: Graph, w: World, w': World, a: State, users: Users)
    requires Theory(g, w) && AllGood(g, w, a) && users.Keys == g.decls.Keys && w'.users == users
    ensures Shape(g, a) && Blank(g, w', a.(valid := {}, users := users))
  {
    hide Theory;
    assert Good(g, w, 0, a);
    if g.modules.Config? {
      assert Good(g, w, w.rank(g.modules) + 1, a);
    } else {
      assert TriAt(map[], g.modules) == TriAt(a.cell, g.modules);
    }
  }

  lemma AllGoodReady(g: Graph, w: World, a: State, s: Symbol)
    requires AllGood(g, w, a)
    ensures Ready(g, w, a, s)
  {
    assert Good(g, w, w.rank(s) + 1, a);
    GoodIsReady(g, w, a, s);
  }

  lemma AllGoodModules(g: Graph, w: World, a: State)
    requires AllGood(g, w, a)
    ensures a.modulesVal == ModulesOf(g, w)
  {
    var k := if g.modules.Config? then w.rank(g.modules) + 1 else 0;
    assert Good(g, w, k, a);
    ModulesSettled(g, w, k, a);
  }

  lemma NoMembersShown(g: Graph, target: Cells, modules: Tri, a: State)
    ensures MembersShown(g, target, modules, a, [])
  {
  }

  lemma ChoiceWithoutPrompts(g: Graph, w: World, k: nat, a: State, target: Cells, s: Symbol)
    requires Shape(g, a) && s in g.decls && g.decls[s].choiceOf.Some? && g.decls[s].prompts == []
    requires ChoiceInReach(g, w, k, a, target, s)
    ensures g.decls[s].choiceOf.value in a.valid
  {
  }
}
