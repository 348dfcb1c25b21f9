/** Two configurations in which an accepted assignment does not take effect. */
module AssignmentInstances {
  import opened Symbols
  import opened Expressions
  import opened SymbolEquations
  import opened EvaluationState
  import opened EvaluationTheory
  import opened Assignment
  import opened Solutions
  import opened SymbolTable
  import opened Configurations

  const MODULES: Symbol := Config(0, SBool)
  const CHOICE: Symbol := Config(1, STristate)
  const MEMBER: Symbol := Config(2, SBool)
  const S: Symbol := Config(3, STristate)

  /** A bool symbol that is `y` by default. */
  function ModulesDecl(): Decl {
    Decl("MODULES", [], [Default(None, Sym(SymYes))], [], None, None, None, false, [], None)
  }

  function NoUser(): User { User(false, NO, "", None) }

  // ----- a choice that loses its user value -----

  /** A tristate choice that is always visible and never below `m`, its only
      member, and a symbol that depends on the choice. */
  function ChoiceGraph(): Graph {
    Graph(map[
      MODULES := ModulesDecl(),
      CHOICE := Decl("C", [None], [], [], None, Some(Sym(SymMod)), None, true, [MEMBER], None),
      MEMBER := Decl("M", [Some(Sym(CHOICE))], [], [], None, None, None, false, [], Some(CHOICE)),
      S := Decl("S", [Some(Sym(CHOICE))], [], [], Some(Sym(CHOICE)), None, None, false, [], None)
    ], MODULES)
  }

  /** Only the choice has a user value. */
  function ChoiceUsers(has: bool): Users {
    map[MODULES := NoUser(), CHOICE := User(has, YES, "", Some(MEMBER)), MEMBER := NoUser(), S := NoUser()]
  }

  function Rank(s: Symbol): nat {
    if s == MODULES then 0 else if s == CHOICE then 1 else 2
  }

  /** Conditions and values that mention only the given symbols. */
  lemma PlainRanked(g: Graph, s: Symbol, d: Decl, ss: set<Symbol>)
    requires d.ranges == [] && Below(g, Rank, ss, Rank(s)) && (s.Type() == STristate ==> g.modules in ss)
    requires forall e | e in d.prompts + DependencyParts(d) + DefaultConds(d) :: MentionsOpt(e) <= ss
    requires !d.isChoice ==> forall f | f in d.defaults :: Mentions(f.value) <= ss
    ensures RankedPlain(g, Rank, s, d)
  {
    assert forall e | e in d.prompts :: e in d.prompts + DependencyParts(d) + DefaultConds(d);
    assert forall e | e in DependencyParts(d) :: e in d.prompts + DependencyParts(d) + DefaultConds(d);
    assert forall e | e in DefaultConds(d) :: e in d.prompts + DependencyParts(d) + DefaultConds(d);
    assert RangeConds(d) == [];
  }

  lemma ChoiceGraphPlain()
    ensures forall s :: s in ChoiceGraph().decls ==> RankedPlain(ChoiceGraph(), Rank, s, ChoiceGraph().decls[s])
  {
    hide RankedPlain;
    var g := ChoiceGraph();
    PlainRanked(g, MODULES, g.decls[MODULES], {SymYes});
    PlainRanked(g, CHOICE, g.decls[CHOICE], {MODULES, SymMod});
    PlainRanked(g, MEMBER, g.decls[MEMBER], {CHOICE});
    PlainRanked(g, S, g.decls[S], {CHOICE, MODULES});
  }

  lemma ChoiceGraphChoice()
    ensures RankedChoice(ChoiceGraph(), Rank, CHOICE, ChoiceGraph().decls[CHOICE])
  {
    var g := ChoiceGraph();
    var p := Some(Sym(CHOICE));
    assert g.decls[MEMBER].prompts == [p];
    assert MentionsOpt(p) == {CHOICE};
  }

  lemma ChoiceGraphRanked()
    ensures Ranked(ChoiceGraph(), Rank)
  {
    hide RankedPlain, RankedChoice;
    ChoiceGraphPlain();
    ChoiceGraphChoice();
  }

  lemma ModulesOn(g: Graph, w: World)
    requires Theory(g, w) && g.modules == MODULES && MODULES in g.decls && g.decls[MODULES] == ModulesDecl()
    ensures ModulesOf(g, w) == YES
  {
    hide Theory;
    SolvedLogic(g, w, MODULES);
  }

  /** With its user value the choice is `y`, and so is the bound of S. */
  lemma ChoiceYes(w: World)
    requires Theory(ChoiceGraph(), w) && w.users == ChoiceUsers(true)
    ensures CHOICE in w.sigma && w.sigma[CHOICE].tri == YES
  {
    hide Theory;
    ModulesOn(ChoiceGraph(), w);
    SolvedLogic(ChoiceGraph(), w, CHOICE);
  }

  lemma ChoiceLosesUser(w: World)
    requires Theory(ChoiceGraph(), w) && w.users == ChoiceUsers(true)
    ensures !KeepsUser(ChoiceGraph(), w.users, w.sigma, CHOICE)
  {
    hide Theory;
    var g := ChoiceGraph();
    ModulesOn(g, w);
    var d := g.decls[CHOICE];
    var b := Bounds(d, CHOICE, w.sigma, YES);
    assert LogicTri(d, CHOICE, w.users[CHOICE], b, w.sigma, YES) == YES;
    assert MEMBER in d.members && !w.users[MEMBER].has;
    MemberShows(w.sigma[CHOICE := b.(tri := YES)]);
  }

  lemma MemberShows(cells: Cells)
    requires CHOICE in cells && cells[CHOICE].tri == YES
    ensures VisibleTri(ChoiceGraph().decls[MEMBER], MEMBER, cells, YES) == YES
  {
    var d := ChoiceGraph().decls[MEMBER];
    assert d.prompts == [] + [Some(Sym(CHOICE))];
    assert PromptMax(d, MEMBER, [], cells, YES) == NO;
  }

  /** S before the assignment. */
  lemma WithinBefore(w: World)
    requires Theory(ChoiceGraph(), w) && w.users == ChoiceUsers(true)
    ensures S in w.sigma && w.sigma[S].tri == NO && w.sigma[S].dir == YES && w.sigma[S].rev == NO
    ensures WithinRange(ChoiceGraph().decls[S], S, w.sigma[S], YES, YES)
  {
    hide Theory;
    ModulesOn(ChoiceGraph(), w);
    ChoiceYes(w);
    SolvedLogic(ChoiceGraph(), w, S);
    OnePrompt(ChoiceGraph().decls[S], S, Some(Sym(CHOICE)), w.sigma, YES);
  }

  lemma OnePrompt(d: Decl, s: Symbol, p: Option<Expr>, cells: Cells, modules: Tri)
    requires d.prompts == [p]
    ensures PromptMax(d, s, d.prompts, cells, modules) == PromptTri(d, s, p, cells, modules)
  {
    assert d.prompts[..0] == [];
    assert PromptMax(d, s, [], cells, modules) == NO;
  }

  /** Without its user value the choice is only `m`, and S is bounded by it. */
  lemma BoundedAfter(w: World)
    requires Theory(ChoiceGraph(), w) && w.users == ChoiceUsers(false)
    ensures S in w.sigma && !TakesEffect(ChoiceGraph().decls[S], S, w.sigma[S], YES, YES)
  {
    hide Theory;
    var g := ChoiceGraph();
    ModulesOn(g, w);
    ChoiceMod(w);
    SolvedLogic(g, w, S);
    OnePrompt(g.decls[S], S, Some(Sym(CHOICE)), w.sigma, YES);
  }

  lemma ChoiceMod(w: World)
    requires Theory(ChoiceGraph(), w) && w.users == ChoiceUsers(false)
    ensures CHOICE in w.sigma && w.sigma[CHOICE].tri == MOD
  {
    hide Theory;
    ModulesOn(ChoiceGraph(), w);
    SolvedLogic(ChoiceGraph(), w, CHOICE);
    OnePrompt(ChoiceGraph().decls[CHOICE], CHOICE, None, w.sigma, YES);
  }

  /** Calculating a choice takes away its user value because its member has none;
      the next assignment, to a symbol that depends on the choice, is accepted,
      but the recalculation finds the choice lower and does not give the value. */
  method ClearedUser() returns (before: Cell, accepted: bool, after: Tri)
    ensures accepted && before.dir == YES && before.rev == NO && after != YES
  {
    hide Theory, Good, AllGood, Ranked, Solution, KeepsUser, WithinRange, TakesEffect, Inert, Intact;
    ghost var g, users := ChoiceGraph(), ChoiceUsers(true);
    ChoiceGraphRanked();
    var t, w := Calculated(ChoiceGraph(), ChoiceUsers(true), [CHOICE, S], Rank);
    assert CHOICE in [CHOICE, S] && S in [CHOICE, S];
    before := t.st.cell[S];
    WithinBefore(w);
    ModulesOn(g, w);
    AllGoodModules(g, w, t.st);
    ChoiceLosesUser(w);
    LostUser(g, w, t.st, CHOICE);
    ghost var now;
    accepted, after, now := t.SetAndRead(S, YES, w);
    ModulesOn(g, now);
    BoundedAfter(now);
  }

  /** A new table in which some symbols have been calculated. */
  method Calculated(g: Graph, users: Users, order: seq<Symbol>, ghost rank: Symbol -> nat)
    returns (t: Table, ghost w: World)
    requires Ranked(g, rank) && users.Keys == g.decls.Keys && UserPicks(g, users) && g.modules.Config?
    ensures fresh(t) && t.g == g && Shape(g, t.st)
    ensures Theory(g, w) && w.users == users && w.rank == rank && AllGood(g, w, t.st)
    ensures forall s :: s in order && s in g.decls ==> s in t.st.valid && s in w.sigma && t.st.cell[s] == w.sigma[s]
  {
    hide Theory, AllGood, Solution, Inert, Ranked, Shape, Blank;
    AllConfig(g, rank);
    w := Solved(g, users, rank);
    t := new Table(g, users);
    NewIsBlank(g, w, t.st);
    t.ClearAllValid(true, w);
    t.CalcInOrder(order, true, w);
  }

  lemma NewIsBlank(g: Graph, w: World, a: State)
    requires Shape(g, a) && Inert(g, a.cell) && a.users == w.users && a.valid == {} && a.need == {}
    requires a.modulesVal == NO
    requires g.modules.Config? && g.modules in g.decls && g.modules in a.cell && a.cell[g.modules].tri == NO
    ensures Blank(g, w, a.(valid := {}))
  {
    hide Inert;
    assert a.(valid := {}) == a;
  }

  lemma Solved(g: Graph, users: Users, rank: Symbol -> nat) returns (w: World)
    requires Ranked(g, rank) && users.Keys == g.decls.Keys && UserPicks(g, users)
    ensures Theory(g, w) && w.users == users && w.rank == rank && w.sigma.Keys == g.decls.Keys
  {
    hide Ranked, Solution;
    var cells := SolutionExists(g, rank, users);
    SolutionCovers(g, users, cells);
    w := World(rank, cells, users);
  }

  lemma LostUser(g: Graph, w: World, a: State, c: Symbol)
    requires AllGood(g, w, a) && c in a.valid && c in g.decls && c in w.users && g.decls[c].isChoice
    requires !KeepsUser(g, w.users, w.sigma, c) && forall t :: t in g.decls && t != c ==> !g.decls[t].isChoice
    ensures a.users == w.users[c := w.users[c].(has := false)]
  {
    hide KeepsUser, GoodCells;
    assert Good(g, w, w.rank(c) + 1, a);
  }

  // ----- a symbol that is selected against its dependency -----

  function SelectedGraph(): Graph {
    Graph(map[
      MODULES := ModulesDecl(),
      S := Decl("S", [None], [], [], Some(Sym(SymNo)), Some(Sym(SymMod)), None, false, [], None)
    ], MODULES)
  }

  function SelectedUsers(): Users {
    map[MODULES := NoUser(), S := NoUser()]
  }

  lemma SelectedGraphRanked()
    ensures Ranked(SelectedGraph(), Rank)
  {
    hide RankedPlain, RankedChoice;
    var g := SelectedGraph();
    PlainRanked(g, MODULES, g.decls[MODULES], {SymYes});
    PlainRanked(g, S, g.decls[S], {MODULES, SymMod, SymNo});
  }

  lemma SelectedBefore(w: World)
    requires Theory(SelectedGraph(), w) && w.users == SelectedUsers()
    ensures S in w.sigma && w.sigma[S].tri == NO && w.sigma[S].dir == NO && w.sigma[S].rev == MOD
    ensures WithinRange(SelectedGraph().decls[S], S, w.sigma[S], YES, YES)
  {
    hide Theory;
    ModulesOn(SelectedGraph(), w);
    SolvedLogic(SelectedGraph(), w, S);
    OnePrompt(SelectedGraph().decls[S], S, None, w.sigma, YES);
  }

  /** A symbol that is selected while its own dependency is `n` accepts a value and
      stays `n`. */
  method SelectedUnmet() returns (before: Cell, accepted: bool, after: Tri)
    ensures accepted && before.dir == NO && before.rev == MOD && after != YES
  {
    hide Theory, Good, AllGood, Ranked, Solution, WithinRange, TakesEffect, Inert, Intact;
    ghost var g, users := SelectedGraph(), SelectedUsers();
    SelectedGraphRanked();
    var t, w := Calculated(SelectedGraph(), SelectedUsers(), [S], Rank);
    assert S in [S];
    before := t.st.cell[S];
    SelectedBefore(w);
    ModulesOn(g, w);
    AllGoodModules(g, w, t.st);
    ChoiceFreeIntact(g, w, t.st);
    ghost var now;
    accepted, after, now := t.SetAndRead(S, YES, w);
  }
}
