/** Setting a tristate value, and when the set value is the one that is calculated. */
module Assignment {
  import opened Symbols
  import opened Expressions
  import opened SymbolEquations
  import opened EvaluationState
  import opened EvaluationTheory
  import opened Solutions
  import opened Choices

  /** `sym_tristate_within_range`, on the calculated state `x` of the symbol. */
  predicate WithinRange(d: Decl, s: Symbol, x: Cell, modules: Tri, val: Tri) {
    var ty := EffectiveType(d, s, x.visible, modules);
    && x.visible != NO
    && (ty == SBool || ty == STristate)
    && !(ty == SBool && val == MOD)
    && x.visible > x.rev
    && if d.choiceOf.Some? && x.visible == YES then val == YES else x.rev <= val <= x.visible
  }

  /** The user values after `val` was set. */
  function Given(users: Users, s: Symbol, val: Tri): Users
    requires s in users
  {
    users[s := users[s].(has := true, tri := val)]
  }

  /** Two solutions for user values that differ at `s` agree below it. */
  lemma {:induction false} AgreeBelowAssigned(g: Graph, rank: Symbol -> nat, users: Users, users': Users,
                                              c: Cells, c': Cells, s: Symbol, k: nat)
    requires Ranked(g, rank) && Solution(g, users, c) && Solution(g, users', c')
    requires s in g.decls && k <= rank(s) && forall t :: t in g.decls && t != s ==> users[t] == users'[t]
    ensures AgreeBelow(g, rank, c, c', k)
  {
    hide Ranked, Equation;
    forall t | t in g.decls && t.Type() == SBool ensures c[t].tri != MOD { BoolEquation(g, users, c, t); }
    if k > 0 {
      AgreeBelowAssigned(g, rank, users, users', c, c', s, k - 1);
      forall t | t in g.decls && rank(t) < k
        ensures c[t] == c'[t]
      {
        if rank(t) == k - 1 {
          EquationAgrees(g, rank, users, c, c', t);
          SameUser(g, users, users', c', t);
        }
      }
    }
  }

  lemma SameUser(g: Graph, users: Users, users': Users, c: Cells, t: Symbol)
    requires t in g.decls && t in users && t in users' && users[t] == users'[t]
    ensures Equation(g, users, c, t) == Equation(g, users', c, t)
  {
    hide Bounds, LogicCell, ProposedText, ClampText, TriAt;
  }

  /** Whether a symbol that is given the user value `val` will have it, judged by
      the state `x` that it has with the other user values as they are: an
      invisible symbol keeps its value, a selection against an unmet dependency
      gives `n`, and otherwise the value must lie between the bounds. */
  predicate TakesEffect(d: Decl, s: Symbol, x: Cell, modules: Tri, val: Tri) {
    if x.visible == NO then x.tri == val
    else if x.dir == NO && x.rev != NO then val == NO
    else x.rev <= val <= Max(x.visible, x.rev) && !(EffectiveType(d, s, x.visible, modules) == SBool && val == MOD)
  }

  /** In the solution for the new user value an ordinary symbol has that value
      exactly when the bounds in the solution before admit it. */
  lemma AssignmentTakesEffect(g: Graph, w: World, w': World, s: Symbol, val: Tri)
    requires Theory(g, w) && Theory(g, w') && w'.rank == w.rank
    requires s in g.decls && s.IsLogic() && s in w.users && w'.users == Given(w.users, s, val)
    requires g.decls[s].choiceOf.None? && !g.decls[s].isChoice
    ensures s in w.sigma && s in w'.sigma
    ensures w'.sigma[s].tri == val <==> TakesEffect(g.decls[s], s, w.sigma[s], ModulesOf(g, w), val)
  {
    hide Theory, Bounds, LogicTri, DefaultTri, EffectiveType;
    var d, m, m' := g.decls[s], ModulesOf(g, w), ModulesOf(g, w');
    SameParts(g, w, w', s, val);
    SolvedLogic(g, w, s);
    SolvedLogic(g, w', s);
    var b := Bounds(d, s, w.sigma, m);
    SharpBounds(d, s, w.sigma, m);
    GivenLogic(d, s, w.users[s], val, b, w.sigma, m, w'.sigma, m');
  }

  lemma SameParts(g: Graph, w: World, w': World, s: Symbol, val: Tri)
    requires Theory(g, w) && Theory(g, w') && w'.rank == w.rank
    requires s in g.decls && s.IsLogic() && s in w.users && w'.users == Given(w.users, s, val)
    requires g.decls[s].choiceOf.None? && !g.decls[s].isChoice
    ensures var d, m, m' := g.decls[s], ModulesOf(g, w), ModulesOf(g, w');
      && Bounds(d, s, w.sigma, m) == Bounds(d, s, w'.sigma, m')
      && DefaultTri(d, w.sigma, m) == DefaultTri(d, w'.sigma, m')
      && (s.Type() == STristate ==> m == m')
  {
    hide Theory, Ranked, Solution, Bounds, DefaultTri, TriAt, Agree, AgreeAll, AgreeBelow;
    TheoryParts(g, w);
    TheoryParts(g, w');
    AgreeBelowAssigned(g, w.rank, w.users, w'.users, w.sigma, w'.sigma, s, w.rank(s));
    PartsAgree(g, w.rank, w.sigma, w'.sigma, s);
    DefaultPartsAgree(g, w.rank, w.sigma, w'.sigma, s);
    DefaultAgrees(w.sigma, ModulesOf(g, w), w'.sigma, ModulesOf(g, w'), g.decls[s], w.users[s], NO);
  }

  /** Where `m` is no value, the bounds are not `m` either. */
  lemma SharpBounds(d: Decl, s: Symbol, cells: Cells, modules: Tri)
    requires s.IsLogic() && d.choiceOf.None?
    ensures var b := Bounds(d, s, cells, modules);
      EffectiveType(d, s, b.visible, modules) == SBool ==> b.visible != MOD && b.rev != MOD && b.dir != MOD
  {
    hide PromptMax, Value;
  }

  lemma GivenLogic(d: Decl, s: Symbol, u: User, val: Tri, b: Cell, cells: Cells, m: Tri, cells': Cells, m': Tri)
    requires s.IsLogic() && d.choiceOf.None? && !d.isChoice && (s.Type() == STristate ==> m == m')
    requires DefaultTri(d, cells, m) == DefaultTri(d, cells', m')
    requires EffectiveType(d, s, b.visible, m) == SBool ==> b.visible != MOD && b.rev != MOD && b.dir != MOD
    ensures var t := LogicTri(d, s, u, b, cells, m);
      LogicTri(d, s, u.(has := true, tri := val), b, cells', m') == val <==> TakesEffect(d, s, b.(tri := t), m, val)
  {
    hide DefaultTri;
  }

  /** For a value within range the bounds fail to admit it exactly when the symbol
      is selected against an unmet dependency. */
  lemma WithinRangeTakesEffect(d: Decl, s: Symbol, x: Cell, modules: Tri, val: Tri)
    requires WithinRange(d, s, x, modules, val) && d.choiceOf.None?
    ensures TakesEffect(d, s, x, modules, val) <==> !(x.dir == NO && x.rev != NO)
    ensures s.IsLogic()
  {
  }

  /** The range test accepts the values that take effect, for the symbols whose
      value the user can change: those visible above what selects them. */
  lemma WithinRangeExact(d: Decl, s: Symbol, x: Cell, modules: Tri, val: Tri)
    requires s.IsLogic() && d.choiceOf.None? && !(x.dir == NO && x.rev != NO)
    ensures WithinRange(d, s, x, modules, val) <==>
      x.visible > x.rev && TakesEffect(d, s, x, modules, val)
  {
  }

  // ----- what the assignment writes -----

  function Flagged(u: User, given: bool): User {
    if given then u.(has := true) else u
  }

  /** The user values after `s` was made the pick of its choice `c`. */
  function Picking(g: Graph, a: State, c: Symbol, s: Symbol): Users {
    map t | t in a.users ::
      if c !in g.decls then a.users[t]
      else if t == c then a.users[t].(has := true, pick := Some(s))
      else Flagged(a.users[t], t in g.decls[c].members && t in a.cell && a.cell[t].visible != NO)
  }

  /** The user values that an accepted assignment leaves. Setting a choice value to
      `y` also makes it the pick of its choice, and counts as a user value for the
      choice and for all its visible members. */
  function Assigned(g: Graph, a: State, s: Symbol, val: Tri): Users
    requires s in g.decls && s in a.users
  {
    var d := g.decls[s];
    Given(if d.choiceOf.Some? && val == YES then Picking(g, a, d.choiceOf.value, s) else a.users, s, val)
  }

  /** In the solution after a choice value was set to `y`, whose choice is `y`, that
      value and no other member is `y` if it is visible, and it is `n` if it is not. */
  lemma PickTakesEffect(g: Graph, w: World, a: State, c: Symbol, s: Symbol)
    requires Theory(g, w) && s in g.decls && s in a.users && w.users == Assigned(g, a, s, YES)
    requires c in g.decls && g.decls[c].isChoice && s in g.decls[c].members && c in w.sigma && w.sigma[c].tri == YES
    requires forall m :: m in g.decls[c].members && m in g.decls ==> g.decls[m].defaults == []
    ensures s in w.sigma
    ensures w.sigma[s].visible != NO ==>
      forall m :: m in g.decls[c].members ==> m in w.sigma && w.sigma[m].tri == Truth(m == s)
    ensures w.sigma[s].visible == NO ==> w.sigma[s].tri == NO
  {
    hide Theory;
    MemberFacts(g, w, c, s);
    var p := ChoiceExactlyOne(g, w, c);
    var q := SelectionIsPick(g, w, c);
    assert w.users[c].has && w.users[c].pick == Some(s);
    assert VisibleIn(w)(s) ==> p == s;
  }

  /** And the choice keeps its user value, if no member has become visible meanwhile. */
  lemma PickKept(g: Graph, w: World, a: State, c: Symbol, s: Symbol)
    requires Theory(g, w) && s in g.decls && s in a.users && w.users == Assigned(g, a, s, YES)
    requires c in g.decls && g.decls[c].isChoice && s in g.decls[c].members && c in w.sigma && w.sigma[c].tri == YES
    requires forall m :: m in g.decls[c].members && m in w.sigma && w.sigma[m].visible != NO ==>
      m in a.cell && a.cell[m].visible != NO
    ensures c in w.users && KeepsUser(g, w.users, w.sigma, c)
  {
    hide Theory, KeepsUser;
    MemberFacts(g, w, c, s);
    KeepsExactly(g, w, c);
  }

  // ----- user values in a calculated state -----

  /** No calculated choice has lost its user value. */
  ghost predicate Intact(g: Graph, w: World, a: State) {
    forall c :: c in a.valid && c in g.decls && c in w.users && g.decls[c].isChoice && w.users[c].has ==>
      KeepsUser(g, w.users, w.sigma, c)
  }

  lemma IntactUsers(g: Graph, w: World, a: State)
    requires AllGood(g, w, a) && Intact(g, w, a)
    ensures a.users == w.users
  {
    hide KeepsUser, GoodCells;
    assert Good(g, w, 0, a);
    forall t | t in g.decls ensures a.users[t] == w.users[t] {
      assert Good(g, w, w.rank(t) + 1, a);
    }
  }

  /** Without choices nothing is ever lost. */
  lemma ChoiceFreeIntact(g: Graph, w: World, a: State)
    requires forall c :: c in g.decls ==> !g.decls[c].isChoice
    ensures Intact(g, w, a)
  {
  }

  lemma CalculatedPicks(g: Graph, w: World, a: State)
    requires Theory(g, w) && AllGood(g, w, a)
    ensures UserPicks(g, a.users) && a.users.Keys == g.decls.Keys
  {
    hide Ranked, Solution, KeepsUser, GoodCells;
    assert Good(g, w, 0, a);
    forall c | c in g.decls && c in a.users ensures a.users[c].pick == w.users[c].pick {
      assert Good(g, w, w.rank(c) + 1, a);
    }
  }

  /** The solutions for the user values before and after the assignment. */
  lemma Worlds(g: Graph, w: World, a: State, s: Symbol, val: Tri) returns (now: World, w': World)
    requires Theory(g, w) && AllGood(g, w, a) && s in g.decls && s in a.users && g.decls[s].choiceOf.None?
    ensures Theory(g, now) && now.rank == w.rank && now.users == a.users && s in now.sigma
    ensures Theory(g, w') && w'.rank == w.rank && w'.users == Assigned(g, a, s, val) == Given(a.users, s, val)
    ensures Intact(g, w, a) ==> now == w
  {
    hide Ranked, Solution, AllGood, Intact;
    CalculatedPicks(g, w, a);
    var cells := SolutionExists(g, w.rank, a.users);
    now := World(w.rank, cells, a.users);
    SolutionCovers(g, a.users, cells);
    var after := SolutionExists(g, w.rank, Given(a.users, s, val));
    w' := World(w.rank, after, Given(a.users, s, val));
    if Intact(g, w, a) {
      IntactUsers(g, w, a);
      SolutionUnique(g, w.rank, w.users, cells, w.sigma);
    }
  }

  lemma SolutionCovers(g: Graph, users: Users, cells: Cells)
    requires Solution(g, users, cells)
    ensures cells.Keys == g.decls.Keys
  {
  }

  lemma Judged(g: Graph, w: World, now: World, w': World, a: State, s: Symbol, val: Tri)
    requires Theory(g, w) && AllGood(g, w, a) && Shape(g, a) && s in a.valid && g.decls[s].choiceOf.None?
    requires !g.decls[s].isChoice
    requires Theory(g, now) && now.rank == w.rank && now.users == a.users && (Intact(g, w, a) ==> now == w)
    requires Theory(g, w') && w'.rank == w.rank && w'.users == Given(a.users, s, val)
    requires WithinRange(g.decls[s], s, a.cell[s], a.modulesVal, val)
    ensures s in now.sigma && s in w'.sigma
    ensures w'.sigma[s].tri == val <==> TakesEffect(g.decls[s], s, now.sigma[s], ModulesOf(g, now), val)
    ensures Intact(g, w, a) ==> (w'.sigma[s].tri == val <==> !(a.cell[s].dir == NO && a.cell[s].rev != NO))
  {
    hide Theory, AllGood, Intact, WithinRange, TakesEffect;
    WithinRangeTakesEffect(g.decls[s], s, a.cell[s], a.modulesVal, val);
    AssignmentTakesEffect(g, now, w', s, val);
    AllGoodAgrees(g, w, a, s);
    AllGoodModules(g, w, a);
  }

  lemma TheoryParts(g: Graph, w: World)
    requires Theory(g, w)
    ensures Ranked(g, w.rank) && Solution(g, w.users, w.sigma)
  {
    hide Ranked, Solution;
  }
}
