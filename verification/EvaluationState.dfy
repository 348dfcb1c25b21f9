/** The state of the evaluator, what it means for it to agree with a solution of
    the equations, and what an evaluation may change. */
module EvaluationState {
  import opened Symbols
  import opened Expressions
  import opened SymbolEquations

  /** All that the evaluator changes. */
  datatype State = State(
    valid: set<Symbol>,
    need: set<Symbol>,
    cell: Cells,
    users: Users,
    modulesVal: Tri)

  ghost predicate Shape(g: Graph, a: State) {
    && a.cell.Keys == g.decls.Keys
    && a.users.Keys == g.decls.Keys
    && a.valid <= g.decls.Keys
    && a.need <= g.decls.Keys
    && (forall s :: s in g.decls ==> s.Config?)
  }

  /** What an evaluation may do to the measure of the remaining work. */
  ghost predicate Progress(g: Graph, a: State, b: State) {
    && Shape(g, b)
    && b.need <= a.need
    && (b.need == a.need ==> a.valid <= b.valid)
  }

  // ----- correctness on acyclic graphs -----

  /** A ranking of the symbols, a solution of the equations, and the user values
      it is a solution for. */
  datatype World = World(rank: Symbol -> nat, sigma: Cells, users: Users)

  ghost predicate UserPicks(g: Graph, users: Users) {
    forall c :: c in g.decls && c in users && g.decls[c].isChoice && users[c].pick.Some? ==>
      users[c].pick.value in g.decls[c].members
  }

  /** Fields that are never calculated for a symbol keep their first value. */
  ghost predicate Inert(g: Graph, cell: Cells) {
    forall t :: t in g.decls && t in cell ==>
      && (g.decls[t].choiceOf.Some? ==> cell[t].dir == cell[t].rev == cell[t].imp == NO)
      && (t.Type() == SUnknown ==>
        cell[t].tri == cell[t].visible == cell[t].dir == cell[t].rev == cell[t].imp == NO && cell[t].pick == None)
  }

  ghost predicate ModulesGood(g: Graph, w: World, k: nat, a: State) {
    if !g.modules.Config? then a.modulesVal == TriAt(map[], g.modules)
    else
      && g.modules in g.decls && g.modules in a.cell && g.modules in w.sigma
      && (w.rank(g.modules) < k ==> g.modules in a.valid && a.modulesVal == w.sigma[g.modules].tri)
      && (g.modules !in a.valid ==> a.modulesVal == a.cell[g.modules].tri)
  }

  /** The graph is acyclic and the solution is one. */
  ghost predicate Theory(g: Graph, w: World) {
    Ranked(g, w.rank) && Solution(g, w.users, w.sigma) && UserPicks(g, w.users)
  }

  /** Every calculated symbol below `k` has the state the solution gives it;
      symbols from `k` on may be in the middle of their calculation. */
  ghost predicate GoodCells(g: Graph, w: World, k: nat, a: State) {
    && Shape(g, a) && w.sigma.Keys == g.decls.Keys
    && Inert(g, a.cell)
    && ModulesGood(g, w, k, a)
    && (forall t :: t in a.valid && w.rank(t) < k ==> a.cell[t] == w.sigma[t])
    && (forall t :: t in a.valid && w.rank(t) < k && g.decls[t].choiceOf.Some? ==> g.decls[t].choiceOf.value in a.valid)
  }

  /** User values are as given, except that a calculated choice has the one that
      its calculation leaves it. */
  ghost predicate GoodUsers(g: Graph, w: World, k: nat, a: State) {
    && Shape(g, a) && w.users.Keys == g.decls.Keys
    && (forall t :: t in g.decls && (t !in a.valid || !g.decls[t].isChoice) ==> a.users[t] == w.users[t])
    && (forall t :: t in a.valid && w.rank(t) < k && g.decls[t].isChoice ==> ChoiceUser(g, w, a, t))
  }

  ghost predicate ChoiceUser(g: Graph, w: World, a: State, c: Symbol) {
    c in g.decls && c in w.users && c in a.users && a.users[c] == UserAfter(g, w.users, w.sigma, c)
  }

  ghost predicate Good(g: Graph, w: World, k: nat, a: State) {
    && Shape(g, a)
    && w.sigma.Keys == w.users.Keys == g.decls.Keys
    && a.need == {}
    && GoodCells(g, w, k, a)
    && GoodUsers(g, w, k, a)
  }

  lemma GoodShape(g: Graph, w: World, k: nat, a: State)
    requires Good(g, w, k, a)
    ensures Shape(g, a)
  {
    hide GoodCells, GoodUsers;
  }

  lemma SameUsers(g: Graph, w: World, k: nat, a: State, b: State)
    requires GoodUsers(g, w, k, a) && Shape(g, b) && b.valid == a.valid && b.users == a.users
    ensures GoodUsers(g, w, k, b)
  {
    hide UserAfter;
  }

  predicate SameValue(x: Cell, y: Cell) {
    x.tri == y.tri && x.text == y.text && x.pick == y.pick
  }

  /** Whether an evaluation below `k` that starts in `a` leaves the visibility of `t` alone. */
  ghost predicate VisibleKept(g: Graph, w: World, k: nat, a: State, t: Symbol)
    requires t in g.decls
  {
    g.decls[t].choiceOf.None? || g.decls[t].choiceOf.value in a.valid || w.rank(g.decls[t].choiceOf.value) >= k
  }

  /** An evaluation of symbols below `k` leaves the others alone, except for the
      cells of `ex` and the visibility of `mv`. */
  ghost predicate Framed(g: Graph, w: World, k: nat, ex: set<Symbol>, mv: set<Symbol>, a: State, b: State)
    requires Shape(g, a) && Shape(g, b)
  {
    && a.valid <= b.valid
    && (forall t :: t in g.decls && w.rank(t) >= k ==>
      && (t in a.valid <==> t in b.valid)
      && (t !in ex ==> a.users[t] == b.users[t])
      && (t !in ex ==> b.cell[t] == a.cell[t].(visible := b.cell[t].visible))
      && (t !in ex && t !in mv && VisibleKept(g, w, k, a, t) ==> b.cell[t].visible == a.cell[t].visible))
    && (forall t :: t in a.valid && t !in ex ==> a.users[t] == b.users[t])
    && ((!g.modules.Config? || g.modules in a.valid || w.rank(g.modules) >= k) ==> a.modulesVal == b.modulesVal)
  }

  lemma FramedTransitive(g: Graph, w: World, k: nat, ex: set<Symbol>, mv: set<Symbol>, a: State, b: State, c: State)
    requires Shape(g, a) && Shape(g, b) && Shape(g, c)
    requires Framed(g, w, k, ex, mv, a, b) && Framed(g, w, k, ex, mv, b, c)
    ensures Framed(g, w, k, ex, mv, a, c)
  {
  }

  lemma FramedWiden(g: Graph, w: World, k: nat, ex: set<Symbol>, mv: set<Symbol>, a: State, b: State)
    requires Shape(g, a) && Shape(g, b) && Framed(g, w, k, {}, {}, a, b)
    ensures Framed(g, w, k, ex, mv, a, b)
  {
  }

  lemma FramedMore(g: Graph, w: World, k: nat, ex: set<Symbol>, mv: set<Symbol>, ex': set<Symbol>, mv': set<Symbol>,
                   a: State, b: State)
    requires Shape(g, a) && Shape(g, b) && Framed(g, w, k, ex, mv, a, b) && ex <= ex' && mv <= mv'
    ensures Framed(g, w, k, ex', mv', a, b)
  {
  }

  /** An evaluation below a smaller bound is one below `k`. */
  lemma GoodLift(g: Graph, w: World, j: nat, k: nat, a: State, b: State)
    requires j <= k && Good(g, w, k, a) && Good(g, w, j, b) && Framed(g, w, j, {}, {}, a, b)
    ensures Good(g, w, k, b) && Framed(g, w, k, {}, {}, a, b)
  {
    hide GoodUsers, GoodCells, Framed;
    UsersLift(g, w, j, k, a, b);
    CellsLift(g, w, j, k, a, b);
    FramedLift(g, w, j, k, a, b);
  }

  lemma CellsLift(g: Graph, w: World, j: nat, k: nat, a: State, b: State)
    requires j <= k && Good(g, w, k, a) && Good(g, w, j, b) && Framed(g, w, j, {}, {}, a, b)
    ensures GoodCells(g, w, k, b)
  {
    hide GoodUsers;
  }

  lemma FramedLift(g: Graph, w: World, j: nat, k: nat, a: State, b: State)
    requires j <= k && Good(g, w, k, a) && Good(g, w, j, b) && Framed(g, w, j, {}, {}, a, b)
    ensures Framed(g, w, k, {}, {}, a, b)
  {
    hide GoodUsers, Inert;
  }

  lemma UsersLift(g: Graph, w: World, j: nat, k: nat, a: State, b: State)
    requires j <= k && Good(g, w, k, a) && Good(g, w, j, b) && Framed(g, w, j, {}, {}, a, b)
    ensures GoodUsers(g, w, k, b)
  {
    hide UserAfter, GoodCells;
  }

  lemma GoodLower(g: Graph, w: World, j: nat, k: nat, a: State)
    requires j <= k && Good(g, w, k, a)
    ensures Good(g, w, j, a)
  {
    hide UserAfter;
  }

  /** The symbols in `ss` will be read with the values they have in `target`. */
  ghost predicate Sees(g: Graph, w: World, k: nat, a: State, target: Cells, ss: set<Symbol>)
    requires Shape(g, a)
  {
    forall t :: t in ss && t.Config? ==>
      && t in g.decls && t in target && t in w.sigma
      && (if w.rank(t) < k then SameValue(target[t], w.sigma[t])
          else t in a.valid && SameValue(target[t], a.cell[t]))
      && (t.IsLogic() && target[t].tri == MOD ==> ModulesReady(g, w, k))
  }

  ghost predicate ModulesReady(g: Graph, w: World, k: nat) {
    !g.modules.Config? || w.rank(g.modules) < k
  }

  /** The symbols in `ss` are calculated and have the values they have in `target`. */
  ghost predicate Seen(g: Graph, a: State, target: Cells, ss: set<Symbol>)
    requires Shape(g, a)
  {
    forall t :: t in ss && t.Config? ==> t in a.valid && t in target && SameValue(target[t], a.cell[t])
  }

  lemma SeesKept(g: Graph, w: World, k: nat, ex: set<Symbol>, mv: set<Symbol>, a: State, b: State,
                 target: Cells, ss: set<Symbol>)
    requires Shape(g, a) && Shape(g, b) && Framed(g, w, k, ex, mv, a, b)
    requires forall t :: t in ss && t in ex ==> w.rank(t) < k
    requires Sees(g, w, k, a, target, ss)
    ensures Sees(g, w, k, b, target, ss)
  {
  }

  lemma SeenKept(g: Graph, w: World, k: nat, ex: set<Symbol>, mv: set<Symbol>, a: State, b: State,
                 target: Cells, ss: set<Symbol>)
    requires Good(g, w, k, a) && Good(g, w, k, b) && Framed(g, w, k, ex, mv, a, b)
    requires forall t :: t in ss && t in ex ==> w.rank(t) < k
    requires Seen(g, a, target, ss)
    ensures Seen(g, b, target, ss)
  {
    hide GoodUsers;
    forall t | t in ss && t.Config?
      ensures t in b.valid && t in target && SameValue(target[t], b.cell[t])
    {
      if w.rank(t) < k {
        assert a.cell[t] == w.sigma[t] == b.cell[t];
      }
    }
  }

  lemma SeesSplit(g: Graph, w: World, k: nat, a: State, target: Cells, ss: set<Symbol>, tt: set<Symbol>)
    requires Shape(g, a) && Sees(g, w, k, a, target, ss + tt)
    ensures Sees(g, w, k, a, target, ss) && Sees(g, w, k, a, target, tt)
  {
  }

  lemma SeenUnion(g: Graph, a: State, target: Cells, ss: set<Symbol>, tt: set<Symbol>)
    requires Shape(g, a) && Seen(g, a, target, ss) && Seen(g, a, target, tt)
    ensures Seen(g, a, target, ss + tt)
  {
  }

  lemma SeenTri(g: Graph, a: State, target: Cells, s: Symbol)
    requires Shape(g, a) && Seen(g, a, target, {s})
    ensures TriAt(a.cell, s) == TriAt(target, s)
  {
    assert s in {s};
  }

  /** A bool symbol is never `m` in a solution. */
  lemma BoolNotMod(g: Graph, users: Users, sigma: Cells, s: Symbol)
    requires Solution(g, users, sigma) && s in g.decls && s.Type() == SBool
    ensures sigma[s].tri != MOD
  {
    assert sigma[s] == Equation(g, users, sigma, s);
  }

  ghost function ModulesOf(g: Graph, w: World): Tri {
    TriAt(w.sigma, g.modules)
  }

  /** The value of the modules symbol is the one the solution gives it. */
  lemma ModulesSettled(g: Graph, w: World, k: nat, a: State)
    requires Good(g, w, k, a) && ModulesReady(g, w, k)
    ensures a.modulesVal == ModulesOf(g, w) == TriAt(a.cell, g.modules)
  {
    hide GoodUsers;
  }

  lemma BeforeCalc(g: Graph, w: World, k: nat, a: State, target: Cells, s: Symbol)
    requires Good(g, w, k, a) && Sees(g, w, k, a, target, {s})
    ensures s in g.decls && s !in a.valid ==> w.rank(s) < k && Good(g, w, w.rank(s) + 1, a)
  {
    if s in g.decls && s !in a.valid {
      assert s in {s};
      GoodLower(g, w, w.rank(s) + 1, k, a);
    }
  }

  lemma NowSeen(g: Graph, w: World, k: nat, a: State, b: State, target: Cells, s: Symbol)
    requires Good(g, w, k, a) && Good(g, w, k, b) && Framed(g, w, k, {}, {}, a, b) && Sees(g, w, k, a, target, {s})
    requires s in g.decls ==> s in b.valid
    ensures Seen(g, b, target, {s})
  {
    hide GoodUsers;
    assert s in {s};
  }

  /** After its calculation a symbol has the value it is to be read with. */
  lemma AfterCalc(g: Graph, w: World, k: nat, a: State, b: State, target: Cells, s: Symbol)
    requires Good(g, w, k, a) && Sees(g, w, k, a, target, {s})
    requires s in a.valid || s !in g.decls ==> b == a
    requires s in g.decls && s !in a.valid ==>
      Shape(g, b) && Good(g, w, w.rank(s) + 1, b) && Framed(g, w, w.rank(s) + 1, {}, {}, a, b) && s in b.valid
    ensures Good(g, w, k, b) && Framed(g, w, k, {}, {}, a, b) && Seen(g, b, target, {s})
  {
    hide Good, Framed;
    if s in g.decls && s !in a.valid {
      GoodLift(g, w, w.rank(s) + 1, k, a, b);
    } else {
      GoodShape(g, w, k, a);
      FramedRefl(g, w, k, a);
    }
    NowSeen(g, w, k, a, b, target, s);
  }

  ghost predicate SeesAll(g: Graph, w: World, k: nat, a: State, target: Cells, es: seq<Option<Expr>>)
    requires Shape(g, a)
  {
    forall e :: e in es ==> Sees(g, w, k, a, target, MentionsOpt(e))
  }

  lemma SeesAllKept(g: Graph, w: World, k: nat, ex: set<Symbol>, mv: set<Symbol>, a: State, b: State,
                    target: Cells, es: seq<Option<Expr>>)
    requires Shape(g, a) && Shape(g, b) && Framed(g, w, k, ex, mv, a, b)
    requires forall e, t :: e in es && t in MentionsOpt(e) && t in ex ==> w.rank(t) < k
    requires SeesAll(g, w, k, a, target, es)
    ensures SeesAll(g, w, k, b, target, es)
  {
    forall e | e in es ensures Sees(g, w, k, b, target, MentionsOpt(e)) {
      SeesKept(g, w, k, ex, mv, a, b, target, MentionsOpt(e));
    }
  }

  /** The state with the cell of one symbol replaced. */
  function WithCell(a: State, s: Symbol, x: Cell): State {
    a.(cell := a.cell[s := x])
  }

  ghost predicate InertCell(g: Graph, s: Symbol, x: Cell)
    requires s in g.decls
  {
    && s.Type() != SUnknown
    && (g.decls[s].choiceOf.Some? ==> x.dir == x.rev == x.imp == NO)
  }

  /** Changing the bounds of a symbol that is not finished disturbs nothing. */
  lemma SetBounds(g: Graph, w: World, k: nat, a: State, s: Symbol, x: Cell)
    requires Good(g, w, k, a) && s in g.decls && w.rank(s) >= k && InertCell(g, s, x)
    requires SameValue(a.cell[s], x) || s in a.valid
    ensures Good(g, w, k, WithCell(a, s, x)) && Framed(g, w, k, {s}, {}, a, WithCell(a, s, x))
  {
    hide GoodUsers, GoodCells, Framed;
    SameUsers(g, w, k, a, WithCell(a, s, x));
    BoundsCells(g, w, k, a, s, x);
    BoundsFramed(g, w, k, a, s, x);
  }

  lemma BoundsCells(g: Graph, w: World, k: nat, a: State, s: Symbol, x: Cell)
    requires Good(g, w, k, a) && s in g.decls && w.rank(s) >= k && InertCell(g, s, x)
    requires SameValue(a.cell[s], x) || s in a.valid
    ensures GoodCells(g, w, k, WithCell(a, s, x))
  {
    hide GoodUsers;
  }

  lemma BoundsFramed(g: Graph, w: World, k: nat, a: State, s: Symbol, x: Cell)
    requires Shape(g, a) && s in g.decls && w.rank(s) >= k
    ensures Framed(g, w, k, {s}, {}, a, WithCell(a, s, x))
  {
  }

  /** What is seen does not depend on bounds. */
  lemma SeesSameValue(g: Graph, w: World, k: nat, a: State, s: Symbol, x: Cell, target: Cells, ss: set<Symbol>)
    requires Shape(g, a) && s in g.decls && SameValue(a.cell[s], x)
    requires Sees(g, w, k, a, target, ss)
    ensures Shape(g, WithCell(a, s, x)) && Sees(g, w, k, WithCell(a, s, x), target, ss)
  {
  }

  lemma FramedRefl(g: Graph, w: World, k: nat, a: State)
    requires Shape(g, a)
    ensures Framed(g, w, k, {}, {}, a, a)
  {
  }

  /** The choice of `s` is calculated, or every prompt of `s` leads to it. */
  ghost predicate ChoiceInReach(g: Graph, w: World, k: nat, a: State, target: Cells, s: Symbol)
    requires Shape(g, a) && s in g.decls && g.decls[s].choiceOf.Some?
  {
    var d := g.decls[s];
    var c := d.choiceOf.value;
    && c.Config?
    && Sees(g, w, k, a, target, {c})
    && (c in a.valid || (d.prompts != [] && forall p :: p in d.prompts ==> c in MentionsOpt(p)))
  }

  lemma ChoiceReached(g: Graph, w: World, k: nat, a: State, b: State, target: Cells, s: Symbol, p: Option<Expr>)
    requires s in g.decls && g.decls[s].choiceOf.Some? && p in g.decls[s].prompts
    requires Good(g, w, k, a) && Good(g, w, k, b) && Framed(g, w, k, {}, {}, a, b)
    requires ChoiceInReach(g, w, k, a, target, s) && Seen(g, b, target, MentionsOpt(p))
    ensures ChoiceInReach(g, w, k, b, target, s)
    ensures g.decls[s].choiceOf.value in b.valid
    ensures TriAt(b.cell, g.decls[s].choiceOf.value) == TriAt(target, g.decls[s].choiceOf.value)
  {
    hide GoodUsers;
    var c := g.decls[s].choiceOf.value;
    SeesKept(g, w, k, {}, {}, a, b, target, {c});
    assert c in {c};
    if w.rank(c) < k && c in b.valid {
      assert b.cell[c] == w.sigma[c];
    }
  }

  /** The bounds of `b` with the value of `x`. */
  function Bounded(x: Cell, b: Cell): Cell {
    b.(tri := x.tri, text := x.text, pick := x.pick)
  }

  /** Types and visibility are derived from the settled value of the modules symbol. */
  lemma TypesAgree(g: Graph, w: World, k: nat, a: State, d: Decl, s: Symbol)
    requires Good(g, w, k, a) && (s.Type() == STristate ==> ModulesReady(g, w, k))
    ensures forall v: Tri :: EffectiveType(d, s, v, a.modulesVal) == EffectiveType(d, s, v, ModulesOf(g, w))
    ensures forall v: Tri :: ClampVisible(s, v, a.modulesVal) == ClampVisible(s, v, ModulesOf(g, w))
  {
    hide GoodUsers;
    if s.Type() == STristate {
      ModulesSettled(g, w, k, a);
    }
  }

  /** A symbol whose calculation may start: it is typed, not below `k`, and the
      modules symbol is settled if its type depends on it. */
  ghost predicate Startable(g: Graph, w: World, k: nat, s: Symbol) {
    && s in g.decls && w.rank(s) >= k && s.Type() != SUnknown
    && (s.Type() == STristate ==> ModulesReady(g, w, k))
  }

  datatype Part = Direct | Reverse | Implied

  function PartExpr(d: Decl, part: Part): Option<Expr> {
    match part
    case Direct => d.dirDep
    case Reverse => d.revDep
    case Implied => d.implied
  }

  /** A missing direct dependency is `yes`, the others are `no`. */
  function PartAbsent(part: Part): Tri {
    if part.Direct? then YES else NO
  }

  function WithPart(x: Cell, part: Part, t: Tri): Cell {
    match part
    case Direct => x.(dir := t)
    case Reverse => x.(rev := t)
    case Implied => x.(imp := t)
  }

  lemma CellKept(g: Graph, w: World, k: nat, a: State, b: State, s: Symbol)
    requires Shape(g, a) && Shape(g, b) && Framed(g, w, k, {}, {}, a, b)
    requires s in g.decls && w.rank(s) >= k && VisibleKept(g, w, k, a, s)
    ensures b.cell[s] == a.cell[s] && b.users[s] == a.users[s]
    ensures s in a.valid ==> s in b.valid
  {
  }

  lemma SeesAllSameValue(g: Graph, w: World, k: nat, a: State, s: Symbol, x: Cell, target: Cells, es: seq<Option<Expr>>)
    requires Shape(g, a) && s in g.decls && SameValue(a.cell[s], x)
    requires SeesAll(g, w, k, a, target, es)
    ensures Shape(g, WithCell(a, s, x)) && SeesAll(g, w, k, WithCell(a, s, x), target, es)
  {
    forall e | e in es ensures Sees(g, w, k, WithCell(a, s, x), target, MentionsOpt(e)) {
      SeesSameValue(g, w, k, a, s, x, target, MentionsOpt(e));
    }
  }

  lemma PromptsDone(g: Graph, w: World, k: nat, a: State, b: State, target: Cells, s: Symbol)
    requires Good(g, w, k, a) && Good(g, w, k, b) && Framed(g, w, k, {}, {}, a, b) && Startable(g, w, k, s)
    requires g.decls[s].choiceOf.None? ==> SeesAll(g, w, k, a, target, DependencyParts(g.decls[s]))
    ensures SameValue(a.cell[s], b.cell[s]) && a.users[s] == b.users[s]
    ensures a.cell[s].(visible := b.cell[s].visible) == b.cell[s]
    ensures g.decls[s].choiceOf.Some? ==> b.cell[s].dir == b.cell[s].rev == b.cell[s].imp == NO
    ensures g.decls[s].choiceOf.None? ==> SeesAll(g, w, k, b, target, DependencyParts(g.decls[s]))
  {
    hide GoodUsers;
    if g.decls[s].choiceOf.None? {
      SeesAllKept(g, w, k, {}, {}, a, b, target, DependencyParts(g.decls[s]));
    }
  }

  /** A bound calculated from `b` to `c` is stored in the cell of `s`. */
  lemma BoundStored(g: Graph, w: World, k: nat, a: State, b: State, c: State, s: Symbol, x: Cell, target: Cells)
    requires Shape(g, a) && Shape(g, b) && Shape(g, c) && Good(g, w, k, c)
    requires Startable(g, w, k, s) && g.decls[s].choiceOf.None?
    requires Framed(g, w, k, {s}, {}, a, b) && Framed(g, w, k, {}, {}, b, c)
    requires SeesAll(g, w, k, c, target, DependencyParts(g.decls[s])) && SameValue(c.cell[s], x)
    ensures Good(g, w, k, WithCell(c, s, x)) && Framed(g, w, k, {s}, {}, a, WithCell(c, s, x))
    ensures SeesAll(g, w, k, WithCell(c, s, x), target, DependencyParts(g.decls[s]))
  {
    hide Good, Framed, Sees;
    SetBounds(g, w, k, c, s, x);
    FramedWiden(g, w, k, {s}, {}, b, c);
    FramedTransitive(g, w, k, {s}, {}, a, b, c);
    FramedTransitive(g, w, k, {s}, {}, a, c, WithCell(c, s, x));
    SeesAllSameValue(g, w, k, c, s, x, target, DependencyParts(g.decls[s]));
  }
}
