/** When the values of a graph without choices can be calculated one after the
    other, and what the dependency check sees of that. */
module EvaluationOrder {
  import opened Symbols
  import opened Expressions
  import opened SymbolEquations
  import opened DependencyCheck

  ghost predicate ChoiceFree(g: Graph) {
    forall s :: s in g.decls ==> !g.decls[s].isChoice && g.decls[s].choiceOf.None?
  }

  ghost predicate Bounds(rs: seq<Range>, t: Symbol) {
    exists r :: r in rs && (t == r.lo || t == r.hi)
  }

  ghost predicate InAny(es: seq<Option<Expr>>, t: Symbol) {
    exists e :: e in es && t in MentionsOpt(e)
  }

  /** The value of a typed symbol is calculated from its expressions, from the
      bounds of its ranges, and for a tristate from the modules symbol. */
  ghost predicate Refers(g: Graph, s: Symbol, d: Decl, t: Symbol) {
    && s.Type() != SUnknown
    && (InAny(CheckedExprs(d), t) || Bounds(d.ranges, t) || (s.Type() == STristate && t == g.modules))
  }

  /** All that is referred to is declared. */
  ghost predicate Declared(g: Graph) {
    && (forall s :: s in g.decls ==> s.Config?)
    && (g.modules.Config? ==> g.modules in g.decls)
    && (forall s, t :: s in g.decls && Refers(g, s, g.decls[s], t) && t.Config? ==> t in g.decls)
  }

  ghost predicate Needs(g: Graph, s: Symbol, t: Symbol) {
    s in g.decls && t in g.decls && Refers(g, s, g.decls[s], t)
  }

  ghost predicate IsNeedsCycle(g: Graph, p: seq<Symbol>) {
    |p| >= 2 && p[0] == p[|p| - 1] && forall i :: 0 <= i < |p| - 1 ==> Needs(g, p[i], p[i + 1])
  }

  ghost predicate HasNeedsCycle(g: Graph) {
    exists p :: IsNeedsCycle(g, p)
  }

  // ----- the same relation as the one checked in a larger graph -----

  function BoundExprs(rs: seq<Range>): seq<Option<Expr>> {
    if rs == [] then [] else [Some(Sym(rs[0].lo)), Some(Sym(rs[0].hi))] + BoundExprs(rs[1..])
  }

  lemma InAnyConcat(es: seq<Option<Expr>>, fs: seq<Option<Expr>>, t: Symbol)
    ensures InAny(es + fs, t) <==> InAny(es, t) || InAny(fs, t)
  {
    if e :| e in es && t in MentionsOpt(e) { assert e in es + fs; }
    if e :| e in fs && t in MentionsOpt(e) { assert e in es + fs; }
  }

  lemma InAnySymbols(ss: seq<Symbol>, es: seq<Option<Expr>>, t: Symbol)
    requires |es| == |ss| && forall i :: 0 <= i < |ss| ==> es[i] == Some(Sym(ss[i]))
    ensures InAny(es, t) <==> t in ss
  {
    if t in ss {
      var i :| 0 <= i < |ss| && ss[i] == t;
      assert es[i] in es;
    }
  }

  lemma {:induction false} BoundExprsMention(rs: seq<Range>, t: Symbol)
    ensures InAny(BoundExprs(rs), t) <==> Bounds(rs, t)
  {
    if rs != [] {
      var r, rest := rs[0], rs[1..];
      BoundExprsMention(rest, t);
      InAnyConcat([Some(Sym(r.lo)), Some(Sym(r.hi))], BoundExprs(rest), t);
      InAnySymbols([r.lo, r.hi], [Some(Sym(r.lo)), Some(Sym(r.hi))], t);
      BoundsStep(rs, t);
    }
  }

  lemma BoundsStep(rs: seq<Range>, t: Symbol)
    requires rs != []
    ensures Bounds(rs, t) <==> t == rs[0].lo || t == rs[0].hi || Bounds(rs[1..], t)
  {
    assert rs == [rs[0]] + rs[1..];
  }

  function ModulesExpr(s: Symbol, modules: Symbol): seq<Option<Expr>> {
    if s.Type() == STristate then [Some(Sym(modules))] else []
  }

  function NeedsDecl(s: Symbol, d: Decl, modules: Symbol): Decl {
    if s.Type() == SUnknown then Decl(d.name, [], [], [], None, None, None, d.isChoice, d.members, d.choiceOf)
    else d.(prompts := d.prompts + (BoundExprs(d.ranges) + ModulesExpr(s, modules)))
  }

  /** The same symbols, each with everything it needs among its prompt conditions. */
  function NeedsGraph(g: Graph): Graph {
    Graph(map s | s in g.decls :: NeedsDecl(s, g.decls[s], g.modules), g.modules)
  }

  ghost function DefaultValues(d: Decl): seq<Option<Expr>> {
    seq(|d.defaults|, i requires 0 <= i < |d.defaults| => Some(d.defaults[i].value))
  }

  lemma CheckedSplit(d: Decl, t: Symbol)
    ensures InAny(CheckedExprs(d), t) <==>
      || InAny(DependencyParts(d), t) || InAny(d.prompts, t)
      || InAny(DefaultConds(d), t) || InAny(DefaultValues(d), t) || InAny(RangeConds(d), t)
  {
    hide InAny;
    var a, b, c, e, f := DependencyParts(d), d.prompts, DefaultConds(d), DefaultValues(d), RangeConds(d);
    assert CheckedExprs(d) == a + b + c + e + f;
    InAnyConcat(a + b + c + e, f, t);
    InAnyConcat(a + b + c, e, t);
    InAnyConcat(a + b, c, t);
    InAnyConcat(a, b, t);
  }

  lemma NeedsDeclRefers(g: Graph, s: Symbol, d: Decl, t: Symbol)
    ensures InAny(CheckedExprs(NeedsDecl(s, d, g.modules)), t) <==> Refers(g, s, d, t)
  {
    hide CheckedExprs, Bounds, InAny;
    var n := NeedsDecl(s, d, g.modules);
    CheckedSplit(d, t);
    CheckedSplit(n, t);
    if s.Type() == SUnknown {
      NothingIn(n, t);
    } else {
      InAnyConcat(d.prompts, BoundExprs(d.ranges) + ModulesExpr(s, g.modules), t);
      InAnyConcat(BoundExprs(d.ranges), ModulesExpr(s, g.modules), t);
      BoundExprsMention(d.ranges, t);
      InAnySymbols(if s.Type() == STristate then [g.modules] else [], ModulesExpr(s, g.modules), t);
    }
  }

  lemma NothingIn(d: Decl, t: Symbol)
    requires d.prompts == [] && d.defaults == [] && d.ranges == [] && d.dirDep == d.revDep == d.implied == None
    ensures !InAny(CheckedExprs(d), t)
  {
  }

  lemma NeedsEdges(g: Graph, s: Symbol, t: Symbol)
    ensures Edge(NeedsGraph(g), s, t) <==> Needs(g, s, t)
  {
    hide CheckedExprs, Refers, NeedsDecl;
    if s in g.decls { NeedsDeclRefers(g, s, g.decls[s], t); }
  }

  lemma NeedsCycles(g: Graph)
    ensures HasNeedsCycle(g) <==> HasCycle(NeedsGraph(g))
  {
    hide Edge, Needs, NeedsGraph;
    forall p ensures IsNeedsCycle(g, p) <==> IsCycle(NeedsGraph(g), p) {
      forall i | 0 <= i < |p| - 1 ensures Edge(NeedsGraph(g), p[i], p[i + 1]) <==> Needs(g, p[i], p[i + 1]) {
        NeedsEdges(g, p[i], p[i + 1]);
      }
    }
  }

  // ----- ranking and acyclicity -----

  lemma ReferredBelow(g: Graph, rank: Symbol -> nat, s: Symbol, t: Symbol)
    requires s in g.decls && !g.decls[s].isChoice && RankedPlain(g, rank, s, g.decls[s])
    requires Refers(g, s, g.decls[s], t) && t.Config?
    ensures t in g.decls && rank(t) < rank(s)
  {
    var d := g.decls[s];
    if InAny(CheckedExprs(d), t) {
      hide CheckedExprs, Bounds, Mentions;
      CheckedSplit(d, t);
      if InAny(DefaultValues(d), t) {
        var e :| e in DefaultValues(d) && t in MentionsOpt(e);
        var i :| 0 <= i < |d.defaults| && DefaultValues(d)[i] == e;
        assert d.defaults[i] in d.defaults && t in Mentions(d.defaults[i].value);
      }
    } else if Bounds(d.ranges, t) {
      var r :| r in d.ranges && (t == r.lo || t == r.hi);
      assert t in {r.lo} || t in {r.hi};
    } else {
      assert t in {g.modules};
    }
  }

  lemma RankingDescends(g: Graph, rank: Symbol -> nat)
    requires ChoiceFree(g) && Ranked(g, rank)
    ensures Declared(g) && !HasNeedsCycle(g)
  {
    hide Refers, RankedPlain, HasCycle, Edge;
    forall s, t | s in g.decls && Refers(g, s, g.decls[s], t) && t.Config? ensures t in g.decls && rank(t) < rank(s) {
      RefersTyped(g, s, t);
      ReferredBelow(g, rank, s, t);
    }
    var num: map<Symbol, nat> := map s | s in g.decls :: rank(s);
    var n := NeedsGraph(g);
    forall s, t | s in num && Edge(n, s, t) ensures t in num && num[t] < num[s] {
      NeedsEdges(g, s, t);
    }
    NumberedNoCycle(n, num);
    NeedsCycles(g);
  }

  lemma RefersTyped(g: Graph, s: Symbol, t: Symbol)
    requires s in g.decls && Refers(g, s, g.decls[s], t)
    ensures s.Type() != SUnknown
  {
  }

  ghost function RankOf(num: map<Symbol, nat>): Symbol -> nat {
    s => if s in num then num[s] else 0
  }

  /** What `s` refers to has a smaller number. */
  ghost predicate LowerNumbers(g: Graph, num: map<Symbol, nat>, s: Symbol) {
    && s in g.decls && s in num
    && forall t :: Refers(g, s, g.decls[s], t) && t.Config? ==> t in g.decls && t in num && num[t] < num[s]
  }

  lemma ExprsBelow(g: Graph, num: map<Symbol, nat>, s: Symbol, es: seq<Option<Expr>>)
    requires LowerNumbers(g, num, s) && s.Type() != SUnknown
    requires forall t :: InAny(es, t) ==> InAny(CheckedExprs(g.decls[s]), t)
    ensures BelowAll(g, RankOf(num), es, RankOf(num)(s))
  {
    hide CheckedExprs;
    forall e, t | e in es && t in MentionsOpt(e) && t.Config? ensures t in g.decls && RankOf(num)(t) < RankOf(num)(s) {
      assert InAny(es, t);
      assert Refers(g, s, g.decls[s], t);
    }
  }

  lemma RankedFromNumbers(g: Graph, num: map<Symbol, nat>, s: Symbol)
    requires LowerNumbers(g, num, s) && s.Type() != SUnknown
    ensures RankedPlain(g, RankOf(num), s, g.decls[s])
  {
    var d, rank := g.decls[s], RankOf(num);
    forall t ensures InAny(CheckedExprs(d), t) <==>
      || InAny(DependencyParts(d), t) || InAny(d.prompts, t)
      || InAny(DefaultConds(d), t) || InAny(DefaultValues(d), t) || InAny(RangeConds(d), t)
    {
      CheckedSplit(d, t);
    }
    hide CheckedExprs, InAny, LowerNumbers, Below;
    ExprsBelow(g, num, s, d.prompts);
    ExprsBelow(g, num, s, DependencyParts(d));
    ExprsBelow(g, num, s, DefaultConds(d));
    ExprsBelow(g, num, s, RangeConds(d));
    ExprsBelow(g, num, s, DefaultValues(d));
    forall f | f in d.defaults ensures Below(g, rank, Mentions(f.value), rank(s)) {
      var i :| 0 <= i < |d.defaults| && d.defaults[i] == f;
      assert DefaultValues(d)[i] == Some(f.value);
      assert Some(f.value) in DefaultValues(d) && MentionsOpt(Some(f.value)) == Mentions(f.value);
    }
    BoundsBelow(g, num, s);
  }

  lemma BoundsBelow(g: Graph, num: map<Symbol, nat>, s: Symbol)
    requires LowerNumbers(g, num, s) && s.Type() != SUnknown
    ensures var d, rank := g.decls[s], RankOf(num);
      && (forall r :: r in d.ranges ==> Below(g, rank, {r.lo}, rank(s)) && Below(g, rank, {r.hi}, rank(s)))
      && (s.Type() == STristate ==> Below(g, rank, {g.modules}, rank(s)))
  {
    hide CheckedExprs, InAny;
    var d := g.decls[s];
    forall r | r in d.ranges ensures Refers(g, s, d, r.lo) && Refers(g, s, d, r.hi) {
      assert Bounds(d.ranges, r.lo) && Bounds(d.ranges, r.hi);
    }
    assert s.Type() == STristate ==> Refers(g, s, d, g.modules);
  }

  lemma AcyclicRanked(g: Graph) returns (rank: Symbol -> nat)
    requires ChoiceFree(g) && Declared(g) && !HasNeedsCycle(g)
    ensures Ranked(g, rank)
  {
    hide Refers, RankedPlain, HasCycle, Edge, HasNeedsCycle;
    var n := NeedsGraph(g);
    NeedsCycles(g);
    CycleOrNumbering(n);
    var num: map<Symbol, nat> :| num.Keys == n.decls.Keys && Numbered(n, num);
    rank := RankOf(num);
    forall s | s in g.decls && s.Type() != SUnknown ensures RankedPlain(g, rank, s, g.decls[s]) {
      forall t | Refers(g, s, g.decls[s], t) && t.Config? ensures t in g.decls && t in num && num[t] < num[s] {
        NeedsEdges(g, s, t);
        assert Edge(n, s, t);
      }
      RankedFromNumbers(g, num, s);
    }
  }

  /** The symbols of a graph without choices can be ranked by what they need exactly
      when all it refers to is declared and no symbol needs its own value. */
  lemma RankedExactly(g: Graph)
    requires ChoiceFree(g)
    ensures (exists rank: Symbol -> nat :: Ranked(g, rank)) <==> Declared(g) && !HasNeedsCycle(g)
  {
    hide Ranked, Declared, HasNeedsCycle, ChoiceFree;
    if rank: Symbol -> nat :| Ranked(g, rank) { RankingDescends(g, rank); }
    if Declared(g) && !HasNeedsCycle(g) { var rank := AcyclicRanked(g); }
  }

  // ----- cycles that the check does not see -----

  lemma CycleOfTwo(g: Graph, s: Symbol, t: Symbol)
    requires Needs(g, s, t) && Needs(g, t, s)
    ensures HasNeedsCycle(g)
  {
    hide Needs;
    var p := [s, t, s];
    assert forall i :: 0 <= i < |p| - 1 ==> Needs(g, p[i], p[i + 1]);
    assert IsNeedsCycle(g, p);
  }

  /** An int symbol with a default whose range is one other symbol. */
  function Bounded(name: string, text: string, bound: Symbol): Decl {
    Decl(name, [], [Default(None, Sym(Const(text)))], [Range(None, bound, bound)], None, None, None, false, [], None)
  }

  function IntCell(text: string): Cell {
    Cell(NO, text, None, NO, YES, NO, NO)
  }

  lemma SmallNumbers()
    ensures StrToLL("1", 10) == 1 && StrToLL("2", 10) == 2
  {
    OneDigit("1", 1);
    OneDigit("2", 2);
  }

  lemma OneDigit(s: string, v: nat)
    requires |s| == 1 && '1' <= s[0] <= '9' && Digit(s[0]) == v
    ensures StrToLL(s, 10) == v
  {
    assert SkipSpace(s, 0) == 0;
    assert DigitsEnd(s, 1, 10) == 1;
    assert DigitsEnd(s, 0, 10) == 1;
    assert DigitsValue(s, 0, 0, 10) == 0;
    assert DigitsValue(s, 0, 1, 10) == v;
  }

  /** With both symbols at the same number the equation of each holds, whatever its
      own default is. */
  lemma BoundedEquation(g: Graph, users: Users, cells: Cells, s: Symbol, other: Symbol, name: string, text: string,
      both: string)
    requires g.modules == SymNo && s in g.decls && s in users && !users[s].has && s.Config? && s.Type() == SInt
    requires g.decls[s] == Bounded(name, text, other) && other.Config? && other.Type() == SInt
    requires other in cells && cells[other].text == both
    requires StrToLL(text, 10) == StrToLL(both, 10) ==> text == both
    ensures Equation(g, users, cells, s) == IntCell(both)
  {
    hide StrToLL;
    var d := g.decls[s];
    assert DefaultConds(d) == [None] && RangeConds(d) == [None];
    assert FirstActive([None], cells, NO) == 0;
    assert ProposedText(d, users[s], NO, cells, NO) == text;
  }

  const A: Symbol := Config(0, SInt)
  const B: Symbol := Config(1, SInt)

  /** Two symbols that bound each other's ranges. */
  function RangeCycle(): Graph {
    Graph(map[A := Bounded("A", "1", B), B := Bounded("B", "2", A)], SymNo)
  }

  lemma RangeCycleSolution(users: Users, both: string)
    requires users.Keys == {A, B} && !users[A].has && !users[B].has && (both == "1" || both == "2")
    ensures Solution(RangeCycle(), users, map[A := IntCell(both), B := IntCell(both)])
  {
    hide Equation, StrToLL;
    SmallNumbers();
    var g, cells := RangeCycle(), map[A := IntCell(both), B := IntCell(both)];
    BoundedEquation(g, users, cells, A, B, "A", "1", both);
    BoundedEquation(g, users, cells, B, A, "B", "2", both);
  }

  lemma RangeCycleNeeds()
    ensures HasNeedsCycle(RangeCycle())
  {
    hide CheckedExprs, HasNeedsCycle;
    var g := RangeCycle();
    assert Bounds(g.decls[A].ranges, B) by { assert g.decls[A].ranges[0] in g.decls[A].ranges; }
    assert Bounds(g.decls[B].ranges, A) by { assert g.decls[B].ranges[0] in g.decls[B].ranges; }
    CycleOfTwo(g, A, B);
  }

  /** The check passes such symbols, and yet their values are not determined: the
      equations have two solutions. */
  lemma RangeCycleUnchecked(users: Users)
    requires users.Keys == {A, B} && !users[A].has && !users[B].has
    ensures !HasCycle(RangeCycle()) && forall rank: Symbol -> nat :: !Ranked(RangeCycle(), rank)
    ensures Solution(RangeCycle(), users, map[A := IntCell("1"), B := IntCell("1")])
    ensures Solution(RangeCycle(), users, map[A := IntCell("2"), B := IntCell("2")])
  {
    hide Ranked, HasNeedsCycle, HasCycle, Solution, Edge;
    var g := RangeCycle();
    forall s, t ensures !Edge(g, s, t) { NoEdge(g, s, t); }
    NumberedNoCycle(g, map[A := 0, B := 0]);
    RangeCycleNeeds();
    RankedExactly(g);
    RangeCycleSolution(users, "1");
    RangeCycleSolution(users, "2");
  }

  lemma NoEdge(g: Graph, s: Symbol, t: Symbol)
    requires g == RangeCycle()
    ensures !Edge(g, s, t)
  {
    if s in g.decls {
      var d := g.decls[s];
      forall e | e in CheckedExprs(d) && t in MentionsOpt(e) ensures t.Const? {}
    }
  }

  /** A modules symbol that depends on a tristate passes the check, though the
      value of every tristate needs that of the modules symbol. */
  lemma ModulesCycleUnchecked(a: Symbol, m: Symbol, da: Decl, dm: Decl)
    requires a == Config(0, STristate) && m == Config(1, SBool)
    requires da == Decl("A", [], [], [], None, None, None, false, [], None)
    requires dm == Decl("MODULES", [], [], [], Some(Sym(a)), None, None, false, [], None)
    ensures var g := Graph(map[a := da, m := dm], m);
      !HasCycle(g) && forall rank: Symbol -> nat :: !Ranked(g, rank)
  {
    var g := Graph(map[a := da, m := dm], m);
    assert dm.dirDep in CheckedExprs(dm) && a in MentionsOpt(dm.dirDep);
    forall s, t | Edge(g, s, t) ensures s == m && t == a {
      var e :| e in CheckedExprs(g.decls[s]) && t in MentionsOpt(e);
    }
    NumberedNoCycle(g, map[a := 0, m := 1]);
    hide CheckedExprs, Ranked, HasNeedsCycle;
    CycleOfTwo(g, a, m);
    RankedExactly(g);
  }
}
