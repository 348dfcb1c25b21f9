/** The depth-first search for recursive dependencies, on graphs without choices. */
module DependencyCheck {
  import opened Symbols
  import opened Expressions
  import opened SymbolEquations

  /** The expressions that the check of a symbol walks. Bounds of ranges are not among them. */
  function CheckedExprs(d: Decl): seq<Option<Expr>> {
    DependencyParts(d) + d.prompts + DefaultConds(d)
    + seq(|d.defaults|, i requires 0 <= i < |d.defaults| => Some(d.defaults[i].value))
    + RangeConds(d)
  }

  /** The checked dependency relation. */
  ghost predicate Edge(g: Graph, s: Symbol, t: Symbol) {
    s in g.decls && t in g.decls && exists e :: e in CheckedExprs(g.decls[s]) && t in MentionsOpt(e)
  }

  ghost predicate IsPath(g: Graph, p: seq<Symbol>) {
    forall i :: 0 <= i < |p| - 1 ==> Edge(g, p[i], p[i + 1])
  }

  ghost predicate IsCycle(g: Graph, p: seq<Symbol>) {
    |p| >= 2 && IsPath(g, p) && p[0] == p[|p| - 1]
  }

  ghost predicate HasCycle(g: Graph) {
    exists p :: IsCycle(g, p)
  }

  ghost predicate OnCycle(g: Graph, s: Symbol) {
    exists p :: IsCycle(g, p) && s in p
  }

  lemma OnCycleHas(g: Graph, s: Symbol)
    requires OnCycle(g, s)
    ensures HasCycle(g)
  {
    hide IsCycle;
  }

  /** Every dependency has a smaller number. */
  ghost predicate Numbered(g: Graph, num: map<Symbol, nat>) {
    forall s, t :: s in num && Edge(g, s, t) ==> t in num && num[t] < num[s]
  }

  lemma {:induction false} PathDescends(g: Graph, num: map<Symbol, nat>, p: seq<Symbol>, i: nat)
    requires Numbered(g, num) && IsPath(g, p) && i < |p| && p[0] in num
    ensures p[i] in num && (i > 0 ==> num[p[i]] < num[p[0]])
  {
    if i > 0 {
      PathDescends(g, num, p, i - 1);
      assert Edge(g, p[i - 1], p[i - 1 + 1]);
    }
  }

  /** A numbering of all symbols rules out cycles. */
  lemma NumberedAcyclic(g: Graph, num: map<Symbol, nat>, p: seq<Symbol>)
    requires Numbered(g, num) && num.Keys == g.decls.Keys
    ensures !IsCycle(g, p)
  {
    if IsCycle(g, p) {
      assert Edge(g, p[0], p[0 + 1]);
      PathDescends(g, num, p, |p| - 1);
    }
  }

  lemma NumberedNoCycle(g: Graph, num: map<Symbol, nat>)
    requires Numbered(g, num) && num.Keys == g.decls.Keys
    ensures !HasCycle(g)
  {
    hide Numbered, IsCycle;
    forall p: seq<Symbol> ensures !IsCycle(g, p) { NumberedAcyclic(g, num, p); }
  }

  ghost predicate CanBeNumbered(g: Graph) {
    exists n: map<Symbol, nat> :: n.Keys == g.decls.Keys && Numbered(g, n)
  }

  lemma NumberingExcludesCycle(g: Graph)
    requires CanBeNumbered(g)
    ensures !HasCycle(g)
  {
    hide Numbered, HasCycle;
    var n: map<Symbol, nat> :| n.Keys == g.decls.Keys && Numbered(g, n);
    NumberedNoCycle(g, n);
  }

  ghost function Elements(p: seq<Symbol>): set<Symbol> {
    set s | s in p
  }

  lemma PathExtends(g: Graph, p: seq<Symbol>, s: Symbol)
    requires IsPath(g, p) && (p != [] ==> Edge(g, p[|p| - 1], s))
    ensures IsPath(g, p + [s])
  {
  }

  /** `p` leads to the symbol `s` that is being entered, and `check` marks it. */
  ghost predicate LeadsTo(g: Graph, check: set<Symbol>, p: seq<Symbol>, s: Symbol) {
    && check == Elements(p) && check <= g.decls.Keys && IsPath(g, p)
    && (p != [] && s in g.decls ==> Edge(g, p[|p| - 1], s))
  }

  /** `p` is the current path and ends in `s`. */
  ghost predicate EndsIn(g: Graph, check: set<Symbol>, p: seq<Symbol>, s: Symbol) {
    && check == Elements(p) && check <= g.decls.Keys && IsPath(g, p)
    && p != [] && p[|p| - 1] == s
  }

  lemma PathEnters(g: Graph, check: set<Symbol>, p: seq<Symbol>, s: Symbol)
    requires LeadsTo(g, check, p, s) && s in g.decls
    ensures EndsIn(g, check + {s}, p + [s], s)
  {
    hide Edge;
    PathExtends(g, p, s);
    assert Elements(p + [s]) == Elements(p) + {s};
  }

  lemma PathLeads(g: Graph, check: set<Symbol>, p: seq<Symbol>, s: Symbol, t: Symbol)
    requires EndsIn(g, check, p, s) && (t in g.decls ==> Edge(g, s, t))
    ensures LeadsTo(g, check, p, t)
  {
    hide Edge;
  }

  lemma PathRepeats(g: Graph, check: set<Symbol>, p: seq<Symbol>, s: Symbol)
    requires LeadsTo(g, check, p, s) && s in check
    ensures OnCycle(g, s)
  {
    hide Edge, IsPath;
    var c := PathCloses(g, p, s);
  }

  /** Meeting a symbol of the current path again closes a cycle. */
  lemma PathCloses(g: Graph, p: seq<Symbol>, s: Symbol) returns (c: seq<Symbol>)
    requires IsPath(g, p) && p != [] && Edge(g, p[|p| - 1], s) && s in p
    ensures IsCycle(g, c) && s in c
  {
    PathExtends(g, p, s);
    var i :| 0 <= i < |p| && p[i] == s;
    c := (p + [s])[i..];
    assert c[0] == s;
    forall j | 0 <= j < |c| - 1 ensures Edge(g, c[j], c[j + 1]) {
      assert c[j] == (p + [s])[i + j] && c[j + 1] == (p + [s])[i + j + 1];
    }
  }

  lemma PathOfNone(g: Graph)
    ensures Numbered(g, map[]) && forall s :: LeadsTo(g, {}, [], s)
  {
  }

  lemma EdgeFrom(g: Graph, s: Symbol, e: Option<Expr>)
    requires s in g.decls && e in CheckedExprs(g.decls[s])
    ensures forall t :: t in MentionsOpt(e) && t in g.decls ==> Edge(g, s, t)
  {
    hide CheckedExprs;
  }

  /** All symbols mentioned in the expressions are numbered. */
  ghost predicate Covered(g: Graph, num: map<Symbol, nat>, es: seq<Option<Expr>>) {
    forall e, t :: e in es && t in MentionsOpt(e) && t in g.decls ==> t in num
  }

  lemma CoveredStep(g: Graph, num: map<Symbol, nat>, num': map<Symbol, nat>, es: seq<Option<Expr>>, e: Option<Expr>)
    requires Covered(g, num, es) && num.Keys <= num'.Keys
    requires forall t :: t in MentionsOpt(e) && t in g.decls ==> t in num'
    ensures Covered(g, num', es + [e])
  {
  }

  lemma CoveredNone(g: Graph, num: map<Symbol, nat>)
    ensures Covered(g, num, [])
  {
  }

  /** The finished symbols are those entered and left, and they are numbered. */
  ghost predicate Consistent(g: Graph, check: set<Symbol>, checked: set<Symbol>, num: map<Symbol, nat>) {
    && check <= checked <= g.decls.Keys
    && num.Keys == checked - check
    && (forall s :: s in num ==> num[s] < |num|)
    && Numbered(g, num)
  }

  lemma Entering(g: Graph, check: set<Symbol>, checked: set<Symbol>, num: map<Symbol, nat>, s: Symbol)
    requires Consistent(g, check, checked, num) && s in g.decls && s !in checked
    ensures Consistent(g, check + {s}, checked + {s}, num)
  {
    hide Numbered;
  }

  lemma Leaving(g: Graph, check: set<Symbol>, checked: set<Symbol>, num: map<Symbol, nat>, s: Symbol)
    requires Consistent(g, check, checked, num) && s in check && s in g.decls
    requires Covered(g, num, CheckedExprs(g.decls[s]))
    ensures Consistent(g, check - {s}, checked, num[s := |num|])
  {
    hide Numbered, Covered, CheckedExprs;
    NextNumber(g, num, s);
  }

  /** A symbol all of whose dependencies are numbered gets the next number. */
  lemma NextNumber(g: Graph, num: map<Symbol, nat>, s: Symbol)
    requires Numbered(g, num) && s !in num && (forall t :: t in num ==> num[t] < |num|)
    requires s in g.decls && Covered(g, num, CheckedExprs(g.decls[s]))
    ensures var n := num[s := |num|];
      Numbered(g, n) && (forall t :: t in n ==> n[t] < |n|) && n.Keys == num.Keys + {s}
  {
    hide CheckedExprs;
    var n := num[s := |num|];
    assert |n| == |num| + 1;
    forall t, u | t in n && Edge(g, t, u)
      ensures u in n && n[u] < n[t]
    {
      if t == s {
        assert u in num;
      } else {
        assert t in num && u in num && num[u] < num[t];
      }
    }
  }

  // ----- a numbering from the absence of cycles -----

  /** A path through symbols that have no number yet ends in one whose dependencies
      all have one, or it closes a cycle. */
  lemma {:induction false} NextToNumber(g: Graph, num: map<Symbol, nat>, p: seq<Symbol>) returns (s: Symbol)
    requires !HasCycle(g) && num.Keys <= g.decls.Keys && IsPath(g, p) && p != []
    requires forall t | t in p :: t in g.decls && t !in num
    ensures s in g.decls && s !in num && Covered(g, num, CheckedExprs(g.decls[s]))
    decreases g.decls.Keys - Elements(p)
  {
    hide CheckedExprs, HasCycle;
    s := p[|p| - 1];
    if !Covered(g, num, CheckedExprs(g.decls[s])) {
      var e, t :| e in CheckedExprs(g.decls[s]) && t in MentionsOpt(e) && t in g.decls && t !in num;
      assert Edge(g, s, t);
      if t in p {
        var c := PathCloses(g, p, t);
        CycleGiven(g, c);
      }
      PathExtends(g, p, t);
      assert t in Elements(p + [t]) && t !in Elements(p);
      s := NextToNumber(g, num, p + [t]);
    }
  }

  lemma CycleGiven(g: Graph, c: seq<Symbol>)
    requires IsCycle(g, c)
    ensures HasCycle(g)
  {
  }

  lemma {:induction false} NumberAll(g: Graph, num: map<Symbol, nat>)
    requires !HasCycle(g) && num.Keys <= g.decls.Keys && Numbered(g, num) && forall t :: t in num ==> num[t] < |num|
    ensures CanBeNumbered(g)
    decreases g.decls.Keys - num.Keys
  {
    hide Numbered, HasCycle, Covered, CheckedExprs;
    if num.Keys != g.decls.Keys {
      var t :| t in g.decls && t !in num;
      var s := NextToNumber(g, num, [t]);
      NextNumber(g, num, s);
      NumberAll(g, num[s := |num|]);
    }
  }

  /** The symbols can be numbered exactly when there is no cycle. */
  lemma CycleOrNumbering(g: Graph)
    ensures HasCycle(g) <==> !CanBeNumbered(g)
  {
    hide Numbered, HasCycle, CanBeNumbered;
    if CanBeNumbered(g) {
      NumberingExcludesCycle(g);
    } else if !HasCycle(g) {
      PathOfNone(g);
      NumberAll(g, map[]);
    }
  }

  class Checker {
    const g: Graph
    /** Report recursive dependencies as errors instead of only printing them. */
    const recursiveIsError: bool
    /** Symbols on the current path, and all symbols ever entered. */
    var check: set<Symbol>
    var checked: set<Symbol>
    /** The finished symbols, numbered in the order in which they were finished. */
    ghost var num: map<Symbol, nat>

    constructor (graph: Graph, fatal: bool)
      ensures g == graph && recursiveIsError == fatal && check == {} && checked == {} && num == map[]
    {
      g, recursiveIsError, check, checked, num := graph, fatal, {}, {}, map[];
    }

    ghost predicate Inv()
      reads this
    {
      Consistent(g, check, checked, num)
    }

    /** `sym_check_deps`. */
    method CheckDeps(s: Symbol, ghost p: seq<Symbol>) returns (r: Option<Symbol>)
      requires checked <= g.decls.Keys && LeadsTo(g, check, p, s)
      modifies this
      ensures checked <= g.decls.Keys && check == old(check) && old(checked) <= checked
      ensures r.Some? ==> OnCycle(g, r.value)
      ensures recursiveIsError && old(Inv()) && r.None? ==> Inv() && (s in g.decls ==> s in num)
      ensures recursiveIsError && old(Inv()) && r.None? ==> old(num).Keys <= num.Keys
      ensures !recursiveIsError && r.Some? ==> r.value in check
      decreases g.decls.Keys - checked, 0
    {
      hide CheckedExprs, Edge, Numbered, Mentions, Covered, LeadsTo, EndsIn, OnCycle;
      if s !in g.decls {
        return None;
      }
      if s in check {
        PathRepeats(g, check, p, s);
        return Some(s);
      }
      if s in checked {
        return None;
      }
      if recursiveIsError && Inv() { Entering(g, check, checked, num, s); }
      PathEnters(g, check, p, s);
      check, checked := check + {s}, checked + {s};
      r := CheckExprs(s, CheckedExprs(g.decls[s]), p + [s]);
      if recursiveIsError && old(Inv()) && r.None? {
        Leaving(g, check, checked, num, s);
        num := num[s := |num|];
      }
      check := check - {s};
      if !recursiveIsError && r == Some(s) {
        r := None;
      }
    }

    /** `sym_check_sym_deps`: all expressions of a symbol, up to the first report. */
    method CheckExprs(s: Symbol, es: seq<Option<Expr>>, ghost p: seq<Symbol>) returns (r: Option<Symbol>)
      requires checked <= g.decls.Keys && s in g.decls && EndsIn(g, check, p, s)
      requires forall e :: e in es ==> e in CheckedExprs(g.decls[s])
      modifies this
      ensures checked <= g.decls.Keys && check == old(check) && old(checked) <= checked
      ensures r.Some? ==> OnCycle(g, r.value)
      ensures recursiveIsError && old(Inv()) && r.None? ==> Inv() && old(num).Keys <= num.Keys
      ensures recursiveIsError && old(Inv()) && r.None? ==> Covered(g, num, es)
      ensures !recursiveIsError && r.Some? ==> r.value in check
      decreases g.decls.Keys - checked, 3
    {
      hide CheckedExprs, Edge, Consistent, Mentions, Covered, EndsIn, OnCycle;
      var i := 0;
      CoveredNone(g, num);
      assert es[..0] == [];
      while i < |es|
        invariant 0 <= i <= |es|
        invariant checked <= g.decls.Keys && check == old(check) && old(checked) <= checked
        invariant recursiveIsError && old(Inv()) ==> Inv() && old(num).Keys <= num.Keys
        invariant recursiveIsError && old(Inv()) ==> Covered(g, num, es[..i])
      {
        ghost var before := num;
        if es[i].Some? {
          assert es[i] in es;
          EdgeFrom(g, s, es[i]);
          r := CheckExpr(s, es[i].value, p);
          if r.Some? {
            return;
          }
        }
        assert es[..i + 1] == es[..i] + [es[i]];
        if recursiveIsError && old(Inv()) { CoveredStep(g, before, num, es[..i], es[i]); }
        i := i + 1;
      }
      assert es[..i] == es;
      r := None;
    }

    /** `sym_check_expr_deps`. */
    method CheckExpr(s: Symbol, e: Expr, ghost p: seq<Symbol>) returns (r: Option<Symbol>)
      requires checked <= g.decls.Keys && s in g.decls && EndsIn(g, check, p, s)
      requires forall t :: t in Mentions(e) && t in g.decls ==> Edge(g, s, t)
      modifies this
      ensures checked <= g.decls.Keys && check == old(check) && old(checked) <= checked
      ensures r.Some? ==> OnCycle(g, r.value)
      ensures recursiveIsError && old(Inv()) && r.None? ==> Inv() && old(num).Keys <= num.Keys
      ensures recursiveIsError && old(Inv()) && r.None? ==> forall t :: t in Mentions(e) && t in g.decls ==> t in num
      ensures !recursiveIsError && r.Some? ==> r.value in check
      decreases g.decls.Keys - checked, 2, e
    {
      hide CheckedExprs, Edge, Consistent, LeadsTo, EndsIn, OnCycle;
      match e
      case Sym(t) =>
        PathLeads(g, check, p, s, t);
        r := CheckDeps(t, p);
      case Not(x) =>
        r := CheckExpr(s, x, p);
      case Cmp(_, t, u) =>
        PathLeads(g, check, p, s, t);
        PathLeads(g, check, p, s, u);
        r := CheckDeps(t, p);
        if r.None? {
          r := CheckDeps(u, p);
        }
      case Bin(_, x, y) =>
        r := CheckExpr(s, x, p);
        if r.None? {
          r := CheckExpr(s, y, p);
        }
    }

    /** The sweep of `conf_parse` over all symbols. With recursion as an error it
        counts no error exactly when the checked dependencies are acyclic; without,
        it never counts one. */
    method CheckAll(order: seq<Symbol>) returns (errors: nat)
      requires check == {} && checked == {} && num == map[]
      requires Elements(order) == g.decls.Keys
      modifies this
      ensures recursiveIsError ==> (errors == 0 <==> !HasCycle(g))
      ensures recursiveIsError ==> (errors == 0 <==> CanBeNumbered(g))
      ensures !recursiveIsError ==> errors == 0
    {
      hide Edge, Consistent, HasCycle, OnCycle, CanBeNumbered, LeadsTo, Elements;
      errors := 0;
      var i := 0;
      PathOfNone(g);
      SweepBegins(g);
      while i < |order|
        invariant 0 <= i <= |order|
        invariant check == {} && checked <= g.decls.Keys
        invariant errors > 0 ==> recursiveIsError && HasCycle(g)
        invariant recursiveIsError && errors == 0 ==> Inv() && forall j :: 0 <= j < i ==> order[j] in num
      {
        ElementsDeclared(g, order, i);
        var r := CheckDeps(order[i], []);
        if r.Some? {
          OnCycleHas(g, r.value);
          errors := errors + 1;
        }
        i := i + 1;
      }
      CycleOrNumbering(g);
      if recursiveIsError && errors == 0 { SweepEnds(g, checked, num, order); }
    }
  }

  lemma SweepBegins(g: Graph)
    ensures Consistent(g, {}, {}, map[])
  {
  }

  lemma ElementsDeclared(g: Graph, order: seq<Symbol>, i: nat)
    requires Elements(order) == g.decls.Keys && i < |order|
    ensures order[i] in g.decls
  {
    assert order[i] in Elements(order);
  }

  lemma SweepEnds(g: Graph, checked: set<Symbol>, num: map<Symbol, nat>, order: seq<Symbol>)
    requires Consistent(g, {}, checked, num) && Elements(order) == g.decls.Keys
    requires forall j :: 0 <= j < |order| ==> order[j] in num
    ensures CanBeNumbered(g)
  {
    hide Numbered;
    assert num.Keys == g.decls.Keys;
  }
}
