/** What a choice that is `y` does to its members. */
module Choices {
  import opened Symbols
  import opened Expressions
  import opened SymbolEquations
  import opened EvaluationState
  import opened EvaluationTheory
  import opened Solutions

  /** The visibility of a member is the same during the calculation of its choice
      and after it. */
  lemma MemberVisibleAfter(g: Graph, w: World, c: Symbol, x: Cell, m: Symbol)
    requires Theory(g, w) && c in g.decls && g.decls[c].isChoice && m in g.decls[c].members
    requires c in w.sigma && w.sigma[c].tri == YES == x.tri && w.sigma[c].text == x.text
    ensures m in g.decls && m in w.sigma
    ensures VisibleTri(g.decls[m], m, During(w, c, x), ModulesOf(g, w)) == w.sigma[m].visible
  {
    hide Theory, Mentions, VisibleTri, Agree;
    MemberFacts(g, w, c, m);
    SolvedLogic(g, w, m);
    var d, k := g.decls[m], ModulesOf(g, w);
    BoundsVisible(g, w, m);
    forall p | p in d.prompts
      ensures Agree(During(w, c, x), k, w.sigma, k, MentionsOpt(p))
    {
      DuringReads(g, w, c, x, MentionsOpt(p));
    }
    assert TriAt(During(w, c, x), c) == TriAt(w.sigma, c);
    VisibleAgrees(During(w, c, x), k, w.sigma, k, d, m);
  }

  lemma DuringReads(g: Graph, w: World, c: Symbol, x: Cell, ss: set<Symbol>)
    requires c in w.sigma && w.sigma[c].tri == x.tri && w.sigma[c].text == x.text
    requires Below(g, w.rank, ss - {c}, w.rank(c)) && w.sigma.Keys == g.decls.Keys
    ensures Agree(During(w, c, x), ModulesOf(g, w), w.sigma, ModulesOf(g, w), ss)
  {
    forall t | t in ss && t.Config?
      ensures t in During(w, c, x) && t in w.sigma && During(w, c, x)[t].tri == w.sigma[t].tri
      ensures During(w, c, x)[t].text == w.sigma[t].text
    {
      if t != c { assert t in ss - {c}; }
    }
  }

  lemma BoundsVisible(g: Graph, w: World, m: Symbol)
    requires Theory(g, w) && m in g.decls && m.IsLogic()
    ensures m in w.sigma && w.sigma[m].visible == VisibleTri(g.decls[m], m, w.sigma, ModulesOf(g, w))
    ensures w.sigma.Keys == g.decls.Keys
    ensures g.decls[m].choiceOf.Some? ==> w.sigma[m].dir == w.sigma[m].rev == w.sigma[m].imp == NO
  {
    hide Ranked, UserPicks, VisibleTri, LogicTri, PickMember, MemberVisibility;
    assert w.sigma[m] == Equation(g, w.users, w.sigma, m);
  }

  lemma {:induction false} PromptMaxSharp(d: Decl, s: Symbol, ps: seq<Option<Expr>>, cells: Cells, modules: Tri)
    requires d.choiceOf.Some? && s.Type() == STristate && TriAt(cells, d.choiceOf.value) == YES
    ensures PromptMax(d, s, ps, cells, modules) != MOD
  {
    hide Value, TriAt;
    if ps != [] { PromptMaxSharp(d, s, ps[..|ps| - 1], cells, modules); }
  }

  /** While the choice is `y`, a member is either fully visible or not at all. */
  lemma MemberSharp(g: Graph, w: World, c: Symbol, m: Symbol)
    requires Theory(g, w) && c in g.decls && g.decls[c].isChoice && m in g.decls[c].members
    requires c in w.sigma && w.sigma[c].tri == YES
    ensures m in w.sigma && w.sigma[m].visible != MOD
  {
    hide Theory, PromptMax;
    MemberFacts(g, w, c, m);
    ChoiceFacts(g, w, c);
    BoundsVisible(g, w, m);
    if m.Type() == STristate { PromptMaxSharp(g.decls[m], m, g.decls[m].prompts, w.sigma, ModulesOf(g, w)); }
  }

  /** What a choice that ends up `y` was calculated from. */
  lemma ChoiceIsPicked(g: Graph, w: World, c: Symbol) returns (x: Cell)
    requires Theory(g, w) && c in g.decls && g.decls[c].isChoice && c in w.sigma && w.sigma[c].tri == YES
    ensures c in w.users && x.tri == YES && x.text == w.sigma[c].text
    ensures w.sigma[c].pick.Some?
    ensures var d, t, m := g.decls[c], During(w, c, x), ModulesOf(g, w);
      w.sigma[c].pick == PickMember(d, w.users[c], MemberVisibility(g, d.members, t, m), t, m)
  {
    hide Theory, LogicTri, PickMember, MemberVisibility, VisibleTri, Bound;
    ChoiceFacts(g, w, c);
    SolvedLogic(g, w, c);
    x := Bounds(g.decls[c], c, w.sigma, ModulesOf(g, w)).(tri := YES);
  }

  /** A member of a choice that is `y` follows the selection. */
  lemma MemberFollows(g: Graph, w: World, c: Symbol, m: Symbol)
    requires Theory(g, w) && c in g.decls && g.decls[c].isChoice && m in g.decls[c].members
    requires c in w.sigma && w.sigma[c].tri == YES && m in g.decls && g.decls[m].defaults == []
    ensures m in w.sigma
    ensures w.sigma[m].tri == Truth(w.sigma[m].visible == YES && w.sigma[c].pick == Some(m))
  {
    hide Theory, VisibleTri, MemberVisibility, PickMember;
    MemberFacts(g, w, c, m);
    MemberSharp(g, w, c, m);
    BoundsVisible(g, w, m);
    SolvedLogic(g, w, m);
    assert DefaultTri(g.decls[m], w.sigma, ModulesOf(g, w)) == NO;
  }

  /** The member the documentation promises: the user's pick if it is visible,
      else the first default that holds and is visible, else the first visible
      member. `vis` tells which symbols are visible. */
  ghost predicate IsSelection(d: Decl, u: User, vis: Symbol -> bool, holds: nat -> bool, p: Symbol) {
    if u.pick.Some? && vis(u.pick.value) then p == u.pick.value
    else if exists i: nat ::
        i < |d.defaults| && holds(i) && d.defaults[i].value.Sym? && vis(d.defaults[i].value.sym)
    then
      exists i: nat ::
        && i < |d.defaults| && holds(i) && d.defaults[i].value == Sym(p) && vis(p)
        && forall j: nat :: j < i ==> !(holds(j) && d.defaults[j].value.Sym? && vis(d.defaults[j].value.sym))
    else
      exists i: nat :: i < |d.members| && d.members[i] == p && vis(p) && forall j: nat :: j < i ==> !vis(d.members[j])
  }

  lemma {:induction false} FirstShownIsFirst(vis: map<Symbol, Tri>, ms: seq<Symbol>) returns (i: nat)
    ensures FirstShown(vis, ms) == if i < |ms| then Some(ms[i]) else None
    ensures i < |ms| ==> Shown(vis, ms[i])
    ensures forall j: nat :: j < i && j < |ms| ==> !Shown(vis, ms[j])
  {
    if ms == [] {
      i := 0;
    } else if Shown(vis, ms[0]) {
      i := 0;
    } else {
      var k := FirstShownIsFirst(vis, ms[1..]);
      i := k + 1;
    }
  }

  lemma {:induction false} FirstDefaultIsFirst(vis: map<Symbol, Tri>, fs: seq<Default>, cells: Cells, modules: Tri)
    returns (i: nat)
    ensures FirstDefault(vis, fs, cells, modules)
      == if i < |fs| && fs[i].value.Sym? then Some(fs[i].value.sym) else None
    ensures i < |fs| ==>
      Value(fs[i].cond, YES, cells, modules) != NO && fs[i].value.Sym? && Shown(vis, fs[i].value.sym)
    ensures forall j: nat :: j < i && j < |fs| ==>
      !(Value(fs[j].cond, YES, cells, modules) != NO && fs[j].value.Sym? && Shown(vis, fs[j].value.sym))
  {
    hide Value;
    if fs == [] {
      i := 0;
    } else if Value(fs[0].cond, YES, cells, modules) != NO && fs[0].value.Sym? && Shown(vis, fs[0].value.sym) {
      i := 0;
    } else {
      var k := FirstDefaultIsFirst(vis, fs[1..], cells, modules);
      i := k + 1;
    }
  }

  /** The conditions of a choice's defaults do not depend on the choice. */
  lemma DefaultHolds(g: Graph, w: World, c: Symbol, x: Cell, i: nat)
    requires Theory(g, w) && c in g.decls && g.decls[c].isChoice && i < |g.decls[c].defaults|
    requires c in w.sigma && w.sigma[c].tri == x.tri && w.sigma[c].text == x.text
    ensures Value(g.decls[c].defaults[i].cond, YES, During(w, c, x), ModulesOf(g, w))
            == Value(g.decls[c].defaults[i].cond, YES, w.sigma, ModulesOf(g, w))
  {
    hide Theory, Value, Mentions, Agree;
    ChoiceFacts(g, w, c);
    BoundsVisible(g, w, c);
    PlainFacts(g, w, c);
    var e := g.decls[c].defaults[i].cond;
    assert DefaultConds(g.decls[c])[i] == e;
    DuringReads(g, w, c, x, MentionsOpt(e));
    ValueAgrees(During(w, c, x), ModulesOf(g, w), w.sigma, ModulesOf(g, w), e, YES);
  }

  /** In a configuration, whether a symbol is visible, and whether a default of a
      choice holds. */
  ghost function VisibleIn(w: World): Symbol -> bool {
    s => s in w.sigma && w.sigma[s].visible != NO
  }

  ghost function HoldsIn(g: Graph, w: World, d: Decl): nat -> bool {
    (i: nat) => i < |d.defaults| && Value(d.defaults[i].cond, YES, w.sigma, ModulesOf(g, w)) != NO
  }

  lemma SelectionIsPick(g: Graph, w: World, c: Symbol) returns (p: Symbol)
    requires Theory(g, w) && c in g.decls && g.decls[c].isChoice && c in w.sigma && w.sigma[c].tri == YES
    ensures c in w.users && w.sigma[c].pick == Some(p) && p in g.decls[c].members
    ensures p in w.sigma && w.sigma[p].visible != NO
    ensures IsSelection(g.decls[c], w.users[c], VisibleIn(w), HoldsIn(g, w, g.decls[c]), p)
  {
    hide Theory, VisibleTri, Value, During;
    var x := ChoiceIsPicked(g, w, c);
    var d, t, k := g.decls[c], During(w, c, x), ModulesOf(g, w);
    var vis := MemberVisibility(g, d.members, t, k);
    ChoiceFacts(g, w, c);
    forall m | m in d.members
      ensures m in w.sigma && (Shown(vis, m) <==> VisibleIn(w)(m))
    {
      MemberVisibleAfter(g, w, c, x, m);
    }
    forall i: nat | i < |d.defaults|
      ensures (Value(d.defaults[i].cond, YES, t, k) != NO) == HoldsIn(g, w, d)(i)
      ensures d.defaults[i].value.Sym? && d.defaults[i].value.sym in d.members
    {
      DefaultHolds(g, w, c, x, i);
      assert d.defaults[i] in d.defaults;
    }
    p := w.sigma[c].pick.value;
    var i := FirstDefaultIsFirst(vis, d.defaults, t, k);
    var j := FirstShownIsFirst(vis, d.members);
  }

  /** When a choice is `y` and its members have no defaults of their own, exactly
      one member is `y`, the selected one, and all others are `n`. */
  lemma ChoiceExactlyOne(g: Graph, w: World, c: Symbol) returns (p: Symbol)
    requires Theory(g, w) && c in g.decls && g.decls[c].isChoice && c in w.sigma && w.sigma[c].tri == YES
    requires forall m :: m in g.decls[c].members && m in g.decls ==> g.decls[m].defaults == []
    ensures p in g.decls[c].members && c in w.users
    ensures forall m :: m in g.decls[c].members ==> m in w.sigma && w.sigma[m].tri == Truth(m == p)
    ensures IsSelection(g.decls[c], w.users[c], VisibleIn(w), HoldsIn(g, w, g.decls[c]), p)
  {
    hide Theory, IsSelection;
    p := SelectionIsPick(g, w, c);
    forall m | m in g.decls[c].members
      ensures m in w.sigma && w.sigma[m].tri == Truth(m == p)
    {
      MemberFacts(g, w, c, m);
      MemberFollows(g, w, c, m);
      MemberSharp(g, w, c, m);
    }
  }

  /** A choice that is `y` keeps its user value exactly when all its visible members
      have one. */
  lemma KeepsExactly(g: Graph, w: World, c: Symbol)
    requires Theory(g, w) && c in g.decls && g.decls[c].isChoice && c in w.sigma && w.sigma[c].tri == YES
    ensures c in w.users && forall m :: m in g.decls[c].members ==> m in w.sigma && m in w.users
    ensures KeepsUser(g, w.users, w.sigma, c) <==>
      forall m :: m in g.decls[c].members && w.sigma[m].visible != NO ==> w.users[m].has
  {
    hide Theory, LogicTri, PickMember, MemberVisibility, VisibleTri, Bound;
    ChoiceFacts(g, w, c);
    SolvedLogic(g, w, c);
    var x := Bounds(g.decls[c], c, w.sigma, ModulesOf(g, w)).(tri := YES);
    forall m | m in g.decls[c].members
      ensures m in w.sigma && m in w.users && m in g.decls
      ensures VisibleTri(g.decls[m], m, During(w, c, x), ModulesOf(g, w)) == w.sigma[m].visible
    {
      MemberFacts(g, w, c, m);
      MemberVisibleAfter(g, w, c, x, m);
    }
  }
}
