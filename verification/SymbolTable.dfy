/** The memoised evaluator: symbol values are calculated on demand and kept
    until they are invalidated. */
module SymbolTable {
  import opened Symbols
  import opened Expressions
  import opened SymbolEquations
  import opened EvaluationState
  import opened EvaluationTheory
  import opened Assignment

  class Table {
    const g: Graph
    /** The symbols whose value is up to date or being calculated, the symbols
        flagged to have the values of their choice set first, and all values. */
    var st: State

    constructor (graph: Graph, given: Users)
      requires given.Keys == graph.decls.Keys
      requires forall s :: s in graph.decls ==> s.Config?
      ensures g == graph && Shape(g, st) && Inert(g, st.cell)
      ensures st.users == given && st.valid == {} && st.need == {} && st.modulesVal == NO
      ensures forall s :: s in graph.decls ==> s in st.cell && st.cell[s].tri == NO
    {
      g := graph;
      st := State({}, {}, map s | s in graph.decls :: Cell(NO, "", None, NO, NO, NO, NO), given, NO);
    }

    /** `sym_get_string_value`. */
    method StringValue(s: Symbol, ghost ok: bool, ghost w: World, ghost k: nat, ghost target: Cells) returns (r: string)
      requires Shape(g, st)
      requires ok ==> Theory(g, w) && Good(g, w, k, st)
      requires ok ==> Sees(g, w, k, st, target, {s}) && Seen(g, st, target, {s})
      modifies this
      ensures Progress(g, old(st), st)
      ensures ok ==> st == old(st) && r == StringAt(target, ModulesOf(g, w), s)
      decreases st.need, g.decls.Keys - st.valid, 1
    {
      hide Theory;
      if s.IsLogic() {
        var t := TriAt(st.cell, s);
        if t == YES {
          r := "y";
        } else if t == MOD {
          if ok { ModulesSettled(g, w, k, st); }
          CalcValue(g.modules, ok, w);
          r := if TriAt(st.cell, g.modules) == NO then "n" else "m";
        } else {
          r := "n";
        }
      } else {
        r := RawText(st.cell, s);
      }
    }

    /** `expr_calc_value`. */
    method CalcExpr(e: Expr, ghost ok: bool, ghost w: World, ghost k: nat, ghost target: Cells) returns (r: Tri)
      requires Shape(g, st)
      requires ok ==> Theory(g, w) && Good(g, w, k, st) && Sees(g, w, k, st, target, Mentions(e))
      modifies this
      ensures Progress(g, old(st), st)
      ensures ok ==> Good(g, w, k, st) && Framed(g, w, k, {}, {}, old(st), st)
      ensures ok ==> Seen(g, st, target, Mentions(e)) && r == Eval(e, CellsEnv(target, ModulesOf(g, w)))
      decreases st.need, g.decls.Keys - st.valid, 3, e
    {
      hide Theory, Good, Framed, Sees, Seen, CompareAt, TriAt;
      ghost var a := st;
      match e
      case Sym(s) =>
        CalcSeen(s, ok, w, k, target);
        if ok { SeenTri(g, st, target, s); }
        r := TriAt(st.cell, s);
      case Not(x) =>
        var v := CalcExpr(x, ok, w, k, target);
        r := Neg(v);
      case Bin(c, x, y) =>
        if ok { SeesSplit(g, w, k, a, target, Mentions(x), Mentions(y)); }
        var v := CalcExpr(x, ok, w, k, target);
        ghost var b := st;
        if ok { SeesKept(g, w, k, {}, {}, a, b, target, Mentions(y)); }
        var u := CalcExpr(y, ok, w, k, target);
        if ok {
          SeenKept(g, w, k, {}, {}, b, st, target, Mentions(x));
          SeenUnion(g, st, target, Mentions(x), Mentions(y));
          FramedTransitive(g, w, k, {}, {}, a, b, st);
        }
        r := c.Apply(v, u);
      case Cmp(rel, s, t) =>
        r := CalcCompare(rel, s, t, ok, w, k, target);
    }

    method CalcCompare(rel: Relation, s: Symbol, t: Symbol,
                       ghost ok: bool, ghost w: World, ghost k: nat, ghost target: Cells) returns (r: Tri)
      requires Shape(g, st)
      requires ok ==> Theory(g, w) && Good(g, w, k, st) && Sees(g, w, k, st, target, {s, t})
      modifies this
      ensures Progress(g, old(st), st)
      ensures ok ==> Good(g, w, k, st) && Framed(g, w, k, {}, {}, old(st), st)
      ensures ok ==> Seen(g, st, target, {s, t})
      ensures ok ==> r == Truth(Holds(rel, CompareAt(target, ModulesOf(g, w), s, t)))
      decreases st.need, g.decls.Keys - st.valid, 2
    {
      hide Theory, Good, Framed, Sees, Seen, CompareText, StringAt;
      CalcBoth(s, t, ok, w, k, target);
      var str1 := StringValue(s, ok, w, k, target);
      var str2 := StringValue(t, ok, w, k, target);
      r := Truth(Holds(rel, CompareText(str1, s.Type(), str2, t.Type())));
    }

    /** Calculates the two symbols of a comparison. */
    method CalcBoth(s: Symbol, t: Symbol, ghost ok: bool, ghost w: World, ghost k: nat, ghost target: Cells)
      requires Shape(g, st)
      requires ok ==> Theory(g, w) && Good(g, w, k, st) && Sees(g, w, k, st, target, {s, t})
      modifies this
      ensures Progress(g, old(st), st)
      ensures ok ==> Good(g, w, k, st) && Framed(g, w, k, {}, {}, old(st), st)
      ensures ok ==> Seen(g, st, target, {s, t}) && Seen(g, st, target, {s}) && Seen(g, st, target, {t})
      ensures ok ==> Sees(g, w, k, st, target, {s}) && Sees(g, w, k, st, target, {t})
      decreases st.need, g.decls.Keys - st.valid, 2, 0
    {
      hide Theory, Good, Framed, Sees, Seen;
      ghost var a := st;
      assert {s, t} == {s} + {t};
      if ok { SeesSplit(g, w, k, a, target, {s}, {t}); }
      CalcSeen(s, ok, w, k, target);
      ghost var b := st;
      if ok { SeesKept(g, w, k, {}, {}, a, b, target, {t}); }
      CalcSeen(t, ok, w, k, target);
      ghost var c := st;
      if ok {
        SeenKept(g, w, k, {}, {}, b, c, target, {s});
        SeenUnion(g, c, target, {s}, {t});
        FramedTransitive(g, w, k, {}, {}, a, b, c);
        SeesKept(g, w, k, {}, {}, a, c, target, {s});
        SeesKept(g, w, k, {}, {}, a, c, target, {t});
      }
    }

    /** Calculates one symbol of an expression. */
    method CalcSeen(s: Symbol, ghost ok: bool, ghost w: World, ghost k: nat, ghost target: Cells)
      requires Shape(g, st)
      requires ok ==> Theory(g, w) && Good(g, w, k, st) && Sees(g, w, k, st, target, {s})
      modifies this
      ensures Progress(g, old(st), st)
      ensures ok ==> Good(g, w, k, st) && Framed(g, w, k, {}, {}, old(st), st)
      ensures ok ==> Seen(g, st, target, {s})
      decreases st.need, g.decls.Keys - st.valid, 1
    {
      hide Theory, Good, Framed, Sees, Seen, Ready;
      ghost var a := st;
      if ok {
        BeforeCalc(g, w, k, a, target, s);
        if s in g.decls && s !in a.valid { GoodIsReady(g, w, a, s); }
      }
      CalcValue(s, ok, w);
      if ok { AfterCalc(g, w, k, a, st, target, s); }
    }

    method CalcOpt(e: Option<Expr>, absent: Tri, ghost ok: bool, ghost w: World, ghost k: nat, ghost target: Cells)
      returns (r: Tri)
      requires Shape(g, st)
      requires ok ==> Theory(g, w) && Good(g, w, k, st) && Sees(g, w, k, st, target, MentionsOpt(e))
      modifies this
      ensures Progress(g, old(st), st)
      ensures ok ==> Good(g, w, k, st) && Framed(g, w, k, {}, {}, old(st), st)
      ensures ok ==> Seen(g, st, target, MentionsOpt(e)) && r == Value(e, absent, target, ModulesOf(g, w))
      decreases st.need, g.decls.Keys - st.valid, 3
    {
      hide Theory, Good, Sees, CompareAt, TriAt;
      if e.Some? {
        r := CalcExpr(e.value, ok, w, k, target);
      } else {
        r := absent;
      }
    }

    /** `sym_get_default_prop` and `sym_get_range_prop`: the first entry whose
        condition holds, with the value of that condition. */
    method FirstHolding(conds: seq<Option<Expr>>, ghost ok: bool, ghost w: World, ghost k: nat, ghost target: Cells)
      returns (i: nat, t: Tri)
      requires Shape(g, st)
      requires ok ==> Theory(g, w) && Good(g, w, k, st) && SeesAll(g, w, k, st, target, conds)
      modifies this
      ensures Progress(g, old(st), st) && i <= |conds|
      ensures ok ==> Good(g, w, k, st) && Framed(g, w, k, {}, {}, old(st), st)
      ensures ok ==> i == FirstActive(conds, target, ModulesOf(g, w))
      ensures ok && i < |conds| ==> t == Value(conds[i], YES, target, ModulesOf(g, w))
      decreases st.need, g.decls.Keys - st.valid, 4
    {
      hide Theory, Good, Framed, Sees, Value;
      ghost var a := st;
      i, t := 0, NO;
      if ok { FramedRefl(g, w, k, a); }
      while i < |conds|
        invariant 0 <= i <= |conds|
        invariant Progress(g, a, st)
        invariant ok ==> Good(g, w, k, st) && Framed(g, w, k, {}, {}, a, st) && SeesAll(g, w, k, st, target, conds)
        invariant ok ==>
          FirstActive(conds, target, ModulesOf(g, w)) == i + FirstActive(conds[i..], target, ModulesOf(g, w))
        decreases |conds| - i
      {
        ghost var b := st;
        assert conds[i..][0] == conds[i] && conds[i..][1..] == conds[i + 1..];
        t := CalcOpt(conds[i], YES, ok, w, k, target);
        if ok {
          FramedTransitive(g, w, k, {}, {}, a, b, st);
          SeesAllKept(g, w, k, {}, {}, b, st, target, conds);
        }
        if t != NO {
          return;
        }
        i := i + 1;
      }
    }

    /** The visibility loop over the prompts of a symbol. */
    method CalcPrompts(s: Symbol, ghost ok: bool, ghost w: World, ghost k: nat, ghost target: Cells) returns (tri: Tri)
      requires Shape(g, st) && s in g.decls
      requires ok ==> Theory(g, w) && Good(g, w, k, st)
      requires ok ==> SeesAll(g, w, k, st, target, g.decls[s].prompts)
      requires ok && g.decls[s].choiceOf.Some? ==> ChoiceInReach(g, w, k, st, target, s)
      modifies this
      ensures Progress(g, old(st), st)
      ensures ok ==> Good(g, w, k, st) && Framed(g, w, k, {}, {}, old(st), st)
      ensures ok ==> tri == PromptMax(g.decls[s], s, g.decls[s].prompts, target, ModulesOf(g, w))
      ensures ok && g.decls[s].choiceOf.Some? ==> g.decls[s].choiceOf.value in st.valid
      decreases st.need, g.decls.Keys - st.valid, 4, 1
    {
      hide Theory, Good, Framed, SeesAll, ChoiceInReach, PromptTri;
      ghost var a := st;
      var ps := g.decls[s].prompts;
      var i := 0;
      tri := NO;
      if ok { FramedRefl(g, w, k, a); }
      while i < |ps|
        invariant 0 <= i <= |ps|
        invariant Progress(g, a, st)
        invariant ok ==> Good(g, w, k, st) && Framed(g, w, k, {}, {}, a, st) && SeesAll(g, w, k, st, target, ps)
        invariant ok && g.decls[s].choiceOf.Some? ==> ChoiceInReach(g, w, k, st, target, s)
        invariant ok ==> tri == PromptMax(g.decls[s], s, ps[..i], target, ModulesOf(g, w))
        invariant ok && g.decls[s].choiceOf.Some? && i > 0 ==> g.decls[s].choiceOf.value in st.valid
      {
        ghost var b := st;
        var t := CalcPrompt(s, ps[i], ok, w, k, target);
        if ok { FramedTransitive(g, w, k, {}, {}, a, b, st); }
        tri := Max(tri, t);
        assert ps[..i + 1][..i] == ps[..i];
        i := i + 1;
      }
      assert ps[..i] == ps;
      if ok && g.decls[s].choiceOf.Some? && ps == [] { ChoiceWithoutPrompts(g, w, k, st, target, s); }
    }

    /** The visibility of one prompt. */
    method CalcPrompt(s: Symbol, p: Option<Expr>, ghost ok: bool, ghost w: World, ghost k: nat, ghost target: Cells)
      returns (t: Tri)
      requires Shape(g, st) && s in g.decls && p in g.decls[s].prompts
      requires ok ==> Theory(g, w) && Good(g, w, k, st)
      requires ok ==> SeesAll(g, w, k, st, target, g.decls[s].prompts)
      requires ok && g.decls[s].choiceOf.Some? ==> ChoiceInReach(g, w, k, st, target, s)
      modifies this
      ensures Progress(g, old(st), st)
      ensures ok ==> Good(g, w, k, st) && Framed(g, w, k, {}, {}, old(st), st)
      ensures ok ==> SeesAll(g, w, k, st, target, g.decls[s].prompts)
      ensures ok && g.decls[s].choiceOf.Some? ==>
        ChoiceInReach(g, w, k, st, target, s) && g.decls[s].choiceOf.value in st.valid
      ensures ok ==> t == PromptTri(g.decls[s], s, p, target, ModulesOf(g, w))
      decreases st.need, g.decls.Keys - st.valid, 4, 0
    {
      hide Theory, Good, Framed, Sees, Seen, Value, TriAt, ChoiceInReach;
      ghost var b := st;
      var d := g.decls[s];
      t := CalcOpt(p, YES, ok, w, k, target);
      if ok {
        SeesAllKept(g, w, k, {}, {}, b, st, target, d.prompts);
        if d.choiceOf.Some? { ChoiceReached(g, w, k, b, st, target, s, p); }
      }
      if d.choiceOf.Some? && s.Type() == STristate && t == MOD && TriAt(st.cell, d.choiceOf.value) == YES {
        t := NO;
      }
    }

    /** One of the direct, reverse and implied bounds of a symbol. */
    method CalcPart(s: Symbol, part: Part, ghost ok: bool, ghost w: World, ghost k: nat, ghost target: Cells,
        ghost a: State)
      requires Shape(g, st) && s in g.decls && g.decls[s].choiceOf.None?
      requires ok ==> Theory(g, w) && Good(g, w, k, st) && Startable(g, w, k, s)
      requires ok ==> SeesAll(g, w, k, st, target, DependencyParts(g.decls[s]))
      requires ok ==> Shape(g, a) && Framed(g, w, k, {s}, {}, a, st)
      modifies this
      ensures Progress(g, old(st), st)
      ensures ok ==> Good(g, w, k, st) && Framed(g, w, k, {s}, {}, a, st)
      ensures ok ==> SeesAll(g, w, k, st, target, DependencyParts(g.decls[s]))
      ensures ok ==> st.users[s] == old(st).users[s]
      ensures ok ==>
        var d, x := g.decls[s], old(st).cell[s];
        st.cell[s] == WithPart(x, part,
          Bound(d, s, PartExpr(d, part), PartAbsent(part), x.visible, target, ModulesOf(g, w)))
      decreases st.need, g.decls.Keys - st.valid, 4
    {
      hide Theory, Good, Framed, Sees, Seen, Value;
      ghost var b := st;
      var d := g.decls[s];
      assert PartExpr(d, part) in DependencyParts(d);
      var r := CalcOpt(PartExpr(d, part), PartAbsent(part), ok, w, k, target);
      if ok {
        CellKept(g, w, k, b, st, s);
        SeesAllKept(g, w, k, {}, {}, b, st, target, DependencyParts(d));
        TypesAgree(g, w, k, st, d, s);
      }
      var x := WithPart(st.cell[s], part, Lift(EffectiveType(d, s, st.cell[s].visible, st.modulesVal), r));
      if ok { BoundStored(g, w, k, a, b, st, s, x, target); }
      st := WithCell(st, s, x);
    }

    /** The visibility of a symbol. */
    method CalcVisible(s: Symbol, ghost ok: bool, ghost w: World, ghost k: nat, ghost target: Cells)
      requires Shape(g, st) && s in g.decls
      requires ok ==> Theory(g, w) && Good(g, w, k, st) && Startable(g, w, k, s)
      requires ok ==> SeesAll(g, w, k, st, target, g.decls[s].prompts)
      requires ok && g.decls[s].choiceOf.None? ==> SeesAll(g, w, k, st, target, DependencyParts(g.decls[s]))
      requires ok && g.decls[s].choiceOf.Some? ==> ChoiceInReach(g, w, k, st, target, s)
      modifies this
      ensures Progress(g, old(st), st)
      ensures ok ==> Good(g, w, k, st) && Framed(g, w, k, {s}, {}, old(st), st)
      ensures ok ==> st.users[s] == old(st).users[s]
      ensures ok ==> st.cell[s] == old(st).cell[s].(visible := VisibleTri(g.decls[s], s, target, ModulesOf(g, w)))
      ensures ok && g.decls[s].choiceOf.None? ==> SeesAll(g, w, k, st, target, DependencyParts(g.decls[s]))
      ensures ok && g.decls[s].choiceOf.Some? ==>
        g.decls[s].choiceOf.value in st.valid && st.cell[s].dir == st.cell[s].rev == st.cell[s].imp == NO
      decreases st.need, g.decls.Keys - st.valid, 5
    {
      hide Theory, Good, Framed, SeesAll, Value, PromptMax, EffectiveType, ClampVisible, ChoiceInReach, VisibleKept;
      ghost var a := st;
      var d := g.decls[s];
      var tri := CalcPrompts(s, ok, w, k, target);
      ghost var b := st;
      if ok {
        TypesAgree(g, w, k, st, d, s);
        PromptsDone(g, w, k, a, b, target, s);
      }
      tri := ClampVisible(s, tri, st.modulesVal);
      if ok {
        var x := b.cell[s].(visible := tri);
        SetBounds(g, w, k, b, s, x);
        FramedWiden(g, w, k, {s}, {}, a, b);
        FramedTransitive(g, w, k, {s}, {}, a, b, WithCell(b, s, x));
        if d.choiceOf.None? { SeesAllSameValue(g, w, k, b, s, x, target, DependencyParts(d)); }
      }
      st := WithCell(st, s, st.cell[s].(visible := tri));
    }

    /** `sym_calc_visibility`. */
    method CalcVisibility(s: Symbol, ghost ok: bool, ghost w: World, ghost k: nat, ghost target: Cells)
      requires Shape(g, st) && s in g.decls
      requires ok ==> Theory(g, w) && Good(g, w, k, st) && Startable(g, w, k, s)
      requires ok ==> SeesAll(g, w, k, st, target, g.decls[s].prompts)
      requires ok && g.decls[s].choiceOf.None? ==> SeesAll(g, w, k, st, target, DependencyParts(g.decls[s]))
      requires ok && g.decls[s].choiceOf.Some? ==> ChoiceInReach(g, w, k, st, target, s)
      modifies this
      ensures Progress(g, old(st), st)
      ensures ok ==> Good(g, w, k, st) && Framed(g, w, k, {s}, {}, old(st), st)
      ensures ok ==> st.users[s] == old(st).users[s]
      ensures ok ==> st.cell[s] == Bounded(old(st).cell[s], Bounds(g.decls[s], s, target, ModulesOf(g, w)))
      ensures ok && g.decls[s].choiceOf.Some? ==> g.decls[s].choiceOf.value in st.valid
      decreases st.need, g.decls.Keys - st.valid, 6
    {
      hide Theory, Good, Framed, SeesAll, VisibleTri, Value, EffectiveType, ChoiceInReach, Startable;
      ghost var a := st;
      CalcVisible(s, ok, w, k, target);
      if g.decls[s].choiceOf.None? {
        CalcPart(s, Direct, ok, w, k, target, a);
        CalcPart(s, Reverse, ok, w, k, target, a);
        CalcPart(s, Implied, ok, w, k, target, a);
      }
    }

    predicate IsShown(s: Symbol)
      reads this
    {
      s in st.cell && st.cell[s].visible != NO
    }

    /** Calculates the visibility of all members of a choice; `keep` says whether
        the visible ones all have a user value. */
    method CalcMembers(c: Symbol, ghost ok: bool, ghost w: World) returns (keep: bool)
      requires Shape(g, st) && c in g.decls
      requires ok ==> Theory(g, w) && Good(g, w, w.rank(c), st) && InChoice(g, w, st, c, st.cell[c])
      modifies this
      ensures Progress(g, old(st), st)
      ensures ok ==> Good(g, w, w.rank(c), st) && Framed(g, w, w.rank(c), {}, MemberSet(g.decls[c]), old(st), st)
      ensures ok ==> InChoice(g, w, st, c, old(st).cell[c])
      ensures ok ==> MembersShown(g, During(w, c, old(st).cell[c]), ModulesOf(g, w), st, g.decls[c].members)
      ensures ok ==>
        (keep <==> MembersHaveUsers(g, w.users, During(w, c, old(st).cell[c]), ModulesOf(g, w), g.decls[c].members))
      decreases st.need, g.decls.Keys - st.valid, 7
    {
      hide Theory, Good, Framed, InChoice, MembersShown, MembersHaveUsers, MemberSet, During;
      ghost var a, x, k, mv := st, st.cell[c], w.rank(c), MemberSet(g.decls[c]);
      var d := g.decls[c];
      keep := true;
      var i := 0;
      if ok {
        FramedRefl(g, w, k, a);
        FramedWiden(g, w, k, {}, mv, a, a);
        NoMembersShown(g, During(w, c, x), ModulesOf(g, w), a);
        NoMembersHave(g, w.users, During(w, c, x), ModulesOf(g, w));
        assert d.members[..0] == [];
      }
      while i < |d.members|
        invariant 0 <= i <= |d.members|
        invariant Progress(g, a, st)
        invariant ok ==> Good(g, w, k, st) && Framed(g, w, k, {}, mv, a, st) && InChoice(g, w, st, c, x)
        invariant ok ==> MembersShown(g, During(w, c, x), ModulesOf(g, w), st, d.members[..i])
        invariant ok ==> (keep <==> MembersHaveUsers(g, w.users, During(w, c, x), ModulesOf(g, w), d.members[..i]))
      {
        var m := d.members[i];
        ghost var b := st;
        var has := CalcMember(c, m, ok, w, x, d.members[..i]);
        if ok { FramedTransitive(g, w, k, {}, mv, a, b, st); }
        keep := keep && has;
        assert d.members[..i + 1] == d.members[..i] + [m];
        i := i + 1;
      }
      assert d.members[..i] == d.members;
    }

    /** Calculates the visibility of one member of a choice, after those in `ms`;
        `has` is false for a visible member without a user value. */
    method CalcMember(c: Symbol, m: Symbol, ghost ok: bool, ghost w: World, ghost x: Cell, ghost ms: seq<Symbol>)
      returns (has: bool)
      requires Shape(g, st) && c in g.decls && m in g.decls[c].members
      requires forall n :: n in ms ==> n in g.decls[c].members
      requires ok ==> Theory(g, w) && Good(g, w, w.rank(c), st) && InChoice(g, w, st, c, x)
      requires ok ==> MembersShown(g, During(w, c, x), ModulesOf(g, w), st, ms)
      modifies this
      ensures Progress(g, old(st), st)
      ensures ok ==> Good(g, w, w.rank(c), st) && Framed(g, w, w.rank(c), {}, MemberSet(g.decls[c]), old(st), st)
      ensures ok ==> InChoice(g, w, st, c, x)
      ensures ok ==> MembersShown(g, During(w, c, x), ModulesOf(g, w), st, ms + [m])
      ensures ok ==> (MembersHaveUsers(g, w.users, During(w, c, x), ModulesOf(g, w), ms + [m])
                      <==> MembersHaveUsers(g, w.users, During(w, c, x), ModulesOf(g, w), ms) && has)
      decreases st.need, g.decls.Keys - st.valid, 7, 0
    {
      hide MembersHaveUsers, Theory, Good, Framed, Bounds, ChoiceInReach, SeesAll, Startable, MemberSet;
      hide MembersShown, During;
      ghost var b := st;
      if ok { MemberStarts(g, w, b, c, x, m); }
      if m in g.decls {
        CalcVisibility(m, ok, w, w.rank(c), During(w, c, x));
        if ok { MemberStep(g, w, b, st, c, x, m, ms); }
      }
      if ok {
        InChoiceOf(g, w, st, c, x);
        KeepStep(g, w, st, c, x, ms, m);
      }
      has := m !in g.decls || st.cell[m].visible == NO || st.users[m].has;
    }

    /** `sym_choice_default`, once the visibility of the members is known. */
    method ChoiceDefault(c: Symbol, ghost ok: bool, ghost w: World) returns (pick: Option<Symbol>)
      requires Shape(g, st) && c in g.decls
      requires ok ==> Theory(g, w) && Good(g, w, w.rank(c), st) && InChoice(g, w, st, c, st.cell[c])
      requires ok ==> MembersShown(g, During(w, c, st.cell[c]), ModulesOf(g, w), st, g.decls[c].members)
      modifies this
      ensures Progress(g, old(st), st)
      ensures ok ==> Good(g, w, w.rank(c), st) && Framed(g, w, w.rank(c), {}, {}, old(st), st)
      ensures ok ==>
        var d, t, m := g.decls[c], During(w, c, old(st).cell[c]), ModulesOf(g, w);
        var vis := MemberVisibility(g, d.members, t, m);
        var f := FirstDefault(vis, d.defaults, t, m);
        pick == if f.Some? then f else FirstShown(vis, d.members)
      decreases st.need, g.decls.Keys - st.valid, 7
    {
      hide Theory, Good, Framed, SeesAll, Value, VisibleTri, MembersShown, MemberVisibility, Shown;
      ghost var a, x, k, m := st, st.cell[c], w.rank(c), ModulesOf(g, w);
      ghost var t := During(w, c, x);
      var d := g.decls[c];
      ghost var vis := MemberVisibility(g, d.members, t, m);
      var i := 0;
      if ok {
        FramedRefl(g, w, k, a);
        ChoiceDefaultsSeen(g, w, a, c, x);
      }
      while i < |d.defaults|
        invariant 0 <= i <= |d.defaults|
        invariant Progress(g, a, st)
        invariant ok ==> Good(g, w, k, st) && Framed(g, w, k, {}, {}, a, st) && InChoice(g, w, st, c, x)
        invariant ok ==> MembersShown(g, t, m, st, d.members) && SeesAll(g, w, k, st, t, DefaultConds(d))
        invariant ok ==> FirstDefault(vis, d.defaults, t, m) == FirstDefault(vis, d.defaults[i..], t, m)
      {
        var f := d.defaults[i];
        ghost var b := st;
        assert d.defaults[i..][0] == f && d.defaults[i..][1..] == d.defaults[i + 1..];
        if ok { SeesAllAt(g, w, k, st, t, DefaultConds(d), i); }
        var tri := CalcOpt(f.cond, YES, ok, w, k, t);
        if ok {
          FramedTransitive(g, w, k, {}, {}, a, b, st);
          SeesAllKept(g, w, k, {}, {}, b, st, t, DefaultConds(d));
          ChoiceStep(g, w, b, st, c, x);
          ShownByCell(g, t, m, st, d.members, f.value.sym);
        }
        if tri != NO && f.value.Sym? && IsShown(f.value.sym) {
          return Some(f.value.sym);
        }
        i := i + 1;
      }
      pick := FirstMember(c, ok, t, m);
    }

    /** The first visible member of a choice. */
    method FirstMember(c: Symbol, ghost ok: bool, ghost target: Cells, ghost modules: Tri)
      returns (pick: Option<Symbol>)
      requires Shape(g, st) && c in g.decls
      requires ok ==> MembersShown(g, target, modules, st, g.decls[c].members)
      ensures ok ==> pick == FirstShown(MemberVisibility(g, g.decls[c].members, target, modules), g.decls[c].members)
    {
      hide VisibleTri, MembersShown, MemberVisibility, Shown;
      var members := g.decls[c].members;
      ghost var vis := MemberVisibility(g, members, target, modules);
      var i := 0;
      while i < |members|
        invariant 0 <= i <= |members|
        invariant ok ==> FirstShown(vis, members) == FirstShown(vis, members[i..])
      {
        assert members[i..][0] == members[i] && members[i..][1..] == members[i + 1..];
        if ok { ShownByCell(g, target, modules, st, members, members[i]); }
        if IsShown(members[i]) {
          return Some(members[i]);
        }
        i := i + 1;
      }
      pick := None;
    }

    /** `sym_calc_choice`. */
    method CalcChoice(c: Symbol, ghost ok: bool, ghost w: World) returns (pick: Option<Symbol>, keep: bool)
      requires Shape(g, st) && c in g.decls
      requires ok ==> Theory(g, w) && Good(g, w, w.rank(c), st) && InChoice(g, w, st, c, st.cell[c])
      requires ok ==> st.users[c] == w.users[c]
      modifies this
      ensures Progress(g, old(st), st)
      ensures ok ==> Good(g, w, w.rank(c), st) && Framed(g, w, w.rank(c), {}, MemberSet(g.decls[c]), old(st), st)
      ensures ok ==>
        var d, t, m := g.decls[c], During(w, c, old(st).cell[c]), ModulesOf(g, w);
        pick == PickMember(d, w.users[c], MemberVisibility(g, d.members, t, m), t, m)
      ensures ok ==>
        (keep <==> MembersHaveUsers(g, w.users, During(w, c, old(st).cell[c]), ModulesOf(g, w), g.decls[c].members))
      decreases st.need, g.decls.Keys - st.valid, 8
    {
      hide Theory, Good, Framed, MembersShown, MembersHaveUsers, MemberVisibility, VisibleTri, FirstDefault;
      hide FirstShown, Shown, MemberSet, During;
      ghost var a, x, k, mv := st, st.cell[c], w.rank(c), MemberSet(g.decls[c]);
      keep := CalcMembers(c, ok, w);
      ghost var b := st;
      if ok {
        ChoiceFacts(g, w, c);
        ChoiceUsersKept(g, w, a, b, c);
        if w.users[c].pick.Some? {
          ShownByCell(g, During(w, c, x), ModulesOf(g, w), st, g.decls[c].members, w.users[c].pick.value);
        }
      }
      if c in st.users && st.users[c].pick.Some? && IsShown(st.users[c].pick.value) {
        pick := st.users[c].pick;
      } else {
        pick := ChoiceDefault(c, ok, w);
        if ok {
          FramedWiden(g, w, k, {}, mv, b, st);
          FramedTransitive(g, w, k, {}, mv, a, b, st);
        }
      }
    }

    /** The first default of a logic symbol whose condition holds, within that condition. */
    method DefaultValue(s: Symbol, ghost ok: bool, ghost w: World) returns (r: Tri)
      requires Shape(g, st) && s in g.decls && !g.decls[s].isChoice
      requires ok ==> Theory(g, w) && Good(g, w, w.rank(s), st) && s.Type() != SUnknown
      modifies this
      ensures Progress(g, old(st), st)
      ensures ok ==> Good(g, w, w.rank(s), st) && Framed(g, w, w.rank(s), {}, {}, old(st), st)
      ensures ok ==> r == DefaultTri(g.decls[s], w.sigma, ModulesOf(g, w))
      decreases st.need, g.decls.Keys - st.valid, 7
    {
      hide Theory, Good, Framed, SeesAll, Sees, Seen, Value, FirstActive;
      ghost var a, k := st, w.rank(s);
      var d := g.decls[s];
      if ok { PartsSeen(g, w, st, s); }
      var i, t := FirstHolding(DefaultConds(d), ok, w, k, w.sigma);
      r := NO;
      if i < |d.defaults| {
        ghost var b := st;
        if ok { DefaultSeen(g, w, st, s, i); }
        r := CalcExpr(d.defaults[i].value, ok, w, k, w.sigma);
        if ok { FramedTransitive(g, w, k, {}, {}, a, b, st); }
        r := Min(r, t);
      }
    }

    /** The tristate value of a symbol whose bounds are known. */
    method LogicValue(s: Symbol, ghost ok: bool, ghost w: World) returns (r: Tri)
      requires Shape(g, st) && s in g.decls
      requires ok ==> Theory(g, w) && Good(g, w, w.rank(s), st) && s.IsLogic()
      requires ok ==> st.users[s] == w.users[s]
      requires ok && g.decls[s].choiceOf.Some? ==> g.decls[s].choiceOf.value in st.valid
      modifies this
      ensures Progress(g, old(st), st)
      ensures ok ==> Good(g, w, w.rank(s), st) && Framed(g, w, w.rank(s), {}, {}, old(st), st)
      ensures ok ==> r == LogicTri(g.decls[s], s, w.users[s], old(st).cell[s], w.sigma, ModulesOf(g, w))
      decreases st.need, g.decls.Keys - st.valid, 8
    {
      hide Theory, Good, Framed, DefaultTri, EffectiveType, Selected;
      ghost var a, k := st, w.rank(s);
      var d := g.decls[s];
      var x := st.cell[s];
      if ok { FramedRefl(g, w, k, st); }
      if d.choiceOf.Some? && x.visible == YES {
        if ok { ChoiceValue(g, w, st, s); }
        r := Truth(d.choiceOf.value in st.cell && st.cell[d.choiceOf.value].pick == Some(s));
      } else {
        r := NO;
        if x.visible != NO && st.users[s].has {
          r := Min(st.users[s].tri, x.visible);
        } else if !d.isChoice {
          r := DefaultValue(s, ok, w);
          if x.imp != NO {
            r := Min(Max(r, x.imp), x.dir);
          }
        }
        r := Selected(r, x.dir, x.rev);
        if ok { Starts(g, w, st, s); TypesAgree(g, w, k, st, d, s); }
        r := Lift(EffectiveType(d, s, x.visible, st.modulesVal), r);
      }
    }

    /** The value of a bool or tristate symbol, and the selected member of a choice. */
    method CalcLogic(s: Symbol, ghost ok: bool, ghost w: World)
      requires Shape(g, st) && s in g.decls
      requires ok ==> Theory(g, w) && Good(g, w, w.rank(s), st) && s.IsLogic() && s in st.valid
      requires ok ==> st.users[s] == w.users[s]
      requires ok ==> st.cell[s] == Bounds(g.decls[s], s, w.sigma, ModulesOf(g, w))
      requires ok && g.decls[s].choiceOf.Some? ==> g.decls[s].choiceOf.value in st.valid
      modifies this
      ensures Progress(g, old(st), st)
      ensures ok ==> Good(g, w, w.rank(s), st)
      ensures ok ==> Framed(g, w, w.rank(s), {s}, ChangedMembers(g, s), old(st), st)
      ensures ok ==> st.cell[s] == w.sigma[s]
      ensures ok && g.decls[s].isChoice ==> ChoiceUser(g, w, st, s)
      decreases st.need, g.decls.Keys - st.valid, 9
    {
      hide Theory, Good, Framed, Bounds, LogicTri, ChangedMembers, LogicCell, MembersHaveUsers, ChoiceUser;
      ghost var a, x := st, st.cell[s];
      var t := LogicValue(s, ok, w);
      ghost var b := st;
      if ok { LogicStored(g, w, a, b, s, b.cell[s].(tri := t)); }
      st := WithCell(st, s, st.cell[s].(tri := t));
      if g.decls[s].isChoice && t == YES {
        SelectMember(s, ok, w, a);
      }
      if ok {
        SolvedLogic(g, w, s);
        LogicSolved(g, w, s, x, t, st.cell[s]);
        if g.decls[s].isChoice {
          ghost var all := MembersHaveUsers(g, w.users, During(w, s, x.(tri := YES)), ModulesOf(g, w),
            g.decls[s].members);
          ChoiceUserLeft(g, w, st, s, x, t, all);
        }
      }
    }

    /** The last step for a choice that is `y`. */
    method SelectMember(s: Symbol, ghost ok: bool, ghost w: World, ghost a: State)
      requires Shape(g, st) && s in g.decls && g.decls[s].isChoice
      requires ok ==> Theory(g, w) && Good(g, w, w.rank(s), st) && InChoice(g, w, st, s, st.cell[s])
      requires ok ==> st.users[s] == w.users[s]
      requires ok ==> Shape(g, a) && Framed(g, w, w.rank(s), {s}, ChangedMembers(g, s), a, st)
      modifies this
      ensures Progress(g, old(st), st)
      ensures ok ==> Good(g, w, w.rank(s), st)
      ensures ok ==> Framed(g, w, w.rank(s), {s}, ChangedMembers(g, s), a, st)
      ensures ok ==> st.cell[s] == Picked(g, w, s, old(st).cell[s])
      ensures ok ==>
        var all := MembersHaveUsers(g, w.users, During(w, s, old(st).cell[s]), ModulesOf(g, w), g.decls[s].members);
        st.users[s] == w.users[s].(has := w.users[s].has && all)
      decreases st.need, g.decls.Keys - st.valid, 9, 0
    {
      hide Theory, Good, Framed, PickMember, MembersHaveUsers, MemberVisibility, ChangedMembers, MemberSet, During;
      ghost var c := st;
      var pick, keep := CalcChoice(s, ok, w);
      if ok { ChoiceStored(g, w, a, c, st, s, pick, keep); }
      st := WithPick(st, s, pick, keep);
    }

    /** The string of an int, hex or string symbol before ranges are applied. */
    method TextValue(s: Symbol, ghost ok: bool, ghost w: World) returns (r: string)
      requires Shape(g, st) && s in g.decls
      requires ok ==> Theory(g, w) && Good(g, w, w.rank(s), st) && s.Type() != SUnknown && !g.decls[s].isChoice
      requires ok ==> st.users[s] == w.users[s]
      modifies this
      ensures Progress(g, old(st), st)
      ensures ok ==> Good(g, w, w.rank(s), st) && Framed(g, w, w.rank(s), {}, {}, old(st), st)
      ensures ok ==> r == ProposedText(g.decls[s], w.users[s], old(st).cell[s].visible, w.sigma, ModulesOf(g, w))
      decreases st.need, g.decls.Keys - st.valid, 7
    {
      hide Theory, Good, Framed, SeesAll, Sees, Seen, Value, FirstActive, RawText;
      ghost var a, k := st, w.rank(s);
      var d := g.decls[s];
      if ok { FramedRefl(g, w, k, a); PartsSeen(g, w, st, s); }
      if st.cell[s].visible != NO && st.users[s].has {
        return st.users[s].text;
      }
      r := "";
      var i, t := FirstHolding(DefaultConds(d), ok, w, k, w.sigma);
      if i < |d.defaults| && d.defaults[i].value.Sym? {
        ghost var b := st;
        if ok { DefaultSeen(g, w, st, s, i); }
        CalcSeen(d.defaults[i].value.sym, ok, w, k, w.sigma);
        if ok {
          FramedTransitive(g, w, k, {}, {}, a, b, st);
          SeenText(g, st, w.sigma, d.defaults[i].value.sym);
        }
        r := RawText(st.cell, d.defaults[i].value.sym);
      }
    }

    /** `sym_validate_range`. */
    method ValidateRange(s: Symbol, text: string, ghost ok: bool, ghost w: World) returns (r: string)
      requires Shape(g, st) && s in g.decls
      requires ok ==> Theory(g, w) && Good(g, w, w.rank(s), st) && s.Type() != SUnknown
      modifies this
      ensures Progress(g, old(st), st)
      ensures ok ==> Good(g, w, w.rank(s), st) && Framed(g, w, w.rank(s), {}, {}, old(st), st)
      ensures ok ==> r == ClampText(g.decls[s], s, text, w.sigma, ModulesOf(g, w))
      decreases st.need, g.decls.Keys - st.valid, 7
    {
      hide Theory, Good, Framed, SeesAll, Sees, Seen, Value, FirstActive, RawText, StrToLL;
      ghost var a, k := st, w.rank(s);
      var d := g.decls[s];
      r := text;
      if ok { FramedRefl(g, w, k, a); PartsSeen(g, w, st, s); }
      if s.Type() != SInt && s.Type() != SHex {
        return;
      }
      var base := NumberBase(s, 0);
      var i, t := FirstHolding(RangeConds(d), ok, w, k, w.sigma);
      if i == |d.ranges| {
        return;
      }
      ghost var b := st;
      if ok { RangeSeen(g, w, st, s, i); }
      r := ClampBetween(text, base, d.ranges[i].lo, d.ranges[i].hi, ok, w, k);
      if ok { FramedTransitive(g, w, k, {}, {}, a, b, st); }
    }

    method ClampBetween(text: string, base: nat, lo: Symbol, hi: Symbol, ghost ok: bool, ghost w: World, ghost k: nat)
      returns (r: string)
      requires Shape(g, st)
      requires ok ==> Theory(g, w) && Good(g, w, k, st)
      requires ok ==> Sees(g, w, k, st, w.sigma, {lo}) && Sees(g, w, k, st, w.sigma, {hi})
      modifies this
      ensures Progress(g, old(st), st)
      ensures ok ==> Good(g, w, k, st) && Framed(g, w, k, {}, {}, old(st), st)
      ensures ok ==> r ==
                     if StrToLL(text, base) < RangeValue(w.sigma, lo, base) then RawText(w.sigma, lo)
                     else if StrToLL(text, base) > RangeValue(w.sigma, hi, base) then RawText(w.sigma, hi)
                     else text
      decreases st.need, g.decls.Keys - st.valid, 6
    {
      hide Theory, Good, Framed, Sees, Seen, RawText, StrToLL;
      ghost var b := st;
      CalcSeen(lo, ok, w, k, w.sigma);
      ghost var c := st;
      if ok {
        SeenText(g, c, w.sigma, lo);
        SeesKept(g, w, k, {}, {}, b, c, w.sigma, {hi});
      }
      r := text;
      if StrToLL(text, base) < RangeValue(st.cell, lo, base) {
        r := RawText(st.cell, lo);
        return;
      }
      CalcSeen(hi, ok, w, k, w.sigma);
      if ok {
        FramedTransitive(g, w, k, {}, {}, b, c, st);
        SeenText(g, st, w.sigma, hi);
      }
      if StrToLL(text, base) > RangeValue(st.cell, hi, base) {
        r := RawText(st.cell, hi);
      }
    }

    /** The value of an int, hex or string symbol. */
    method CalcText(s: Symbol, ghost ok: bool, ghost w: World)
      requires Shape(g, st) && s in g.decls
      requires ok ==> Theory(g, w) && Good(g, w, w.rank(s), st) && !s.IsLogic() && s.Type() != SUnknown && s in st.valid
      requires ok ==> st.users[s] == w.users[s]
      requires ok ==> st.cell[s] == Bounds(g.decls[s], s, w.sigma, ModulesOf(g, w)).(text := "")
      requires ok && g.decls[s].choiceOf.Some? ==> g.decls[s].choiceOf.value in st.valid
      modifies this
      ensures Progress(g, old(st), st)
      ensures ok ==> Good(g, w, w.rank(s), st)
      ensures ok ==> Framed(g, w, w.rank(s), {s}, {}, old(st), st)
      ensures ok ==> st.cell[s] == w.sigma[s]
      decreases st.need, g.decls.Keys - st.valid, 9
    {
      hide Theory, Good, Framed, Bounds, ClampText, ProposedText;
      ghost var a, k := st, w.rank(s);
      if ok { TextNotChoice(g, w, s); }
      var text := TextValue(s, ok, w);
      ghost var b := st;
      if ok { TextStored(g, w, a, b, s, b.cell[s].(text := text)); }
      st := WithCell(st, s, st.cell[s].(text := text));
      ghost var c := st;
      var clamped := ValidateRange(s, text, ok, w);
      if ok {
        FramedMore(g, w, k, {}, {}, {s}, {}, c, st);
        FramedTransitive(g, w, k, {s}, {}, a, c, st);
        TextStored(g, w, c, st, s, st.cell[s].(text := clamped));
        FramedTransitive(g, w, k, {s}, {}, a, st, WithCell(st, s, st.cell[s].(text := clamped)));
        SolvedText(g, w, s);
      }
      st := WithCell(st, s, st.cell[s].(text := clamped));
    }

    /** `sym_calc_value`: leaves the symbol calculated. On an acyclic graph it has
        the state that the solution of the equations gives it, whatever has been
        calculated before; on any graph the recursion ends, although a choice
        flagged in `need` is invalidated again. */
    method CalcValue(s: Symbol, ghost ok: bool, ghost w: World)
      requires Shape(g, st)
      requires ok && s in g.decls && s !in st.valid ==> Theory(g, w) && Ready(g, w, st, s)
      modifies this
      ensures Progress(g, old(st), st)
      ensures s in old(st).valid || s !in g.decls ==> st == old(st)
      ensures ok && s in g.decls && s !in old(st).valid ==>
        && Good(g, w, w.rank(s) + 1, st)
        && Framed(g, w, w.rank(s) + 1, {}, {}, old(st), st)
        && s in st.valid
      decreases st.need, g.decls.Keys - st.valid, 0
    {
      hide Theory, Good, Framed, Ready, ChangedMembers, ChoiceUser;
      if s !in g.decls || s in st.valid {
        return;
      }
      var d := g.decls[s];
      ghost var a := st;
      if d.choiceOf.Some? && s in st.need {
        st := st.(need := st.need - {s});
        CalcValue(d.choiceOf.value, false, w);
      }
      if ok { ReadyNeeds(g, w, a, s); Begins(g, w, a, s); }
      st := Begun(st, s);
      ghost var b := st;
      var oldTri := st.cell[s].tri;
      CalcBegun(s, ok, w);
      Conclude(s, oldTri, ok, w, a);
    }

    /** The end of a calculation: the value of the modules symbol is taken over,
        and a flagged choice is to be calculated again. */
    method Conclude(s: Symbol, oldTri: Tri, ghost ok: bool, ghost w: World, ghost a: State)
      requires Shape(g, st) && s in g.decls
      requires ok ==> Theory(g, w) && Calculated(g, w, a, st, s) && oldTri == a.cell[s].tri
      modifies this
      ensures Progress(g, old(st), st)
      ensures ok ==> Good(g, w, w.rank(s) + 1, st) && Framed(g, w, w.rank(s) + 1, {}, {}, a, st) && s in st.valid
    {
      hide Theory, Good, Framed, Calculated;
      if ok { CalculatedEnds(g, w, a, st, s); }
      if s == g.modules && st.cell[s].tri != oldTri {
        st := st.(modulesVal := st.cell[s].tri);
      }
      if s in st.need {
        SetAllChoiceValues(s);
      }
    }

    /** The calculation of a symbol that has been marked as up to date. */
    method CalcBegun(s: Symbol, ghost ok: bool, ghost w: World)
      requires Shape(g, st) && s in g.decls
      requires ok ==> Theory(g, w) && Good(g, w, w.rank(s), st) && s in st.valid && st.users[s] == w.users[s]
      modifies this
      ensures Progress(g, old(st), st)
      ensures ok ==> Good(g, w, w.rank(s), st)
      ensures ok ==> Framed(g, w, w.rank(s), {s}, ChangedMembers(g, s), old(st), st)
      ensures ok ==> st.cell[s] == w.sigma[s] && (g.decls[s].isChoice ==> ChoiceUser(g, w, st, s))
      ensures ok && g.decls[s].choiceOf.Some? ==> g.decls[s].choiceOf.value in st.valid
      decreases st.need, g.decls.Keys - st.valid, 10
    {
      hide Theory, Good, Framed, Bounds, ChangedMembers, SeesAll, ChoiceInReach, Startable, ChoiceUser;
      ghost var a, k, mv := st, w.rank(s), ChangedMembers(g, s);
      var d := g.decls[s];
      if s.Type() == SUnknown {
        if ok { UnknownStored(g, w, a, s); }
        st := WithCell(st, s, st.cell[s].(tri := NO, text := d.name));
        return;
      }
      if ok { Starts(g, w, a, s); PartsSeen(g, w, a, s); }
      CalcVisibility(s, ok, w, k, w.sigma);
      ghost var b := st;
      var x := st.cell[s].(tri := NO, text := if s.IsLogic() then "n" else "", pick := None);
      if ok { Cleared(g, w, a, b, s, x); BoundsValue(g.decls[s], s, w.sigma, ModulesOf(g, w)); }
      st := WithCell(st, s, x);
      ghost var c := st;
      if s.IsLogic() {
        CalcLogic(s, ok, w);
      } else {
        CalcText(s, ok, w);
        if ok { TextNotChoice(g, w, s); FramedMore(g, w, k, {s}, {}, {s}, mv, c, st); }
      }
      if ok {
        FramedMore(g, w, k, {s}, {}, {s}, mv, a, c);
        FramedTransitive(g, w, k, {s}, mv, a, c, st);
        ValidKept(g, w, k, {s}, mv, c, st);
      }
    }

    static function MemberUser(u: User, member: bool): User {
      if member && !u.has then u.(tri := NO) else u
    }

    /** `set_all_choice_values`: members without a user value get `n`, and the
        choice is to be calculated again. */
    method SetAllChoiceValues(c: Symbol)
      requires Shape(g, st) && c in st.need
      modifies this
      ensures Shape(g, st)
      ensures st.need == old(st).need - {c} && st.valid == old(st).valid - {c}
      ensures st.cell == old(st).cell && st.modulesVal == old(st).modulesVal
      ensures forall t :: t in g.decls && t != c ==>
        st.users[t] == MemberUser(old(st).users[t], t in g.decls[c].members)
      ensures st.users[c] == MemberUser(old(st).users[c], c in g.decls[c].members).(has := true)
    {
      var members := g.decls[c].members;
      var i := 0;
      while i < |members|
        invariant 0 <= i <= |members|
        invariant Shape(g, st) && st == old(st).(users := st.users)
        invariant forall t :: t in g.decls ==> st.users[t] == MemberUser(old(st).users[t], t in members[..i])
      {
        var m := members[i];
        if m in g.decls && !st.users[m].has {
          st := st.(users := st.users[m := st.users[m].(tri := NO)]);
        }
        i := i + 1;
      }
      st := st.(users := st.users[c := st.users[c].(has := true)], valid := st.valid - {c}, need := st.need - {c});
    }

    /** `sym_clear_all_valid`. */
    method ClearAllValid(ghost ok: bool, ghost w: World)
      requires Shape(g, st)
      requires ok ==> Theory(g, w) && Blank(g, w, st.(valid := {}))
      modifies this
      ensures Shape(g, st)
      ensures ok ==> AllGood(g, w, st)
    {
      hide Theory, Good, Framed, Ready, AllGood;
      st := st.(valid := {});
      ghost var a := st;
      if ok { ClearedReady(g, w, a); }
      CalcValue(g.modules, ok, w);
      if ok && g.modules in g.decls { ModulesDone(g, w, a, st); }
    }

    /** Calculates the symbols in the order given. Every order gives each symbol
        the state it has in the one solution of the equations. */
    method CalcInOrder(order: seq<Symbol>, ghost ok: bool, ghost w: World)
      requires Shape(g, st)
      requires ok ==> Theory(g, w) && AllGood(g, w, st)
      modifies this
      ensures Shape(g, st)
      ensures ok ==>
        AllGood(g, w, st) && forall s :: s in order && s in g.decls ==> s in st.valid && st.cell[s] == w.sigma[s]
    {
      hide Theory, Good, Framed, Ready, AllGood;
      var i := 0;
      while i < |order|
        invariant 0 <= i <= |order|
        invariant Shape(g, st)
        invariant ok ==> AllGood(g, w, st) && forall s :: s in order[..i] && s in g.decls ==> s in st.valid
      {
        ghost var a := st;
        if ok && order[i] in g.decls { AllGoodReady(g, w, a, order[i]); }
        CalcValue(order[i], ok, w);
        if ok && order[i] in g.decls && order[i] !in a.valid { AllGoodStep(g, w, a, st, order[i]); }
        assert order[..i + 1] == order[..i] + [order[i]];
        i := i + 1;
      }
      assert order[..i] == order;
      if ok {
        forall s | s in order && s in g.decls ensures s in st.valid && s in w.sigma && st.cell[s] == w.sigma[s] {
          AllGoodAgrees(g, w, st, s);
        }
      }
    }

    /** `sym_set_tristate_value`, for ordinary symbols, choices and choice values. */
    method SetTristateValue(s: Symbol, val: Tri, ghost ok: bool, ghost w: World, ghost w': World)
      returns (accepted: bool)
      requires Shape(g, st) && s in g.decls
      requires ok ==> Theory(g, w) && AllGood(g, w, st)
      requires ok ==> Theory(g, w') && w'.users == Assigned(g, st, s, val)
      modifies this
      ensures Shape(g, st)
      ensures accepted <==> old(st).cell[s].tri == val
                            || WithinRange(g.decls[s], s, old(st).cell[s], old(st).modulesVal, val)
      ensures !accepted ==> st == old(st)
      ensures accepted && old(st).cell[s].tri == val ==> st == old(st).(users := Assigned(g, old(st), s, val))
      ensures ok && accepted && old(st).cell[s].tri != val ==> AllGood(g, w', st)
    {
      hide Theory, Good, AllGood, WithinRange, Picking;
      var oldVal := st.cell[s].tri;
      if oldVal != val && !WithinRange(g.decls[s], s, st.cell[s], st.modulesVal, val) {
        return false;
      }
      if g.decls[s].choiceOf.Some? && val == YES {
        SetPick(g.decls[s].choiceOf.value, s);
      }
      st := st.(users := Given(st.users, s, val));
      if oldVal != val {
        if ok { AllGoodClears(g, w, w', old(st), st.users); }
        ClearAllValid(ok, w');
      }
      return true;
    }

    /** A choice value becomes the pick of its choice. */
    method SetPick(c: Symbol, s: Symbol)
      requires Shape(g, st)
      modifies this
      ensures st == old(st).(users := Picking(g, old(st), c, s))
      ensures Shape(g, st)
    {
      if c in g.decls {
        FlagMembers(c);
        st := st.(users := st.users[c := st.users[c].(has := true, pick := Some(s))]);
      }
      assert st.users == Picking(g, old(st), c, s);
    }

    /** The visible members of a choice count as having a user value. */
    method FlagMembers(c: Symbol)
      requires Shape(g, st) && c in g.decls
      modifies this
      ensures Shape(g, st) && st == old(st).(users := st.users)
      ensures forall t :: t in g.decls ==>
        st.users[t] == Flagged(old(st).users[t], t in g.decls[c].members && old(st).cell[t].visible != NO)
    {
      var members := g.decls[c].members;
      for i := 0 to |members|
        invariant Shape(g, st) && st == old(st).(users := st.users)
        invariant forall t :: t in g.decls ==>
          st.users[t] == Flagged(old(st).users[t], t in members[..i] && old(st).cell[t].visible != NO)
      {
        var m := members[i];
        assert members[..i + 1] == members[..i] + [m];
        if m in g.decls && st.cell[m].visible != NO {
          st := st.(users := st.users[m := st.users[m].(has := true)]);
        }
      }
      assert members[..|members|] == members;
    }

    /** Sets an ordinary symbol in a calculated configuration and reads it back.
        A new value is read back exactly when the bounds admit it that the symbol
        has with the user values as they are now, `now` being the solution for
        them; if no calculated choice has lost its user value, that is exactly
        when the symbol is not selected against an unmet dependency. */
    method SetAndRead(s: Symbol, val: Tri, ghost w: World) returns (accepted: bool, r: Tri, ghost now: World)
      requires Shape(g, st) && s in st.valid && Theory(g, w) && AllGood(g, w, st)
      requires g.decls[s].choiceOf.None? && !g.decls[s].isChoice
      modifies this
      ensures Theory(g, now) && now.rank == w.rank && now.users == old(st).users && s in now.sigma
      ensures accepted <==> old(st).cell[s].tri == val
                            || WithinRange(g.decls[s], s, old(st).cell[s], old(st).modulesVal, val)
      ensures accepted && old(st).cell[s].tri != val ==>
        (r == val <==> TakesEffect(g.decls[s], s, now.sigma[s], ModulesOf(g, now), val))
      ensures Intact(g, w, old(st)) ==> now.sigma[s] == old(st).cell[s]
      ensures accepted && old(st).cell[s].tri != val && Intact(g, w, old(st)) ==>
        (r == val <==> !(old(st).cell[s].dir == NO && old(st).cell[s].rev != NO))
      ensures !accepted || old(st).cell[s].tri == val ==> r == old(st).cell[s].tri
    {
      hide Theory, Good, AllGood, Intact, WithinRange, TakesEffect, EffectiveType, Solution, Ranked;
      ghost var a := st;
      var before := st.cell[s].tri;
      ghost var w';
      AllGoodAgrees(g, w, a, s);
      now, w' := Worlds(g, w, a, s, val);
      accepted := SetTristateValue(s, val, true, w, w');
      if accepted && before != val {
        CalcInOrder([s], true, w');
        Judged(g, w, now, w', a, s, val);
      }
      r := st.cell[s].tri;
    }
  }
}
