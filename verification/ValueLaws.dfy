/** What the equations say about the value of a symbol, in terms of its declaration. */
module ValueLaws {
  import opened Symbols
  import opened Expressions
  import opened SymbolEquations
  import opened Numerals

  // ----- conditions -----

  /** The value of a condition in the solution; a missing one holds. */
  function Cond(g: Graph, sigma: Cells, e: Option<Expr>): Tri {
    Value(e, YES, sigma, TriAt(sigma, g.modules))
  }

  /** The i-th default is the first whose condition holds. */
  ghost predicate FirstDefaultHolds(g: Graph, sigma: Cells, d: Decl, i: nat) {
    && i < |d.defaults| && Cond(g, sigma, d.defaults[i].cond) != NO
    && forall j | 0 <= j < i :: Cond(g, sigma, d.defaults[j].cond) == NO
  }

  ghost predicate NoDefaultHolds(g: Graph, sigma: Cells, d: Decl) {
    forall j | 0 <= j < |d.defaults| :: Cond(g, sigma, d.defaults[j].cond) == NO
  }

  ghost predicate FirstRangeHolds(g: Graph, sigma: Cells, d: Decl, i: nat) {
    && i < |d.ranges| && Cond(g, sigma, d.ranges[i].cond) != NO
    && forall j | 0 <= j < i :: Cond(g, sigma, d.ranges[j].cond) == NO
  }

  ghost predicate NoRangeHolds(g: Graph, sigma: Cells, d: Decl) {
    forall j | 0 <= j < |d.ranges| :: Cond(g, sigma, d.ranges[j].cond) == NO
  }

  lemma {:induction false} FirstActiveIs(conds: seq<Option<Expr>>, cells: Cells, modules: Tri, i: nat)
    requires i <= |conds| && (forall j | 0 <= j < i :: Value(conds[j], YES, cells, modules) == NO)
    requires i < |conds| ==> Value(conds[i], YES, cells, modules) != NO
    ensures FirstActive(conds, cells, modules) == i
  {
    hide Value;
    if i > 0 { FirstActiveIs(conds[1..], cells, modules, i - 1); }
  }

  // ----- visibility -----

  /** Whether the symbol can have the value `m`: otherwise `m` counts as `y`. */
  predicate CanBeMod(g: Graph, sigma: Cells, s: Symbol) {
    s.Type() == STristate && TriAt(sigma, g.modules) != NO
  }

  function Settle(g: Graph, sigma: Cells, s: Symbol, t: Tri): Tri {
    if t == MOD && !CanBeMod(g, sigma, s) then YES else t
  }

  /** What a prompt counts for: a tristate choice value that is visible only as `m` is
      hidden while its choice is `y`. */
  function PromptValue(g: Graph, sigma: Cells, s: Symbol, d: Decl, p: Option<Expr>): Tri {
    var t := Cond(g, sigma, p);
    if d.choiceOf.Some? && s.Type() == STristate && t == MOD && TriAt(sigma, d.choiceOf.value) == YES then NO else t
  }

  /** The largest value of a prompt, `n` if there is none. */
  ghost predicate Largest(g: Graph, sigma: Cells, s: Symbol, d: Decl, t: Tri) {
    && (forall p | p in d.prompts :: PromptValue(g, sigma, s, d, p) <= t)
    && (t == NO || exists p :: p in d.prompts && PromptValue(g, sigma, s, d, p) == t)
  }

  lemma {:induction false} PromptMaxLargest(g: Graph, sigma: Cells, s: Symbol, d: Decl, ps: seq<Option<Expr>>)
    requires ps == d.prompts
    ensures Largest(g, sigma, s, d, PromptMax(d, s, ps, sigma, TriAt(sigma, g.modules)))
  {
    hide Value;
    MaxOfPrefix(g, sigma, s, d, ps);
  }

  lemma {:induction false} MaxOfPrefix(g: Graph, sigma: Cells, s: Symbol, d: Decl, ps: seq<Option<Expr>>)
    ensures var t := PromptMax(d, s, ps, sigma, TriAt(sigma, g.modules));
      && (forall p | p in ps :: PromptValue(g, sigma, s, d, p) <= t)
      && (t == NO || exists p :: p in ps && PromptValue(g, sigma, s, d, p) == t)
  {
    hide Value, TriAt;
    if ps != [] {
      var n := |ps| - 1;
      MaxOfPrefix(g, sigma, s, d, ps[..n]);
      assert ps == ps[..n] + [ps[n]];
      assert PromptTri(d, s, ps[n], sigma, TriAt(sigma, g.modules)) == PromptValue(g, sigma, s, d, ps[n]);
      assert ps[n] in ps;
    }
  }

  /** A symbol is as visible as the most visible of its prompts. */
  lemma VisibleLaw(g: Graph, users: Users, sigma: Cells, s: Symbol)
    requires Solution(g, users, sigma) && s in g.decls && s.Type() != SUnknown
    ensures exists t: Tri :: Largest(g, sigma, s, g.decls[s], t) && sigma[s].visible == Settle(g, sigma, s, t)
  {
    hide Largest, PromptMax, LogicTri, ClampText, ProposedText, PickMember, Bound;
    var d := g.decls[s];
    PromptMaxLargest(g, sigma, s, d, d.prompts);
    assert sigma[s] == Equation(g, users, sigma, s);
  }

  /** The direct, reverse and implied bounds of a symbol that is no choice value. */
  lemma BoundsLaw(g: Graph, users: Users, sigma: Cells, s: Symbol)
    requires Solution(g, users, sigma) && s in g.decls && s.IsLogic() && g.decls[s].choiceOf.None?
    ensures var d, m := g.decls[s], TriAt(sigma, g.modules);
      && sigma[s].dir == Settle(g, sigma, s, Cond(g, sigma, d.dirDep))
      && sigma[s].rev == Settle(g, sigma, s, Value(d.revDep, NO, sigma, m))
      && sigma[s].imp == Settle(g, sigma, s, Value(d.implied, NO, sigma, m))
  {
    hide PromptMax, LogicTri, PickMember, Value;
    assert sigma[s] == Equation(g, users, sigma, s);
  }

  // ----- bool and tristate symbols -----

  predicate IsMin(t: Tri, a: Tri, b: Tri) { t <= a && t <= b && (t == a || t == b) }
  predicate IsMax(t: Tri, a: Tri, b: Tri) { t >= a && t >= b && (t == a || t == b) }

  /** `t` is what the defaults give: the first whose condition holds, limited by it. */
  ghost predicate GivenByDefault(g: Graph, sigma: Cells, d: Decl, t: Tri) {
    && (NoDefaultHolds(g, sigma, d) ==> t == NO)
    && (forall i | 0 <= i < |d.defaults| && FirstDefaultHolds(g, sigma, d, i) ::
         IsMin(t, Cond(g, sigma, Some(d.defaults[i].value)), Cond(g, sigma, d.defaults[i].cond)))
  }

  /** `t` is what the symbol would be if nothing selected it: the user value within
      the visibility, else what the defaults give, raised to what implies it and
      limited by the dependency if something does. */
  ghost predicate Unselected(g: Graph, sigma: Cells, d: Decl, u: User, x: Cell, t: Tri) {
    if x.visible != NO && u.has then IsMin(t, u.tri, x.visible)
    else if d.isChoice then t == NO
    else exists byDefault: Tri ::
      && GivenByDefault(g, sigma, d, byDefault)
      && if x.imp == NO then t == byDefault
         else exists raised: Tri :: IsMax(raised, byDefault, x.imp) && IsMin(t, raised, x.dir)
  }

  /** `r` is that, raised to what selects the symbol, unless the dependency is unmet. */
  ghost predicate AfterSelection(x: Cell, t: Tri, r: Tri) {
    if x.dir == NO && x.rev != NO then r == NO else IsMax(r, t, x.rev)
  }

  lemma DefaultIs(g: Graph, sigma: Cells, d: Decl)
    ensures GivenByDefault(g, sigma, d, DefaultTri(d, sigma, TriAt(sigma, g.modules)))
  {
    hide Value, TriAt;
    var m := TriAt(sigma, g.modules);
    var t := DefaultTri(d, sigma, m);
    if NoDefaultHolds(g, sigma, d) { FirstActiveIs(DefaultConds(d), sigma, m, |d.defaults|); }
    forall i | 0 <= i < |d.defaults| && FirstDefaultHolds(g, sigma, d, i)
      ensures IsMin(t, Cond(g, sigma, Some(d.defaults[i].value)), Cond(g, sigma, d.defaults[i].cond))
    {
      FirstActiveIs(DefaultConds(d), sigma, m, i);
      assert Value(Some(d.defaults[i].value), YES, sigma, m) == Eval(d.defaults[i].value, CellsEnv(sigma, m)) by {
        ValueOfSome(d.defaults[i].value, sigma, m);
      }
    }
  }

  lemma ValueOfSome(e: Expr, cells: Cells, modules: Tri)
    ensures Value(Some(e), YES, cells, modules) == Eval(e, CellsEnv(cells, modules))
  {
  }

  lemma ProposedIs(g: Graph, sigma: Cells, d: Decl, u: User, x: Cell)
    ensures Unselected(g, sigma, d, u, x,
      ProposedTri(d, u, x.visible, x.dir, x.imp, DefaultTri(d, sigma, TriAt(sigma, g.modules))))
  {
    hide DefaultTri, GivenByDefault, TriAt;
    DefaultIs(g, sigma, d);
    var byDefault := DefaultTri(d, sigma, TriAt(sigma, g.modules));
    if !(x.visible != NO && u.has) && !d.isChoice && x.imp != NO {
      assert IsMax(Max(byDefault, x.imp), byDefault, x.imp);
    }
  }

  lemma CellIs(g: Graph, users: Users, sigma: Cells, s: Symbol)
    requires Solution(g, users, sigma) && s in g.decls && s.IsLogic()
    ensures s in users && s in sigma
    ensures var t := LogicTri(g.decls[s], s, users[s], sigma[s], sigma, TriAt(sigma, g.modules));
      sigma[s].tri == if g.decls[s].isChoice && t == YES && sigma[s].pick.None? then NO else t
  {
    hide DefaultTri, PickMember, Bound, VisibleTri;
    assert sigma[s] == Equation(g, users, sigma, s);
  }

  lemma LogicTriIs(g: Graph, sigma: Cells, s: Symbol, d: Decl, u: User, x: Cell)
    requires s.IsLogic() && (d.choiceOf.Some? ==> x.visible != YES)
    ensures var m := TriAt(sigma, g.modules);
      var t := ProposedTri(d, u, x.visible, x.dir, x.imp, DefaultTri(d, sigma, m));
      LogicTri(d, s, u, x, sigma, m) == Settle(g, sigma, s, Selected(t, x.dir, x.rev))
  {
    hide DefaultTri, ProposedTri, Selected, TriAt;
  }

  /** The value that the declaration gives a bool or tristate symbol. A choice without
      a selectable member is `n`. */
  ghost predicate Decides(g: Graph, users: Users, sigma: Cells, s: Symbol, t: Tri, r: Tri)
    requires s in g.decls && s in users && s in sigma
  {
    && Unselected(g, sigma, g.decls[s], users[s], sigma[s], t)
    && AfterSelection(sigma[s], t, r)
    && var v := Settle(g, sigma, s, r);
       sigma[s].tri == if g.decls[s].isChoice && v == YES && sigma[s].pick.None? then NO else v
  }

  /** This is the value of every such symbol, choice values that are fully visible
      aside: those follow their choice. */
  lemma LogicLaw(g: Graph, users: Users, sigma: Cells, s: Symbol)
    requires Solution(g, users, sigma) && s in g.decls && s.IsLogic()
    requires g.decls[s].choiceOf.Some? ==> sigma[s].visible != YES
    ensures exists t: Tri, r: Tri :: Decides(g, users, sigma, s, t, r)
  {
    hide Unselected, DefaultTri, ProposedTri, LogicTri, Solution, Settle, TriAt;
    CellIs(g, users, sigma, s);
    var d, x, m := g.decls[s], sigma[s], TriAt(sigma, g.modules);
    LogicTriIs(g, sigma, s, d, users[s], x);
    ProposedIs(g, sigma, d, users[s], x);
    var t := ProposedTri(d, users[s], x.visible, x.dir, x.imp, DefaultTri(d, sigma, m));
    var r := Selected(t, x.dir, x.rev);
    assert AfterSelection(x, t, r);
    assert Decides(g, users, sigma, s, t, r);
  }

  /** The same for an ordinary symbol that nothing but its defaults decides. */
  lemma DefaultLaw(g: Graph, users: Users, sigma: Cells, s: Symbol, i: nat)
    requires Solution(g, users, sigma) && s in g.decls && s.IsLogic()
    requires g.decls[s].choiceOf.None? && !g.decls[s].isChoice
    requires (sigma[s].visible == NO || !users[s].has) && sigma[s].imp == NO && sigma[s].rev == NO
    ensures NoDefaultHolds(g, sigma, g.decls[s]) ==> sigma[s].tri == NO
    ensures FirstDefaultHolds(g, sigma, g.decls[s], i) ==>
      var f := g.decls[s].defaults[i];
      exists t: Tri ::
        IsMin(t, Cond(g, sigma, Some(f.value)), Cond(g, sigma, f.cond)) && sigma[s].tri == Settle(g, sigma, s, t)
  {
    hide Value, TriAt, Solution;
    LogicLaw(g, users, sigma, s);
  }

  /** With nothing else in play a default without a condition gives its value. */
  lemma PlainDefault(g: Graph, users: Users, sigma: Cells, s: Symbol, k: Symbol)
    requires Solution(g, users, sigma) && s in g.decls && s.IsLogic() && k.IsConst()
    requires g.decls[s] == Decl(g.decls[s].name, [], [Default(None, Sym(k))], [], None, None, None, false, [], None)
    ensures sigma[s].tri == Settle(g, sigma, s, TriAt(sigma, k))
  {
    VisibleLaw(g, users, sigma, s);
    BoundsLaw(g, users, sigma, s);
    assert FirstDefaultHolds(g, sigma, g.decls[s], 0);
    DefaultLaw(g, users, sigma, s, 0);
  }

  /** What is selected is at least what selects it, if its dependency is met. */
  lemma SelectedLaw(g: Graph, users: Users, sigma: Cells, s: Symbol)
    requires Solution(g, users, sigma) && s in g.decls && s.IsLogic()
    requires g.decls[s].choiceOf.None? && !g.decls[s].isChoice
    ensures sigma[s].dir != NO ==> sigma[s].tri >= sigma[s].rev
    ensures sigma[s].dir == NO && sigma[s].rev != NO ==> sigma[s].tri == NO
  {
    hide Solution, Unselected;
    LogicLaw(g, users, sigma, s);
  }

  /** What is implied lies between what implies it and its dependency, as far as the
      dependency allows and unless the user decides. */
  lemma ImpliedLaw(g: Graph, users: Users, sigma: Cells, s: Symbol)
    requires Solution(g, users, sigma) && s in g.decls && s.IsLogic()
    requires g.decls[s].choiceOf.None? && !g.decls[s].isChoice
    requires (sigma[s].visible == NO || !users[s].has) && sigma[s].imp != NO && sigma[s].rev == NO
    ensures sigma[s].tri <= sigma[s].dir
    ensures sigma[s].imp <= sigma[s].dir ==> sigma[s].imp <= sigma[s].tri
    ensures sigma[s].dir < sigma[s].imp ==> sigma[s].tri == sigma[s].dir
  {
    BoundsLaw(g, users, sigma, s);
    hide Solution, GivenByDefault, Value;
    LogicLaw(g, users, sigma, s);
  }

  /** A visible user value counts, within the visibility. */
  lemma UserLaw(g: Graph, users: Users, sigma: Cells, s: Symbol)
    requires Solution(g, users, sigma) && s in g.decls && s.IsLogic()
    requires g.decls[s].choiceOf.None? && !g.decls[s].isChoice
    requires sigma[s].visible != NO && users[s].has && sigma[s].rev == NO
    ensures exists t: Tri :: IsMin(t, users[s].tri, sigma[s].visible) && sigma[s].tri == Settle(g, sigma, s, t)
  {
    hide Solution;
    LogicLaw(g, users, sigma, s);
  }

  // ----- int, hex and string symbols -----

  /** `t` is the text before ranges apply: the user's if the symbol is visible, else
      that of the symbol that the first default names. */
  ghost predicate GivenText(g: Graph, sigma: Cells, d: Decl, u: User, x: Cell, t: string) {
    if x.visible != NO && u.has then t == u.text
    else
      && (NoDefaultHolds(g, sigma, d) ==> t == "")
      && (forall i | 0 <= i < |d.defaults| && FirstDefaultHolds(g, sigma, d, i) ::
           t == if d.defaults[i].value.Sym? then RawText(sigma, d.defaults[i].value.sym) else "")
  }

  predicate IsNumeric(s: Symbol) { s.Type() == SInt || s.Type() == SHex }

  function BaseOf(s: Symbol): nat { if s.Type() == SInt then 10 else 16 }

  /** A bound of a range is read in its own base if it is a number, else in the base
      of the symbol it bounds. */
  function BoundValue(sigma: Cells, bound: Symbol, s: Symbol): int {
    StrToLL(RawText(sigma, bound), BaseOf(if IsNumeric(bound) then bound else s))
  }

  lemma TextLaw(g: Graph, users: Users, sigma: Cells, s: Symbol)
    requires Solution(g, users, sigma) && s in g.decls && (IsNumeric(s) || s.Type() == SString)
    ensures exists t: string ::
      && GivenText(g, sigma, g.decls[s], users[s], sigma[s], t)
      && (s.Type() == SString || NoRangeHolds(g, sigma, g.decls[s]) ==> sigma[s].text == t)
      && (forall i | IsNumeric(s) && 0 <= i < |g.decls[s].ranges| && FirstRangeHolds(g, sigma, g.decls[s], i) ::
           Ranged(sigma, s, g.decls[s].ranges[i], t, sigma[s].text))
  {
    var d, x, u, m := g.decls[s], sigma[s], users[s], TriAt(sigma, g.modules);
    assert x == Equation(g, users, sigma, s);
    var t := ProposedText(d, u, x.visible, sigma, m);
    TextIs(g, sigma, d, u, x);
    assert x.text == ClampText(d, s, t, sigma, m);
    hide Equation, ProposedText, Solution;
    RangeIs(g, sigma, s, d, t);
  }

  lemma TextIs(g: Graph, sigma: Cells, d: Decl, u: User, x: Cell)
    ensures GivenText(g, sigma, d, u, x, ProposedText(d, u, x.visible, sigma, TriAt(sigma, g.modules)))
  {
    hide Value, TriAt, RawText;
    var m := TriAt(sigma, g.modules);
    if NoDefaultHolds(g, sigma, d) { FirstActiveIs(DefaultConds(d), sigma, m, |d.defaults|); }
    forall i | 0 <= i < |d.defaults| && FirstDefaultHolds(g, sigma, d, i)
      ensures FirstActive(DefaultConds(d), sigma, m) == i
    {
      FirstActiveIs(DefaultConds(d), sigma, m, i);
    }
  }

  /** A number below the range becomes its lower bound, one above it its upper bound,
      and any other stays. */
  ghost predicate Ranged(sigma: Cells, s: Symbol, r: Range, t: string, after: string) {
    var v, lo, hi := StrToLL(t, BaseOf(s)), BoundValue(sigma, r.lo, s), BoundValue(sigma, r.hi, s);
    && (lo <= v <= hi ==> after == t)
    && (v < lo ==> after == RawText(sigma, r.lo))
    && (lo <= v && hi < v ==> after == RawText(sigma, r.hi))
  }

  lemma RangeIs(g: Graph, sigma: Cells, s: Symbol, d: Decl, t: string)
    requires IsNumeric(s) || s.Type() == SString
    ensures var after := ClampText(d, s, t, sigma, TriAt(sigma, g.modules));
      && (s.Type() == SString || NoRangeHolds(g, sigma, d) ==> after == t)
      && (forall i | IsNumeric(s) && 0 <= i < |d.ranges| && FirstRangeHolds(g, sigma, d, i) ::
           Ranged(sigma, s, d.ranges[i], t, after))
  {
    hide Value, TriAt, RawText, StrToLL;
    var m := TriAt(sigma, g.modules);
    if NoRangeHolds(g, sigma, d) { FirstActiveIs(RangeConds(d), sigma, m, |d.ranges|); }
    forall i | IsNumeric(s) && 0 <= i < |d.ranges| && FirstRangeHolds(g, sigma, d, i)
      ensures Ranged(sigma, s, d.ranges[i], t, ClampText(d, s, t, sigma, m))
    {
      FirstActiveIs(RangeConds(d), sigma, m, i);
    }
  }

  /** Both bounds are read in the base of the symbol. */
  predicate SameBase(s: Symbol, r: Range) {
    && (IsNumeric(r.lo) ==> r.lo.Type() == s.Type())
    && (IsNumeric(r.hi) ==> r.hi.Type() == s.Type())
  }

  /** The resulting number lies in the range, if the range has a number in it and is
      given in the base of the symbol. */
  lemma WithinRangeLaw(g: Graph, users: Users, sigma: Cells, s: Symbol, i: nat)
    requires Solution(g, users, sigma) && s in g.decls && IsNumeric(s)
    requires i < |g.decls[s].ranges| && FirstRangeHolds(g, sigma, g.decls[s], i) && SameBase(s, g.decls[s].ranges[i])
    ensures var r := g.decls[s].ranges[i];
      var lo, hi := BoundValue(sigma, r.lo, s), BoundValue(sigma, r.hi, s);
      lo <= hi ==> lo <= StrToLL(sigma[s].text, BaseOf(s)) <= hi
  {
    TextLaw(g, users, sigma, s);
    hide Solution, StrToLL, RawText, FirstRangeHolds;
    var t: string :| Ranged(sigma, s, g.decls[s].ranges[i], t, sigma[s].text);
  }

  /** In general: the resulting number lies in the range exactly when the text of the
      bound that replaces it, if one does, is still in the range in the base of the
      symbol. */
  lemma RangedExact(sigma: Cells, s: Symbol, r: Range, t: string, after: string)
    requires Ranged(sigma, s, r, t, after) && BoundValue(sigma, r.lo, s) <= BoundValue(sigma, r.hi, s)
    ensures var v, lo, hi := StrToLL(t, BaseOf(s)), BoundValue(sigma, r.lo, s), BoundValue(sigma, r.hi, s);
      lo <= StrToLL(after, BaseOf(s)) <= hi <==>
        && (v < lo ==> lo <= StrToLL(RawText(sigma, r.lo), BaseOf(s)) <= hi)
        && (v > hi ==> lo <= StrToLL(RawText(sigma, r.hi), BaseOf(s)) <= hi)
  {
    hide StrToLL, RawText;
  }

  // ----- a range in another base -----

  const LO: Symbol := Config(0, SHex)
  const HI: Symbol := Config(1, SHex)
  const NUM: Symbol := Config(2, SInt)

  function Constant(name: string, text: string, ranges: seq<Range>): Decl {
    Decl(name, [], [Default(None, Sym(Const(text)))], ranges, None, None, None, false, [], None)
  }

  /** An int symbol with default 5 and a range between two hex symbols. */
  function MixedBases(): Graph {
    Graph(map[LO := Constant("LO", "10", []), HI := Constant("HI", "20", []),
              NUM := Constant("NUM", "5", [Range(None, LO, HI)])], SymNo)
  }

  lemma FewNumbers()
    ensures StrToLL("10", 16) == 16 && StrToLL("20", 16) == 32 && StrToLL("10", 10) == 10 && StrToLL("5", 10) == 5
  {
    hide StrToLL;
    assert Numeral(1, 16) == "1" && Numeral(2, 16) == "2" && Numeral(1, 10) == "1";
    assert Numeral(16, 16) == "10" && Numeral(32, 16) == "20" && Numeral(10, 10) == "10" && Numeral(5, 10) == "5";
    StrToLLReads(16, 16, false);
    StrToLLReads(32, 16, false);
    StrToLLReads(10, 10, false);
    StrToLLReads(5, 10, false);
    assert forall s: string :: Written(false, false, s) == s;
  }

  lemma ConstantCell(g: Graph, users: Users, cells: Cells, s: Symbol, name: string, text: string, ranges: seq<Range>)
    requires g.modules == SymNo && s in g.decls && s in users && !users[s].has && IsNumeric(s)
    requires g.decls[s] == Constant(name, text, ranges)
    ensures Equation(g, users, cells, s)
         == Cell(NO, ClampText(g.decls[s], s, text, cells, NO), None, NO, YES, NO, NO)
  {
    hide ClampText;
    var d := g.decls[s];
    assert DefaultConds(d) == [None];
    assert FirstActive([None], cells, NO) == 0;
    assert ProposedText(d, users[s], NO, cells, NO) == text;
  }

  /** The bound `10` of a hex symbol is sixteen, but as the text of an int symbol it
      is ten, which is below the range. */
  lemma BaseBreaksRange(users: Users)
    requires users.Keys == {LO, HI, NUM} && forall s :: s in users ==> !users[s].has
    ensures var cells := map[LO := Cell(NO, "10", None, NO, YES, NO, NO), HI := Cell(NO, "20", None, NO, YES, NO, NO),
                             NUM := Cell(NO, "10", None, NO, YES, NO, NO)];
      && Solution(MixedBases(), users, cells)
      && BoundValue(cells, LO, NUM) == 16 && BoundValue(cells, HI, NUM) == 32
      && StrToLL(cells[NUM].text, BaseOf(NUM)) == 10
  {
    var cells := map[LO := Cell(NO, "10", None, NO, YES, NO, NO), HI := Cell(NO, "20", None, NO, YES, NO, NO),
                     NUM := Cell(NO, "10", None, NO, YES, NO, NO)];
    var g := MixedBases();
    FewNumbers();
    hide Equation, StrToLL;
    ConstantCell(g, users, cells, LO, "LO", "10", []);
    ConstantCell(g, users, cells, HI, "HI", "20", []);
    ConstantCell(g, users, cells, NUM, "NUM", "5", [Range(None, LO, HI)]);
    OutOfRange(g.decls[LO], LO, "10", cells);
    OutOfRange(g.decls[HI], HI, "20", cells);
    RaisedToBound(cells);
  }

  lemma OutOfRange(d: Decl, s: Symbol, t: string, cells: Cells)
    requires d.ranges == []
    ensures ClampText(d, s, t, cells, NO) == t
  {
  }

  lemma RaisedToBound(cells: Cells)
    requires LO in cells && cells[LO].text == "10"
    ensures ClampText(Constant("NUM", "5", [Range(None, LO, HI)]), NUM, "5", cells, NO) == "10"
  {
    FewNumbers();
    hide StrToLL;
    var d := Constant("NUM", "5", [Range(None, LO, HI)]);
    assert RangeConds(d) == [None] && FirstActive([None], cells, NO) == 0;
  }
}
