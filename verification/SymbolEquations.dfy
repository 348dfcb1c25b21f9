/** The value of every symbol, stated as equations between the values of the symbols. */
module SymbolEquations {
  import opened Symbols
  import opened Expressions

  // ----- declarations -----

  /** A `default`: its condition and the value it gives. */
  datatype Default = Default(cond: Option<Expr>, value: Expr)

  /** A `range` with its condition and bounds. */
  datatype Range = Range(cond: Option<Expr>, lo: Symbol, hi: Symbol)

  /** What is declared about a symbol. `members` lists the values of a choice,
      `choiceOf` names the choice that a value belongs to. */
  datatype Decl = Decl(
    name: string,
    prompts: seq<Option<Expr>>,
    defaults: seq<Default>,
    ranges: seq<Range>,
    dirDep: Option<Expr>,
    revDep: Option<Expr>,
    implied: Option<Expr>,
    isChoice: bool,
    members: seq<Symbol>,
    choiceOf: Option<Symbol>)

  datatype Graph = Graph(decls: map<Symbol, Decl>, modules: Symbol)

  /** A value given by the user; `has` is the flag that says there is one. */
  datatype User = User(has: bool, tri: Tri, text: string, pick: Option<Symbol>)

  /** The calculated state of a symbol: its value as a tristate, as a string and
      as the selected member of a choice, and the bounds it was derived from. */
  datatype Cell = Cell(
    tri: Tri,
    text: string,
    pick: Option<Symbol>,
    visible: Tri,
    dir: Tri,
    rev: Tri,
    imp: Tri)

  type Cells = map<Symbol, Cell>
  type Users = map<Symbol, User>

  // ----- reading values -----

  function TriAt(cells: Cells, s: Symbol): Tri {
    match s
    case SymYes => YES
    case SymMod => MOD
    case SymNo => NO
    case Const(_) => NO
    case Config(_, _) => if s in cells then cells[s].tri else NO
  }

  /** `curr.val` read as a string. */
  function RawText(cells: Cells, s: Symbol): string {
    match s
    case SymYes => "y"
    case SymMod => "m"
    case SymNo => "n"
    case Const(name) => name
    case Config(_, _) => if s in cells then cells[s].text else ""
  }

  /** `sym_get_string_value`. */
  function StringAt(cells: Cells, modules: Tri, s: Symbol): string {
    if s.IsLogic() then
      var t := TriAt(cells, s);
      if t == YES then "y" else if t == MOD && modules != NO then "m" else "n"
    else RawText(cells, s)
  }

  function CompareAt(cells: Cells, modules: Tri, s: Symbol, t: Symbol): int {
    CompareText(StringAt(cells, modules, s), s.Type(), StringAt(cells, modules, t), t.Type())
  }

  function CellsEnv(cells: Cells, modules: Tri): Env {
    Env(s => TriAt(cells, s), (s, t) => CompareAt(cells, modules, s, t))
  }

  /** `expr_calc_value`, with `absent` for the null expression. */
  function Value(e: Option<Expr>, absent: Tri, cells: Cells, modules: Tri): Tri {
    if e.Some? then Eval(e.value, CellsEnv(cells, modules)) else absent
  }

  // ----- the equations -----

  /** A prompt of a tristate choice value that is visible only as `m` is hidden
      while the choice is `y`. */
  function PromptTri(d: Decl, s: Symbol, p: Option<Expr>, cells: Cells, modules: Tri): Tri {
    var t := Value(p, YES, cells, modules);
    if d.choiceOf.Some? && s.Type() == STristate && t == MOD && TriAt(cells, d.choiceOf.value) == YES then NO else t
  }

  function PromptMax(d: Decl, s: Symbol, ps: seq<Option<Expr>>, cells: Cells, modules: Tri): Tri {
    if ps == [] then NO
    else Max(PromptMax(d, s, ps[..|ps| - 1], cells, modules), PromptTri(d, s, ps[|ps| - 1], cells, modules))
  }

  function ClampVisible(s: Symbol, t: Tri, modules: Tri): Tri {
    if t == MOD && (s.Type() != STristate || modules == NO) then YES else t
  }

  function VisibleTri(d: Decl, s: Symbol, cells: Cells, modules: Tri): Tri {
    ClampVisible(s, PromptMax(d, s, d.prompts, cells, modules), modules)
  }

  /** `sym_get_type`. */
  function EffectiveType(d: Decl, s: Symbol, visible: Tri, modules: Tri): SymbolType {
    if s.Type() == STristate && ((d.choiceOf.Some? && visible == YES) || modules == NO) then SBool else s.Type()
  }

  /** A bool cannot be `m`. */
  function Lift(ty: SymbolType, t: Tri): Tri {
    if t == MOD && ty == SBool then YES else t
  }

  /** The direct, reverse and implied bounds; choice values have none. */
  function Bound(d: Decl, s: Symbol, e: Option<Expr>, absent: Tri, visible: Tri, cells: Cells, modules: Tri): Tri {
    if d.choiceOf.Some? then NO
    else Lift(EffectiveType(d, s, visible, modules), Value(e, absent, cells, modules))
  }

  /** The first default or range whose condition holds, or the length of the list. */
  function FirstActive(conds: seq<Option<Expr>>, cells: Cells, modules: Tri): (i: nat)
    ensures i <= |conds|
  {
    if conds == [] then 0
    else if Value(conds[0], YES, cells, modules) != NO then 0
    else 1 + FirstActive(conds[1..], cells, modules)
  }

  function DefaultConds(d: Decl): (r: seq<Option<Expr>>)
    ensures |r| == |d.defaults|
  {
    seq(|d.defaults|, i requires 0 <= i < |d.defaults| => d.defaults[i].cond)
  }

  function RangeConds(d: Decl): (r: seq<Option<Expr>>)
    ensures |r| == |d.ranges|
  {
    seq(|d.ranges|, i requires 0 <= i < |d.ranges| => d.ranges[i].cond)
  }

  function DefaultTri(d: Decl, cells: Cells, modules: Tri): Tri {
    var i := FirstActive(DefaultConds(d), cells, modules);
    if i == |d.defaults| then NO
    else Min(Eval(d.defaults[i].value, CellsEnv(cells, modules)), Value(d.defaults[i].cond, YES, cells, modules))
  }

  /** What a logic symbol would be without its reverse dependencies. */
  function ProposedTri(d: Decl, u: User, visible: Tri, dir: Tri, imp: Tri, byDefault: Tri): Tri {
    if visible != NO && u.has then Min(u.tri, visible)
    else if d.isChoice then NO
    else if imp != NO then Min(Max(byDefault, imp), dir)
    else byDefault
  }

  /** Reverse dependencies are a lower bound, unless they meet an unmet direct one. */
  function Selected(proposed: Tri, dir: Tri, rev: Tri): Tri {
    if dir == NO && rev != NO then NO else Max(proposed, rev)
  }

  function LogicTri(d: Decl, s: Symbol, u: User, bounds: Cell, cells: Cells, modules: Tri): Tri {
    if d.choiceOf.Some? && bounds.visible == YES then
      Truth(d.choiceOf.value in cells && cells[d.choiceOf.value].pick == Some(s))
    else
      var proposed := ProposedTri(d, u, bounds.visible, bounds.dir, bounds.imp, DefaultTri(d, cells, modules));
      Lift(EffectiveType(d, s, bounds.visible, modules), Selected(proposed, bounds.dir, bounds.rev))
  }

  /** The string before ranges are applied. */
  function ProposedText(d: Decl, u: User, visible: Tri, cells: Cells, modules: Tri): string {
    if visible != NO && u.has then u.text
    else
      var i := FirstActive(DefaultConds(d), cells, modules);
      if i < |d.defaults| && d.defaults[i].value.Sym? then RawText(cells, d.defaults[i].value.sym) else ""
  }

  function NumberBase(s: Symbol, base: nat): nat {
    if s.Type() == SInt then 10 else if s.Type() == SHex then 16 else base
  }

  function RangeValue(cells: Cells, s: Symbol, base: nat): int {
    StrToLL(RawText(cells, s), NumberBase(s, base))
  }

  /** `sym_validate_range`. */
  function ClampText(d: Decl, s: Symbol, text: string, cells: Cells, modules: Tri): string {
    var i := FirstActive(RangeConds(d), cells, modules);
    if (s.Type() != SInt && s.Type() != SHex) || i == |d.ranges| then text
    else
      var base := NumberBase(s, 0);
      var r := d.ranges[i];
      if StrToLL(text, base) < RangeValue(cells, r.lo, base) then RawText(cells, r.lo)
      else if StrToLL(text, base) > RangeValue(cells, r.hi, base) then RawText(cells, r.hi)
      else text
  }

  // ----- choices -----

  /** Whether a symbol is visible, given the visibility of the members. */
  predicate Shown(vis: map<Symbol, Tri>, s: Symbol) {
    s in vis && vis[s] != NO
  }

  function FirstShown(vis: map<Symbol, Tri>, members: seq<Symbol>): Option<Symbol> {
    if members == [] then None
    else if Shown(vis, members[0]) then Some(members[0])
    else FirstShown(vis, members[1..])
  }

  function FirstDefault(vis: map<Symbol, Tri>, defaults: seq<Default>, cells: Cells, modules: Tri): Option<Symbol> {
    if defaults == [] then None
    else
      var f := defaults[0];
      if Value(f.cond, YES, cells, modules) != NO && f.value.Sym? && Shown(vis, f.value.sym) then Some(f.value.sym)
      else FirstDefault(vis, defaults[1..], cells, modules)
  }

  /** The selected member: what the user picked if it is visible, else the first
      visible default, else the first visible member. */
  function PickMember(d: Decl, u: User, vis: map<Symbol, Tri>, cells: Cells, modules: Tri): Option<Symbol> {
    if u.pick.Some? && Shown(vis, u.pick.value) then u.pick
    else
      var f := FirstDefault(vis, d.defaults, cells, modules);
      if f.Some? then f else FirstShown(vis, d.members)
  }

  function MemberVisibility(g: Graph, members: seq<Symbol>, cells: Cells, modules: Tri): map<Symbol, Tri> {
    map m | m in members && m in g.decls :: VisibleTri(g.decls[m], m, cells, modules)
  }

  // ----- the equation of one symbol -----

  function Bounds(d: Decl, s: Symbol, cells: Cells, modules: Tri): Cell {
    var visible := VisibleTri(d, s, cells, modules);
    Cell(NO, "n", None, visible,
         Bound(d, s, d.dirDep, YES, visible, cells, modules),
         Bound(d, s, d.revDep, NO, visible, cells, modules),
         Bound(d, s, d.implied, NO, visible, cells, modules))
  }

  /** The state that the declaration of `s` prescribes when all other symbols are
      as in `cells`. */
  function Equation(g: Graph, users: Users, cells: Cells, s: Symbol): Cell
    requires s in g.decls && s in users
  {
    var d := g.decls[s];
    var modules := TriAt(cells, g.modules);
    var b := Bounds(d, s, cells, modules);
    match s.Type()
    case SUnknown => Cell(NO, d.name, None, NO, NO, NO, NO)
    case SBool => LogicCell(g, users[s], b, cells, modules, s)
    case STristate => LogicCell(g, users[s], b, cells, modules, s)
    case _ =>
      b.(text := ClampText(d, s, ProposedText(d, users[s], b.visible, cells, modules), cells, modules))
  }

  function LogicCell(g: Graph, u: User, b: Cell, cells: Cells, modules: Tri, s: Symbol): Cell
    requires s in g.decls
  {
    var d := g.decls[s];
    var t := LogicTri(d, s, u, b, cells, modules);
    if d.isChoice && t == YES then
      var during := cells[s := b.(tri := YES)];
      var pick := PickMember(d, u, MemberVisibility(g, d.members, during, modules), during, modules);
      b.(tri := if pick.Some? then YES else NO, pick := pick)
    else b.(tri := t)
  }

  /** Whether the calculation of a choice leaves it its user value: a choice that
      is `y` loses it unless all its visible members have one of their own. */
  predicate KeepsUser(g: Graph, users: Users, cells: Cells, c: Symbol)
    requires c in g.decls && c in users
  {
    var d, modules := g.decls[c], TriAt(cells, g.modules);
    var b := Bounds(d, c, cells, modules);
    LogicTri(d, c, users[c], b, cells, modules) == YES ==>
      MembersHaveUsers(g, users, cells[c := b.(tri := YES)], modules, d.members)
  }

  predicate MembersHaveUsers(g: Graph, users: Users, cells: Cells, modules: Tri, members: seq<Symbol>) {
    forall m | m in members && m in g.decls && m in users && VisibleTri(g.decls[m], m, cells, modules) != NO ::
      users[m].has
  }

  /** The user value of a choice once it has been calculated. */
  function UserAfter(g: Graph, users: Users, cells: Cells, c: Symbol): User
    requires c in g.decls && c in users
  {
    users[c].(has := users[c].has && KeepsUser(g, users, cells, c))
  }

  /** An assignment of states to all symbols that satisfies every equation. */
  ghost predicate Solution(g: Graph, users: Users, cells: Cells) {
    && users.Keys == g.decls.Keys
    && cells.Keys == g.decls.Keys
    && forall s :: s in g.decls ==> cells[s] == Equation(g, users, cells, s)
  }

  // ----- dependencies -----

  function Mentions(e: Expr): set<Symbol> {
    match e
    case Sym(s) => {s}
    case Cmp(_, s, t) => {s, t}
    case Not(x) => Mentions(x)
    case Bin(_, x, y) => Mentions(x) + Mentions(y)
  }

  function MentionsOpt(e: Option<Expr>): set<Symbol> {
    if e.Some? then Mentions(e.value) else {}
  }

  /** The configuration symbols among `ss` are declared and rank below `k`. */
  ghost predicate Below(g: Graph, rank: Symbol -> nat, ss: set<Symbol>, k: nat) {
    forall t :: t in ss && t.Config? ==> t in g.decls && rank(t) < k
  }

  ghost predicate BelowAll(g: Graph, rank: Symbol -> nat, es: seq<Option<Expr>>, k: nat) {
    forall e :: e in es ==> Below(g, rank, MentionsOpt(e), k)
  }

  /** Besides the choice `c`, the prompts mention only what ranks below `k`. */
  ghost predicate PromptsBelow(g: Graph, rank: Symbol -> nat, d: Decl, c: Symbol, k: nat) {
    forall p :: p in d.prompts ==> Below(g, rank, MentionsOpt(p) - {c}, k)
  }

  function DependencyParts(d: Decl): seq<Option<Expr>> {
    [d.dirDep, d.revDep, d.implied]
  }

  /** Everything that the value of a symbol is calculated from. */
  ghost predicate RankedPlain(g: Graph, rank: Symbol -> nat, s: Symbol, d: Decl) {
    && BelowAll(g, rank, d.prompts, rank(s))
    && BelowAll(g, rank, DependencyParts(d), rank(s))
    && BelowAll(g, rank, DefaultConds(d), rank(s))
    && BelowAll(g, rank, RangeConds(d), rank(s))
    && (!d.isChoice ==> forall f :: f in d.defaults ==> Below(g, rank, Mentions(f.value), rank(s)))
    && (forall r :: r in d.ranges ==> Below(g, rank, {r.lo}, rank(s)) && Below(g, rank, {r.hi}, rank(s)))
    && (s.Type() == STristate ==> Below(g, rank, {g.modules}, rank(s)))
  }

  /** The members of a choice see the choice in all their prompts, and besides it
      only symbols that rank below the choice. */
  ghost predicate RankedChoice(g: Graph, rank: Symbol -> nat, s: Symbol, d: Decl) {
    && s.IsLogic()
    && d.choiceOf.None?
    && (forall i, j :: 0 <= i < j < |d.members| ==> d.members[i] != d.members[j])
    && (forall f :: f in d.defaults ==> f.value.Sym? && f.value.sym in d.members)
    && (forall m :: m in d.members ==>
      && m.Config? && m in g.decls && m.IsLogic()
      && !g.decls[m].isChoice
      && g.decls[m].choiceOf == Some(s)
      && g.decls[m].prompts != []
      && (forall p :: p in g.decls[m].prompts ==> s in MentionsOpt(p))
      && PromptsBelow(g, rank, g.decls[m], s, rank(s))
      && (m.Type() == STristate ==> Below(g, rank, {g.modules}, rank(s))))
  }

  /** `rank` shows the dependency graph to be acyclic. */
  ghost predicate Ranked(g: Graph, rank: Symbol -> nat) {
    && (g.modules.Config? ==> g.modules in g.decls && g.decls[g.modules].choiceOf.None?)
    && (forall s :: s in g.decls ==> s.Config?)
    && (forall s :: s in g.decls && s.Type() != SUnknown ==> RankedPlain(g, rank, s, g.decls[s]))
    && (forall s :: s in g.decls && g.decls[s].isChoice ==> RankedChoice(g, rank, s, g.decls[s]))
    && (forall s :: s in g.decls && g.decls[s].choiceOf.Some? ==>
      var c := g.decls[s].choiceOf.value;
      c.Config? && c in g.decls && g.decls[c].isChoice && s in g.decls[c].members && rank(c) < rank(s))
  }
}
