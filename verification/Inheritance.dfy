/** What the entries of a menu tree inherit from the entries they were read under. */
module Inheritance {
  import opened Symbols
  import opened Expressions
  import opened Transform
  import opened Joins
  import opened Submenus
  import opened MenuForest

  /** What is fixed about an entry. `prompt` is the position of the prompt among
      the properties that belong to the entry. */
  datatype Item = Item(sym: Option<Symbol>, choice: bool, prompt: Option<nat>, text: bool)

  /** The dependencies of the entries and the conditions of their properties. */
  datatype Conds = Conds(dep: seq<Option<Expr>>, props: seq<seq<Option<Expr>>>)

  // ----- handing down dependencies -----

  /** What the children of an entry inherit. */
  function Outer(items: seq<Item>, c: Conds, id: nat): Option<Expr>
    requires id < |items| && id < |c.dep|
  {
    if items[id].choice && items[id].sym.Some? then Some(Sym(items[id].sym.value)) else c.dep[id]
  }

  predicate Boolean(it: Item) {
    it.sym.Some? && it.sym.value.Type() != STristate
  }

  ghost predicate PropInherited(new_: Option<Expr>, outer: Option<Expr>, own: Option<Expr>, bool_: bool,
      modules: Symbol) {
    if bool_ then exists mid :: Inherited(mid, outer, own, modules) && new_ == TransBoolOpt(mid)
    else Inherited(new_, outer, own, modules)
  }

  ghost predicate EntryInherited(items: seq<Item>, modules: Symbol, a: Conds, b: Conds, id: nat, outer: Option<Expr>) {
    && id < |items| && id < |a.dep| && id < |b.dep| && id < |a.props| && id < |b.props|
    && Inherited(b.dep[id], outer, a.dep[id], modules)
    && |a.props[id]| == |b.props[id]|
    && forall j | 0 <= j < |a.props[id]| ::
         PropInherited(b.props[id][j], b.dep[id], a.props[id][j], Boolean(items[id]), modules)
  }

  ghost predicate SameEntry(a: Conds, b: Conds, id: nat) {
    && id < |a.dep| && id < |b.dep| && id < |a.props| && id < |b.props|
    && a.dep[id] == b.dep[id] && a.props[id] == b.props[id]
  }

  /** From `a` to `b`, every entry of the forest got the dependency of the entry
      above it added to its own and to its properties. */
  ghost predicate Spread(items: seq<Item>, modules: Symbol, a: Conds, b: Conds, f: Forest, outer: Option<Expr>)
    decreases f
  {
    match f
    case Nil => true
    case Node(id, kids, rest) =>
      && EntryInherited(items, modules, a, b, id, outer)
      && Spread(items, modules, a, b, kids, Outer(items, b, id))
      && Spread(items, modules, a, b, rest, outer)
  }

  /** The conditions of these entries are as the parser builds them. */
  ghost predicate PlainEntries(items: seq<Item>, c: Conds, ids: seq<nat>) {
    forall i | i in ids && i < |items| && i < |c.dep| && i < |c.props| ::
      && Plain(c.dep[i]) && (forall j | 0 <= j < |c.props[i]| :: Plain(c.props[i][j]))
      && (items[i].choice && items[i].sym.Some? ==> items[i].sym.value.IsLogic())
  }

  ghost predicate ProperEntry(c: Conds, i: nat) {
    i < |c.dep| && i < |c.props| && Proper(c.dep[i]) && forall j | 0 <= j < |c.props[i]| :: Proper(c.props[i][j])
  }

  lemma InheritedProper(items: seq<Item>, modules: Symbol, a: Conds, b: Conds, id: nat, outer: Option<Expr>)
    requires EntryInherited(items, modules, a, b, id, outer) && Proper(outer) && LogicModules(modules)
    requires PlainEntries(items, a, [id])
    ensures id < |items| && id < |b.dep| && ProperEntry(b, id) && Proper(Outer(items, b, id))
  {
    hide SameVisibility;
    assert id in [id];
    forall j | 0 <= j < |b.props[id]| ensures Proper(b.props[id][j]) {
      assert PropInherited(b.props[id][j], b.dep[id], a.props[id][j], Boolean(items[id]), modules);
      if Boolean(items[id]) {
        var mid :| Inherited(mid, b.dep[id], a.props[id][j], modules) && b.props[id][j] == TransBoolOpt(mid);
        if mid.Some? { TransBoolProper(mid.value); }
      }
    }
  }

  /** When dependencies have been handed down, every condition has the form that
      the test for submenus relies on. */
  lemma {:induction false} SpreadProper(items: seq<Item>, modules: Symbol, a: Conds, b: Conds, f: Forest,
      outer: Option<Expr>)
    requires Spread(items, modules, a, b, f, outer) && Proper(outer) && LogicModules(modules)
    requires PlainEntries(items, a, Preorder(f))
    ensures forall i | i in Preorder(f) :: ProperEntry(b, i)
    decreases f
  {
    hide Proper, Plain, EntryInherited, ProperEntry, Outer;
    match f
    case Nil =>
    case Node(id, kids, rest) =>
      PlainParts(items, a, id, Preorder(kids), Preorder(rest));
      InheritedProper(items, modules, a, b, id, outer);
      SpreadProper(items, modules, a, b, kids, Outer(items, b, id));
      SpreadProper(items, modules, a, b, rest, outer);
  }

  lemma PlainParts(items: seq<Item>, c: Conds, id: nat, kids: seq<nat>, rest: seq<nat>)
    requires PlainEntries(items, c, [id] + kids + rest)
    ensures PlainEntries(items, c, [id]) && PlainEntries(items, c, kids) && PlainEntries(items, c, rest)
  {
    hide Plain;
    assert forall i | i in [id] || i in kids || i in rest :: i in [id] + kids + rest;
  }

  // ----- the values of the conditions -----

  /** `i` was read directly under `p`, when the forest itself was read under `top`. */
  predicate ReadUnder(f: Forest, top: nat, p: nat, i: nat) {
    f.Node? && ((f.id == i && top == p) || ReadUnder(f.kids, f.id, p, i) || ReadUnder(f.rest, top, p, i))
  }

  /** No condition has a numeric constant against a tristate symbol. */
  ghost predicate NamedEntries(c: Conds, ids: seq<nat>) {
    forall i | i in ids && i < |c.dep| && i < |c.props| ::
      NamesOnlyOpt(c.dep[i]) && forall j | 0 <= j < |c.props[i]| :: NamesOnlyOpt(c.props[i][j])
  }

  /** What limits the entries read under `p`: the value of its symbol for a choice, else
      its dependency. */
  ghost function LimitUnder(items: seq<Item>, c: Conds, p: nat, env: Env): Tri
    requires p < |items| && p < |c.dep|
  {
    if items[p].choice && items[p].sym.Some? then env.tri(items[p].sym.value) else ValueOf(c.dep[p], env)
  }

  ghost predicate Sized(items: seq<Item>, a: Conds, b: Conds, i: nat) {
    && i < |items| && i < |a.dep| && i < |b.dep| && i < |a.props| && i < |b.props| && |a.props[i]| == |b.props[i]|
  }

  /** In every configuration the dependency of `i` is its own one, limited from above,
      and the condition of each of its properties is the property's own one, limited by
      that; for an entry that is not tristate the condition is as good as that and holds
      no test of a tristate symbol against `n` any more. */
  ghost predicate HandedDown(items: seq<Item>, modules: Symbol, a: Conds, b: Conds, p: nat, i: nat) {
    && Sized(items, a, b, i) && p < |items| && p < |b.dep|
    && (forall env: Env | WellFormed(env) ::
         ValueOf(b.dep[i], env)
         == Min(LimitUnder(items, b, p, env), ValueOf(a.dep[i], WithoutModules(env, modules))))
    && (forall j | 0 <= j < |a.props[i]| ::
         if items[i].sym.Some? && items[i].sym.value.Type() != STristate
         then AsGood(b.props[i][j], b.dep[i], a.props[i][j], modules)
         else SameVisibility(b.props[i][j], b.dep[i], a.props[i][j], modules))
  }

  ghost predicate AsGood(d: Option<Expr>, outer: Option<Expr>, own: Option<Expr>, modules: Symbol) {
    && (d.Some? ==> !TestsNotNo(d.value))
    && forall env: Env | WellFormed(env) ::
         var t := Min(ValueOf(outer, env), ValueOf(own, WithoutModules(env, modules)));
         ValueOf(d, env) <= t && (ValueOf(d, env) != NO <==> t != NO)
  }

  lemma PropValues(d: Option<Expr>, outer: Option<Expr>, own: Option<Expr>, boolean: bool, modules: Symbol)
    requires PropInherited(d, outer, own, boolean, modules)
    requires NamesOnlyOpt(outer) && NamesOnlyOpt(own) && NormalOpt(outer)
    ensures if boolean then AsGood(d, outer, own, modules) else SameVisibility(d, outer, own, modules)
  {
    hide NamesOnlyOpt, NormalOpt, SameVisibility, AsGood;
    if boolean {
      var mid :| Inherited(mid, outer, own, modules) && d == TransBoolOpt(mid);
      BoolValues(mid, outer, own, modules);
    }
  }

  lemma BoolValues(mid: Option<Expr>, outer: Option<Expr>, own: Option<Expr>, modules: Symbol)
    requires SameVisibility(mid, outer, own, modules) && NormalOpt(mid)
    ensures AsGood(TransBoolOpt(mid), outer, own, modules)
  {
    hide WellFormed, Eval, TransBool, WithoutModules;
    if mid.Some? { TransBoolExact(mid.value); }
    forall env: Env | WellFormed(env)
      ensures var t := Min(ValueOf(outer, env), ValueOf(own, WithoutModules(env, modules)));
        var v := ValueOf(TransBoolOpt(mid), env);
        v <= t && (v != NO <==> t != NO)
    {
      if mid.Some? { TransBoolVisible(mid.value, env); }
      assert ValueOf(mid, env) == Min(ValueOf(outer, env), ValueOf(own, WithoutModules(env, modules)));
    }
  }

  /** The expression that the children of `p` inherit has the value that limits them. */
  lemma OuterIsLimit(items: seq<Item>, c: Conds, p: nat)
    requires p < |items| && p < |c.dep|
    ensures forall env: Env :: ValueOf(Outer(items, c, p), env) == LimitUnder(items, c, p, env)
    ensures NamesOnlyOpt(c.dep[p]) ==> NamesOnlyOpt(Outer(items, c, p))
    ensures NormalOpt(c.dep[p]) ==> NormalOpt(Outer(items, c, p))
  {
  }

  lemma EntryValues(items: seq<Item>, modules: Symbol, a: Conds, b: Conds, i: nat, outer: Option<Expr>)
    requires EntryInherited(items, modules, a, b, i, outer) && NamedEntries(a, [i])
    requires NamesOnlyOpt(outer) && NormalOpt(outer)
    ensures Sized(items, a, b, i) && NamesOnlyOpt(b.dep[i]) && NormalOpt(b.dep[i])
    ensures SameVisibility(b.dep[i], outer, a.dep[i], modules)
    ensures forall j | 0 <= j < |a.props[i]| ::
      if Boolean(items[i]) then AsGood(b.props[i][j], b.dep[i], a.props[i][j], modules)
      else SameVisibility(b.props[i][j], b.dep[i], a.props[i][j], modules)
  {
    hide SameVisibility, AsGood, NamesOnlyOpt, NormalOpt, PropInherited;
    assert i in [i];
    forall j | 0 <= j < |a.props[i]|
      ensures if Boolean(items[i]) then AsGood(b.props[i][j], b.dep[i], a.props[i][j], modules)
              else SameVisibility(b.props[i][j], b.dep[i], a.props[i][j], modules)
    {
      PropValues(b.props[i][j], b.dep[i], a.props[i][j], Boolean(items[i]), modules);
    }
  }

  lemma NamedParts(c: Conds, id: nat, kids: seq<nat>, rest: seq<nat>)
    requires NamedEntries(c, [id] + kids + rest)
    ensures NamedEntries(c, [id]) && NamedEntries(c, kids) && NamedEntries(c, rest)
  {
    hide NamesOnlyOpt;
    assert forall i | i in [id] || i in kids || i in rest :: i in [id] + kids + rest;
  }

  /** Handing down gives every entry what the entry it was read under limits it to. */
  lemma {:induction false} SpreadValues(items: seq<Item>, modules: Symbol, a: Conds, b: Conds, f: Forest, top: nat,
      p: nat, i: nat)
    requires top < |items| && top < |b.dep| && Spread(items, modules, a, b, f, Outer(items, b, top))
    requires NamedEntries(a, Preorder(f)) && NamesOnlyOpt(b.dep[top]) && NormalOpt(b.dep[top])
    requires ReadUnder(f, top, p, i)
    ensures HandedDown(items, modules, a, b, p, i) && NamesOnlyOpt(b.dep[i]) && NormalOpt(b.dep[i])
    decreases f
  {
    hide EntryInherited, NamedEntries, NamesOnlyOpt, NormalOpt, AsGood, Outer, LimitUnder;
    var outer := Outer(items, b, top);
    OuterIsLimit(items, b, top);
    NamedParts(a, f.id, Preorder(f.kids), Preorder(f.rest));
    EntryValues(items, modules, a, b, f.id, outer);
    if f.id == i && top == p {
    } else if ReadUnder(f.kids, f.id, p, i) {
      SpreadValues(items, modules, a, b, f.kids, f.id, p, i);
    } else {
      SpreadValues(items, modules, a, b, f.rest, top, p, i);
    }
  }

  // ----- limits from further up -----

  /** A way up from an entry through entries that are no choices. */
  ghost predicate WayUp(items: seq<Item>, f: Forest, top: nat, ch: seq<nat>) {
    && |ch| >= 1
    && (forall k | 0 <= k < |ch| - 1 :: ReadUnder(f, top, ch[k + 1], ch[k]))
    && (forall k | 0 < k < |ch| - 1 :: ch[k] < |items| && !items[ch[k]].choice)
  }

  /** The dependency of an entry is limited by every entry it was read under, up to the
      nearest choice. */
  lemma {:induction false} LimitedFromAbove(items: seq<Item>, modules: Symbol, a: Conds, b: Conds, f: Forest, top: nat,
      ch: seq<nat>, env: Env)
    requires WayUp(items, f, top, ch) && |ch| >= 2 && WellFormed(env)
    requires forall p, i | ReadUnder(f, top, p, i) :: HandedDown(items, modules, a, b, p, i)
    ensures var i, p := ch[0], ch[|ch| - 1];
      && i < |b.dep| && p < |items| && p < |b.dep|
      && ValueOf(b.dep[i], env) <= LimitUnder(items, b, p, env)
  {
    hide ValueOf, WithoutModules, WellFormed, AsGood, SameVisibility;
    assert ReadUnder(f, top, ch[0 + 1], ch[0]);
    assert HandedDown(items, modules, a, b, ch[1], ch[0]);
    if |ch| > 2 {
      var up := ch[1..];
      forall k | 0 <= k < |up| - 1 ensures ReadUnder(f, top, up[k + 1], up[k]) {
        var j := k + 1;
        assert up[k] == ch[j] && up[k + 1] == ch[j + 1];
      }
      forall k | 0 < k < |up| - 1 ensures up[k] < |items| && !items[up[k]].choice { assert up[k] == ch[k + 1]; }
      LimitedFromAbove(items, modules, a, b, f, top, up, env);
      assert !items[ch[1]].choice;
    }
  }
}
