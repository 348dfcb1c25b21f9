/** The pass over the finished menu tree: dependencies are handed down, entries
    that depend on a preceding symbol become its submenu, and lists under entries
    without a prompt are flattened. */
module Menus {
  import opened Symbols
  import opened Expressions
  import opened Submenus
  import opened MenuForest
  import opened Holders
  import opened Inheritance

  /** The same for what is below the topmost list, which itself is unchanged. */
  ghost predicate SpreadBelow(items: seq<Item>, modules: Symbol, a: Conds, b: Conds, f: Forest)
    decreases f
  {
    match f
    case Nil => true
    case Node(id, kids, rest) =>
      && id < |items| && SameEntry(a, b, id)
      && Spread(items, modules, a, b, kids, Outer(items, b, id))
      && SpreadBelow(items, modules, a, b, rest)
  }

  /** The topmost list has inherited `outer` and nothing below has changed. */
  ghost predicate SpreadTop(items: seq<Item>, modules: Symbol, a: Conds, b: Conds, f: Forest, outer: Option<Expr>)
    decreases f
  {
    match f
    case Nil => true
    case Node(id, kids, rest) =>
      && EntryInherited(items, modules, a, b, id, outer)
      && SameEntries(a, b, Preorder(kids))
      && SpreadTop(items, modules, a, b, rest, outer)
  }

  ghost predicate SameEntries(a: Conds, b: Conds, ids: seq<nat>) {
    forall i | i in ids :: SameEntry(a, b, i)
  }

  lemma {:induction false} SpreadFrame(items: seq<Item>, modules: Symbol, a: Conds, b: Conds, a': Conds, b': Conds,
      f: Forest, outer: Option<Expr>)
    requires Spread(items, modules, a, b, f, outer)
    requires SameEntries(a, a', Preorder(f)) && SameEntries(b, b', Preorder(f))
    ensures Spread(items, modules, a', b', f, outer)
    decreases f
  {
    match f
    case Nil =>
    case Node(id, kids, rest) =>
      assert id in Preorder(f);
      assert SameEntry(a, a', id) && SameEntry(b, b', id);
      SpreadFrame(items, modules, a, b, a', b', kids, Outer(items, b, id));
      SpreadFrame(items, modules, a, b, a', b', rest, outer);
  }

  lemma {:induction false} SpreadBelowFrame(items: seq<Item>, modules: Symbol, a: Conds, b: Conds, a': Conds,
      b': Conds, f: Forest)
    requires SpreadBelow(items, modules, a, b, f)
    requires SameEntries(a, a', Preorder(f)) && SameEntries(b, b', Preorder(f))
    ensures SpreadBelow(items, modules, a', b', f)
    decreases f
  {
    match f
    case Nil =>
    case Node(id, kids, rest) =>
      assert id in Preorder(f);
      assert SameEntry(a, a', id) && SameEntry(b, b', id);
      SpreadFrame(items, modules, a, b, a', b', kids, Outer(items, b, id));
      SpreadBelowFrame(items, modules, a, b, a', b', rest);
  }

  lemma {:induction false} SpreadBelowAppend(items: seq<Item>, modules: Symbol, a: Conds, b: Conds, f: Forest,
      g: Forest)
    ensures SpreadBelow(items, modules, a, b, Append(f, g)) <==>
      SpreadBelow(items, modules, a, b, f) && SpreadBelow(items, modules, a, b, g)
    decreases f
  {
    match f
    case Nil =>
    case Node(_, _, rest) => SpreadBelowAppend(items, modules, a, b, rest, g);
  }

  /** First the topmost list, then everything below it. */
  lemma {:induction false} SpreadCompose(items: seq<Item>, modules: Symbol, a: Conds, b: Conds, c: Conds, f: Forest,
      outer: Option<Expr>)
    requires SpreadTop(items, modules, a, b, f, outer) && SpreadBelow(items, modules, b, c, f)
    ensures Spread(items, modules, a, c, f, outer)
    decreases f
  {
    match f
    case Nil =>
    case Node(id, kids, rest) =>
      forall i | i in Preorder(kids) ensures SameEntry(b, a, i) {
        assert SameEntry(a, b, i);
      }
      SpreadCompose(items, modules, a, b, c, rest, outer);
      assert SameEntries(c, c, Preorder(kids)) by { SpreadSized(items, modules, b, c, kids, Outer(items, c, id)); }
      SpreadFrame(items, modules, b, c, a, c, kids, Outer(items, c, id));
  }

  lemma {:induction false} SpreadSized(items: seq<Item>, modules: Symbol, a: Conds, b: Conds, f: Forest,
      outer: Option<Expr>)
    requires Spread(items, modules, a, b, f, outer)
    ensures SameEntries(b, b, Preorder(f))
    decreases f
  {
    match f
    case Nil =>
    case Node(id, kids, rest) =>
      SpreadSized(items, modules, a, b, kids, Outer(items, b, id));
      SpreadSized(items, modules, a, b, rest, outer);
  }

  // ----- the state around one entry -----

  /** Entry `p` with the forest below it and the forest after it. */
  ghost predicate Around(l: Links, n: nat, p: nat, kids: Forest, rest: Forest) {
    && l.Sized(n) && p < n
    && Segment(l, l.list[p], kids, None) && Segment(l, l.next[p], rest, None)
    && Distinct([p] + Preorder(kids) + Preorder(rest))
    && Parents(l, kids, Some(p)) && Parents(l, rest, l.parent[p])
  }

  ghost predicate Untouched(l: Links, m: Links, n: nat, ids: seq<nat>) {
    && l.Sized(n) && m.Sized(n)
    && forall i | 0 <= i < n && i !in ids ::
         l.list[i] == m.list[i] && l.next[i] == m.next[i] && l.parent[i] == m.parent[i]
  }

  /** What finishing `p` does to the links: a first part of the following entries
      may have moved below `p`, and the order of all entries is kept. */
  ghost predicate Finished(l: Links, m: Links, n: nat, p: nat, kids: Forest, rest: Forest, below: Forest,
      moved: Forest, after: Forest) {
    && Around(m, n, p, below, after)
    && rest == Append(moved, after)
    && Preorder(below) == Preorder(kids) + Preorder(moved)
    && Untouched(l, m, n, [p] + Preorder(kids) + Preorder(moved))
    && l.Sized(n) && l.parent[p] == m.parent[p]
  }

  /** A list that has been walked up to `cur`: the entries seen so far belong to
      `above`, the others are still on `level`. */
  ghost predicate Walking(l: Links, n: nat, start: Option<nat>, seen: Forest, cur: Option<nat>, todo: Forest,
      above: nat, level: Option<nat>) {
    && l.Sized(n)
    && Segment(l, start, seen, cur) && Segment(l, cur, todo, None)
    && Parents(l, seen, Some(above)) && Parents(l, todo, level)
    && Distinct(Preorder(seen) + Preorder(todo))
  }

  lemma Associates(a: seq<nat>, b: seq<nat>, c: seq<nat>)
    ensures a + (b + c) == a + b + c
  {
  }

  lemma SingletonPreorder(m: nat, below: Forest)
    ensures Preorder(Node(m, below, Nil)) == [m] + Preorder(below)
  {
  }

  lemma WalkOrder(seen: Forest, m: nat, below: Forest, kids: seq<nat>, moved: seq<nat>)
    requires Preorder(below) == kids + moved
    ensures Preorder(Append(seen, Node(m, below, Nil))) == Preorder(seen) + ([m] + kids + moved)
  {
    hide Preorder, Append;
    AppendPreorder(seen, Node(m, below, Nil));
    SingletonPreorder(m, below);
    Associates([m], kids, moved);
  }

  lemma OutsideSame(l: Links, k: Links, n: nat, ids: seq<nat>, others: seq<nat>)
    requires Untouched(l, k, n, ids) && forall i | i in others :: i !in ids
    ensures SameLinks(l, k, others) && SameParents(l, k, others)
  {
  }

  lemma StepOrder(seen: Forest, m: nat, kids: Forest, rest: Forest, below: Forest, moved: Forest, after: Forest)
    requires rest == Append(moved, after) && Preorder(below) == Preorder(kids) + Preorder(moved)
    ensures Preorder(Append(seen, Node(m, below, Nil))) == Preorder(seen) + ([m] + Preorder(kids) + Preorder(moved))
    ensures Preorder(Append(seen, Node(m, below, Nil))) + Preorder(after)
      == Preorder(seen) + Preorder(Node(m, kids, rest))
  {
    AppendPreorder(moved, after);
    WalkOrder(seen, m, below, Preorder(kids), Preorder(moved));
    Regrouped(Preorder(seen), [m] + Preorder(kids), Preorder(moved), Preorder(after));
  }

  lemma Regrouped(a: seq<nat>, b: seq<nat>, c: seq<nat>, d: seq<nat>)
    ensures a + (b + c) + d == a + (b + (c + d))
  {
  }

  /** The links once entry `m` is finished and filed under `above`. */
  function Filed(l: Links, m: nat, above: nat): Links
    requires m < |l.parent|
  {
    l.(parent := l.parent[m := Some(above)])
  }

  /** Finishing the current entry of a list moves the walk to the next one. */
  lemma StepLinks(l: Links, k: Links, n: nat, start: Option<nat>, seen: Forest, m: nat, kids: Forest, rest: Forest,
      above: nat, level: Option<nat>,
      below: Forest, moved: Forest, after: Forest)
    requires Walking(l, n, start, seen, Some(m), Node(m, kids, rest), above, level)
    requires Finished(l, k, n, m, kids, rest, below, moved, after)
    ensures Segment(k, start, Append(seen, Node(m, below, Nil)), k.next[m]) && Segment(k, k.next[m], after, None)
    ensures Parents(k, seen, Some(above)) && Parents(k, below, Some(m)) && Parents(k, after, level)
  {
    StepOrder(seen, m, kids, rest, below, moved, after);
    var ids := [m] + Preorder(kids) + Preorder(moved);
    assert k.parent[m] == level;
    assert Parents(k, after, level);
    hide Preorder, Append, Distinct, Parents;
    DistinctParts(Preorder(Append(seen, Node(m, below, Nil))), Preorder(after));
    DistinctParts(Preorder(seen), ids);
    OutsideSame(l, k, n, ids, Preorder(seen));
    hide SameLinks, SameParents, Untouched;
    SegmentFrame(l, k, start, seen, Some(m));
    ParentsFrame(l, k, seen, Some(above));
    assert Segment(k, Some(m), Node(m, below, Nil), k.next[m]);
    hide Segment;
    SegmentAppend(k, start, seen, Some(m), Node(m, below, Nil), k.next[m]);
  }

  lemma StepFiled(l: Links, k: Links, n: nat, start: Option<nat>, seen: Forest, m: nat, kids: Forest, rest: Forest,
      above: nat, level: Option<nat>,
      below: Forest, moved: Forest, after: Forest)
    requires Walking(l, n, start, seen, Some(m), Node(m, kids, rest), above, level)
    requires Finished(l, k, n, m, kids, rest, below, moved, after)
    ensures Walking(Filed(k, m, above), n, start, Append(seen, Node(m, below, Nil)), k.next[m], after, above, level)
  {
    StepLinks(l, k, n, start, seen, m, kids, rest, above, level, below, moved, after);
    assert k.Sized(n) && m < n;
    assert Distinct(Preorder(Append(seen, Node(m, below, Nil))) + Preorder(after)) by {
      StepOrder(seen, m, kids, rest, below, moved, after);
    }
    hide *;
    FiledWalks(k, n, start, seen, m, below, after, above, level);
  }

  lemma FiledWalks(k: Links, n: nat, start: Option<nat>, seen: Forest, m: nat, below: Forest, after: Forest,
      above: nat, level: Option<nat>)
    requires k.Sized(n) && m < n && Distinct(Preorder(Append(seen, Node(m, below, Nil))) + Preorder(after))
    requires Segment(k, start, Append(seen, Node(m, below, Nil)), k.next[m]) && Segment(k, k.next[m], after, None)
    requires Parents(k, seen, Some(above)) && Parents(k, below, Some(m)) && Parents(k, after, level)
    ensures Walking(Filed(k, m, above), n, start, Append(seen, Node(m, below, Nil)), k.next[m], after, above, level)
  {
    var seen', j := Append(seen, Node(m, below, Nil)), Filed(k, m, above);
    NotElsewhere(seen, m, below, after);
    hide Preorder, Distinct, Segment;
    SegmentFrame(k, j, start, seen', k.next[m]);
    SegmentFrame(k, j, k.next[m], after, None);
    ParentsFrame(k, j, seen, Some(above));
    ParentsFrame(k, j, below, Some(m));
    ParentsFrame(k, j, after, level);
    assert Parents(j, Node(m, below, Nil), Some(above));
    ParentsAppend(j, seen, Node(m, below, Nil), Some(above));
  }

  lemma NotElsewhere(seen: Forest, m: nat, below: Forest, after: Forest)
    requires Distinct(Preorder(Append(seen, Node(m, below, Nil))) + Preorder(after))
    ensures m !in Preorder(below) && m !in Preorder(after) && m !in Preorder(seen)
  {
    AppendPreorder(seen, Node(m, below, Nil));
    SingletonPreorder(m, below);
    hide Preorder;
    DistinctParts(Preorder(seen) + ([m] + Preorder(below)), Preorder(after));
    DistinctParts(Preorder(seen), [m] + Preorder(below));
    DistinctParts([m], Preorder(below));
    assert m in [m];
    assert m in Preorder(seen) + ([m] + Preorder(below));
  }

  // ----- what a walk has done so far -----

  ghost function Elems(s: seq<nat>): set<nat> {
    set i | i in s
  }

  ghost predicate CondsUntouched(a: Conds, b: Conds, n: nat, ids: seq<nat>) {
    forall i | 0 <= i < n && i !in ids :: SameEntry(a, b, i)
  }

  /** What finishing `p` does to the conditions. */
  ghost predicate CondsFinished(items: seq<Item>, modules: Symbol, a: Conds, b: Conds, n: nat, p: nat, kids: Forest,
      moved: Forest) {
    && p < |items| && SameEntry(a, b, p)
    && Spread(items, modules, a, b, kids, Outer(items, b, p))
    && SpreadBelow(items, modules, a, b, moved)
    && CondsUntouched(a, b, n, Preorder(kids) + Preorder(moved))
  }

  /** The entries of `from` have been finished; they are now arranged as `seen`. */
  ghost predicate Through(items: seq<Item>, modules: Symbol, l: Links, k: Links, a: Conds, b: Conds, n: nat,
      from: Forest, seen: Forest) {
    && Preorder(seen) == Preorder(from)
    && Untouched(l, k, n, Preorder(seen))
    && SpreadBelow(items, modules, a, b, from)
    && CondsUntouched(a, b, n, Preorder(from))
  }

  lemma CondsStep(items: seq<Item>, modules: Symbol, a: Conds, b: Conds, c: Conds, n: nat, from: Forest, m: nat,
      kids: Forest, moved: Forest)
    requires SpreadBelow(items, modules, a, b, from) && CondsUntouched(a, b, n, Preorder(from))
    requires CondsFinished(items, modules, b, c, n, m, kids, moved)
    requires Distinct(Preorder(from) + Preorder(Node(m, kids, moved)))
    requires forall i | i in Preorder(from) + Preorder(Node(m, kids, moved)) :: i < n
    ensures SpreadBelow(items, modules, a, c, Append(from, Node(m, kids, moved)))
    ensures CondsUntouched(a, c, n, Preorder(from) + Preorder(Node(m, kids, moved)))
  {
    var node := Node(m, kids, moved);
    hide SpreadBelow, Append, Distinct, Spread, SameEntry;
    assert Preorder(node) == [m] + Preorder(kids) + Preorder(moved);
    assert SpreadBelow(items, modules, a, c, node) by {
      BelowNode(items, modules, a, b, c, n, from, m, kids, moved);
    }
    hide Preorder;
    DistinctParts(Preorder(from), Preorder(node));
    SpreadBelowSelf(items, modules, a, b, from);
    forall i | i in Preorder(from) ensures SameEntry(b, c, i) {
      assert i in Preorder(from) + Preorder(node);
      assert i !in [m] + Preorder(kids) + Preorder(moved);
    }
    SpreadBelowFrame(items, modules, a, b, a, c, from);
    SpreadBelowAppend(items, modules, a, c, from, node);
    forall i | 0 <= i < n && i !in Preorder(from) + Preorder(node) ensures SameEntry(a, c, i) {
      assert SameEntry(a, b, i) && SameEntry(b, c, i);
      SameEntryTransitive(a, b, c, i);
    }
  }

  lemma SameEntryTransitive(a: Conds, b: Conds, c: Conds, i: nat)
    requires SameEntry(a, b, i) && SameEntry(b, c, i)
    ensures SameEntry(a, c, i)
  {
  }

  lemma {:induction false} SpreadBelowSelf(items: seq<Item>, modules: Symbol, a: Conds, b: Conds, f: Forest)
    requires SpreadBelow(items, modules, a, b, f)
    ensures SameEntries(a, a, Preorder(f))
    decreases f
  {
    match f
    case Nil =>
    case Node(id, kids, rest) =>
      SpreadSelf(items, modules, a, b, kids, Outer(items, b, id));
      SpreadBelowSelf(items, modules, a, b, rest);
  }

  lemma {:induction false} SpreadSelf(items: seq<Item>, modules: Symbol, a: Conds, b: Conds, f: Forest,
      outer: Option<Expr>)
    requires Spread(items, modules, a, b, f, outer)
    ensures SameEntries(a, a, Preorder(f))
    decreases f
  {
    match f
    case Nil =>
    case Node(id, kids, rest) =>
      SpreadSelf(items, modules, a, b, kids, Outer(items, b, id));
      SpreadSelf(items, modules, a, b, rest, outer);
  }

  lemma BelowNode(items: seq<Item>, modules: Symbol, a: Conds, b: Conds, c: Conds, n: nat, from: Forest, m: nat,
      kids: Forest, moved: Forest)
    requires CondsUntouched(a, b, n, Preorder(from)) && CondsFinished(items, modules, b, c, n, m, kids, moved)
    requires Distinct(Preorder(from) + Preorder(Node(m, kids, moved)))
    requires forall i | i in Preorder(from) + Preorder(Node(m, kids, moved)) :: i < n
    ensures SpreadBelow(items, modules, a, c, Node(m, kids, moved))
  {
    var node := Node(m, kids, moved);
    assert SpreadBelow(items, modules, b, c, node);
    hide Spread, Append, Distinct, CondsFinished;
    DistinctParts(Preorder(from), Preorder(node));
    forall i | i in Preorder(node) ensures SameEntry(b, a, i) {
      assert i in Preorder(from) + Preorder(node);
      assert i !in Preorder(from);
      assert SameEntry(a, b, i);
    }
    SpreadBelowFinal(items, modules, b, c, node);
    hide SpreadBelow;
    SpreadBelowFrame(items, modules, b, c, a, c, node);
  }

  lemma {:induction false} SpreadBelowFinal(items: seq<Item>, modules: Symbol, a: Conds, b: Conds, f: Forest)
    requires SpreadBelow(items, modules, a, b, f)
    ensures SameEntries(b, b, Preorder(f))
    decreases f
  {
    match f
    case Nil =>
    case Node(id, kids, rest) =>
      SpreadSized(items, modules, a, b, kids, Outer(items, b, id));
      SpreadBelowFinal(items, modules, a, b, rest);
  }

  lemma UntouchedStep(l: Links, k: Links, j: Links, n: nat, ids: seq<nat>, m: nat, more: seq<nat>, above: nat)
    requires Untouched(l, k, n, ids) && Untouched(k, j, n, [m] + more) && m < n
    ensures Untouched(l, Filed(j, m, above), n, ids + ([m] + more))
  {
  }

  /** One more entry of a list is finished. */
  lemma ThroughStep(items: seq<Item>, modules: Symbol, l: Links, k: Links, j: Links, a: Conds, b: Conds, c: Conds,
      n: nat, from: Forest, seen: Forest,
      m: nat, kids: Forest, rest: Forest, below: Forest, moved: Forest, after: Forest, above: nat)
    requires Through(items, modules, l, k, a, b, n, from, seen)
    requires Finished(k, j, n, m, kids, rest, below, moved, after)
    requires CondsFinished(items, modules, b, c, n, m, kids, moved)
    requires Distinct(Preorder(seen) + Preorder(Node(m, kids, rest)))
    requires forall i | i in Preorder(seen) + Preorder(Node(m, kids, rest)) :: i < n
    ensures Through(items, modules, l, Filed(j, m, above), a, c, n, Append(from, Node(m, kids, moved)),
      Append(seen, Node(m, below, Nil)))
    ensures Append(Append(from, Node(m, kids, moved)), after) == Append(from, Node(m, kids, rest))
  {
    AppendAssociates(from, Node(m, kids, moved), after);
    assert Append(Node(m, kids, moved), after) == Node(m, kids, rest);
    StepOrder(seen, m, kids, rest, below, moved, after);
    AppendPreorder(from, Node(m, kids, moved));
    assert Preorder(Node(m, kids, moved)) == [m] + Preorder(kids) + Preorder(moved);
    assert Untouched(l, Filed(j, m, above), n, Preorder(seen) + ([m] + (Preorder(kids) + Preorder(moved)))) by {
      Associates([m], Preorder(kids), Preorder(moved));
      UntouchedStep(l, k, j, n, Preorder(seen), m, Preorder(kids) + Preorder(moved), above);
    }
    Associates([m], Preorder(kids), Preorder(moved));
    AppendPreorder(moved, after);
    hide Untouched, Finished, Append, Preorder, SpreadBelow, CondsFinished, CondsUntouched;
    PrefixDistinct(Preorder(seen), [m] + Preorder(kids), Preorder(moved), Preorder(after), n);
    CondsStep(items, modules, a, b, c, n, from, m, kids, moved);
  }

  lemma PrefixDistinct(a: seq<nat>, b: seq<nat>, c: seq<nat>, d: seq<nat>, n: nat)
    requires Distinct(a + (b + (c + d))) && forall i | i in a + (b + (c + d)) :: i < n
    ensures Distinct(a + (b + c)) && forall i | i in a + (b + c) :: i < n
  {
    Regrouped(a, b, c, d);
    DistinctParts(a + (b + c), d);
    forall i | i in a + (b + c) ensures i < n {
      assert i in a + (b + c) + d;
    }
  }

  lemma StartFinished(l: Links, n: nat, p: nat, kids: Forest, rest: Forest)
    requires Around(l, n, p, kids, rest)
    ensures Finished(l, l, n, p, kids, rest, kids, Nil, rest)
    ensures p < n == |l.list|
    ensures l.list[p].None? ==> kids == Nil
    ensures Elems(Preorder(Nil)) == {}
  {
    assert Preorder(kids) + Preorder(Nil) == Preorder(kids);
  }

  lemma StartConds(items: seq<Item>, modules: Symbol, c: Conds, n: nat, p: nat)
    requires |items| == n && |c.dep| == n && |c.props| == n && p < n
    ensures CondsFinished(items, modules, c, c, n, p, Nil, Nil)
  {
  }

  lemma FinishedAround(l: Links, k: Links, n: nat, p: nat, kids: Forest, rest: Forest, children: Forest,
      moved: Forest, after: Forest)
    requires Finished(l, k, n, p, kids, rest, children, moved, after)
    ensures Around(k, n, p, children, after)
  {
  }

  lemma FinishedTwice(l: Links, k: Links, j: Links, n: nat, p: nat, kids: Forest, rest: Forest, children: Forest,
      moved: Forest, after: Forest, below: Forest)
    requires Finished(l, k, n, p, kids, rest, children, moved, after)
    requires Finished(k, j, n, p, children, after, below, Nil, after)
    ensures Finished(l, j, n, p, kids, rest, below, moved, after) && Preorder(below) == Preorder(children)
  {
    assert Preorder(children) + Preorder(Nil) == Preorder(children);
    hide Around, Append, Preorder;
    Associates([p], Preorder(kids), Preorder(moved));
  }

  lemma {:induction false} SpreadTopFrame(items: seq<Item>, modules: Symbol, a: Conds, b: Conds, b': Conds,
      f: Forest, outer: Option<Expr>)
    requires SpreadTop(items, modules, a, b, f, outer) && SameEntries(b, b', Preorder(f))
    ensures SpreadTop(items, modules, a, b', f, outer)
    decreases f
  {
    match f
    case Nil =>
    case Node(id, kids, rest) =>
      assert id in Preorder(f);
      assert SameEntry(b, b', id);
      forall i | i in Preorder(kids) ensures SameEntry(a, b', i) {
        assert i in Preorder(f);
        assert SameEntry(a, b, i) && SameEntry(b, b', i);
      }
      SpreadTopFrame(items, modules, a, b, b', rest, outer);
  }

  lemma {:induction false} SpreadTopAppend(items: seq<Item>, modules: Symbol, a: Conds, b: Conds, f: Forest,
      g: Forest, outer: Option<Expr>)
    ensures SpreadTop(items, modules, a, b, Append(f, g), outer) <==>
      SpreadTop(items, modules, a, b, f, outer) && SpreadTop(items, modules, a, b, g, outer)
    decreases f
  {
    match f
    case Nil =>
    case Node(_, _, rest) => SpreadTopAppend(items, modules, a, b, rest, g, outer);
  }

  /** One more entry of the topmost list has inherited. */
  lemma TopStep(items: seq<Item>, modules: Symbol, a: Conds, b: Conds, c: Conds, n: nat, seen: Forest, m: nat,
      kids: Forest, rest: Forest, outer: Option<Expr>)
    requires SpreadTop(items, modules, a, b, seen, outer) && CondsUntouched(a, b, n, Preorder(seen))
    requires EntryInherited(items, modules, b, c, m, outer) && (forall i | 0 <= i < n && i != m :: SameEntry(b, c, i))
    requires Distinct(Preorder(Append(seen, Node(m, kids, rest))))
    requires forall i | i in Preorder(Append(seen, Node(m, kids, rest))) :: i < n
    ensures SpreadTop(items, modules, a, c, Append(seen, Node(m, kids, Nil)), outer)
    ensures CondsUntouched(a, c, n, Preorder(Append(seen, Node(m, kids, Nil))))
    ensures Append(Append(seen, Node(m, kids, Nil)), rest) == Append(seen, Node(m, kids, rest))
  {
    AppendAssociates(seen, Node(m, kids, Nil), rest);
    AppendPreorder(seen, Node(m, kids, rest));
    AppendPreorder(seen, Node(m, kids, Nil));
    SingletonPreorder(m, kids);
    TopStepParts(Preorder(seen), m, Preorder(kids), Preorder(rest), n);
    assert Preorder(Node(m, kids, rest)) == [m] + Preorder(kids) + Preorder(rest);
    hide Preorder, Distinct, EntryInherited;
    SpreadTopFrame(items, modules, a, b, c, seen, outer);
    forall i | 0 <= i < n && i !in Preorder(seen) && i != m ensures SameEntry(a, c, i) {
      assert SameEntry(a, b, i) && SameEntry(b, c, i);
      SameEntryTransitive(a, b, c, i);
    }
    assert SameEntries(a, c, Preorder(kids));
    assert SameEntry(a, b, m);
    assert EntryInherited(items, modules, a, c, m, outer) by { EntryInheritedFrom(items, modules, a, b, c, m, outer); }
    assert SpreadTop(items, modules, a, c, Node(m, kids, Nil), outer);
    SpreadTopAppend(items, modules, a, c, seen, Node(m, kids, Nil), outer);
  }

  lemma TopStart(items: seq<Item>, modules: Symbol, c: Conds, n: nat, outer: Option<Expr>)
    requires |c.dep| == n && |c.props| == n
    ensures SpreadTop(items, modules, c, c, Nil, outer) && CondsUntouched(c, c, n, Preorder(Nil))
  {
  }

  lemma EntryInheritedFrom(items: seq<Item>, modules: Symbol, a: Conds, b: Conds, c: Conds, m: nat, outer: Option<Expr>)
    requires EntryInherited(items, modules, b, c, m, outer) && SameEntry(a, b, m)
    ensures EntryInherited(items, modules, a, c, m, outer)
  {
  }

  lemma TopStepParts(seen: seq<nat>, m: nat, kids: seq<nat>, rest: seq<nat>, n: nat)
    requires Distinct(seen + ([m] + kids + rest)) && forall i | i in seen + ([m] + kids + rest) :: i < n
    ensures m < n && m !in seen && m !in kids
    ensures forall i | i in seen :: i < n
    ensures forall i | i in kids :: i < n && i !in seen
  {
    DistinctParts(seen, [m] + kids + rest);
    DistinctParts([m] + kids, rest);
    DistinctParts([m], kids);
    assert m in [m] && m in [m] + kids + rest && m in seen + ([m] + kids + rest);
    forall i | i in kids ensures i < n && i !in seen {
      assert i in [m] + kids + rest;
      assert i in seen + ([m] + kids + rest);
    }
    forall i | i in seen ensures i < n {
      assert i in seen + ([m] + kids + rest);
    }
  }

  /** A walk over the list `whole` is under way in the tree; it began with the
      links `k`, the conditions `a` and the finished entries `was`. */
  ghost predicate Going(t: Tree, k: Links, a: Conds, was: set<nat>, whole: Forest, start: Option<nat>, from: Forest,
      seen: Forest,
      cur: Option<nat>, todo: Forest, above: nat, level: Option<nat>)
    requires t.Valid()
    reads t
  {
    GoingOn(t, t.l, k, a, was, whole, start, from, seen, cur, todo, above, level)
  }

  ghost predicate GoingOn(t: Tree, l: Links, k: Links, a: Conds, was: set<nat>, whole: Forest, start: Option<nat>,
      from: Forest, seen: Forest,
      cur: Option<nat>, todo: Forest, above: nat, level: Option<nat>)
    requires t.Valid()
    reads t
  {
    && Walking(l, t.n, start, seen, cur, todo, above, level)
    && Through(t.items, t.modules, k, l, a, t.c, t.n, from, seen)
    && TidyBelow(t.Prompted(), seen)
    && t.done == was + Elems(Preorder(seen))
    && Append(from, todo) == whole
  }

  lemma StepAround(l: Links, n: nat, start: Option<nat>, seen: Forest, m: nat, kids: Forest, rest: Forest,
      above: nat, level: Option<nat>)
    requires Walking(l, n, start, seen, Some(m), Node(m, kids, rest), above, level)
    ensures Around(l, n, m, kids, rest) && l.parent[m] == level
    ensures Distinct(Preorder(seen) + ([m] + Preorder(kids) + Preorder(rest)))
    ensures forall i | i in Preorder(seen) :: i < n
    ensures forall i | i in Preorder(seen) + Preorder(Node(m, kids, rest)) :: i < n
  {
    SegmentIds(l, start, seen, Some(m), n);
    SegmentIds(l, Some(m), Node(m, kids, rest), None, n);
    DistinctParts(Preorder(seen), Preorder(Node(m, kids, rest)));
  }

  lemma StepFresh(seen: seq<nat>, ids: seq<nat>, was: set<nat>, done: set<nat>)
    requires Distinct(seen + ids) && done == was + Elems(seen) && forall i | i in seen + ids :: i !in was
    ensures forall i | i in ids :: i !in done
  {
    DistinctParts(seen, ids);
    forall i | i in ids ensures i !in done {
      assert i in seen + ids;
    }
  }

  lemma StepDone(l: Links, k: Links, n: nat, start: Option<nat>, seen: Forest, m: nat, kids: Forest, rest: Forest,
      above: nat, level: Option<nat>,
      below: Forest, moved: Forest, after: Forest, prompted: seq<bool>, was: set<nat>)
    requires Walking(l, n, start, seen, Some(m), Node(m, kids, rest), above, level)
    requires Finished(l, k, n, m, kids, rest, below, moved, after)
    requires TidyBelow(prompted, seen) && Tidy(prompted, below)
    ensures Walking(Filed(k, m, above), n, start, Append(seen, Node(m, below, Nil)), k.next[m], after, above, level)
    ensures TidyBelow(prompted, Append(seen, Node(m, below, Nil)))
    ensures was + Elems(Preorder(seen)) + {m} + Elems(Preorder(below))
      == was + Elems(Preorder(Append(seen, Node(m, below, Nil))))
    ensures Preorder(Append(seen, Node(m, below, Nil))) + Preorder(after)
      == Preorder(seen) + Preorder(Node(m, kids, rest))
    ensures |Preorder(after)| < |Preorder(Node(m, kids, rest))|
    ensures k.parent[m] == level
  {
    assert k.parent[m] == level by {
      StepAround(l, n, start, seen, m, kids, rest, above, level);
    }
    StepFiled(l, k, n, start, seen, m, kids, rest, above, level, below, moved, after);
    StepOrder(seen, m, kids, rest, below, moved, after);
    assert TidyBelow(prompted, Append(seen, Node(m, below, Nil))) by {
      TidyAppend(prompted, seen, Node(m, below, Nil));
    }
    hide Walking, Finished, TidyBelow, Tidy;
    StepElems(seen, m, below, was);
    hide Append, Preorder, Elems;
    assert |Preorder(Append(seen, Node(m, below, Nil)))| == |Preorder(seen)| + 1 + |Preorder(below)|;
  }

  lemma StepElems(seen: Forest, m: nat, below: Forest, was: set<nat>)
    ensures was + Elems(Preorder(seen)) + {m} + Elems(Preorder(below))
      == was + Elems(Preorder(Append(seen, Node(m, below, Nil))))
    ensures |Preorder(Append(seen, Node(m, below, Nil)))| == |Preorder(seen)| + 1 + |Preorder(below)|
  {
    AppendPreorder(seen, Node(m, below, Nil));
    SingletonPreorder(m, below);
  }

  lemma WalkingHead(l: Links, n: nat, start: Option<nat>, seen: Forest, cur: Option<nat>, todo: Forest, above: nat,
      level: Option<nat>)
    requires Walking(l, n, start, seen, cur, todo, above, level)
    ensures l.Sized(n)
    ensures match cur case None => todo == Nil case Some(m) => m < n && todo == Node(m, todo.kids, todo.rest)
    ensures cur.Some? && level.Some? ==> l.parent[cur.value] == level
  {
  }

  lemma ChildrenStart(items: seq<Item>, modules: Symbol, l: Links, a: Conds, n: nat, p: nat, kids: Forest, rest: Forest)
    requires Around(l, n, p, kids, rest) && |items| == n && |a.dep| == n && |a.props| == n
    ensures p < n && Segment(l, l.list[p], kids, None) && Distinct([p] + Preorder(kids)) && p !in Preorder(kids)
    ensures Walking(l, n, l.list[p], Nil, l.list[p], kids, p, Some(p))
    ensures forall was: set<nat> :: was + Elems(Preorder(Nil)) == was
    ensures Through(items, modules, l, l, a, a, n, Nil, Nil)
    ensures Preorder(Nil) + Preorder(kids) == Preorder(kids)
  {
    DistinctParts([p] + Preorder(kids), Preorder(rest));
    DistinctParts([p], Preorder(kids));
    assert p in [p];
    assert Preorder(Nil) + Preorder(kids) == Preorder(kids);
    assert Elems(Preorder(Nil)) == {};
  }

  /** The walk over the children of `p` has ended. */
  lemma ChildrenLinks(l: Links, k: Links, n: nat, p: nat, kids: Forest, rest: Forest, seen: Forest)
    requires Around(l, n, p, kids, rest)
    requires Walking(k, n, l.list[p], seen, None, Nil, p, Some(p)) && Untouched(l, k, n, Preorder(seen))
    requires Preorder(seen) == Preorder(kids)
    ensures Finished(l, k, n, p, kids, rest, seen, Nil, rest)
  {
    var ids := Preorder(kids);
    assert p !in ids && forall i | i in Preorder(rest) :: i !in ids by {
      DistinctParts([p] + ids, Preorder(rest));
      DistinctParts([p], ids);
      assert p in [p];
      forall i | i in Preorder(rest) ensures i !in ids { assert i !in [p] + ids; }
    }
    assert Preorder(kids) + Preorder(Nil) == Preorder(seen);
    hide Preorder, Distinct;
    OutsideSame(l, k, n, ids, Preorder(rest));
    SegmentFrame(l, k, l.next[p], rest, None);
    ParentsFrame(l, k, rest, l.parent[p]);
  }

  lemma ThroughUntouched(items: seq<Item>, modules: Symbol, l: Links, k: Links, a: Conds, b: Conds, n: nat,
      from: Forest, seen: Forest)
    requires Through(items, modules, l, k, a, b, n, from, seen)
    ensures Untouched(l, k, n, Preorder(seen))
  {
  }

  lemma ChildrenConds(items: seq<Item>, modules: Symbol, l: Links, k: Links, a: Conds, b: Conds, c: Conds, n: nat,
      p: nat, kids: Forest, seen: Forest, outer: Option<Expr>)
    requires p < n == |items| && SameEntry(a, b, p) && outer == Outer(items, a, p) && p !in Preorder(kids)
    requires SpreadTop(items, modules, a, b, kids, outer) && Through(items, modules, l, k, b, c, n, kids, seen)
    requires CondsUntouched(a, b, n, Preorder(kids))
    ensures CondsFinished(items, modules, a, c, n, p, kids, Nil)
  {
    SpreadCompose(items, modules, a, b, c, kids, outer);
    assert Preorder(kids) + Preorder(Nil) == Preorder(kids);
    hide Preorder, Spread, SpreadTop, SpreadBelow;
    assert SameEntry(b, c, p);
    forall i | 0 <= i < n && i !in Preorder(kids) ensures SameEntry(a, c, i) {
      assert SameEntry(a, b, i) && SameEntry(b, c, i);
      SameEntryTransitive(a, b, c, i);
    }
    assert SpreadBelow(items, modules, a, c, Nil) by { NothingBelow(items, modules, a, c); }
  }

  lemma NothingBelow(items: seq<Item>, modules: Symbol, a: Conds, c: Conds)
    ensures SpreadBelow(items, modules, a, c, Nil)
  {
  }

  // ----- automatic submenus -----

  function PromptCond(items: seq<Item>, c: Conds, p: nat): Option<Expr> {
    if p < |items| && p < |c.props| && items[p].prompt.Some? && items[p].prompt.value < |c.props[p]|
    then c.props[p][items[p].prompt.value] else None
  }

  /** The condition of an entry's prompt, or of the entry if it has none. */
  function EntryCond(items: seq<Item>, c: Conds, p: nat): Option<Expr> {
    if p < |items| && items[p].prompt.None? && p < |c.dep| then c.dep[p] else PromptCond(items, c, p)
  }

  // ----- what becomes of an entry -----

  /** The symbol `p` may take over the entry `m`. */
  ghost predicate MayHold(items: seq<Item>, c: Conds, p: nat, m: nat) {
    p < |items| && items[p].sym.Some? && Placed(items[p].sym.value, PromptCond(items, c, p), EntryCond(items, c, m))
  }

  lemma MayHoldFrame(items: seq<Item>, a: Conds, b: Conds, p: nat, m: nat)
    requires MayHold(items, a, p, m) && SameEntry(a, b, p) && SameEntry(a, b, m)
    ensures MayHold(items, b, p, m)
  {
    hide Placed;
  }

  /** Every entry taken over is rightly where it is, and its holder is here or is `q`. */
  ghost predicate Justified(items: seq<Item>, c: Conds, held: map<nat, nat>, ids: seq<nat>, q: nat) {
    forall i | i in ids && i in held :: (held[i] in ids || held[i] == q) && MayHold(items, c, held[i], i)
  }

  /** The forest below `q` is arranged by holders, and the holders may hold it. */
  ghost predicate Arranged(pl: Plan, done: set<nat>, items: seq<Item>, c: Conds, f: Forest, q: nat) {
    && LiftedForest(pl, done, f, q) && Justified(items, c, pl.held, Preorder(f), q)
    && forall i | i in Preorder(f) :: i in done
  }

  lemma ArrangedNil(pl: Plan, done: set<nat>, items: seq<Item>, c: Conds, q: nat)
    ensures Arranged(pl, done, items, c, Nil, q)
  {
  }

  lemma ArrangedLater(pl: Plan, later: Plan, done: set<nat>, more: set<nat>, items: seq<Item>, a: Conds, b: Conds,
      f: Forest, q: nat)
    requires Arranged(pl, done, items, a, f, q) && done <= more
    requires later.origin == pl.origin && later.prompted == pl.prompted && Agree(pl.held, later.held, done)
    requires SameEntries(a, b, Preorder(f)) && SameEntry(a, b, q)
    ensures Arranged(later, more, items, b, f, q)
  {
    hide LiftedForest, MayHold, SameEntry;
    LiftedForestLater(pl, later, done, more, f, q);
    forall i | i in Preorder(f) && i in later.held
      ensures (later.held[i] in Preorder(f) || later.held[i] == q) && MayHold(items, b, later.held[i], i)
    {
      assert i in pl.held && pl.held[i] == later.held[i];
      MayHoldFrame(items, a, b, pl.held[i], i);
    }
  }

  /** One more entry, with what is below it, joins the list of `q`. */
  lemma ArrangedStep(pl: Plan, done: set<nat>, items: seq<Item>, c: Conds, seen: Forest, m: nat, below: Forest, q: nat)
    requires Arranged(pl, done, items, c, seen, q) && Arranged(pl, done, items, c, below, m)
    requires m in done && Holder(pl, m) == Some(q) && (m in pl.held ==> MayHold(items, c, q, m))
    ensures Arranged(pl, done, items, c, Append(seen, Node(m, below, Nil)), q)
  {
    hide MayHold, Lifted;
    LiftedDirect(pl, done, m, q);
    LiftedAppend(pl, done, seen, Node(m, below, Nil), q);
    AppendPreorder(seen, Node(m, below, Nil));
    SingletonPreorder(m, below);
  }

  /** The list of `m` is arranged, and what was arranged before still is. */
  lemma StepArranged(pl: Plan, later: Plan, done: set<nat>, more: set<nat>, items: seq<Item>, modules: Symbol,
      a: Conds, b: Conds, n: nat,
      seen: Forest, m: nat, kids: Forest, rest: Forest, below: Forest, moved: Forest, after: Forest, q: nat)
    requires Arranged(pl, done, items, a, seen, q) && Arranged(later, more, items, b, below, m)
    requires done <= more && later.origin == pl.origin && later.prompted == pl.prompted
    requires Agree(pl.held, later.held, done)
    requires CondsFinished(items, modules, a, b, n, m, kids, moved) && rest == Append(moved, after)
    requires Distinct(Preorder(seen) + ([m] + Preorder(kids) + Preorder(rest)))
    requires forall i | i in Preorder(seen) :: i < n
    requires q < n && q !in [m] + Preorder(kids) + Preorder(rest)
    requires m in more && Holder(later, m) == Some(q) && (m in later.held ==> MayHold(items, a, q, m))
    ensures Arranged(later, more, items, b, Append(seen, Node(m, below, Nil)), q)
  {
    hide Arranged, MayHold, Agree, Holder, SameEntry, Spread, SpreadBelow;
    AppendPreorder(moved, after);
    DistinctParts(Preorder(seen), [m] + Preorder(kids) + Preorder(rest));
    hide Preorder, Append, Distinct;
    assert SameEntry(a, b, q);
    assert SameEntries(a, b, Preorder(seen));
    ArrangedLater(pl, later, done, more, items, a, b, seen, q);
    if m in later.held { MayHoldFrame(items, a, b, q, m); }
    ArrangedStep(later, more, items, b, seen, m, below, q);
  }

  /** Once its list is flattened the entry `p` is finished, and perhaps taken over. */
  lemma FinalizeArranged(pl: Plan, later: Plan, done: set<nat>, items: seq<Item>, c: Conds, children: Forest,
      below: Forest, p: nat)
    requires Arranged(pl, done, items, c, children, p) && LiftedForest(pl, done, below, p)
    requires Preorder(below) == Preorder(children)
    requires later.origin == pl.origin && later.prompted == pl.prompted && Agree(pl.held, later.held, done)
    requires SameEntry(c, c, p) && SameEntries(c, c, Preorder(below))
    ensures Arranged(later, done + {p}, items, c, below, p)
  {
    hide LiftedForest, MayHold, SameEntry, Agree, Preorder;
    assert Arranged(pl, done, items, c, below, p);
    ArrangedLater(pl, later, done, done + {p}, items, c, c, below, p);
  }

  lemma ArrangedLifted(pl: Plan, done: set<nat>, items: seq<Item>, c: Conds, f: Forest, q: nat)
    requires Arranged(pl, done, items, c, f, q)
    ensures LiftedForest(pl, done, f, q)
  {
  }

  lemma FinishedEntries(l: Links, k: Links, c: Conds, n: nat, p: nat, kids: Forest, rest: Forest, below: Forest,
      moved: Forest, after: Forest)
    requires Finished(l, k, n, p, kids, rest, below, moved, after) && |c.dep| == n && |c.props| == n
    ensures SameEntries(c, c, Preorder(below)) && SameEntry(c, c, p)
  {
    hide Preorder, Parents, Distinct, Untouched;
    SegmentIds(k, k.list[p], below, None, n);
  }

  lemma FinishedParts(l: Links, k: Links, n: nat, p: nat, kids: Forest, rest: Forest, below: Forest, moved: Forest,
      after: Forest)
    requires Finished(l, k, n, p, kids, rest, below, moved, after)
    ensures rest == Append(moved, after)
  {
  }

  lemma AgreeSelf(h: map<nat, nat>, done: set<nat>)
    ensures Agree(h, h, done)
  {
  }

  lemma AgreeOn(h: map<nat, nat>, i: map<nat, nat>, j: map<nat, nat>, done: set<nat>, more: set<nat>)
    requires Agree(h, i, done) && Agree(i, j, more) && done <= more
    ensures Agree(h, j, done)
  {
  }

  lemma NotDone(l: Links, k: Links, n: nat, p: nat, kids: Forest, rest: Forest, children: Forest, moved: Forest,
      after: Forest, was: set<nat>)
    requires Finished(l, k, n, p, kids, rest, children, moved, after) && p !in was
    ensures p !in was + Elems(Preorder(children))
  {
    hide Preorder, Segment, Parents, Untouched;
    DistinctParts([p] + Preorder(children), Preorder(after));
    DistinctParts([p], Preorder(children));
    assert p in [p];
  }

  lemma AbsorbStart(items: seq<Item>, modules: Symbol, l: Links, a: Conds, n: nat, p: nat, rest: Forest)
    requires Around(l, n, p, Nil, rest) && |items| == n && |a.dep| == n && |a.props| == n
    ensures p < n && l.Sized(n) && p !in Preorder(rest)
    ensures Walking(l, n, l.next[p], Nil, l.next[p], rest, p, l.parent[p])
    ensures forall was: set<nat> :: was + Elems(Preorder(Nil)) == was
    ensures Through(items, modules, l, l, a, a, n, Nil, Nil)
    ensures Preorder(Nil) + Preorder(rest) == Preorder(rest)
  {
    DistinctParts([p] + Preorder(Nil), Preorder(rest));
    assert p in [p] + Preorder(Nil);
    assert Preorder(Nil) + Preorder(rest) == Preorder(rest);
    assert Elems(Preorder(Nil)) == {};
  }

  /** The walk has not come by the entry that it started from. */
  lemma Apart(items: seq<Item>, modules: Symbol, l: Links, k: Links, a: Conds, b: Conds, n: nat, p: nat, all: seq<nat>,
      from: Forest, seen: Forest, todo: Forest)
    requires Through(items, modules, l, k, a, b, n, from, seen) && p < n && p !in all
    requires Preorder(seen) + Preorder(todo) == all
    ensures SameEntry(a, b, p) && p !in Preorder(todo)
  {
    hide SpreadBelow, Untouched, SameEntry;
    assert forall i | i in Preorder(seen) || i in Preorder(todo) :: i in all;
  }

  lemma AbsorbedHold(items: seq<Item>, a: Conds, c: Conds, n: nat, p: nat, m: nat, prompt: Option<Expr>)
    requires p < n == |items| && items[p].sym.Some? && SameEntry(a, c, p) && prompt == PromptCond(items, a, p)
    requires Placed(items[p].sym.value, prompt, EntryCond(items, c, m))
    ensures MayHold(items, c, p, m)
  {
    hide Placed;
  }

  lemma BornParts(origin: Links, m: nat, kids: Forest, rest: Forest)
    requires Born(origin, Node(m, kids, rest))
    ensures Parents(origin, kids, Some(m)) && Born(origin, rest)
  {
  }

  lemma AbsorbConds(items: seq<Item>, modules: Symbol, l: Links, k: Links, a: Conds, b: Conds, n: nat, p: nat,
      rest: Forest, from: Forest, seen: Forest, todo: Forest)
    requires p < n == |items| && p !in Preorder(rest) && Preorder(seen) + Preorder(todo) == Preorder(rest)
    requires Through(items, modules, l, k, a, b, n, from, seen)
    ensures CondsFinished(items, modules, a, b, n, p, Nil, from)
  {
    hide SpreadBelow, Spread, Untouched;
    assert p !in Preorder(from) by { assert p !in Preorder(seen) + Preorder(todo); }
    assert Preorder(Nil) + Preorder(from) == Preorder(from) by { assert Preorder(Nil) == []; }
    hide Preorder;
    NothingSpread(items, modules, a, b, p);
  }

  lemma NothingSpread(items: seq<Item>, modules: Symbol, a: Conds, b: Conds, p: nat)
    ensures p < |items| && p < |b.dep| ==> Spread(items, modules, a, b, Nil, Outer(items, b, p))
  {
  }

  function Rewired(k: Links, p: nat, last: nat): Links
    requires p < |k.list| && p < |k.next| && last < |k.next|
  {
    Links(k.list[p := k.next[p]], k.next[p := k.next[last]][last := None], k.parent)
  }

  lemma RewiredSegments(k: Links, n: nat, p: nat, seen: Forest, cur: Option<nat>, todo: Forest, level: Option<nat>)
    requires k.Sized(n) && p < n && p !in Preorder(seen) && p !in Preorder(todo) && seen.Node?
    requires Walking(k, n, k.next[p], seen, cur, todo, p, level)
    ensures Last(seen) < n && k.next[Last(seen)] == cur && Last(seen) in Preorder(seen)
    ensures var j := Rewired(k, p, Last(seen));
      j.list[p] == k.next[p] && j.next[p] == cur && Segment(j, k.next[p], seen, None) && Segment(j, cur, todo, None)
  {
    LastNext(k, k.next[p], seen, cur);
    LastIn(seen);
    DistinctParts(Preorder(seen), Preorder(todo));
    var last := Last(seen);
    var cut := k.(next := k.next[last := None]);
    Redirect(k, k.next[p], seen, cur, None);
    hide Preorder, Segment, Distinct;
    var j := Rewired(k, p, last);
    assert SameLinks(cut, j, Preorder(seen));
    SegmentFrame(cut, j, k.next[p], seen, None);
    assert SameLinks(k, j, Preorder(todo));
    SegmentFrame(k, j, cur, todo, None);
  }

  lemma RewiredAround(k: Links, n: nat, p: nat, seen: Forest, cur: Option<nat>, todo: Forest)
    requires k.Sized(n) && p < n && p !in Preorder(seen) && p !in Preorder(todo) && seen.Node?
    requires Walking(k, n, k.next[p], seen, cur, todo, p, k.parent[p])
    requires Distinct([p] + Preorder(seen) + Preorder(todo))
    ensures Last(seen) < n && Last(seen) in Preorder(seen) && Around(Rewired(k, p, Last(seen)), n, p, seen, todo)
  {
    hide Preorder, Segment, Distinct;
    RewiredSegments(k, n, p, seen, cur, todo, k.parent[p]);
    var j := Rewired(k, p, Last(seen));
    ParentsFrame(k, j, seen, Some(p));
    ParentsFrame(k, j, todo, k.parent[p]);
  }

  lemma AbsorbFacts(l: Links, k: Links, n: nat, p: nat, rest: Forest, from: Forest, seen: Forest, todo: Forest)
    requires Around(l, n, p, Nil, rest) && Preorder(seen) + Preorder(todo) == Preorder(rest)
    requires Untouched(l, k, n, Preorder(seen)) && Preorder(seen) == Preorder(from)
    ensures p < n && l.Sized(n) && k.Sized(n) && p !in Preorder(seen) && p !in Preorder(todo)
    ensures Distinct([p] + Preorder(seen) + Preorder(todo))
    ensures k.next[p] == l.next[p] && k.parent[p] == l.parent[p] && k.list[p] == None
    ensures Preorder(seen) == Preorder(Nil) + Preorder(from)
  {
    hide Segment, Parents, Preorder, Distinct;
    EmptyList(l, l.list[p]);
    ApartFrom(p, Preorder(Nil), Preorder(rest), Preorder(seen), Preorder(todo));
  }

  lemma EmptyList(l: Links, from: Option<nat>)
    requires Segment(l, from, Nil, None)
    ensures from == None && Preorder(Nil) == []
  {
  }

  lemma ApartFrom(p: nat, none: seq<nat>, all: seq<nat>, seen: seq<nat>, todo: seq<nat>)
    requires none == [] && seen + todo == all && Distinct([p] + none + all)
    ensures p !in seen && p !in todo && Distinct([p] + seen + todo) && none + seen == seen
  {
    assert [p] + none + all == [p] + (seen + todo);
    DistinctParts([p], seen + todo);
    assert p in [p];
    assert p !in seen + todo;
    Associates([p], seen, todo);
  }

  /** The walk over the entries after `p` has ended: those that were seen become
      the list of `p`. */
  lemma AbsorbLinks(items: seq<Item>, modules: Symbol, l: Links, k: Links, a: Conds, b: Conds, n: nat, p: nat,
      rest: Forest, from: Forest, seen: Forest, cur: Option<nat>, todo: Forest)
    requires Around(l, n, p, Nil, rest) && Append(from, todo) == rest
    requires Preorder(seen) + Preorder(todo) == Preorder(rest)
    requires Walking(k, n, l.next[p], seen, cur, todo, p, l.parent[p])
    requires Through(items, modules, l, k, a, b, n, from, seen)
    ensures seen.Nil? ==> Finished(l, k, n, p, Nil, rest, seen, from, todo)
    ensures seen.Node? ==>
      p < n && Last(seen) < n && Finished(l, Rewired(k, p, Last(seen)), n, p, Nil, rest, seen, from, todo)
  {
    hide Around, Append, Preorder, Distinct;
    AbsorbFacts(l, k, n, p, rest, from, seen, todo);
    if seen.Node? {
      hide Walking;
      RewiredAround(k, n, p, seen, cur, todo);
      AbsorbUntouched(l, k, n, p, Last(seen), Preorder(seen), Preorder(from));
    } else {
      NothingAbsorbed(k, n, p, l.next[p], cur, todo, l.parent[p]);
      AbsorbUntouchedNone(l, k, n, p, Preorder(seen), Preorder(from));
    }
  }

  lemma AbsorbUntouched(l: Links, k: Links, n: nat, p: nat, last: nat, seen: seq<nat>, from: seq<nat>)
    requires Untouched(l, k, n, seen) && seen == from && p < n && last < n && last in seen
    ensures Untouched(l, Rewired(k, p, last), n, [p] + Preorder(Nil) + from)
  {
  }

  lemma AbsorbUntouchedNone(l: Links, k: Links, n: nat, p: nat, seen: seq<nat>, from: seq<nat>)
    requires Untouched(l, k, n, seen) && seen == from
    ensures Untouched(l, k, n, [p] + Preorder(Nil) + from)
  {
  }

  lemma NothingAbsorbed(k: Links, n: nat, p: nat, start: Option<nat>, cur: Option<nat>, todo: Forest,
      level: Option<nat>)
    requires Walking(k, n, start, Nil, cur, todo, p, level) && p < n && k.list[p] == None && k.next[p] == start
    requires k.parent[p] == level
    requires Distinct([p] + Preorder(Nil) + Preorder(todo))
    ensures Around(k, n, p, Nil, todo)
  {
  }

  // ----- flattening -----

  lemma AdoptStep(l: Links, k: Links, n: nat, p: nat, seen: Forest, m: nat, kids: Forest, rest: Forest,
      level: Option<nat>)
    requires l.Sized(n) && m < n && k == Filed(l, m, p) && Distinct(Preorder(Append(seen, Node(m, kids, rest))))
    requires Parents(l, seen, Some(p)) && Parents(l, Node(m, kids, rest), level)
    ensures Parents(k, Append(seen, Node(m, kids, Nil)), Some(p)) && Parents(k, rest, level)
  {
    AppendPreorder(seen, Node(m, kids, rest));
    AdoptApart(Preorder(seen), m, Preorder(kids), Preorder(rest));
    hide Preorder, Append;
    ParentsFrame(l, k, seen, Some(p));
    ParentsFrame(l, k, kids, Some(m));
    ParentsFrame(l, k, rest, level);
    ParentsAppend(k, seen, Node(m, kids, Nil), Some(p));
  }

  lemma AdoptApart(seen: seq<nat>, m: nat, kids: seq<nat>, rest: seq<nat>)
    requires Distinct(seen + ([m] + kids + rest))
    ensures m !in seen && m !in kids && m !in rest
    ensures forall i | i in kids :: i !in seen && i !in rest
    ensures forall i | i in rest :: i !in seen
    ensures Distinct(kids)
  {
    DistinctParts(seen, [m] + kids + rest);
    DistinctParts([m] + kids, rest);
    DistinctParts([m], kids);
    assert m in [m] && m in [m] + kids && m in [m] + kids + rest;
    forall i | i in kids ensures i !in seen && i !in rest {
      assert i in [m] + kids && i in [m] + kids + rest;
    }
    forall i | i in rest ensures i !in seen {
      assert i in [m] + kids + rest;
    }
  }

  lemma FlattenStart(l: Links, n: nat, p: nat, kids: Forest, rest: Forest)
    requires Around(l, n, p, kids, rest)
    ensures p < n == |l.list| && Walking(l, n, l.list[p], Nil, l.list[p], kids, p, Some(p))
    ensures Preorder(Nil) + Preorder(kids) == Preorder(kids) && Untouched(l, l, n, Preorder(kids))
  {
    DistinctParts([p] + Preorder(kids), Preorder(rest));
    DistinctParts([p], Preorder(kids));
    assert Preorder(Nil) + Preorder(kids) == Preorder(kids);
  }

  lemma FlattenEnd(seen: seq<nat>, todo: seq<nat>, all: seq<nat>)
    requires seen + todo == all && todo == []
    ensures seen == all
  {
  }

  /** The walk goes on to the next entry. */
  lemma WalkOn(l: Links, n: nat, start: Option<nat>, seen: Forest, m: nat, kids: Forest, rest: Forest, p: nat)
    requires Walking(l, n, start, seen, Some(m), Node(m, kids, rest), p, Some(p))
    ensures m < n && l.Sized(n) && Walking(l, n, start, Append(seen, Node(m, kids, Nil)), l.next[m], rest, p, Some(p))
    ensures Preorder(Append(seen, Node(m, kids, Nil))) + Preorder(rest)
      == Preorder(seen) + Preorder(Node(m, kids, rest))
    ensures |Preorder(rest)| < |Preorder(Node(m, kids, rest))|
  {
    StepAround(l, n, start, seen, m, kids, rest, p, Some(p));
    StartFinished(l, n, m, kids, rest);
    StepFiled(l, l, n, start, seen, m, kids, rest, p, Some(p), kids, Nil, rest);
    assert Filed(l, m, p) == l;
    hide Walking, Around;
    StepOrder(seen, m, kids, rest, kids, Nil, rest);
  }

  lemma FlattenFacts(l: Links, n: nat, start: Option<nat>, seen: Forest, m: nat, kids: Forest, rest: Forest, p: nat)
    requires Walking(l, n, start, seen, Some(m), Node(m, kids, rest), p, Some(p))
    ensures m < n && Segment(l, l.list[m], kids, None) && Distinct(Preorder(kids)) && Parents(l, kids, Some(m))
    ensures l.list[m].None? ==> kids == Nil
  {
    AdoptApart(Preorder(seen), m, Preorder(kids), Preorder(rest));
  }

  lemma FlattenOrder(m: nat, kids: Forest, rest: Forest)
    ensures Preorder(Node(m, Nil, Append(kids, rest))) == Preorder(Node(m, kids, rest))
  {
    AppendPreorder(kids, rest);
    Associates([m], Preorder(kids), Preorder(rest));
    assert [m] + Preorder(Nil) == [m];
  }

  /** The links once the list of `m` stands behind `m`. */
  function Flattened(l: Links, m: nat, last: nat): Links
    requires m < |l.list| && m < |l.next| && last < |l.next|
  {
    Links(l.list[m := None], l.next[last := l.next[m]][m := l.list[m]], l.parent)
  }

  lemma FlattenUntouched(before: Links, l: Links, k: Links, n: nat, seen: seq<nat>, m: nat, kids: seq<nat>,
      rest: seq<nat>, last: nat, all: seq<nat>)
    requires Untouched(before, l, n, all) && seen + ([m] + kids + rest) == all && last in kids && m < n && last < n
    requires k.Sized(n) && k.list == l.list && k.next == l.next
    requires forall i | 0 <= i < n && i !in kids :: k.parent[i] == l.parent[i]
    ensures Untouched(before, Flattened(k, m, last), n, all)
  {
    assert m in all by { assert m in [m] + kids + rest; }
    forall i | i in kids ensures i in all { assert i in [m] + kids + rest; }
  }

  lemma FlattenSegments(k: Links, n: nat, m: nat, kids: Forest, rest: Forest)
    requires k.Sized(n) && m < n && kids.Node? && m !in Preorder(kids) && m !in Preorder(rest)
    requires Distinct(Preorder(kids))
    requires forall i | i in Preorder(kids) :: i !in Preorder(rest)
    requires Segment(k, k.list[m], kids, None) && Segment(k, k.next[m], rest, None) && Last(kids) < n
    ensures Segment(Flattened(k, m, Last(kids)), k.list[m], Append(kids, rest), None)
  {
    var last := Last(kids);
    LastIn(kids);
    var cut := k.(next := k.next[last := k.next[m]]);
    Redirect(k, k.list[m], kids, None, k.next[m]);
    var j := Flattened(k, m, last);
    hide Segment, Preorder, Distinct;
    SegmentFrame(cut, j, k.list[m], kids, k.next[m]);
    SegmentFrame(k, j, k.next[m], rest, None);
    SegmentAppend(j, k.list[m], kids, k.next[m], rest, None);
  }

  /** Moving the list of `m` behind `m` keeps the walk where it is. */
  lemma FlattenStep(l: Links, k: Links, n: nat, start: Option<nat>, seen: Forest, m: nat, kids: Forest, rest: Forest,
      p: nat)
    requires Walking(l, n, start, seen, Some(m), Node(m, kids, rest), p, Some(p)) && kids.Node? && Last(kids) < n
    requires k.Sized(n) && k.list == l.list && k.next == l.next && Parents(k, kids, Some(p))
    requires forall i | 0 <= i < n && i !in Preorder(kids) :: k.parent[i] == l.parent[i]
    ensures Walking(Flattened(k, m, Last(kids)), n, start, seen, Some(m), Node(m, Nil, Append(kids, rest)), p, Some(p))
    ensures Last(kids) in Preorder(kids)
  {
    LastIn(kids);
    AdoptApart(Preorder(seen), m, Preorder(kids), Preorder(rest));
    FlattenOrder(m, kids, rest);
    var last, j := Last(kids), Flattened(k, m, Last(kids));
    assert SameLinks(l, k, Preorder(kids)) && SameLinks(l, k, Preorder(rest)) && SameLinks(l, k, Preorder(seen));
    SegmentFrame(l, k, l.list[m], kids, None);
    SegmentFrame(l, k, l.next[m], rest, None);
    assert l.parent[m] == Some(p);
    assert Parents(l, rest, Some(p));
    hide Preorder, Append, Distinct, Segment;
    FlattenSegments(k, n, m, kids, rest);
    SegmentFrame(l, j, start, seen, Some(m));
    hide Parents;
    ParentsFrame(l, j, seen, Some(p));
    ParentsFrame(k, j, kids, Some(p));
    ParentsFrame(l, j, rest, Some(p));
    ParentsAppend(j, kids, rest, Some(p));
    FlattenClose(j, m, Append(kids, rest), p);
  }

  lemma FlattenClose(j: Links, m: nat, f: Forest, p: nat)
    requires m < |j.list| == |j.next| == |j.parent| && j.list[m] == None && j.parent[m] == Some(p)
    requires Segment(j, j.next[m], f, None) && Parents(j, f, Some(p))
    ensures Segment(j, Some(m), Node(m, Nil, f), None) && Parents(j, Node(m, Nil, f), Some(p))
  {
  }

  class Tree {
    const n: nat
    const items: seq<Item>
    const modules: Symbol
    var l: Links
    var c: Conds
    /** The links before the pass, the entries that have been finished, and which
        symbol took over which of them. */
    ghost const origin: Links
    ghost var done: set<nat>
    ghost var held: map<nat, nat>

    constructor (items: seq<Item>, modules: Symbol, l: Links, c: Conds)
      requires l.Sized(|items|) && |c.dep| == |items| && |c.props| == |items|
      requires forall i | 0 <= i < |items| && items[i].prompt.Some? :: items[i].prompt.value < |c.props[i]|
      ensures Valid() && this.items == items && this.modules == modules && this.l == l && this.c == c
      ensures done == {} && held == map[] && origin == l
    {
      n, this.items, this.modules, this.l, this.c, done, held, origin := |items|, items, modules, l, c, {}, map[], l;
    }

    ghost predicate Valid()
      reads this
    {
      && |items| == n && l.Sized(n) && |c.dep| == n && |c.props| == n && held.Keys <= done
      && forall i | 0 <= i < n && items[i].prompt.Some? :: items[i].prompt.value < |c.props[i]|
    }

    ghost function Prompted(): (r: seq<bool>)
      requires |items| == n
    {
      seq(n, i requires 0 <= i < n => items[i].prompt.Some? && items[i].text)
    }

    ghost function Plans(): Plan
      requires |items| == n
      reads this
    {
      Plan(origin.parent, held, Prompted())
    }

    /** `menu_finalize`: the order of the entries is kept, entries that follow may
        have moved below `p`, every child names the entry that holds it as its
        parent, only prompted entries below `p` have children, each entry below
        `p` is finished exactly once, and each entry that was below another has
        inherited its dependency. */
    method Finalize(p: nat, ghost kids: Forest, ghost rest: Forest, ghost taker: Option<nat>)
      returns (ghost below: Forest, ghost moved: Forest, ghost after: Forest)
      requires Valid() && Around(l, n, p, kids, rest)
      requires forall i | i in [p] + Preorder(kids) + Preorder(rest) :: i !in done
      requires Parents(origin, kids, Some(p)) && Born(origin, rest)
      modifies this
      ensures Valid()
      ensures Finished(old(l), l, n, p, kids, rest, below, moved, after)
      ensures Tidy(Prompted(), below)
      ensures CondsFinished(items, modules, old(c), c, n, p, kids, moved)
      ensures done == old(done) + {p} + Elems(Preorder(below))
      ensures Agree(old(held), held, old(done))
      ensures (p in held <==> taker.Some?) && (taker.Some? ==> held[p] == taker.value)
      ensures Arranged(Plans(), done, items, c, below, p)
      decreases |Preorder(kids)| + |Preorder(rest)|, 2
    {
      hide Around, Finished, CondsFinished, Tidy, Preorder, Elems, Arranged, Parents, Born, LiftedForest;
      ghost var children: Forest;
      assert p !in done by { assert p in [p] + Preorder(kids) + Preorder(rest); }
      StartFinished(l, n, p, kids, rest);
      StartConds(items, modules, c, n, p);
      ArrangedNil(Plans(), done, items, c, p);
      if l.list[p].Some? {
        children := FinalizeChildren(p, kids, rest);
        moved, after := Nil, rest;
      } else if items[p].sym.Some? {
        children, moved, after := Absorb(p, rest);
      } else {
        children, moved, after := Nil, Nil, rest;
      }
      ghost var between, plan, was := l, Plans(), done;
      NotDone(old(l), l, n, p, kids, rest, children, moved, after, old(done));
      FinishedAround(old(l), l, n, p, kids, rest, children, moved, after);
      ArrangedLifted(Plans(), done, items, c, children, p);
      below := Flatten(p, children, after);
      FinishedTwice(old(l), between, l, n, p, kids, rest, children, moved, after, below);
      done := done + {p};
      if taker.Some? { held := held[p := taker.value]; }
      FinishedEntries(old(l), l, c, n, p, kids, rest, below, moved, after);
      FinalizeArranged(plan, Plans(), was, items, c, children, below, p);
      assert done == old(done) + {p} + Elems(Preorder(below));
    }

    /** The whole tree: the root keeps its entries in their order. An entry that
        was taken out of its list is held by a symbol that may hold it, and every
        entry is in the list of the first prompted one among its holders, or of
        the root. Conditions that were plain have become proper. */
    method FinalizeAll(root: nat, ghost kids: Forest) returns (ghost below: Forest)
      requires Valid() && Around(l, n, root, kids, Nil) && done == {} && origin == l
      modifies this
      ensures Valid() && Segment(l, l.list[root], below, None) && l.next[root] == None
      ensures Preorder(below) == Preorder(kids)
      ensures Parents(l, below, Some(root)) && l.parent[root] == old(l.parent[root])
      ensures Tidy(Prompted(), below)
      ensures done == {root} + Elems(Preorder(kids))
      ensures Spread(items, modules, old(c), c, kids, Outer(items, old(c), root))
      ensures LiftedForest(Plans(), done, below, root)
      ensures forall i | i in held :: MayHold(items, c, held[i], i)
      ensures NamedEntries(old(c), Preorder(kids)) && NamesOnlyOpt(old(c).dep[root]) && NormalOpt(old(c).dep[root]) ==>
        forall p, i | ReadUnder(kids, root, p, i) :: HandedDown(items, modules, old(c), c, p, i)
      ensures PlainEntries(items, old(c), Preorder(kids)) ==>
        Proper(Outer(items, old(c), root)) && LogicModules(modules) ==>
          forall i | i in Preorder(kids) :: ProperEntry(c, i)
    {
      hide MayHold, Inherited, PlainEntries, ProperEntry, Proper, NamedEntries, NamesOnlyOpt, NormalOpt, HandedDown;
      ghost var moved, after;
      below, moved, after := Finalize(root, kids, Nil, None);
      assert moved == Nil && after == Nil;
      FlattenEnd(Preorder(kids), Preorder(Nil), Preorder(below));
      if NamedEntries(old(c), Preorder(kids)) && NamesOnlyOpt(old(c).dep[root]) && NormalOpt(old(c).dep[root]) {
        forall p, i | ReadUnder(kids, root, p, i) ensures HandedDown(items, modules, old(c), c, p, i) {
          SpreadValues(items, modules, old(c), c, kids, root, p, i);
        }
      }
      if PlainEntries(items, old(c), Preorder(kids)) && Proper(Outer(items, old(c), root)) && LogicModules(modules) {
        SpreadProper(items, modules, old(c), c, kids, Outer(items, old(c), root));
      }
    }

    /** One entry gets the dependency above it, and its properties get its own. */
    method InheritEntry(m: nat, outer: Option<Expr>)
      requires Valid() && m < n
      modifies this`c
      ensures Valid() && EntryInherited(items, modules, old(c), c, m, outer)
      ensures forall i | 0 <= i < n && i != m :: SameEntry(old(c), c, i)
    {
      hide Inherited;
      var base := Inherit(outer, c.dep[m], modules);
      var conds: seq<Option<Expr>> := [];
      for j := 0 to |c.props[m]|
        invariant c == old(c) && |conds| == j
        invariant forall i | 0 <= i < j :: PropInherited(conds[i], base, c.props[m][i], Boolean(items[m]), modules)
      {
        var cond := Inherit(base, c.props[m][j], modules);
        conds := conds + [if Boolean(items[m]) then TransBoolOpt(cond) else cond];
      }
      c := Conds(c.dep[m := base], c.props[m := conds]);
    }

    /** The children of `p` inherit from it. */
    method Propagate(p: nat, ghost kids: Forest)
      requires Valid() && p < n && Segment(l, l.list[p], kids, None) && Distinct([p] + Preorder(kids))
      modifies this`c
      ensures Valid() && SameEntry(old(c), c, p)
      ensures SpreadTop(items, modules, old(c), c, kids, Outer(items, old(c), p))
      ensures CondsUntouched(old(c), c, n, Preorder(kids))
    {
      var outer := Outer(items, c, p);
      var m: Option<nat> := l.list[p];
      ghost var seen, todo := Nil, kids;
      DistinctParts([p], Preorder(kids));
      assert p in [p];
      SegmentIds(l, l.list[p], kids, None, n);
      hide Distinct, SpreadTop, CondsUntouched, EntryInherited;
      assert SpreadTop(items, modules, old(c), c, Nil, outer) && CondsUntouched(old(c), c, n, Preorder(Nil)) by {
        TopStart(items, modules, c, n, outer);
      }
      while m.Some?
        invariant Valid() && Segment(l, m, todo, None)
        invariant kids == Append(seen, todo)
        invariant SpreadTop(items, modules, old(c), c, seen, outer)
        invariant CondsUntouched(old(c), c, n, Preorder(seen))
        decreases todo
      {
        ghost var k, r, before := todo.kids, todo.rest, c;
        InheritEntry(m.value, outer);
        TopStep(items, modules, old(c), before, c, n, seen, m.value, k, r, outer);
        seen, todo := Append(seen, Node(m.value, k, Nil)), r;
        m := l.next[m.value];
      }
      AppendNil(seen);
    }

    /** Finishes the current entry of a list that is being walked. */
    method Step(m: nat, ghost k: Links, ghost a: Conds, ghost was: set<nat>, ghost whole: Forest,
        ghost start: Option<nat>, ghost from: Forest, ghost seen: Forest, ghost kids: Forest, ghost rest: Forest,
        ghost above: nat, ghost level: Option<nat>, ghost taker: Option<nat>)
      returns (ghost below: Forest, ghost moved: Forest, ghost after: Forest)
      requires Valid() && Going(this, k, a, was, whole, start, from, seen, Some(m), Node(m, kids, rest), above, level)
      requires forall i | i in Preorder(seen) + Preorder(Node(m, kids, rest)) :: i !in was
      requires Parents(origin, kids, Some(m)) && Born(origin, rest) && Arranged(Plans(), done, items, c, seen, above)
      requires above < n && above !in Preorder(Node(m, kids, rest))
      requires if taker.Some? then taker.value == above && MayHold(items, c, above, m)
               else m < |origin.parent| && origin.parent[m] == Some(above)
      modifies this
      ensures Valid() && m < n && l.parent[m] == level
      ensures GoingOn(this, Filed(l, m, above), k, a, was, whole, start,
        Append(from, Node(m, kids, moved)), Append(seen, Node(m, below, Nil)), l.next[m], after, above, level)
      ensures Preorder(Append(seen, Node(m, below, Nil))) + Preorder(after)
        == Preorder(seen) + Preorder(Node(m, kids, rest))
      ensures |Preorder(after)| < |Preorder(Node(m, kids, rest))|
      ensures rest == Append(moved, after) && old(done) <= done && Agree(old(held), held, old(done))
      ensures Arranged(Plans(), done, items, c, Append(seen, Node(m, below, Nil)), above)
      decreases |Preorder(kids)| + |Preorder(rest)|, 3
    {
      ghost var before, conds, plan, was' := l, c, Plans(), done;
      hide TidyBelow, Through, CondsFinished, Elems, Finished, Distinct, Append, Around, Arranged, MayHold, Agree, Born;
      hide Walking, Segment, Parents, Tidy;
      StepAround(l, n, start, seen, m, kids, rest, above, level);
      assert forall i | i in [m] + Preorder(kids) + Preorder(rest) :: i !in done by {
        StepFresh(Preorder(seen), [m] + Preorder(kids) + Preorder(rest), was, done);
      }
      assert Preorder(Node(m, kids, rest)) == [m] + Preorder(kids) + Preorder(rest);
      below, moved, after := Finalize(m, kids, rest, taker);
      hide Preorder;
      FinishedParts(before, l, n, m, kids, rest, below, moved, after);
      assert Arranged(Plans(), done, items, c, Append(seen, Node(m, below, Nil)), above) by {
        StepArranged(plan, Plans(), was', done, items, modules, conds, c, n, seen, m, kids, rest, below, moved, after,
          above);
      }
      StepDone(before, l, n, start, seen, m, kids, rest, above, level, below, moved, after, Prompted(), was);
      ThroughStep(items, modules, k, before, l, a, conds, c, n, from, seen, m, kids, rest, below, moved, after, above);
    }

    method FinalizeChildren(p: nat, ghost kids: Forest, ghost rest: Forest) returns (ghost children: Forest)
      requires Valid() && Around(l, n, p, kids, rest)
      requires forall i | i in [p] + Preorder(kids) + Preorder(rest) :: i !in done
      requires Parents(origin, kids, Some(p))
      modifies this
      ensures Valid() && Finished(old(l), l, n, p, kids, rest, children, Nil, rest) && TidyBelow(Prompted(), children)
      ensures CondsFinished(items, modules, old(c), c, n, p, kids, Nil)
      ensures done == old(done) + Elems(Preorder(children))
      ensures Agree(old(held), held, old(done)) && Arranged(Plans(), done, items, c, children, p)
      decreases |Preorder(kids)| + |Preorder(rest)|, 1
    {
      hide Around, Finished, CondsFinished, Walking, Through, Elems, Distinct, SpreadTop, SpreadBelow;
      hide CondsUntouched, SameEntry, Segment;
      hide Arranged, Agree, Born;
      ghost var before, conds, was := l, c, done;
      ChildrenStart(items, modules, l, c, n, p, kids, rest);
      ghost var outer := Outer(items, c, p);
      Propagate(p, kids);
      ghost var handed := c;
      ChildrenStart(items, modules, l, c, n, p, kids, rest);
      var m: Option<nat> := l.list[p];
      ghost var from, seen, todo := Nil, Nil, kids;
      ArrangedNil(Plans(), done, items, c, p);
      AgreeSelf(held, done);
      while m.Some?
        invariant Valid()
        invariant Going(this, before, handed, was, kids, before.list[p], from, seen, m, todo, p, Some(p))
        invariant Preorder(seen) + Preorder(todo) == Preorder(kids)
        invariant Parents(origin, todo, Some(p)) && Arranged(Plans(), done, items, c, seen, p)
        invariant was <= done && Agree(old(held), held, was)
        decreases |Preorder(todo)|
      {
        ghost var mark, hold := done, held;
        WalkingHead(l, n, before.list[p], seen, m, todo, p, Some(p));
        ghost var k, r, now := todo.kids, todo.rest, m.value;
        ghost var below, moved, after;
        Apart(items, modules, before, l, handed, c, n, p, Preorder(kids), from, seen, todo);
        ParentsBorn(origin, r, Some(p));
        below, moved, after := Step(m.value, before, handed, was, kids, before.list[p], from, seen, k, r, p, Some(p),
          None);
        ParentsAppend(origin, moved, after, Some(p));
        AgreeOn(old(held), hold, held, was, mark);
        from, seen, todo := Append(from, Node(now, k, moved)), Append(seen, Node(now, below, Nil)), after;
        assert Filed(l, now, p) == l;
        m := l.next[m.value];
      }
      children := seen;
      WalkingHead(l, n, before.list[p], seen, m, todo, p, Some(p));
      AppendNil(from);
      assert Untouched(before, l, n, Preorder(seen)) by {
        ThroughUntouched(items, modules, before, l, handed, c, n, from, seen);
      }
      ChildrenLinks(before, l, n, p, kids, rest, seen);
      ChildrenConds(items, modules, before, l, conds, handed, c, n, p, kids, seen, outer);
    }

    method Dependent(sym: Symbol, prompt: Option<Expr>, m: nat) returns (belongs: bool)
      requires Valid() && m < n
      ensures belongs ==> Placed(sym, prompt, EntryCond(items, c, m))
      ensures Decided(sym, prompt, EntryCond(items, c, m), belongs)
    {
      hide Decided, Placed;
      var cond := if items[m].prompt.Some? then c.props[m][items[m].prompt.value] else c.dep[m];
      belongs := BelongsUnder(sym, prompt, cond);
    }

    /** The entries after the symbol `p` that depend on it become its list. */
    method Absorb(p: nat, ghost rest: Forest) returns (ghost children: Forest, ghost moved: Forest, ghost after: Forest)
      requires Valid() && Around(l, n, p, Nil, rest) && items[p].sym.Some?
      requires forall i | i in [p] + Preorder(Nil) + Preorder(rest) :: i !in done
      requires Born(origin, rest)
      modifies this
      ensures Valid() && Finished(old(l), l, n, p, Nil, rest, children, moved, after) && TidyBelow(Prompted(), children)
      ensures CondsFinished(items, modules, old(c), c, n, p, Nil, moved)
      ensures done == old(done) + Elems(Preorder(children))
      ensures Agree(old(held), held, old(done)) && Arranged(Plans(), done, items, c, children, p)
      ensures after.Node? ==>
        Decided(items[p].sym.value, PromptCond(items, old(c), p), EntryCond(items, c, after.id), false)
      decreases |Preorder(rest)|, 1
    {
      hide Around, Finished, CondsFinished, Walking, Through, Elems, Distinct, SpreadBelow, CondsUntouched, Segment;
      hide Placed, Decided, MayHold, SameEntry, EntryCond, PromptCond, Arranged, Agree, Born, Parents;
      ghost var before, conds, was := l, c, done;
      AbsorbStart(items, modules, l, c, n, p, rest);
      ghost var start, level := l.next[p], l.parent[p];
      var prompt := PromptCond(items, c, p);
      var m: Option<nat> := l.next[p];
      var last: Option<nat> := None;
      ghost var from, seen, todo := Nil, Nil, rest;
      ArrangedNil(Plans(), done, items, c, p);
      AgreeSelf(held, done);
      while m.Some?
        invariant Valid()
        invariant Going(this, before, conds, was, rest, start, from, seen, m, todo, p, level)
        invariant Preorder(seen) + Preorder(todo) == Preorder(rest)
        invariant Born(origin, todo) && Arranged(Plans(), done, items, c, seen, p)
        invariant was <= done && Agree(old(held), held, was)
        invariant last == if seen.Nil? then None else Some(Last(seen))
        decreases |Preorder(todo)|
      {
        WalkingHead(l, n, start, seen, m, todo, p, level);
        ghost var k, r, now := todo.kids, todo.rest, m.value;
        Apart(items, modules, before, l, conds, c, n, p, Preorder(rest), from, seen, todo);
        var belongs := Dependent(items[p].sym.value, prompt, m.value);
        if !belongs {
          break;
        }
        ghost var below, gone, left, mark, hold := Nil, Nil, Nil, done, held;
        AbsorbedHold(items, conds, c, n, p, now, prompt);
        BornParts(origin, now, k, r);
        below, gone, left := Step(m.value, before, conds, was, rest, start, from, seen, k, r, p, level, Some(p));
        BornAppend(origin, gone, left);
        AgreeOn(old(held), hold, held, was, mark);
        AppendLast(seen, now, below);
        from, seen, todo := Append(from, Node(now, k, gone)), Append(seen, Node(now, below, Nil)), left;
        l := l.(parent := l.parent[m.value := Some(p)]);
        last := m;
        m := l.next[m.value];
      }
      WalkingHead(l, n, start, seen, m, todo, p, level);
      children, moved, after := seen, from, todo;
      AbsorbConds(items, modules, before, l, conds, c, n, p, rest, from, seen, todo);
      AbsorbLinks(items, modules, before, l, conds, c, n, p, rest, from, seen, m, todo);
      if last.Some? {
        l := Links(l.list[p := l.next[p]], l.next[p := l.next[last.value]][last.value := None], l.parent);
      }
    }

    /** Gives every entry of a list the parent `p` and returns the last one. */
    method Adopt(p: nat, first: nat, ghost f: Forest, ghost level: Option<nat>) returns (last: nat)
      requires Valid() && Segment(l, Some(first), f, None) && Distinct(Preorder(f)) && Parents(l, f, level)
      modifies this`l
      ensures Valid() && l.list == old(l).list && l.next == old(l).next && Parents(l, f, Some(p))
      ensures forall i | 0 <= i < n && i !in Preorder(f) :: l.parent[i] == old(l).parent[i]
      ensures f.Node? && last == Last(f) && last < n
    {
      last := first;
      ghost var before, seen, todo := l, Nil, f;
      SegmentIds(l, Some(first), f, None, n);
      l := l.(parent := l.parent[last := Some(p)]);
      AdoptStep(before, l, n, p, seen, last, todo.kids, todo.rest, level);
      while l.next[last].Some?
        invariant Valid() && l.list == before.list && l.next == before.next
        invariant todo.Node? && todo.id == last < n && Segment(before, Some(last), todo, None)
        invariant f == Append(seen, todo)
        invariant Parents(l, Append(seen, Node(last, todo.kids, Nil)), Some(p)) && Parents(l, todo.rest, level)
        invariant forall i | 0 <= i < n && i !in Preorder(f) :: l.parent[i] == before.parent[i]
        decreases todo
      {
        AppendAssociates(seen, Node(last, todo.kids, Nil), todo.rest);
        seen, todo := Append(seen, Node(last, todo.kids, Nil)), todo.rest;
        last := l.next[last].value;
        ghost var now := l;
        AppendPreorder(seen, todo);
        assert last in Preorder(f);
        l := l.(parent := l.parent[last := Some(p)]);
        AdoptStep(now, l, n, p, seen, last, todo.kids, todo.rest, level);
      }
      AppendLast(seen, last, todo.kids);
    }

    /** Lists below entries without a prompt move up, behind the entry. */
    method Flatten(p: nat, ghost kids: Forest, ghost rest: Forest) returns (ghost below: Forest)
      requires Valid() && Around(l, n, p, kids, rest) && TidyBelow(Prompted(), kids)
      requires LiftedForest(Plans(), done, kids, p)
      modifies this`l
      ensures Valid() && Finished(old(l), l, n, p, kids, rest, below, Nil, rest) && Tidy(Prompted(), below)
      ensures LiftedForest(Plans(), done, below, p)
    {
      hide Around, Finished, Walking, Segment, Parents, Distinct, Lifted;
      ghost var before := l;
      FlattenStart(l, n, p, kids, rest);
      var m: Option<nat> := l.list[p];
      ghost var seen, todo := Nil, kids;
      while m.Some?
        invariant Valid() && Walking(l, n, before.list[p], seen, m, todo, p, Some(p))
        invariant Preorder(seen) + Preorder(todo) == Preorder(kids)
        invariant Tidy(Prompted(), seen) && TidyBelow(Prompted(), todo)
        invariant LiftedForest(Plans(), done, seen, p) && LiftedForest(Plans(), done, todo, p)
        invariant Untouched(before, l, n, Preorder(kids))
        decreases |Preorder(todo)|
      {
        ghost var now := m.value;
        WalkingHead(l, n, before.list[p], seen, m, todo, p, Some(p));
        ghost var k, r := FlattenEntry(p, m.value, before, before.list[p], seen, todo.kids, todo.rest, Preorder(kids));
        WalkOn(l, n, before.list[p], seen, now, k, r, p);
        TidyAppend(Prompted(), seen, Node(now, k, Nil));
        LiftedAppend(Plans(), done, seen, Node(now, k, Nil), p);
        seen, todo := Append(seen, Node(now, k, Nil)), r;
        m := l.next[m.value];
      }
      below := seen;
      WalkingHead(l, n, before.list[p], seen, m, todo, p, Some(p));
      FlattenEnd(Preorder(seen), Preorder(todo), Preorder(kids));
      ChildrenLinks(before, l, n, p, kids, rest, seen);
    }

    method FlattenEntry(p: nat, m: nat, ghost before: Links, ghost start: Option<nat>, ghost seen: Forest,
        ghost kids: Forest, ghost rest: Forest, ghost all: seq<nat>)
      returns (ghost k: Forest, ghost r: Forest)
      requires Valid() && Walking(l, n, start, seen, Some(m), Node(m, kids, rest), p, Some(p)) && m < n
      requires Preorder(seen) + Preorder(Node(m, kids, rest)) == all && Untouched(before, l, n, all)
      requires Tidy(Prompted(), kids) && TidyBelow(Prompted(), rest)
      requires LiftedForest(Plans(), done, Node(m, kids, rest), p)
      modifies this`l
      ensures Valid() && Walking(l, n, start, seen, Some(m), Node(m, k, r), p, Some(p))
      ensures Preorder(seen) + Preorder(Node(m, k, r)) == all && Untouched(before, l, n, all)
      ensures Tidy(Prompted(), Node(m, k, Nil)) && TidyBelow(Prompted(), r)
      ensures LiftedForest(Plans(), done, Node(m, k, r), p)
    {
      hide Lifted;
      k, r := kids, rest;
      FlattenFacts(l, n, start, seen, m, kids, rest, p);
      if l.list[m].Some? && !(items[m].prompt.Some? && items[m].text) {
        ghost var now := l;
        var last := Adopt(p, l.list[m].value, kids, Some(m));
        ghost var adopted := l;
        l := Links(l.list[m := None], l.next[last := l.next[m]][m := l.list[m]], l.parent);
        FlattenStep(now, adopted, n, start, seen, m, kids, rest, p);
        FlattenUntouched(before, now, adopted, n, Preorder(seen), m, Preorder(kids), Preorder(rest), last, all);
        k, r := Nil, Append(kids, rest);
        FlattenOrder(m, kids, rest);
        LiftedUp(Plans(), done, kids, m, p);
        LiftedAppend(Plans(), done, kids, rest, p);
        TidyIsTidyBelow(Prompted(), kids);
        TidyAppend(Prompted(), kids, rest);
      }
    }
  }
}
