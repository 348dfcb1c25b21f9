/** Menu entries linked by first child, next sibling and parent. */
module MenuForest {
  import opened Expressions

  /** A list of entries with everything below them. */
  datatype Forest = Nil | Node(id: nat, kids: Forest, rest: Forest)

  /** The entries in the order in which a configuration file lists them. */
  function Preorder(f: Forest): seq<nat> {
    match f
    case Nil => []
    case Node(id, kids, rest) => [id] + Preorder(kids) + Preorder(rest)
  }

  function Append(f: Forest, g: Forest): Forest {
    match f
    case Nil => g
    case Node(id, kids, rest) => Node(id, kids, Append(rest, g))
  }

  /** The entry at the end of the topmost list. */
  function Last(f: Forest): nat
    requires f.Node?
  {
    if f.rest.Nil? then f.id else Last(f.rest)
  }

  lemma {:induction false} AppendPreorder(f: Forest, g: Forest)
    ensures Preorder(Append(f, g)) == Preorder(f) + Preorder(g)
  {
    match f
    case Nil =>
    case Node(_, _, rest) => AppendPreorder(rest, g);
  }

  lemma {:induction false} AppendAssociates(f: Forest, g: Forest, h: Forest)
    ensures Append(Append(f, g), h) == Append(f, Append(g, h))
  {
    match f
    case Nil =>
    case Node(_, _, rest) => AppendAssociates(rest, g, h);
  }

  lemma {:induction false} AppendNil(f: Forest)
    ensures Append(f, Nil) == f
  {
    match f
    case Nil =>
    case Node(_, _, rest) => AppendNil(rest);
  }

  lemma {:induction false} AppendLast(f: Forest, id: nat, kids: Forest)
    ensures Append(f, Node(id, kids, Nil)).Node? && Last(Append(f, Node(id, kids, Nil))) == id
  {
    match f
    case Nil =>
    case Node(_, _, rest) => AppendLast(rest, id, kids);
  }

  predicate Distinct(s: seq<nat>) {
    forall i, j :: 0 <= i < j < |s| ==> s[i] != s[j]
  }

  lemma DistinctParts(s: seq<nat>, t: seq<nat>)
    requires Distinct(s + t)
    ensures Distinct(s) && Distinct(t)
    ensures forall x :: x in s ==> x !in t
  {
    forall i, j | 0 <= i < j < |s| ensures s[i] != s[j] {
      assert (s + t)[i] == s[i] && (s + t)[j] == s[j];
    }
    forall i, j | 0 <= i < j < |t| ensures t[i] != t[j] {
      assert (s + t)[|s| + i] == t[i] && (s + t)[|s| + j] == t[j];
    }
    forall i, j | 0 <= i < |s| && 0 <= j < |t| ensures s[i] != t[j] {
      assert (s + t)[i] == s[i] && (s + t)[|s| + j] == t[j];
    }
  }

  // ----- representation by links -----

  datatype Links = Links(list: seq<Option<nat>>, next: seq<Option<nat>>, parent: seq<Option<nat>>) {
    predicate Sized(n: nat) {
      |list| == n && |next| == n && |parent| == n
    }
  }

  /** Following the links from `from` goes through the forest and arrives at `to`;
      the lists below end with a null link. */
  ghost predicate Segment(l: Links, from: Option<nat>, f: Forest, to: Option<nat>)
    decreases f
  {
    match f
    case Nil => from == to
    case Node(id, kids, rest) =>
      && from == Some(id) && id < |l.list| && id < |l.next|
      && Segment(l, l.list[id], kids, None)
      && Segment(l, l.next[id], rest, to)
  }

  /** The parent links of the topmost list are `above`, and those further down
      name the entry whose list holds the child. */
  ghost predicate Parents(l: Links, f: Forest, above: Option<nat>) {
    match f
    case Nil => true
    case Node(id, kids, rest) =>
      id < |l.parent| && l.parent[id] == above && Parents(l, kids, Some(id)) && Parents(l, rest, above)
  }

  /** Only prompted entries have children. */
  predicate Tidy(prompted: seq<bool>, f: Forest) {
    match f
    case Nil => true
    case Node(id, kids, rest) =>
      (kids.Node? ==> id < |prompted| && prompted[id]) && Tidy(prompted, kids) && Tidy(prompted, rest)
  }

  /** The same below the topmost list. */
  predicate TidyBelow(prompted: seq<bool>, f: Forest) {
    f.Node? ==> Tidy(prompted, f.kids) && TidyBelow(prompted, f.rest)
  }

  ghost predicate SameLinks(l: Links, m: Links, ids: seq<nat>) {
    && |l.list| == |m.list| && |l.next| == |m.next| && |l.parent| == |m.parent|
    && (forall i | i in ids && i < |l.list| :: l.list[i] == m.list[i])
    && (forall i | i in ids && i < |l.next| :: l.next[i] == m.next[i])
  }

  ghost predicate SameParents(l: Links, m: Links, ids: seq<nat>) {
    |l.parent| == |m.parent| && forall i | i in ids && i < |l.parent| :: l.parent[i] == m.parent[i]
  }

  lemma {:induction false} SegmentFrame(l: Links, m: Links, from: Option<nat>, f: Forest, to: Option<nat>)
    requires Segment(l, from, f, to) && SameLinks(l, m, Preorder(f))
    ensures Segment(m, from, f, to)
    decreases f
  {
    match f
    case Nil =>
    case Node(id, kids, rest) =>
      assert id in Preorder(f);
      SegmentFrame(l, m, l.list[id], kids, None);
      SegmentFrame(l, m, l.next[id], rest, to);
  }

  lemma {:induction false} ParentsFrame(l: Links, m: Links, f: Forest, above: Option<nat>)
    requires Parents(l, f, above) && SameParents(l, m, Preorder(f))
    ensures Parents(m, f, above)
  {
    match f
    case Nil =>
    case Node(id, kids, rest) =>
      assert id in Preorder(f);
      ParentsFrame(l, m, kids, Some(id));
      ParentsFrame(l, m, rest, above);
  }

  lemma {:induction false} SegmentAppend(l: Links, from: Option<nat>, f: Forest, mid: Option<nat>, g: Forest,
      to: Option<nat>)
    requires Segment(l, from, f, mid) && Segment(l, mid, g, to)
    ensures Segment(l, from, Append(f, g), to)
    decreases f
  {
    match f
    case Nil =>
    case Node(id, _, rest) => SegmentAppend(l, l.next[id], rest, mid, g, to);
  }

  lemma {:induction false} ParentsAppend(l: Links, f: Forest, g: Forest, above: Option<nat>)
    ensures Parents(l, Append(f, g), above) <==> Parents(l, f, above) && Parents(l, g, above)
  {
    match f
    case Nil =>
    case Node(_, _, rest) => ParentsAppend(l, rest, g, above);
  }

  lemma {:induction false} TidyAppend(prompted: seq<bool>, f: Forest, g: Forest)
    ensures Tidy(prompted, Append(f, g)) <==> Tidy(prompted, f) && Tidy(prompted, g)
    ensures TidyBelow(prompted, Append(f, g)) <==> TidyBelow(prompted, f) && TidyBelow(prompted, g)
  {
    match f
    case Nil =>
    case Node(_, _, rest) => TidyAppend(prompted, rest, g);
  }

  lemma {:induction false} TidyIsTidyBelow(prompted: seq<bool>, f: Forest)
    requires Tidy(prompted, f)
    ensures TidyBelow(prompted, f)
  {
    match f
    case Nil =>
    case Node(_, _, rest) => TidyIsTidyBelow(prompted, rest);
  }

  lemma {:induction false} SegmentIds(l: Links, from: Option<nat>, f: Forest, to: Option<nat>, n: nat)
    requires Segment(l, from, f, to) && l.Sized(n)
    ensures forall i | i in Preorder(f) :: i < n
    decreases f
  {
    match f
    case Nil =>
    case Node(id, kids, rest) =>
      SegmentIds(l, l.list[id], kids, None, n);
      SegmentIds(l, l.next[id], rest, to, n);
  }

  lemma {:induction false} LastIn(f: Forest)
    requires f.Node?
    ensures Last(f) in Preorder(f)
  {
    if f.rest.Node? { LastIn(f.rest); }
  }

  /** The link of the last entry decides where the list goes on. */
  lemma {:induction false} LastNext(l: Links, from: Option<nat>, f: Forest, to: Option<nat>)
    requires Segment(l, from, f, to) && f.Node?
    ensures Last(f) < |l.next| && l.next[Last(f)] == to
    decreases f
  {
    if f.rest.Node? { LastNext(l, l.next[f.id], f.rest, to); }
  }

  /** Changing that link changes where the list goes on. */
  lemma {:induction false} Redirect(l: Links, from: Option<nat>, f: Forest, to: Option<nat>, there: Option<nat>)
    requires Segment(l, from, f, to) && f.Node? && Distinct(Preorder(f)) && Last(f) < |l.next|
    ensures Segment(l.(next := l.next[Last(f) := there]), from, f, there)
    decreases f
  {
    var m := l.(next := l.next[Last(f) := there]);
    var id, kids, rest := f.id, f.kids, f.rest;
    DistinctParts([id] + Preorder(kids), Preorder(rest));
    DistinctParts([id], Preorder(kids));
    if rest.Node? {
      LastIn(rest);
      SegmentFrame(l, m, l.list[id], kids, None);
      Redirect(l, l.next[id], rest, to, there);
    } else {
      assert id !in Preorder(kids) by { assert id in [id]; }
      SegmentFrame(l, m, l.list[id], kids, None);
    }
  }
}
