/** The walk over the menu tree that writes a configuration file: it keeps no
    stack and finds its way back through the parent links. */
module MenuWalk {
  import opened Expressions
  import opened MenuForest
  import Menus

  /** An entry is reached, or it is left after everything below it. */
  datatype Event = Open(id: nat) | Close(id: nat)

  function Brackets(f: Forest): seq<Event> {
    match f
    case Nil => []
    case Node(id, kids, rest) => [Open(id)] + Brackets(kids) + [Close(id)] + Brackets(rest)
  }

  function Opened(s: seq<Event>): seq<nat> {
    if s == [] then [] else (if s[0].Open? then [s[0].id] else []) + Opened(s[1..])
  }

  lemma {:induction false} OpenedConcat(s: seq<Event>, t: seq<Event>)
    ensures Opened(s + t) == Opened(s) + Opened(t)
  {
    if s == [] {
      assert s + t == t;
    } else {
      assert (s + t)[0] == s[0] && (s + t)[1..] == s[1..] + t;
      OpenedConcat(s[1..], t);
    }
  }

  /** The entries are reached in preorder. */
  lemma {:induction false} BracketsOpened(f: Forest)
    ensures Opened(Brackets(f)) == Preorder(f)
  {
    match f
    case Nil =>
    case Node(id, kids, rest) =>
      BracketsOpened(kids);
      BracketsOpened(rest);
      OpenedConcat([Open(id)] + Brackets(kids) + [Close(id)], Brackets(rest));
      OpenedConcat([Open(id)] + Brackets(kids), [Close(id)]);
      OpenedConcat([Open(id)], Brackets(kids));
      assert [Open(id)][1..] == [] && [Close(id)][1..] == [];
      assert Opened([Open(id)]) == [id] && Opened([Close(id)]) == [];
  }

  /** What is left to do once a list is finished: at the top the root is left;
      otherwise the entry that holds the list is left, and its siblings follow. */
  datatype Context = Top(root: nat) | Within(id: nat, rest: Forest, up: Context) {
    function Owner(): nat {
      if Top? then root else id
    }

    function Events(): seq<Event> {
      match this
      case Top(root) => [Close(root)]
      case Within(id, rest, up) => [Close(id)] + Brackets(rest) + up.Events()
    }

    ghost predicate Fits(l: Links, n: nat)
      requires l.Sized(n)
    {
      match this
      case Top(root) => root < n && l.next[root] == None && l.parent[root] == None
      case Within(id, rest, up) =>
        && id < n && Segment(l, l.next[id], rest, None)
        && l.parent[id] == Some(up.Owner()) && Parents(l, rest, Some(up.Owner()))
        && up.Fits(l, n)
    }
  }

  lemma CloseStep(e: seq<Event>, c: Event, rest: seq<Event>, up: seq<Event>)
    ensures (e + [c]) + rest + up == e + ([c] + rest + up)
    ensures rest == [] ==> (e + [c]) + up == e + ([c] + rest + up)
  {
  }

  lemma OpenStep(e: seq<Event>, o: Event, kids: seq<Event>, c: Event, rest: seq<Event>, up: seq<Event>)
    ensures e + ([o] + kids + [c] + rest) + up == (e + [o]) + kids + ([c] + rest + up)
    ensures kids == [] ==> e + ([o] + kids + [c] + rest) + up == (e + [o]) + ([c] + rest + up)
  {
  }

  class Walker {
    const n: nat
    const l: Links
    var events: seq<Event>

    constructor (l: Links)
      requires |l.list| == |l.next| == |l.parent|
      ensures this.l == l && n == |l.list| && events == []
    {
      this.l, n, events := l, |l.list|, [];
    }

    /** Leaves entries until one has a sibling that follows. */
    method Climb(from: nat, ghost pending: Context) returns (m: Option<nat>, ghost node: Forest, ghost context: Context)
      requires l.Sized(n) && pending.Fits(l, n) && from == pending.Owner()
      modifies this`events
      ensures m.None? ==> events == old(events) + pending.Events()
      ensures m.Some? ==>
        && node.Node? && Segment(l, m, node, None) && Parents(l, node, Some(context.Owner())) && context.Fits(l, n)
        && events + Brackets(node) + context.Events() == old(events) + pending.Events()
        && |Brackets(node) + context.Events()| < |pending.Events()|
    {
      var menu := from;
      ghost var ahead := pending;
      while true
        invariant ahead.Fits(l, n) && menu == ahead.Owner() < n
        invariant events + ahead.Events() == old(events) + pending.Events()
        invariant |ahead.Events()| <= |pending.Events()|
        decreases ahead
      {
        CloseStep(events, Close(menu),
          if ahead.Top? then [] else Brackets(ahead.rest), if ahead.Top? then [] else ahead.up.Events());
        events := events + [Close(menu)];
        if l.next[menu].Some? {
          m, node, context := l.next[menu], ahead.rest, ahead.up;
          return;
        }
        if l.parent[menu].None? {
          m, node, context := None, Nil, ahead;
          return;
        }
        assert ahead.rest == Nil;
        menu, ahead := l.parent[menu].value, ahead.up;
      }
    }

    /** Every entry of the tree is reached once, in order, and left when all that
        is below it has been reached and left. */
    method Walk(root: nat, ghost f: Forest)
      requires l.Sized(n) && root < n && events == []
      requires Segment(l, l.list[root], f, None) && Parents(l, f, Some(root)) && l.next[root] == None
      requires l.parent[root] == None
      modifies this`events
      ensures f == Nil ==> events == []
      ensures f != Nil ==> events == Brackets(f) + [Close(root)]
      ensures Opened(events) == Preorder(f)
    {
      var m: Option<nat> := l.list[root];
      ghost var node, context := f, Top(root);
      ghost var all := Brackets(f) + [Close(root)];
      while m.Some?
        invariant m.Some? ==>
          node.Node? && Segment(l, m, node, None) && Parents(l, node, Some(context.Owner())) && context.Fits(l, n)
        invariant m.Some? ==> events + Brackets(node) + context.Events() == all
        invariant m.None? ==> events == if f == Nil then [] else all
        invariant m.Some? ==> f != Nil
        decreases if m.Some? then 1 + |Brackets(node) + context.Events()| else 0
      {
        OpenStep(events, Open(m.value), Brackets(node.kids), Close(m.value), Brackets(node.rest), context.Events());
        events := events + [Open(m.value)];
        ghost var inner := Within(m.value, node.rest, context);
        if l.list[m.value].Some? {
          m, node, context := l.list[m.value], node.kids, inner;
        } else {
          m, node, context := Climb(m.value, inner);
        }
      }
      BracketsOpened(f);
      OpenedConcat(Brackets(f), [Close(root)]);
      assert [Close(root)][1..] == [];
    }
  }

  /** However the menu pass rearranges the tree, the walk over it reaches every
      entry once, in the order in which the entries were read. */
  method FinalizeAndWalk(t: Menus.Tree, root: nat, ghost kids: Forest) returns (events: seq<Event>)
    requires t.Valid() && Menus.Around(t.l, t.n, root, kids, Nil) && t.done == {} && t.origin == t.l
    requires t.l.parent[root] == None
    modifies t
    ensures Opened(events) == Preorder(kids)
  {
    ghost var below := t.FinalizeAll(root, kids);
    var walker := new Walker(t.l);
    walker.Walk(root, below);
    events := walker.events;
  }
}
