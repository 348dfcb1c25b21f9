/** Which entry holds which: an entry is held by the entry whose list it was read
    into, or by the one that took it over, and lists below entries without a
    prompt are lifted to the next holder. */
module Holders {
  import opened Expressions
  import opened MenuForest

  /** `origin` names the first holders and `held` the entries taken over. */
  datatype Plan = Plan(origin: seq<Option<nat>>, held: map<nat, nat>, prompted: seq<bool>)

  function Holder(pl: Plan, i: nat): Option<nat> {
    if i in pl.held then Some(pl.held[i]) else if i < |pl.origin| then pl.origin[i] else None
  }

  predicate Shown(pl: Plan, i: nat) {
    i < |pl.prompted| && pl.prompted[i]
  }

  /** From holder to holder, through entries without a prompt. */
  ghost predicate Lifts(pl: Plan, within: set<nat>, ch: seq<nat>) {
    && |ch| >= 2
    && (forall j | 0 <= j < |ch| - 1 :: ch[j] in within && Holder(pl, ch[j]) == Some(ch[j + 1]))
    && (forall j | 0 < j < |ch| - 1 :: !Shown(pl, ch[j]))
  }

  ghost predicate Lifted(pl: Plan, within: set<nat>, i: nat, q: nat) {
    exists ch :: Lifts(pl, within, ch) && ch[0] == i && ch[|ch| - 1] == q
  }

  /** Every entry of the forest is in the list that it was lifted to. */
  ghost predicate LiftedForest(pl: Plan, within: set<nat>, f: Forest, q: nat)
    decreases f
  {
    match f
    case Nil => true
    case Node(id, kids, rest) =>
      Lifted(pl, within, id, q) && LiftedForest(pl, within, kids, id) && LiftedForest(pl, within, rest, q)
  }

  lemma LiftedDirect(pl: Plan, within: set<nat>, i: nat, q: nat)
    requires Holder(pl, i) == Some(q) && i in within
    ensures Lifted(pl, within, i, q)
  {
    assert Lifts(pl, within, [i, q]);
  }

  lemma LiftedTwice(pl: Plan, within: set<nat>, i: nat, m: nat, q: nat)
    requires Lifted(pl, within, i, m) && !Shown(pl, m) && Lifted(pl, within, m, q)
    ensures Lifted(pl, within, i, q)
  {
    var a :| Lifts(pl, within, a) && a[0] == i && a[|a| - 1] == m;
    var b :| Lifts(pl, within, b) && b[0] == m && b[|b| - 1] == q;
    var ch := a + b[1..];
    hide Holder, Shown;
    assert forall j | 0 <= j < |a| :: ch[j] == a[j];
    assert forall j | |a| - 1 <= j < |ch| :: ch[j] == b[j - (|a| - 1)];
    forall j | 0 <= j < |ch| - 1
      ensures ch[j] in within && Holder(pl, ch[j]) == Some(ch[j + 1]) && (j > 0 ==> !Shown(pl, ch[j]))
    {
      if j < |a| - 1 {
        assert ch[j] == a[j] && ch[j + 1] == a[j + 1];
      } else {
        var k := j - (|a| - 1);
        assert ch[j] == b[k] && ch[j + 1] == b[k + 1];
      }
    }
  }

  /** `held` is the same for the entries in `within`. */
  ghost predicate Agree(held: map<nat, nat>, later: map<nat, nat>, within: set<nat>) {
    forall i | i in within :: (i in held <==> i in later) && (i in held ==> held[i] == later[i])
  }

  lemma LiftedLater(pl: Plan, later: Plan, within: set<nat>, more: set<nat>, i: nat, q: nat)
    requires Lifted(pl, within, i, q) && within <= more
    requires later.origin == pl.origin && later.prompted == pl.prompted && Agree(pl.held, later.held, within)
    ensures Lifted(later, more, i, q)
  {
    var ch :| Lifts(pl, within, ch) && ch[0] == i && ch[|ch| - 1] == q;
    assert Lifts(later, more, ch);
  }

  lemma {:induction false} LiftedForestLater(pl: Plan, later: Plan, within: set<nat>, more: set<nat>, f: Forest, q: nat)
    requires LiftedForest(pl, within, f, q) && within <= more
    requires later.origin == pl.origin && later.prompted == pl.prompted && Agree(pl.held, later.held, within)
    ensures LiftedForest(later, more, f, q)
    decreases f
  {
    hide Lifted, Agree;
    match f
    case Nil =>
    case Node(id, kids, rest) =>
      LiftedLater(pl, later, within, more, id, q);
      LiftedForestLater(pl, later, within, more, kids, id);
      LiftedForestLater(pl, later, within, more, rest, q);
  }

  lemma {:induction false} LiftedAppend(pl: Plan, within: set<nat>, f: Forest, g: Forest, q: nat)
    ensures LiftedForest(pl, within, Append(f, g), q) <==>
      LiftedForest(pl, within, f, q) && LiftedForest(pl, within, g, q)
    decreases f
  {
    hide Lifted;
    match f
    case Nil =>
    case Node(_, _, rest) => LiftedAppend(pl, within, rest, g, q);
  }

  /** The list of an entry without a prompt goes to where the entry is. */
  lemma {:induction false} LiftedUp(pl: Plan, within: set<nat>, f: Forest, m: nat, q: nat)
    requires LiftedForest(pl, within, f, m) && !Shown(pl, m) && Lifted(pl, within, m, q)
    ensures LiftedForest(pl, within, f, q)
    decreases f
  {
    hide Lifted, Shown;
    match f
    case Nil =>
    case Node(id, _, rest) =>
      LiftedTwice(pl, within, id, m, q);
      LiftedUp(pl, within, rest, m, q);
  }

  /** Below the topmost list, every entry was read into the list it is in. */
  ghost predicate Born(origin: Links, f: Forest) {
    match f
    case Nil => true
    case Node(id, kids, rest) => Parents(origin, kids, Some(id)) && Born(origin, rest)
  }

  lemma {:induction false} ParentsBorn(origin: Links, f: Forest, above: Option<nat>)
    requires Parents(origin, f, above)
    ensures Born(origin, f)
  {
    match f
    case Nil =>
    case Node(_, _, rest) => ParentsBorn(origin, rest, above);
  }

  lemma {:induction false} BornAppend(origin: Links, f: Forest, g: Forest)
    ensures Born(origin, Append(f, g)) <==> Born(origin, f) && Born(origin, g)
  {
    match f
    case Nil =>
    case Node(_, _, rest) => BornAppend(origin, rest, g);
  }
}
