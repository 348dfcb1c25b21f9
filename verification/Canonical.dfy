/** Equality of expressions up to the order and the grouping of operands. */
module Canonical {
  import opened Symbols
  import opened Expressions

  /** An expression in which the operands of one chain form a multiset. */
  datatype Canon =
    | CSym(sym: Symbol)
    | CCmp(rel: Relation, left: Symbol, right: Symbol)
    | CNot(arg: Canon)
    | CChain(op: Connective, operands: multiset<Canon>)

  function CanonOf(e: Expr): Canon
    decreases Size(e), 1
  {
    match e
    case Sym(s) => CSym(s)
    case Cmp(rel, s, t) => CCmp(rel, s, t)
    case Not(x) => CNot(CanonOf(x))
    case Bin(c, _, _) => CChain(c, OperandsOf(c, e))
  }

  function OperandsOf(c: Connective, e: Expr): multiset<Canon>
    decreases Size(e), if e.IsBin(c) then 0 else 2
  {
    if e.IsBin(c) then OperandsOf(c, e.l) + OperandsOf(c, e.r) else multiset{CanonOf(e)}
  }

  /** No operand of a connective is `y` or `n`. */
  predicate Clean(e: Expr) {
    match e
    case Sym(_) => true
    case Cmp(_, _, _) => true
    case Not(x) => Clean(x)
    case Bin(_, x, y) => !x.IsYn() && !y.IsYn() && Clean(x) && Clean(y)
  }

  /** The operands other than the neutral one. */
  function Residue(c: Connective, e: Expr): multiset<Canon> {
    if e.IsBin(c) then Residue(c, e.l) + Residue(c, e.r)
    else if e == Sym(c.Unit()) then multiset{}
    else multiset{CanonOf(e)}
  }

  /** A clean chain in which some operands have been replaced by the neutral one. */
  predicate Partial(c: Connective, e: Expr) {
    if e.IsBin(c) then Partial(c, e.l) && Partial(c, e.r) else e == Sym(c.Unit()) || (Clean(e) && !e.IsYn())
  }

  lemma {:induction false} CleanPartial(c: Connective, e: Expr)
    requires Clean(e) && !e.IsYn()
    ensures Partial(c, e) && Residue(c, e) == OperandsOf(c, e)
  {
    if e.IsBin(c) {
      CleanPartial(c, e.l);
      CleanPartial(c, e.r);
    }
  }

  lemma {:induction false} CleanFixed(e: Expr)
    requires Clean(e)
    ensures EliminateYn(e) == e
  {
    if e.Bin? {
      CleanFixed(e.l);
      CleanFixed(e.r);
    }
  }

  /** Dropping the neutral operands leaves the others. */
  lemma {:induction false} EliminateResidue(c: Connective, e: Expr)
    requires Partial(c, e)
    ensures var r := EliminateYn(e);
      Partial(c, r) && Residue(c, r) == Residue(c, e) && (Residue(c, e) == multiset{} <==> r == Sym(c.Unit()))
  {
    if e.IsBin(c) {
      EliminateResidue(c, e.l);
      EliminateResidue(c, e.r);
      PartialNotAbsorbing(c, EliminateYn(e.l));
      PartialNotAbsorbing(c, EliminateYn(e.r));
    } else if e != Sym(c.Unit()) {
      CleanFixed(e);
    }
  }

  lemma PartialNotAbsorbing(c: Connective, e: Expr)
    requires Partial(c, e)
    ensures e != Sym(c.Dual().Unit())
  {
  }

  lemma MinusTwice<T>(a: multiset<T>, b: multiset<T>, e: multiset<T>)
    ensures (a - e) + (b - (e - a)) == (a + b) - e
    ensures (e - a) - b == e - (a + b)
  {
  }

  /** What cancels from two chains is what they have in common. */
  lemma {:induction false} CancelResidues(c: Connective, e1: Expr, e2: Expr)
    requires Partial(c, e1) && Partial(c, e2)
    ensures var r := Cancel(c, e1, e2);
      && Partial(c, r.0) && Residue(c, r.0) == Residue(c, e1) - Residue(c, e2)
      && Partial(c, r.1) && Residue(c, r.1) == Residue(c, e2) - Residue(c, e1)
    decreases Size(e1) + Size(e2), if e1.IsBin(c) || e2.IsBin(c) then 0 else 3
  {
    hide Cancel, Partial, Residue;
    if e1.IsBin(c) {
      CancelDownLeft(c, e1, e2);
      var a := Cancel(c, e1.l, e2);
      CancelResidues(c, e1.l, e2);
      CancelResidues(c, e1.r, a.1);
      MinusTwice(Residue(c, e1.l), Residue(c, e1.r), Residue(c, e2));
      ResidueBin(c, e1.l, e1.r);
      ResidueBin(c, a.0, Cancel(c, e1.r, a.1).0);
    } else if e2.IsBin(c) {
      CancelDownRight(c, e1, e2);
      var a := Cancel(c, e1, e2.l);
      CancelResidues(c, e1, e2.l);
      CancelResidues(c, a.0, e2.r);
      MinusTwice(Residue(c, e2.l), Residue(c, e2.r), Residue(c, e1));
      ResidueBin(c, e2.l, e2.r);
      ResidueBin(c, a.1, Cancel(c, a.0, e2.r).1);
    } else {
      CancelPair(c, e1, e2);
      if e1 != Sym(c.Unit()) && e2 != Sym(c.Unit()) { ExprEqExact(e1, e2); }
      ResiduePair(c, e1, e2);
    }
  }

  lemma ResidueBin(c: Connective, x: Expr, y: Expr)
    ensures Residue(c, Bin(c, x, y)) == Residue(c, x) + Residue(c, y)
  {
  }

  lemma ResiduePair(c: Connective, e1: Expr, e2: Expr)
    requires !e1.IsBin(c) && !e2.IsBin(c)
    ensures var u := Sym(c.Unit());
      var same := e1 != u && e2 != u && CanonOf(e1) == CanonOf(e2);
      && Residue(c, u) == multiset{}
      && Residue(c, e1) - Residue(c, e2) == (if same then multiset{} else Residue(c, e1))
      && Residue(c, e2) - Residue(c, e1) == (if same then multiset{} else Residue(c, e2))
  {
    hide CanonOf;
    var u := Sym(c.Unit());
    var a, b := One(e1 != u, CanonOf(e1)), One(e2 != u, CanonOf(e2));
    assert Residue(c, e1) == a && Residue(c, e2) == b;
    OneMinus(e1 != u, CanonOf(e1), e2 != u, CanonOf(e2));
  }

  ghost function One(present: bool, x: Canon): multiset<Canon> {
    if present then multiset{x} else multiset{}
  }

  lemma OneMinus(p: bool, x: Canon, q: bool, y: Canon)
    ensures One(p, x) - One(q, y) == if p && q && x == y then multiset{} else One(p, x)
    ensures One(q, y) - One(p, x) == if p && q && x == y then multiset{} else One(q, y)
  {
    if p && q && x != y {
      assert (multiset{x} - multiset{y})[x] == 1;
      assert (multiset{y} - multiset{x})[y] == 1;
    }
  }

  lemma CancelDownLeft(c: Connective, e1: Expr, e2: Expr)
    requires Partial(c, e1) && e1.IsBin(c)
    ensures Partial(c, e1.l) && Partial(c, e1.r)
    ensures var a := Cancel(c, e1.l, e2);
      var b := Cancel(c, e1.r, a.1);
      && Cancel(c, e1, e2) == (Bin(c, a.0, b.0), b.1)
      && (Partial(c, a.0) && Partial(c, b.0) ==> Partial(c, Bin(c, a.0, b.0)))
  {
    hide ExprEq;
  }

  lemma CancelDownRight(c: Connective, e1: Expr, e2: Expr)
    requires Partial(c, e2) && !e1.IsBin(c) && e2.IsBin(c)
    ensures Partial(c, e2.l) && Partial(c, e2.r)
    ensures var a := Cancel(c, e1, e2.l);
      var b := Cancel(c, a.0, e2.r);
      && Cancel(c, e1, e2) == (b.0, Bin(c, a.1, b.1))
      && (Partial(c, a.1) && Partial(c, b.1) ==> Partial(c, Bin(c, a.1, b.1)))
  {
    hide ExprEq;
  }

  lemma CancelPair(c: Connective, e1: Expr, e2: Expr)
    requires Partial(c, e1) && Partial(c, e2) && !e1.IsBin(c) && !e2.IsBin(c)
    ensures var u := Sym(c.Unit());
      && Cancel(c, e1, e2) == (if e1 != u && e2 != u && ExprEq(e1, e2) then (u, u) else (e1, e2))
      && Partial(c, u) && (e1 == u || Clean(e1)) && (e2 == u || Clean(e2))
  {
  }

  lemma ChainsEqual(c: Connective, e1: Expr, e2: Expr)
    requires e1.IsBin(c) && e2.IsBin(c)
    ensures var a := Cancel(c, e1, e2);
      ExprEq(e1, e2) <==>
        EliminateYn(a.0).Sym? && EliminateYn(a.1).Sym? && EliminateYn(a.0).sym == EliminateYn(a.1).sym
  {
    hide Cancel;
    var a := Cancel(c, e1, e2);
    assert SameType(a.0, a.1);
    assert EliminateEq(e1, e2) == (EliminateYn(a.0), EliminateYn(a.1));
  }

  /** `expr_eq` is equality up to order and grouping, for expressions without literal
      operands. */
  lemma {:induction false} ExprEqExact(e1: Expr, e2: Expr)
    requires Clean(e1) && Clean(e2)
    ensures ExprEq(e1, e2) <==> CanonOf(e1) == CanonOf(e2)
    decreases Size(e1) + Size(e2), 2
  {
    if SameType(e1, e2) {
      match e1
      case Not(x) => ExprEqExact(x, e2.arg);
      case Bin(c, _, _) =>
        var a := Cancel(c, e1, e2);
        CleanPartial(c, e1);
        CleanPartial(c, e2);
        CancelResidues(c, e1, e2);
        ChainsEqual(c, e1, e2);
        EliminateResidue(c, a.0);
        EliminateResidue(c, a.1);
        hide Cancel, EliminateYn, ExprEq;
        ResiduesEqual(c, EliminateYn(a.0), EliminateYn(a.1), OperandsOf(c, e1), OperandsOf(c, e2));
      case _ =>
    }
  }

  lemma ResiduesEqual(c: Connective, r1: Expr, r2: Expr, a: multiset<Canon>, b: multiset<Canon>)
    requires Residue(c, r1) == a - b && (Residue(c, r1) == multiset{} <==> r1 == Sym(c.Unit()))
    requires Residue(c, r2) == b - a && (Residue(c, r2) == multiset{} <==> r2 == Sym(c.Unit()))
    ensures r1.Sym? && r2.Sym? && r1.sym == r2.sym <==> a == b
  {
    if a == b {
      assert a - b == multiset{} && b - a == multiset{};
    } else if r1 == r2 {
      MutualParts(a, b);
    }
  }

  lemma MutualParts<T>(a: multiset<T>, b: multiset<T>)
    requires a - b == b - a
    ensures a == b
  {
    forall x | x in a || x in b ensures a[x] == b[x] {
      assert (a - b)[x] == (b - a)[x];
    }
  }

  /** The second residue of two chains is `y` exactly when all operands of the second
      are among those of the first, as often. */
  lemma ResidueExact(e1: Expr, e2: Expr)
    requires Clean(e1) && Clean(e2) && e1.IsBin(Conj) && !e2.IsBin(Disj) && !e2.IsYn()
    ensures EliminateEq(e1, e2).1 == Sym(SymYes) <==> OperandsOf(Conj, e2) <= OperandsOf(Conj, e1)
  {
    CleanPartial(Conj, e1);
    CleanPartial(Conj, e2);
    CancelResidues(Conj, e1, e2);
    var a := Cancel(Conj, e1, e2);
    EliminateResidue(Conj, a.1);
    OneRound(e1, e2);
    hide Cancel, EliminateYn, EliminateEq;
    var x, y := OperandsOf(Conj, e1), OperandsOf(Conj, e2);
    if y <= x {
      assert y - x == multiset{};
    } else {
      var o :| y[o] > x[o];
      assert o in y - x;
    }
  }

  lemma {:induction false} LeafStaysOrUnit(c: Connective, e1: Expr, e2: Expr)
    requires !e2.IsBin(c)
    ensures var r := Cancel(c, e1, e2).1; r == e2 || r == Sym(c.Unit())
    decreases e1
  {
    if e1.IsBin(c) {
      LeafStaysOrUnit(c, e1.l, e2);
      LeafStaysOrUnit(c, e1.r, Cancel(c, e1.l, e2).1);
    }
  }

  lemma OneRound(e1: Expr, e2: Expr)
    requires e1.IsBin(Conj) && !e2.IsBin(Disj)
    ensures EliminateEq(e1, e2).1 == EliminateYn(Cancel(Conj, e1, e2).1)
  {
    if !e2.IsBin(Conj) { LeafStaysOrUnit(Conj, e1, e2); }
    hide Cancel;
    var a := Cancel(Conj, e1, e2);
    assert a.0.IsBin(Conj);
    assert SameType(a.0, a.1) || !a.1.Bin?;
  }

  /** It is not enough that every operand of one equals some operand of the other:
      `A && A && B` and `A && B && B` do not compare equal. */
  lemma CountsMatter(a: Symbol, b: Symbol)
    requires a.Config? && b.Config? && a != b
    ensures var e1, e2 := Bin(Conj, Bin(Conj, Sym(a), Sym(a)), Sym(b)), Bin(Conj, Bin(Conj, Sym(a), Sym(b)), Sym(b));
      && (forall x :: x in OperandsOf(Conj, e1) <==> x in OperandsOf(Conj, e2))
      && !ExprEq(e1, e2)
  {
    var e1, e2 := Bin(Conj, Bin(Conj, Sym(a), Sym(a)), Sym(b)), Bin(Conj, Bin(Conj, Sym(a), Sym(b)), Sym(b));
    CleanThree(a, a, b);
    CleanThree(a, b, b);
    ExprEqExact(e1, e2);
    hide ExprEq;
    var x, y := CSym(a), CSym(b);
    ThreeOperands(a, a, b);
    ThreeOperands(a, b, b);
    hide OperandsOf;
    assert (multiset{x} + multiset{x} + multiset{y})[x] == 2;
    assert (multiset{x} + multiset{y} + multiset{y})[x] == 1;
  }

  lemma CleanPair(x: Expr, y: Expr)
    requires Clean(x) && Clean(y) && !x.IsYn() && !y.IsYn()
    ensures Clean(Bin(Conj, x, y))
  {
  }

  lemma CleanThree(a: Symbol, b: Symbol, c: Symbol)
    requires a.Config? && b.Config? && c.Config?
    ensures Clean(Bin(Conj, Bin(Conj, Sym(a), Sym(b)), Sym(c)))
  {
    CleanPair(Sym(a), Sym(b));
    CleanPair(Bin(Conj, Sym(a), Sym(b)), Sym(c));
  }

  lemma ThreeOperands(a: Symbol, b: Symbol, c: Symbol)
    ensures OperandsOf(Conj, Bin(Conj, Bin(Conj, Sym(a), Sym(b)), Sym(c)))
         == multiset{CSym(a)} + multiset{CSym(b)} + multiset{CSym(c)}
  {
    hide OperandsOf;
    OperandsBin(Bin(Conj, Sym(a), Sym(b)), Sym(c));
    OperandsBin(Sym(a), Sym(b));
    OperandsLeaf(a);
    OperandsLeaf(b);
    OperandsLeaf(c);
  }

  lemma OperandsBin(x: Expr, y: Expr)
    ensures OperandsOf(Conj, Bin(Conj, x, y)) == OperandsOf(Conj, x) + OperandsOf(Conj, y)
  {
  }

  lemma OperandsLeaf(a: Symbol)
    ensures OperandsOf(Conj, Sym(a)) == multiset{CSym(a)}
  {
  }
}
