/** Removal of redundant operands, in place, through two cursors into one tree. */
module Duplicates {
  import opened Symbols
  import opened Expressions
  import opened Transform
  import opened Joins

  // ----- slots -----

  /** A slot of a tree: the way down from the root through connectives,
      `false` for the left operand. Two cursors are the same slot exactly
      when they are the same path. */
  type Path = seq<bool>

  function Child(e: Expr, right: bool): Expr
    requires e.Bin?
  {
    if right then e.r else e.l
  }

  predicate Valid(e: Expr, p: Path) {
    p == [] || (e.Bin? && Valid(Child(e, p[0]), p[1..]))
  }

  function At(e: Expr, p: Path): Expr
    requires Valid(e, p)
  {
    if p == [] then e else At(Child(e, p[0]), p[1..])
  }

  function Replace(e: Expr, p: Path, x: Expr): Expr
    requires Valid(e, p)
  {
    if p == [] then x
    else if p[0] then Bin(e.op, e.l, Replace(e.r, p[1..], x))
    else Bin(e.op, Replace(e.l, p[1..], x), e.r)
  }

  lemma {:induction false} AtReplace(e: Expr, p: Path, x: Expr)
    requires Valid(e, p)
    ensures Valid(Replace(e, p, x), p) && At(Replace(e, p, x), p) == x
    ensures Replace(e, p, At(e, p)) == e
    ensures forall y: Expr :: Replace(Replace(e, p, x), p, y) == Replace(e, p, y)
    ensures Size(Replace(e, p, x)) == Size(e) - Size(At(e, p)) + Size(x)
  {
    if p != [] {
      AtReplace(Child(e, p[0]), p[1..], x);
    }
  }

  lemma {:induction false} Concatenated(e: Expr, p: Path, q: Path, x: Expr)
    requires Valid(e, p) && Valid(At(e, p), q)
    ensures Valid(e, p + q) && At(e, p + q) == At(At(e, p), q)
    ensures Replace(e, p + q, x) == Replace(e, p, Replace(At(e, p), q, x))
  {
    if p == [] {
      assert p + q == q;
    } else {
      assert (p + q)[1..] == p[1..] + q;
      Concatenated(Child(e, p[0]), p[1..], q, x);
    }
  }

  // ----- the operands of one connective -----

  /** The path goes down through `c` only. */
  predicate OnSpine(c: Connective, e: Expr, p: Path) {
    p == [] || (e.IsBin(c) && OnSpine(c, Child(e, p[0]), p[1..]))
  }

  lemma {:induction false} SpineValid(c: Connective, e: Expr, p: Path)
    requires OnSpine(c, e, p)
    ensures Valid(e, p)
  {
    if p != [] {
      SpineValid(c, Child(e, p[0]), p[1..]);
    }
  }

  /** The slot of an operand of `c`. */
  predicate Operand(c: Connective, e: Expr, p: Path) {
    OnSpine(c, e, p) && Valid(e, p) && !At(e, p).IsBin(c)
  }

  function SpineSize(c: Connective, e: Expr): nat {
    if e.IsBin(c) then 1 + SpineSize(c, e.l) + SpineSize(c, e.r) else 0
  }

  /** The two trees have their operands of `c` in the same slots. */
  predicate SameSpine(c: Connective, e: Expr, f: Expr) {
    if e.IsBin(c) then f.IsBin(c) && SameSpine(c, e.l, f.l) && SameSpine(c, e.r, f.r)
    else !f.IsBin(c)
  }

  lemma {:induction false} SameSpineAt(c: Connective, e: Expr, f: Expr, p: Path)
    requires SameSpine(c, e, f) && OnSpine(c, e, p)
    ensures OnSpine(c, f, p) && Valid(e, p) && Valid(f, p)
    ensures SameSpine(c, At(e, p), At(f, p))
  {
    if p != [] {
      SameSpineAt(c, Child(e, p[0]), Child(f, p[0]), p[1..]);
    }
  }

  lemma {:induction false} SameSpineSize(c: Connective, e: Expr, f: Expr)
    requires SameSpine(c, e, f)
    ensures SpineSize(c, e) == SpineSize(c, f)
  {
    if e.IsBin(c) {
      SameSpineSize(c, e.l, f.l);
      SameSpineSize(c, e.r, f.r);
    }
  }

  lemma {:induction false} SameSpineTransitive(c: Connective, e: Expr, f: Expr, g: Expr)
    requires SameSpine(c, e, f) && SameSpine(c, f, g)
    ensures SameSpine(c, e, g)
  {
    if e.IsBin(c) {
      SameSpineTransitive(c, e.l, f.l, g.l);
      SameSpineTransitive(c, e.r, f.r, g.r);
    }
  }

  lemma {:induction false} SameSpineReflexive(c: Connective, e: Expr)
    ensures SameSpine(c, e, e)
  {
    if e.IsBin(c) {
      SameSpineReflexive(c, e.l);
      SameSpineReflexive(c, e.r);
    }
  }

  lemma {:induction false} ReplaceOperand(c: Connective, e: Expr, p: Path, x: Expr)
    requires Operand(c, e, p) && !x.IsBin(c)
    ensures SameSpine(c, e, Replace(e, p, x))
    ensures NamesOnly(e) && NamesOnly(x) ==> NamesOnly(Replace(e, p, x))
  {
    if p != [] {
      ReplaceOperand(c, Child(e, p[0]), p[1..], x);
      SameSpineReflexive(c, e.l);
      SameSpineReflexive(c, e.r);
    }
  }

  lemma {:induction false} NamesOnlyAt(e: Expr, p: Path)
    requires Valid(e, p) && NamesOnly(e)
    ensures NamesOnly(At(e, p))
  {
    if p != [] {
      NamesOnlyAt(Child(e, p[0]), p[1..]);
    }
  }

  /** Replacing one operand leaves the others in place. */
  lemma {:induction false} OtherOperand(c: Connective, e: Expr, p: Path, q: Path, x: Expr)
    requires Operand(c, e, p) && Operand(c, e, q) && p != q && !x.IsBin(c)
    ensures Operand(c, Replace(e, p, x), q) && At(Replace(e, p, x), q) == At(e, q)
  {
    if p != [] && q != [] && p[0] == q[0] {
      OtherOperand(c, Child(e, p[0]), p[1..], q[1..], x);
    }
  }

  lemma {:induction false} ReplaceCommutes(c: Connective, e: Expr, p: Path, q: Path, x: Expr, y: Expr)
    requires Operand(c, e, p) && Operand(c, e, q) && p != q && !x.IsBin(c) && !y.IsBin(c)
    ensures Operand(c, Replace(e, p, x), q) && Operand(c, Replace(e, q, y), p)
    ensures Replace(Replace(e, p, x), q, y) == Replace(Replace(e, q, y), p, x)
  {
    OtherOperand(c, e, p, q, x);
    OtherOperand(c, e, q, p, y);
    if p != [] && q != [] && p[0] == q[0] {
      ReplaceCommutes(c, Child(e, p[0]), p[1..], q[1..], x, y);
    }
  }

  /** The value of a spine is any one operand combined with all the others. */
  lemma {:induction false} OperandFactors(c: Connective, e: Expr, p: Path, x: Expr, env: Env)
    requires Grounded(env) && OnSpine(c, e, p) && Valid(e, p)
    ensures Eval(Replace(e, p, x), env) == c.Apply(Eval(Replace(e, p, Sym(c.Unit())), env), Eval(x, env))
  {
    if p != [] {
      var u := Sym(c.Unit());
      OperandFactors(c, Child(e, p[0]), p[1..], x, env);
      Swap(c, Eval(Replace(Child(e, p[0]), p[1..], u), env), Eval(Child(e, !p[0]), env), Eval(x, env));
    }
  }

  lemma Swap(c: Connective, a: Tri, b: Tri, x: Tri)
    ensures c.Apply(c.Apply(a, x), b) == c.Apply(c.Apply(a, b), x)
    ensures c.Apply(b, c.Apply(a, x)) == c.Apply(c.Apply(b, a), x)
  {
  }

  /** Two operands may be exchanged for any two with the same combined value. */
  lemma PairReplaced(c: Connective, e: Expr, p: Path, q: Path, x: Expr, y: Expr, env: Env)
    requires Grounded(env) && Operand(c, e, p) && Operand(c, e, q) && p != q
    requires !x.IsBin(c) && !y.IsBin(c)
    requires Eval(Bin(c, x, y), env) == Eval(Bin(c, At(e, p), At(e, q)), env)
    ensures Operand(c, Replace(e, p, x), q)
    ensures Eval(Replace(Replace(e, p, x), q, y), env) == Eval(e, env)
  {
    var u := Sym(c.Unit());
    PairFactors(c, e, p, q, x, y, env);
    PairFactors(c, e, p, q, At(e, p), At(e, q), env);
    AtReplace(e, p, x);
    AtReplace(e, q, x);
  }

  lemma PairFactors(c: Connective, e: Expr, p: Path, q: Path, x: Expr, y: Expr, env: Env)
    requires Grounded(env) && Operand(c, e, p) && Operand(c, e, q) && p != q
    requires !x.IsBin(c) && !y.IsBin(c)
    ensures Operand(c, Replace(e, p, x), q) && Operand(c, Replace(e, q, Sym(c.Unit())), p)
    ensures Eval(Replace(Replace(e, p, x), q, y), env)
            == c.Apply(Eval(Replace(Replace(e, q, Sym(c.Unit())), p, Sym(c.Unit())), env), Eval(Bin(c, x, y), env))
  {
    var u := Sym(c.Unit());
    OtherOperand(c, e, p, q, x);
    OtherOperand(c, e, q, p, u);
    OperandFactors(c, Replace(e, p, x), q, y, env);
    ReplaceCommutes(c, e, p, q, x, u);
    OperandFactors(c, Replace(e, q, u), p, x, env);
    Regroup(c, Eval(Replace(Replace(e, q, u), p, u), env), Eval(x, env), Eval(y, env), YES);
  }

  lemma {:induction false} LiteralOperand(c: Connective, e: Expr, p: Path)
    requires Operand(c, e, p) && p != [] && At(e, p).IsYn()
    ensures HasYn(e)
  {
    if |p| > 1 {
      LiteralOperand(c, Child(e, p[0]), p[1..]);
    } else {
      assert p[1..] == [] && At(e, p) == Child(e, p[0]);
    }
  }

  // ----- the fixed point of the pass -----

  /** No operand below `p1` can be joined with a different one below `p2`. */
  ghost predicate NoJoin(c: Connective, e: Expr, p1: Path, p2: Path)
    decreases Size(e), 0
  {
    forall q1: Path, q2: Path ::
      Operand(c, e, q1) && Operand(c, e, q2) && p1 <= q1 && p2 <= q2 && q1 != q2 ==>
        && Join(c, At(e, q1), At(e, q2)) == None
        && (Size(At(e, q1)) < Size(e) ==> Quiescent(At(e, q1)))
  }

  /** At no level are there two operands that can be joined. */
  ghost predicate Quiescent(e: Expr)
    decreases Size(e), 1
  {
    e.Bin? ==> NoJoin(e.op, e, [], [])
  }

  lemma {:induction false} SmallerAt(e: Expr, p: Path)
    requires Valid(e, p)
    ensures p != [] ==> Size(At(e, p)) < Size(e)
  {
    if p != [] {
      SmallerAt(Child(e, p[0]), p[1..]);
    }
  }

  /** Splitting the first cursor at a connective covers all operands below it. */
  lemma NoJoinSplit1(c: Connective, e: Expr, p1: Path, p2: Path)
    requires OnSpine(c, e, p1) && Valid(e, p1) && At(e, p1).IsBin(c)
    requires NoJoin(c, e, p1 + [false], p2) && NoJoin(c, e, p1 + [true], p2)
    ensures NoJoin(c, e, p1, p2)
  {
    forall q1: Path, q2: Path |
      Operand(c, e, q1) && Operand(c, e, q2) && p1 <= q1 && p2 <= q2 && q1 != q2
      ensures Join(c, At(e, q1), At(e, q2)) == None && (Size(At(e, q1)) < Size(e) ==> Quiescent(At(e, q1)))
    {
      assert q1 != p1;
      assert p1 + [q1[|p1|]] <= q1;
      assert q1[|p1|] == false || q1[|p1|] == true;
    }
  }

  lemma NoJoinSplit2(c: Connective, e: Expr, p1: Path, p2: Path)
    requires OnSpine(c, e, p2) && Valid(e, p2) && At(e, p2).IsBin(c)
    requires NoJoin(c, e, p1, p2 + [false]) && NoJoin(c, e, p1, p2 + [true])
    ensures NoJoin(c, e, p1, p2)
  {
    forall q1: Path, q2: Path |
      Operand(c, e, q1) && Operand(c, e, q2) && p1 <= q1 && p2 <= q2 && q1 != q2
      ensures Join(c, At(e, q1), At(e, q2)) == None && (Size(At(e, q1)) < Size(e) ==> Quiescent(At(e, q1)))
    {
      assert q2 != p2;
      assert p2 + [q2[|p2|]] <= q2;
      assert q2[|p2|] == false || q2[|p2|] == true;
    }
  }

  /** Below an operand there is only that operand. */
  lemma {:induction false} OperandIsEnd(c: Connective, e: Expr, p: Path, q: Path)
    requires Operand(c, e, p) && Operand(c, e, q) && p <= q
    ensures p == q
  {
    if p != [] {
      OperandIsEnd(c, Child(e, p[0]), p[1..], q[1..]);
    }
  }

  lemma NoJoinOperands(c: Connective, e: Expr, p1: Path, p2: Path)
    requires Operand(c, e, p1) && Operand(c, e, p2)
    requires p1 != p2 ==> Join(c, At(e, p1), At(e, p2)) == None && Quiescent(At(e, p1))
    ensures NoJoin(c, e, p1, p2)
  {
    forall q1: Path, q2: Path |
      Operand(c, e, q1) && Operand(c, e, q2) && p1 <= q1 && p2 <= q2 && q1 != q2
      ensures Join(c, At(e, q1), At(e, q2)) == None && (Size(At(e, q1)) < Size(e) ==> Quiescent(At(e, q1)))
    {
      OperandIsEnd(c, e, p1, q1);
      OperandIsEnd(c, e, p2, q2);
    }
  }

  lemma {:induction false} SpineExtends(c: Connective, e: Expr, p: Path, right: bool)
    requires OnSpine(c, e, p) && Valid(e, p) && At(e, p).IsBin(c)
    ensures OnSpine(c, e, p + [right]) && Valid(e, p + [right]) && At(e, p + [right]) == Child(At(e, p), right)
  {
    if p == [] {
      assert p + [right] == [right] && [right][1..] == [];
    } else {
      assert (p + [right])[1..] == p[1..] + [right];
      SpineExtends(c, Child(e, p[0]), p[1..], right);
    }
  }

  /** Moving a cursor down leaves fewer pairs to compare. */
  lemma NoJoinBelow(c: Connective, e: Expr, p1: Path, p2: Path, q1: Path, q2: Path)
    requires NoJoin(c, e, p1, p2) && p1 <= q1 && p2 <= q2
    ensures NoJoin(c, e, q1, q2)
  {
    forall r1: Path, r2: Path |
      Operand(c, e, r1) && Operand(c, e, r2) && q1 <= r1 && q2 <= r2 && r1 != r2
      ensures Join(c, At(e, r1), At(e, r2)) == None && (Size(At(e, r1)) < Size(e) ==> Quiescent(At(e, r1)))
    {
      assert p1 <= r1 && p2 <= r2;
    }
  }

  lemma NoJoinPair(c: Connective, e: Expr, p1: Path, p2: Path)
    requires NoJoin(c, e, p1, p2) && Operand(c, e, p1) && Operand(c, e, p2) && p1 != p2
    ensures Join(c, At(e, p1), At(e, p2)) == None && Quiescent(At(e, p1))
  {
    SmallerAt(e, p1);
  }

  // ----- the fixed point by positions -----

  /** No two operands of one chain, at any level of the tree, can do with one. */
  ghost predicate Irredundant(e: Expr) {
    forall b: Path, c: Connective, q1: Path, q2: Path ::
      Valid(e, b) && Operand(c, At(e, b), q1) && Operand(c, At(e, b), q2) && q1 != q2 ==>
        !Redundant(c, At(At(e, b), q1), At(At(e, b), q2))
  }

  lemma {:induction false} SpineConcatenated(c: Connective, e: Expr, p: Path, q: Path)
    requires OnSpine(c, e, p) && Valid(e, p) && Operand(c, At(e, p), q)
    ensures Operand(c, e, p + q) && At(e, p + q) == At(At(e, p), q)
  {
    if p == [] {
      assert p + q == q;
    } else {
      assert (p + q)[1..] == p[1..] + q;
      SpineConcatenated(c, Child(e, p[0]), p[1..], q);
    }
  }

  /** A slot lies on the chain of the root, or below one of its operands. */
  lemma {:induction false} LeavesSpine(c: Connective, e: Expr, b: Path) returns (p: Path)
    requires Valid(e, b)
    ensures p <= b && OnSpine(c, e, p) && Valid(e, p) && (p == b || !At(e, p).IsBin(c))
  {
    if b == [] || !e.IsBin(c) {
      p := [];
    } else {
      var q := LeavesSpine(c, Child(e, b[0]), b[1..]);
      p := [b[0]] + q;
      assert p[1..] == q;
    }
  }

  lemma {:induction false} AnOperand(c: Connective, e: Expr) returns (q: Path)
    ensures Operand(c, e, q)
  {
    q := [];
    if e.IsBin(c) {
      var r := AnOperand(c, e.l);
      q := [false] + r;
      assert q[1..] == r;
    }
  }

  /** Another operand of a chain that has more than one. */
  lemma AnotherOperand(c: Connective, e: Expr, p: Path) returns (q: Path)
    requires Operand(c, e, p) && p != []
    ensures Operand(c, e, q) && q != p
  {
    var r := AnOperand(c, Child(e, !p[0]));
    q := [!p[0]] + r;
    assert q[1..] == r;
  }

  lemma OperandQuiescent(c: Connective, e: Expr, p: Path)
    requires e.IsBin(c) && Quiescent(e) && Operand(c, e, p)
    ensures p != [] && Size(At(e, p)) < Size(e) && Quiescent(At(e, p))
  {
    SmallerAt(e, p);
    var q := AnotherOperand(c, e, p);
    assert [] <= p && [] <= q;
  }

  lemma {:induction false} QuiescentAt(e: Expr, b: Path, c: Connective, q1: Path, q2: Path)
    requires Quiescent(e) && Valid(e, b)
    requires Operand(c, At(e, b), q1) && Operand(c, At(e, b), q2) && q1 != q2
    ensures Join(c, At(At(e, b), q1), At(At(e, b), q2)) == None
    decreases Size(e)
  {
    assert At(e, b).IsBin(c);
    if b == [] {
      assert [] <= q1 && [] <= q2;
    } else {
      var p := LeavesSpine(e.op, e, b);
      if p == b && At(e, b).IsBin(e.op) {
        SpineConcatenated(c, e, b, q1);
        SpineConcatenated(c, e, b, q2);
        assert (b + q1)[|b|..] == q1 && (b + q2)[|b|..] == q2;
        assert [] <= b + q1 && [] <= b + q2;
      } else {
        OperandQuiescent(e.op, e, p);
        var rest := b[|p|..];
        assert p + rest == b;
        ConcatenatedBack(e, p, rest);
        QuiescentAt(At(e, p), rest, c, q1, q2);
      }
    }
  }

  lemma {:induction false} ConcatenatedBack(e: Expr, p: Path, q: Path)
    requires Valid(e, p + q) && Valid(e, p)
    ensures Valid(At(e, p), q) && At(At(e, p), q) == At(e, p + q)
  {
    if p == [] {
      assert p + q == q;
    } else {
      assert (p + q)[1..] == p[1..] + q;
      ConcatenatedBack(Child(e, p[0]), p[1..], q);
    }
  }

  lemma {:induction false} IrredundantQuiescent(e: Expr)
    requires Irredundant(e)
    ensures Quiescent(e)
    decreases Size(e)
  {
    if e.Bin? {
      forall q1: Path, q2: Path |
        Operand(e.op, e, q1) && Operand(e.op, e, q2) && [] <= q1 && [] <= q2 && q1 != q2
        ensures Join(e.op, At(e, q1), At(e, q2)) == None && (Size(At(e, q1)) < Size(e) ==> Quiescent(At(e, q1)))
      {
        assert At(e, []) == e;
        JoinsRedundant(e.op, At(e, q1), At(e, q2));
        if Size(At(e, q1)) < Size(e) {
          IrredundantAt(e, q1);
          IrredundantQuiescent(At(e, q1));
        }
      }
    }
  }

  lemma IrredundantAt(e: Expr, p: Path)
    requires Irredundant(e) && Valid(e, p)
    ensures Irredundant(At(e, p))
  {
    hide Redundant;
    forall b: Path, c: Connective, q1: Path, q2: Path |
      Valid(At(e, p), b) && Operand(c, At(At(e, p), b), q1) && Operand(c, At(At(e, p), b), q2) && q1 != q2
      ensures !Redundant(c, At(At(At(e, p), b), q1), At(At(At(e, p), b), q2))
    {
      Concatenated(e, p, b, e);
    }
  }

  /** Nothing is left to join exactly when no chain has redundant operands. */
  lemma QuiescentIsIrredundant(e: Expr)
    ensures Quiescent(e) <==> Irredundant(e)
  {
    hide Quiescent, Redundant, Join;
    if Irredundant(e) { IrredundantQuiescent(e); }
    if Quiescent(e) {
      forall b: Path, c: Connective, q1: Path, q2: Path |
        Valid(e, b) && Operand(c, At(e, b), q1) && Operand(c, At(e, b), q2) && q1 != q2
        ensures !Redundant(c, At(At(e, b), q1), At(At(e, b), q2))
      {
        QuiescentAt(e, b, c, q1, q2);
        JoinsRedundant(c, At(At(e, b), q1), At(At(e, b), q2));
      }
    }
  }

  // ----- what the pass keeps -----

  /** In normal form, and if `strict` holds only bool and tristate symbols stand alone. */
  predicate Regular(strict: bool, e: Expr) {
    Normal(e) && (strict ==> LogicOperands(e))
  }

  lemma JoinRegular(strict: bool, c: Connective, e1: Expr, e2: Expr)
    requires Join(c, e1, e2).Some? && Regular(strict, e1) && Regular(strict, e2)
    ensures Regular(strict, Join(c, e1, e2).value)
  {
    hide ExprEq;
  }

  lemma {:induction false} RegularAt(strict: bool, e: Expr, p: Path)
    requires Valid(e, p) && Regular(strict, e)
    ensures Regular(strict, At(e, p))
  {
    if p != [] {
      RegularAt(strict, Child(e, p[0]), p[1..]);
    }
  }

  lemma {:induction false} RegularReplace(strict: bool, e: Expr, p: Path, x: Expr)
    requires Valid(e, p) && Regular(strict, e) && Regular(strict, x)
    ensures Regular(strict, Replace(e, p, x))
  {
    if p != [] {
      RegularReplace(strict, Child(e, p[0]), p[1..], x);
    }
  }

  lemma {:induction false} RegularReduced(strict: bool, e: Expr)
    requires Regular(strict, e)
    ensures Regular(strict, EliminateYn(e))
  {
    if e.Bin? {
      RegularReduced(strict, e.l);
      RegularReduced(strict, e.r);
    }
  }

  // ----- the pass -----

  /** What a walk over the subtree `e` turns it into: an equivalent tree, no
      larger, with the operands of `c` in the same slots, and as regular. */
  ghost predicate Reduced(c: Connective, e: Expr, f: Expr) {
    && SameSpine(c, e, f)
    && (NamesOnly(e) ==> Equivalent(e, f) && NamesOnly(f))
    && (forall strict :: Regular(strict, e) ==> Regular(strict, f))
    && Size(f) <= Size(e)
  }

  lemma {:induction false} ReducedTransitive(c: Connective, e: Expr, f: Expr, g: Expr)
    requires Reduced(c, e, f) && Reduced(c, f, g)
    ensures Reduced(c, e, g)
  {
    hide Regular, NamesOnly, WellFormed;
    SameSpineTransitive(c, e, f, g);
  }

  lemma ReducedReflexive(c: Connective, e: Expr)
    ensures Reduced(c, e, e)
  {
    SameSpineReflexive(c, e);
  }

  /** The step at two operands: the first becomes the neutral literal, the
      second the joined expression. */
  lemma JoinStep(c: Connective, e: Expr, p1: Path, p2: Path)
    requires Operand(c, e, p1) && Operand(c, e, p2) && p1 != p2
    requires Join(c, At(e, p1), At(e, p2)).Some?
    ensures Operand(c, Replace(e, p1, Sym(c.Unit())), p2)
    ensures var f := Replace(Replace(e, p1, Sym(c.Unit())), p2, Join(c, At(e, p1), At(e, p2)).value);
      Reduced(c, e, f) && HasYn(f)
  {
    hide Regular;
    var u, x1, x2 := Sym(c.Unit()), At(e, p1), At(e, p2);
    var j := Join(c, x1, x2).value;
    forall strict | Regular(strict, e) { JoinStepRegular(strict, c, e, p1, p2); }
    if NamesOnly(e) {
      NamesOnlyAt(e, p1);
      NamesOnlyAt(e, p2);
    }
    JoinSound(c, x1, x2);
    var g := Replace(e, p1, u);
    ReplaceOperand(c, e, p1, u);
    OtherOperand(c, e, p1, p2, u);
    var f := Replace(g, p2, j);
    ReplaceOperand(c, g, p2, j);
    SameSpineTransitive(c, e, g, f);
    AtReplace(e, p1, u);
    AtReplace(g, p2, j);
    SameSpineAt(c, e, g, p1);
    OtherOperand(c, g, p2, p1, j);
    assert p1 != [];
    LiteralOperand(c, f, p1);
    forall env: Env | WellFormed(env) && NamesOnly(e)
      ensures Eval(e, env) == Eval(f, env)
    {
      SettledValues(env, SymYes);
      assert Eval(j, env) == Eval(Bin(c, x1, x2), env);
      PairReplaced(c, e, p1, p2, u, j, env);
    }
  }

  lemma JoinStepRegular(strict: bool, c: Connective, e: Expr, p1: Path, p2: Path)
    requires Operand(c, e, p1) && Operand(c, e, p2) && p1 != p2
    requires Join(c, At(e, p1), At(e, p2)).Some? && Regular(strict, e)
    ensures var g := Replace(e, p1, Sym(c.Unit()));
      Valid(g, p2) && Regular(strict, Replace(g, p2, Join(c, At(e, p1), At(e, p2)).value))
  {
    var u := Sym(c.Unit());
    assert Regular(strict, u);
    hide Regular;
    RegularAt(strict, e, p1);
    RegularAt(strict, e, p2);
    JoinRegular(strict, c, At(e, p1), At(e, p2));
    RegularReplace(strict, e, p1, u);
    OtherOperand(c, e, p1, p2, u);
    RegularReplace(strict, Replace(e, p1, u), p2, Join(c, At(e, p1), At(e, p2)).value);
  }

  /** A connective below one operand was reduced by itself. */
  lemma NestedStep(c: Connective, e: Expr, p: Path, x: Expr)
    requires Operand(c, e, p) && At(e, p).Bin? && Reduced(At(e, p).op, At(e, p), x)
    ensures Reduced(c, e, Replace(e, p, x)) && !x.IsBin(c)
    ensures HasYn(x) ==> HasYn(Replace(e, p, x))
  {
    hide Regular;
    forall strict | Regular(strict, e) ensures Regular(strict, Replace(e, p, x)) {
      RegularAt(strict, e, p);
      RegularReplace(strict, e, p, x);
    }
    ReplaceOperand(c, e, p, x);
    AtReplace(e, p, x);
    if HasYn(x) { ReplaceHasYn(e, p, x); }
    if NamesOnly(e) { NamesOnlyAt(e, p); }
    forall env: Env | WellFormed(env) && NamesOnly(e)
      ensures Eval(e, env) == Eval(Replace(e, p, x), env)
    {
      ReplaceEval(e, p, x, env);
    }
  }

  lemma {:induction false} ReplaceEval(e: Expr, p: Path, x: Expr, env: Env)
    requires Valid(e, p) && Eval(At(e, p), env) == Eval(x, env)
    ensures Eval(Replace(e, p, x), env) == Eval(e, env)
  {
    if p != [] {
      ReplaceEval(Child(e, p[0]), p[1..], x, env);
    }
  }

  lemma {:induction false} ReplaceHasYn(e: Expr, p: Path, x: Expr)
    requires Valid(e, p) && HasYn(x)
    ensures HasYn(Replace(e, p, x))
  {
    if p != [] {
      ReplaceHasYn(Child(e, p[0]), p[1..], x);
    }
  }

  // ----- the counter while two trees are compared -----

  /** How many pairs of operands `Cancel` replaces. */
  function Cancelled(c: Connective, e1: Expr, e2: Expr): nat
    decreases Size(e1) + Size(e2)
  {
    if e1.IsBin(c) then
      Cancelled(c, e1.l, e2) + Cancelled(c, e1.r, Cancel(c, e1.l, e2).1)
    else if e2.IsBin(c) then
      Cancelled(c, e1, e2.l) + Cancelled(c, Cancel(c, e1, e2.l).0, e2.r)
    else if (e1 == e2 && e1.IsYn()) || !ExprEq(e1, e2) then 0
    else 1
  }

  function EqCancelled(e1: Expr, e2: Expr): nat {
    var a := if e1.Bin? then Cancel(e1.op, e1, e2) else (e1, e2);
    (if e1.Bin? then Cancelled(e1.op, e1, e2) else 0)
    + if !SameType(a.0, a.1) && a.1.Bin? then Cancelled(a.1.op, a.0, a.1) else 0
  }

  /** How many operands of `c` are literally `y` or `n`. */
  function Literals(c: Connective, e: Expr): nat {
    if e.IsBin(c) then Literals(c, e.l) + Literals(c, e.r) else if e.IsYn() then 1 else 0
  }

  lemma CancelLeft(c: Connective, e1: Expr, e2: Expr)
    requires e1.IsBin(c)
    ensures var a := Cancel(c, e1.l, e2);
      var b := Cancel(c, e1.r, a.1);
      && Cancel(c, e1, e2) == (Bin(c, a.0, b.0), b.1)
      && Cancelled(c, e1, e2) == Cancelled(c, e1.l, e2) + Cancelled(c, e1.r, a.1)
  {
    hide ExprEq;
  }

  lemma CancelRight(c: Connective, e1: Expr, e2: Expr)
    requires !e1.IsBin(c) && e2.IsBin(c)
    ensures var a := Cancel(c, e1, e2.l);
      var b := Cancel(c, a.0, e2.r);
      && Cancel(c, e1, e2) == (b.0, Bin(c, a.1, b.1))
      && Cancelled(c, e1, e2) == Cancelled(c, e1, e2.l) + Cancelled(c, a.0, e2.r)
  {
    hide ExprEq;
  }

  lemma CancelOperands(c: Connective, e1: Expr, e2: Expr)
    requires !e1.IsBin(c) && !e2.IsBin(c)
    ensures var r := Cancel(c, e1, e2);
      || (Cancelled(c, e1, e2) == 0 && r == (e1, e2))
      || (Cancelled(c, e1, e2) == 1 && !e1.IsYn() && !e2.IsYn() && r == (Sym(c.Unit()), Sym(c.Unit())))
  {
  }

  /** Every counted pair makes one more operand of each tree a literal, so the
      count is zero exactly when nothing changed. */
  lemma {:induction false} CountedLiterals(c: Connective, e1: Expr, e2: Expr)
    ensures var r := Cancel(c, e1, e2);
      && Literals(c, r.0) == Literals(c, e1) + Cancelled(c, e1, e2)
      && Literals(c, r.1) == Literals(c, e2) + Cancelled(c, e1, e2)
      && (Cancelled(c, e1, e2) == 0 ==> r == (e1, e2))
    decreases Size(e1) + Size(e2)
  {
    hide Cancel, Cancelled;
    if e1.IsBin(c) {
      CancelLeft(c, e1, e2);
      CountedLiterals(c, e1.l, e2);
      CountedLiterals(c, e1.r, Cancel(c, e1.l, e2).1);
    } else if e2.IsBin(c) {
      CancelRight(c, e1, e2);
      CountedLiterals(c, e1, e2.l);
      CountedLiterals(c, Cancel(c, e1, e2.l).0, e2.r);
    } else {
      CancelOperands(c, e1, e2);
    }
  }

  /** A tree under reduction, with the counter of rewrites. */
  class Reducer {
    var root: Expr
    var transCount: nat

    constructor (e: Expr)
      ensures root == e && transCount == 0
    {
      root, transCount := e, 0;
    }

    /** `__expr_eliminate_eq`, which counts the pairs it replaces. */
    method CancelCounted(c: Connective, e1: Expr, e2: Expr) returns (r1: Expr, r2: Expr)
      modifies this`transCount
      ensures (r1, r2) == Cancel(c, e1, e2)
      ensures transCount == old(transCount) + Cancelled(c, e1, e2)
      decreases Size(e1) + Size(e2), if e1.IsBin(c) || e2.IsBin(c) then 0 else 3
    {
      if e1.IsBin(c) {
        var left, rest := CancelCounted(c, e1.l, e2);
        var right;
        right, r2 := CancelCounted(c, e1.r, rest);
        r1 := Bin(c, left, right);
      } else if e2.IsBin(c) {
        var rest, left := CancelCounted(c, e1, e2.l);
        var right;
        r1, right := CancelCounted(c, rest, e2.r);
        r2 := Bin(c, left, right);
      } else {
        r1, r2 := e1, e2;
        if e1 == e2 && e1.IsYn() {
          return;
        }
        var same := ExprEqual(e1, e2);
        if same {
          transCount := transCount + 1;
          r1, r2 := Sym(c.Unit()), Sym(c.Unit());
        }
      }
    }

    /** `expr_eliminate_eq`. */
    method EliminateEqual(e1: Expr, e2: Expr) returns (r1: Expr, r2: Expr)
      modifies this`transCount
      ensures (r1, r2) == EliminateEq(e1, e2)
      ensures transCount == old(transCount) + EqCancelled(e1, e2)
      decreases Size(e1) + Size(e2), 1
    {
      r1, r2 := e1, e2;
      if r1.Bin? {
        r1, r2 := CancelCounted(r1.op, r1, r2);
      }
      if !SameType(r1, r2) && r2.Bin? {
        r1, r2 := CancelCounted(r2.op, r1, r2);
      }
      r1, r2 := EliminateYn(r1), EliminateYn(r2);
    }

    /** `expr_eq`: whatever is counted while two connectives are compared, the
        counter of the walk that asks is left as it was found. */
    method ExprEqual(e1: Expr, e2: Expr) returns (r: bool)
      modifies this`transCount
      ensures r == ExprEq(e1, e2)
      ensures transCount == old(transCount)
      decreases Size(e1) + Size(e2), 2
    {
      if !SameType(e1, e2) {
        return false;
      }
      match e1
      case Cmp(_, s, t) => r := e2.left == s && e2.right == t;
      case Sym(s) => r := e2.sym == s;
      case Not(x) => r := ExprEqual(x, e2.arg);
      case Bin(_, _, _) =>
        var oldCount := transCount;
        var r1, r2 := EliminateEqual(e1, e2);
        r := r1.Sym? && r2.Sym? && r1.sym == r2.sym;
        transCount := oldCount;
    }

    /** `expr_join_or` and `expr_join_and`. */
    method JoinOperands(c: Connective, e1: Expr, e2: Expr) returns (r: Option<Expr>)
      modifies this`transCount
      ensures r == Join(c, e1, e2)
      ensures transCount == old(transCount)
    {
      var same := ExprEqual(e1, e2);
      if same {
        return Some(e1);
      }
      var s := CommonSubject(e1, e2);
      if s.None? {
        r := None;
      } else if c.Conj? {
        r := AndRule(s.value, e1, e2);
      } else {
        r := OrRule(s.value, e1, e2);
      }
    }

    /** `expr_eliminate_dups1` on the subtree in slot `base`, with both cursors
        below that slot. The walk counts nothing, and then changes nothing,
        exactly when no two of the operands can be joined. */
    method Walk(c: Connective, base: Path, p1: Path, p2: Path)
      requires Valid(root, base)
      requires OnSpine(c, At(root, base), p1) && OnSpine(c, At(root, base), p2)
      modifies this
      ensures Valid(root, base) && root == Replace(old(root), base, At(root, base))
      ensures Reduced(c, old(At(root, base)), At(root, base))
      ensures transCount >= old(transCount)
      ensures transCount == old(transCount) <==> old(NoJoin(c, At(root, base), p1, p2))
      ensures transCount == old(transCount) ==> root == old(root)
      ensures transCount > old(transCount) ==> HasYn(At(root, base))
      decreases Size(At(root, base)), SpineSizeAt(c, At(root, base), p1) + SpineSizeAt(c, At(root, base), p2)
    {
      hide NoJoin, Reduced;
      ghost var e := At(root, base);
      SpineValid(c, e, p1);
      SpineValid(c, e, p2);
      Concatenated(root, base, p1, e);
      Concatenated(root, base, p2, e);
      if At(root, base + p1).IsBin(c) {
        WalkBelow(c, base, p1, p2, true);
      } else if At(root, base + p2).IsBin(c) {
        WalkBelow(c, base, p2, p1, false);
      } else if p1 != p2 {
        WalkOperands(c, base, p1, p2);
      } else {
        AtReplace(root, base, e);
        ReducedReflexive(c, e);
        NoJoinOperands(c, e, p1, p2);
      }
    }

    /** Descends from the connective at `p`: the first cursor when `first` holds. */
    method WalkBelow(c: Connective, base: Path, p: Path, other: Path, first: bool)
      requires Valid(root, base)
      requires OnSpine(c, At(root, base), p) && OnSpine(c, At(root, base), other)
      requires Valid(At(root, base), p) && At(At(root, base), p).IsBin(c)
      modifies this
      ensures Valid(root, base) && root == Replace(old(root), base, At(root, base))
      ensures Reduced(c, old(At(root, base)), At(root, base))
      ensures transCount >= old(transCount)
      ensures transCount == old(transCount) <==>
        old(if first then NoJoin(c, At(root, base), p, other) else NoJoin(c, At(root, base), other, p))
      ensures transCount == old(transCount) ==> root == old(root)
      ensures transCount > old(transCount) ==> HasYn(At(root, base))
      decreases Size(At(root, base)), SpineSizeAt(c, At(root, base), p) + SpineSizeAt(c, At(root, base), other), 0
    {
      hide NoJoin, Reduced;
      ghost var e := At(root, base);
      SpineValid(c, e, other);
      SpineExtends(c, e, p, false);
      SpineExtends(c, e, p, true);
      NoJoinBranches(c, e, p, other, first);
      if first { Walk(c, base, p + [false], other); } else { Walk(c, base, other, p + [false]); }
      ghost var f := At(root, base);
      WalkedSizes(c, e, f, p + [true], other);
      if first { Walk(c, base, p + [true], other); } else { Walk(c, base, other, p + [true]); }
      ghost var g := At(root, base);
      AtReplace(old(root), base, f);
      ReducedTransitive(c, e, f, g);
    }

    /** Compares two different operands of one connective. */
    method WalkOperands(c: Connective, base: Path, p1: Path, p2: Path)
      requires Valid(root, base)
      requires Operand(c, At(root, base), p1) && Operand(c, At(root, base), p2) && p1 != p2
      modifies this
      ensures Valid(root, base) && root == Replace(old(root), base, At(root, base))
      ensures Reduced(c, old(At(root, base)), At(root, base))
      ensures transCount >= old(transCount)
      ensures transCount == old(transCount) <==> old(NoJoin(c, At(root, base), p1, p2))
      ensures transCount == old(transCount) ==> root == old(root)
      ensures transCount > old(transCount) ==> HasYn(At(root, base))
      decreases Size(At(root, base)), SpineSizeAt(c, At(root, base), p1) + SpineSizeAt(c, At(root, base), p2), 1
    {
      hide NoJoin, Reduced, Quiescent, Join, Operand;
      ghost var e := At(root, base);
      OperandsValid(c, e, p1, p2);
      if old(NoJoin(c, At(root, base), p1, p2)) { NoJoinPair(c, e, p1, p2); }
      WalkNested(c, base, p1, p2);
      ghost var f := At(root, base);
      OperandsValid(c, f, p1, p2);
      Concatenated(root, base, p1, Sym(c.Unit()));
      Concatenated(root, base, p2, e);
      var joined := JoinOperands(c, At(root, base + p1), At(root, base + p2));
      if joined.Some? {
        JoinStep(c, f, p1, p2);
        ghost var g := Replace(f, p1, Sym(c.Unit()));
        OperandsValid(c, g, p2, p2);
        AtReplace(root, base, g);
        root := Replace(root, base + p1, Sym(c.Unit()));
        Concatenated(root, base, p2, joined.value);
        AtReplace(root, base, Replace(g, p2, joined.value));
        root := Replace(root, base + p2, joined.value);
        transCount := transCount + 1;
        AtReplace(old(root), base, f);
        ReducedTransitive(c, e, f, At(root, base));
      } else if transCount == old(transCount) {
        NoJoinOperands(c, f, p1, p2);
      }
    }

    /** Reduces the first operand by itself, when it is another connective. */
    method WalkNested(c: Connective, base: Path, p1: Path, p2: Path)
      requires Valid(root, base)
      requires Operand(c, At(root, base), p1) && Operand(c, At(root, base), p2) && p1 != p2
      modifies this
      ensures Valid(root, base) && root == Replace(old(root), base, At(root, base))
      ensures Reduced(c, old(At(root, base)), At(root, base))
      ensures Operand(c, At(root, base), p1) && Operand(c, At(root, base), p2)
      ensures transCount >= old(transCount)
      ensures transCount == old(transCount) <==> old(Quiescent(At(At(root, base), p1)))
      ensures transCount == old(transCount) ==> root == old(root)
      ensures transCount > old(transCount) ==> HasYn(At(root, base))
      decreases Size(At(root, base)), SpineSizeAt(c, At(root, base), p1) + SpineSizeAt(c, At(root, base), p2), 0
    {
      hide NoJoin, Reduced;
      ghost var e := At(root, base);
      AtReplace(root, base, e);
      ReducedReflexive(c, e);
      Concatenated(root, base, p1, e);
      SmallerAt(e, p1);
      if At(root, base + p1).Bin? {
        Walk(At(root, base + p1).op, base + p1, [], []);
        ghost var x := At(root, base + p1);
        Concatenated(old(root), base, p1, x);
        AtReplace(old(root), base, Replace(e, p1, x));
        NestedStep(c, e, p1, x);
        NestedOperands(c, e, p1, p2, x);
      }
    }

    /** `expr_eliminate_dups`: ends on every tree; the result is no larger, at no
        level has two operands that could still be joined, and is equivalent to
        the given tree if no tristate symbol is tested against a numeric
        constant. A tree without joinable operands is left alone, and so is the
        counter. */
    method EliminateDups()
      modifies this
      ensures old(NamesOnly(root)) ==> Equivalent(root, old(root)) && NamesOnly(root)
      ensures forall strict :: old(Regular(strict, root)) ==> Regular(strict, root)
      ensures Size(root) <= old(Size(root))
      ensures Quiescent(root) && Irredundant(root)
      ensures old(Irredundant(root)) ==> root == old(root)
      ensures transCount == old(transCount)
    {
      hide Regular, NoJoin, NamesOnly, Irredundant;
      QuiescentIsIrredundant(root);
      var oldCount := transCount;
      while true
        invariant old(NamesOnly(root)) ==> Equivalent(root, old(root)) && NamesOnly(root)
        invariant forall strict :: old(Regular(strict, root)) ==> Regular(strict, root)
        invariant Size(root) <= old(Size(root))
        invariant old(Quiescent(root)) ==> root == old(root)
        decreases Size(root)
      {
        transCount := 0;
        if root.Bin? {
          Walk(root.op, [], [], []);
        }
        if transCount == 0 {
          break;
        }
        ghost var before := root;
        root := EliminateYn(root);
        EliminateYnEquivalent(before);
        forall strict | Regular(strict, before) { RegularReduced(strict, before); }
      }
      QuiescentIsIrredundant(root);
      transCount := oldCount;
    }
  }

  lemma OperandsValid(c: Connective, e: Expr, p1: Path, p2: Path)
    requires Operand(c, e, p1) && Operand(c, e, p2)
    ensures Valid(e, p1) && Valid(e, p2)
  {
  }

  lemma NestedOperands(c: Connective, e: Expr, p1: Path, p2: Path, x: Expr)
    requires Operand(c, e, p1) && Operand(c, e, p2) && p1 != p2 && !x.IsBin(c)
    ensures Operand(c, Replace(e, p1, x), p1) && Operand(c, Replace(e, p1, x), p2)
  {
    OtherOperand(c, e, p1, p2, x);
    AtReplace(e, p1, x);
    ReplaceOperand(c, e, p1, x);
    SameSpineAt(c, e, Replace(e, p1, x), p1);
  }

  lemma NoJoinBranches(c: Connective, e: Expr, p: Path, other: Path, first: bool)
    requires OnSpine(c, e, p) && Valid(e, p) && At(e, p).IsBin(c)
    ensures first ==> (NoJoin(c, e, p, other) <==> NoJoin(c, e, p + [false], other) && NoJoin(c, e, p + [true], other))
    ensures !first ==> (NoJoin(c, e, other, p) <==> NoJoin(c, e, other, p + [false]) && NoJoin(c, e, other, p + [true]))
  {
    hide NoJoin;
    if first {
      if NoJoin(c, e, p, other) {
        NoJoinBelow(c, e, p, other, p + [false], other);
        NoJoinBelow(c, e, p, other, p + [true], other);
      } else if NoJoin(c, e, p + [false], other) && NoJoin(c, e, p + [true], other) {
        NoJoinSplit1(c, e, p, other);
      }
    } else if NoJoin(c, e, other, p) {
      NoJoinBelow(c, e, other, p, other, p + [false]);
      NoJoinBelow(c, e, other, p, other, p + [true]);
    } else if NoJoin(c, e, other, p + [false]) && NoJoin(c, e, other, p + [true]) {
      NoJoinSplit2(c, e, other, p);
    }
  }

  /** The cursors still fit the reduced tree, and what is below them has the
      connectives it had. */
  lemma WalkedSizes(c: Connective, e: Expr, f: Expr, p1: Path, p2: Path)
    requires Reduced(c, e, f) && OnSpine(c, e, p1) && OnSpine(c, e, p2)
    ensures OnSpine(c, f, p1) && OnSpine(c, f, p2) && Size(f) <= Size(e)
    ensures SpineSizeAt(c, e, p1) == SpineSizeAt(c, f, p1) && SpineSizeAt(c, e, p2) == SpineSizeAt(c, f, p2)
  {
    hide Regular, NamesOnly;
    SameSpineAt(c, e, f, p1);
    SameSpineAt(c, e, f, p2);
    SameSpineSize(c, At(e, p1), At(f, p1));
    SameSpineSize(c, At(e, p2), At(f, p2));
  }

  lemma EliminateYnEquivalent(e: Expr)
    ensures Equivalent(EliminateYn(e), e)
    ensures NamesOnly(e) ==> NamesOnly(EliminateYn(e))
  {
    if NamesOnly(e) { EliminateYnNames(e); }
    forall env: Env | WellFormed(env)
      ensures Eval(EliminateYn(e), env) == Eval(e, env)
    {
      SettledValues(env, SymYes);
      EliminateYnPreserves(e, env);
    }
  }

  lemma {:induction false} EliminateYnNames(e: Expr)
    requires NamesOnly(e)
    ensures NamesOnly(EliminateYn(e))
  {
    if e.Bin? {
      EliminateYnNames(e.l);
      EliminateYnNames(e.r);
    }
  }

  ghost function SpineSizeAt(c: Connective, e: Expr, p: Path): nat {
    if Valid(e, p) then SpineSize(c, At(e, p)) else 0
  }
}
