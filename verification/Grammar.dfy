/** The expression rules of the grammar, apart from the printer and the parser:
    which token sequences they derive, and for which expression. */
module Grammar {
  import opened Symbols
  import opened Expressions
  import opened PrintParse

  /** A parse tree, one constructor for each form of rule. */
  datatype Tree =
    | Name(sym: Symbol)
    | Compare(rel: Relation, left: Symbol, right: Symbol)
    | Paren(inner: Tree)
    | Negation(operand: Tree)
    | Both(l: Tree, r: Tree)
    | Either(l: Tree, r: Tree)

  /** The tokens at the leaves. */
  function Yield(t: Tree): (ts: seq<Token>)
    ensures ts != []
  {
    match t
    case Name(s) => [Word(s)]
    case Compare(rel, s, u) => [Word(s), Rel(rel), Word(u)]
    case Paren(x) => [OpenT] + Yield(x) + [CloseT]
    case Negation(x) => [NotT] + Yield(x)
    case Both(x, y) => Yield(x) + [AndT] + Yield(y)
    case Either(x, y) => Yield(x) + [OrT] + Yield(y)
  }

  /** The actions of the rules. */
  function Built(t: Tree): Expr {
    match t
    case Name(s) => Sym(s)
    case Compare(rel, s, u) => Cmp(rel, s, u)
    case Paren(x) => Built(x)
    case Negation(x) => Not(Built(x))
    case Both(x, y) => Bin(Conj, Built(x), Built(y))
    case Either(x, y) => Bin(Disj, Built(x), Built(y))
  }

  predicate Infix(t: Tree) { t.Both? || t.Either? }

  /** The trees that the declared precedences leave: negation binds tightest,
      then conjunction, then disjunction, and both group to the left. */
  predicate Ordered(t: Tree) {
    match t
    case Name(_) => true
    case Compare(_, _, _) => true
    case Paren(x) => Ordered(x)
    case Negation(x) => Ordered(x) && !Infix(x)
    case Both(x, y) => Ordered(x) && Ordered(y) && !x.Either? && !Infix(y)
    case Either(x, y) => Ordered(x) && Ordered(y) && !y.Either?
  }

  predicate ParsesAs(t: Tree, ts: seq<Token>, e: Expr) {
    Ordered(t) && Yield(t) == ts && Built(t) == e
  }

  /** The grammar derives the tokens for the expression. */
  ghost predicate Derives(ts: seq<Token>, e: Expr) {
    exists t :: ParsesAs(t, ts, e)
  }

  // ----- every derived sequence is parsed -----

  /** What the top of the stack lets an operand be. */
  predicate Allows(frames: seq<Frame>, t: Tree) {
    AtBottom(frames) ||
    match TopOf(frames)
    case OrF(_) => !t.Either?
    case _ => !Infix(t)
  }

  predicate Ends(t: Tree, rest: seq<Token>) {
    rest == [] || (!rest[0].Rel? && (t.Either? ==> rest[0] != AndT))
  }

  lemma {:induction false} TreeRuns(frames: seq<Frame>, t: Tree, rest: seq<Token>)
    requires Ordered(t) && Allows(frames, t) && Ends(t, rest)
    ensures Run(frames, None, Yield(t) + rest) == Run(frames, Some(Built(t)), rest)
    decreases t, 1
  {
    match t
    case Name(s) => WordRuns(frames, s, rest);
    case Compare(rel, s, u) =>
      var ts := Yield(t) + rest;
      assert ts[3..] == rest && ts[1] == Rel(rel) && ts[2] == Word(u);
    case Paren(x) =>
      hide Run;
      assert Yield(t) + rest == [OpenT] + (Yield(x) + ([CloseT] + rest));
      Open(frames, Yield(x) + ([CloseT] + rest));
      Pushed(frames, OpenF);
      TreeRuns(frames + [OpenF], x, [CloseT] + rest);
      Close(frames, Built(x), rest);
    case Negation(x) =>
      hide Run;
      assert Yield(t) + rest == [NotT] + (Yield(x) + rest);
      Negate(frames, Yield(x) + rest);
      Pushed(frames, NotF);
      TreeRuns(frames + [NotF], x, rest);
      Reduce(frames + [NotF], Built(x), rest);
    case Both(x, y) => InfixRuns(frames, Conj, x, y, t, rest);
    case Either(x, y) => InfixRuns(frames, Disj, x, y, t, rest);
  }

  lemma Negate(frames: seq<Frame>, rest: seq<Token>)
    ensures Run(frames, None, [NotT] + rest) == Run(frames + [NotF], None, rest)
  {
    var ts := [NotT] + rest;
    assert ts[1..] == rest;
  }

  lemma {:induction false} InfixRuns(frames: seq<Frame>, c: Connective, x: Tree, y: Tree, t: Tree, rest: seq<Token>)
    requires t == if c.Conj? then Both(x, y) else Either(x, y)
    requires Ordered(t) && Allows(frames, t) && Ends(t, rest)
    ensures Run(frames, None, Yield(t) + rest) == Run(frames, Some(Built(t)), rest)
    decreases t, 0
  {
    hide Run, Yield;
    var more, f := Yield(y) + rest, Shifted(c, Built(x));
    InfixYield(c, x, y, rest);
    assert !CanReduce(frames, [PrintParse.Sign(c)] + more);
    TreeRuns(frames, x, [PrintParse.Sign(c)] + more);
    Shift(frames, Built(x), c, more);
    Pushed(frames, f);
    TreeRuns(frames + [f], y, rest);
    Reduce(frames + [f], Built(y), rest);
  }

  function Shifted(c: Connective, e: Expr): Frame { if c.Conj? then AndF(e) else OrF(e) }

  lemma InfixYield(c: Connective, x: Tree, y: Tree, rest: seq<Token>)
    ensures var t := if c.Conj? then Both(x, y) else Either(x, y);
      Yield(t) + rest == Yield(x) + ([PrintParse.Sign(c)] + (Yield(y) + rest))
  {
  }

  // ----- every parsed sequence is derived -----

  /** A frame with the tree of its operand. */
  datatype Held = HeldNot | HeldAnd(left: Tree) | HeldOr(left: Tree) | HeldOpen

  function FrameOf(h: Held): Frame {
    match h
    case HeldNot => NotF
    case HeldAnd(t) => AndF(Built(t))
    case HeldOr(t) => OrF(Built(t))
    case HeldOpen => OpenF
  }

  function Frames(hs: seq<Held>): (frames: seq<Frame>)
    ensures |frames| == |hs| && forall i | 0 <= i < |hs| :: frames[i] == FrameOf(hs[i])
  {
    if hs == [] then [] else Frames(hs[..|hs| - 1]) + [FrameOf(hs[|hs| - 1])]
  }

  function Read(h: Held): seq<Token> {
    match h
    case HeldNot => [NotT]
    case HeldAnd(t) => Yield(t) + [AndT]
    case HeldOr(t) => Yield(t) + [OrT]
    case HeldOpen => [OpenT]
  }

  /** The tokens that the stack stands for. */
  function ReadAll(hs: seq<Held>): seq<Token> {
    if hs == [] then [] else ReadAll(hs[..|hs| - 1]) + Read(hs[|hs| - 1])
  }

  /** What can lie on top of a frame: a tree that may be its operand. */
  predicate Carries(hs: seq<Held>, t: Tree) {
    Ordered(t) && (hs == [] ||
    match hs[|hs| - 1]
    case HeldOpen => true
    case HeldOr(_) => !t.Either?
    case _ => !Infix(t))
  }

  predicate Above(hs: seq<Held>, h: Held) {
    match h
    case HeldNot => true
    case HeldOpen => true
    case HeldAnd(t) => Ordered(t) && !t.Either? && (hs == [] || hs[|hs| - 1].HeldOr? || hs[|hs| - 1].HeldOpen?)
    case HeldOr(t) => Ordered(t) && (hs == [] || hs[|hs| - 1].HeldOpen?)
  }

  predicate Stacked(hs: seq<Held>) {
    hs == [] || (Stacked(hs[..|hs| - 1]) && Above(hs[..|hs| - 1], hs[|hs| - 1]))
  }

  lemma Snoc(hs: seq<Held>, h: Held)
    ensures Frames(hs + [h]) == Frames(hs) + [FrameOf(h)] && ReadAll(hs + [h]) == ReadAll(hs) + Read(h)
    ensures Stacked(hs + [h]) <==> Stacked(hs) && Above(hs, h)
  {
    assert (hs + [h])[..|hs|] == hs;
  }

  /** Nothing read yet of the next operand. */
  lemma {:induction false} WaitingSound(hs: seq<Held>, ts: seq<Token>, e: Expr) returns (t: Tree)
    requires Stacked(hs) && Run(Frames(hs), None, ts) == Some(e)
    ensures ParsesAs(t, ReadAll(hs) + ts, e)
    decreases |ts|, |hs|
  {
    hide Frames, Stacked, ReadAll;
    match ts[0]
    case NotT =>
      Snoc(hs, HeldNot);
      t := WaitingSound(hs + [HeldNot], ts[1..], e);
      Moved(ReadAll(hs), [NotT], ts);
    case OpenT =>
      Snoc(hs, HeldOpen);
      t := WaitingSound(hs + [HeldOpen], ts[1..], e);
      Moved(ReadAll(hs), [OpenT], ts);
    case Word(s) =>
      if |ts| >= 3 && ts[1].Rel? && ts[2].Word? {
        t := HoldingSound(hs, Compare(ts[1].rel, s, ts[2].sym), ts[3..], e);
        Moved(ReadAll(hs), [Word(s), ts[1], ts[2]], ts);
      } else {
        t := HoldingSound(hs, Name(s), ts[1..], e);
        Moved(ReadAll(hs), [Word(s)], ts);
      }
  }

  lemma Moved(done: seq<Token>, now: seq<Token>, ts: seq<Token>)
    requires |now| <= |ts| && ts[..|now|] == now
    ensures done + now + ts[|now|..] == done + ts
  {
  }

  /** A complete operand on top. */
  lemma {:induction false} HoldingSound(hs: seq<Held>, v: Tree, ts: seq<Token>, e: Expr) returns (t: Tree)
    requires Stacked(hs) && Carries(hs, v) && (v.Either? ==> ts == [] || ts[0] != AndT)
    requires Run(Frames(hs), Some(Built(v)), ts) == Some(e)
    ensures ParsesAs(t, ReadAll(hs) + Yield(v) + ts, e)
    decreases |ts|, |hs|
  {
    hide Frames, Stacked, ReadAll, Yield;
    if CanReduce(Frames(hs), ts) {
      t := ReduceSound(hs, v, ts, e);
    } else if ts == [] {
      t := v;
      NothingRead(hs);
      assert [] + Yield(v) + [] == Yield(v);
    } else if ts[0] == CloseT {
      t := CloseSound(hs, v, ts, e);
    } else {
      var h := if ts[0] == AndT then HeldAnd(v) else HeldOr(v);
      Snoc(hs, h);
      t := WaitingSound(hs + [h], ts[1..], e);
      assert ReadAll(hs) + (Yield(v) + [ts[0]]) == ReadAll(hs) + Yield(v) + [ts[0]];
      Moved(ReadAll(hs) + Yield(v), [ts[0]], ts);
    }
  }

  lemma NothingRead(hs: seq<Held>)
    requires Frames(hs) == []
    ensures ReadAll(hs) == []
  {
  }

  /** The tree that the top of the stack and the operand make. */
  function Made(h: Held, v: Tree): Tree {
    match h
    case HeldNot => Negation(v)
    case HeldAnd(x) => Both(x, v)
    case HeldOr(x) => Either(x, v)
    case HeldOpen => Paren(v)
  }

  lemma {:induction false} ReduceSound(hs: seq<Held>, v: Tree, ts: seq<Token>, e: Expr) returns (t: Tree)
    requires Stacked(hs) && Carries(hs, v) && (v.Either? ==> ts == [] || ts[0] != AndT)
    requires Run(Frames(hs), Some(Built(v)), ts) == Some(e) && CanReduce(Frames(hs), ts)
    ensures ParsesAs(t, ReadAll(hs) + Yield(v) + ts, e)
    decreases |ts|, |hs|, 0
  {
    assert Frames(hs) != [] && !TopOf(Frames(hs)).OpenF?;
    hide *;
    Popped(hs);
    ReduceMakes(hs, v, ts);
    t := HoldingSound(hs[..|hs| - 1], Made(hs[|hs| - 1], v), ts, e);
    ReadMade(hs, v);
  }

  lemma Popped(hs: seq<Held>)
    requires Frames(hs) != []
    ensures hs != [] && (Stacked(hs) ==> Stacked(hs[..|hs| - 1]) && Above(hs[..|hs| - 1], hs[|hs| - 1]))
  {
  }

  lemma ReduceMakes(hs: seq<Held>, v: Tree, ts: seq<Token>)
    requires hs != [] && Above(hs[..|hs| - 1], hs[|hs| - 1]) && Carries(hs, v)
    requires CanReduce(Frames(hs), ts)
    ensures var below, w := hs[..|hs| - 1], Made(hs[|hs| - 1], v);
      && Carries(below, w) && (w.Either? ==> ts == [] || ts[0] != AndT)
      && Run(Frames(hs), Some(Built(v)), ts) == Run(Frames(below), Some(Built(w)), ts)
  {
    hide Run;
    var below := hs[..|hs| - 1];
    assert Below(Frames(hs)) == Frames(below);
    Reduce(Frames(hs), Built(v), ts);
  }

  /** Reducing moves no token. */
  lemma ReadMade(hs: seq<Held>, v: Tree)
    requires hs != [] && !hs[|hs| - 1].HeldOpen?
    ensures ReadAll(hs[..|hs| - 1]) + Yield(Made(hs[|hs| - 1], v)) == ReadAll(hs) + Yield(v)
  {
    var before, h := ReadAll(hs[..|hs| - 1]), hs[|hs| - 1];
    assert Read(h) + Yield(v) == Yield(Made(h, v));
    assert before + Read(h) + Yield(v) == before + (Read(h) + Yield(v));
  }

  lemma {:induction false} CloseSound(hs: seq<Held>, v: Tree, ts: seq<Token>, e: Expr) returns (t: Tree)
    requires Stacked(hs) && Carries(hs, v) && !CanReduce(Frames(hs), ts)
    requires Run(Frames(hs), Some(Built(v)), ts) == Some(e) && ts != [] && ts[0] == CloseT
    ensures ParsesAs(t, ReadAll(hs) + Yield(v) + ts, e)
    decreases |ts|, |hs|, 0
  {
    hide *;
    Closing(Frames(hs), Built(v), ts);
    FramesPopped(hs);
    Popped(hs);
    CarriesParen(hs, v);
    t := HoldingSound(hs[..|hs| - 1], Paren(v), ts[1..], e);
    ReadParen(hs, v, ts);
  }

  lemma FramesPopped(hs: seq<Held>)
    requires Frames(hs) != []
    ensures hs != [] && TopOf(Frames(hs)) == FrameOf(hs[|hs| - 1]) && Below(Frames(hs)) == Frames(hs[..|hs| - 1])
  {
  }

  lemma CarriesParen(hs: seq<Held>, v: Tree)
    requires hs != [] && Carries(hs, v) && FrameOf(hs[|hs| - 1]) == OpenF
    ensures hs[|hs| - 1] == HeldOpen && Carries(hs[..|hs| - 1], Paren(v)) && Built(Paren(v)) == Built(v)
  {
  }

  lemma Closing(frames: seq<Frame>, v: Expr, ts: seq<Token>)
    requires !CanReduce(frames, ts) && ts != [] && ts[0] == CloseT && Run(frames, Some(v), ts).Some?
    ensures frames != [] && TopOf(frames) == OpenF
    ensures Run(Below(frames), Some(v), ts[1..]) == Run(frames, Some(v), ts)
  {
  }

  lemma ReadParen(hs: seq<Held>, v: Tree, ts: seq<Token>)
    requires hs != [] && hs[|hs| - 1] == HeldOpen && ts != [] && ts[0] == CloseT
    ensures ReadAll(hs[..|hs| - 1]) + Yield(Paren(v)) + ts[1..] == ReadAll(hs) + Yield(v) + ts
  {
    Enclosed(ReadAll(hs[..|hs| - 1]), Yield(v), ts[1..]);
    assert ts == [CloseT] + ts[1..];
  }

  lemma Enclosed(a: seq<Token>, b: seq<Token>, c: seq<Token>)
    ensures a + ([OpenT] + b + [CloseT]) + c == a + [OpenT] + b + ([CloseT] + c)
  {
  }

  // ----- the parser and the grammar -----

  /** The parser accepts what the grammar derives, and builds what the rules
      build; it rejects everything else. */
  lemma ParsesExactly(ts: seq<Token>, e: Expr)
    ensures Run([], None, ts) == Some(e) <==> Derives(ts, e)
  {
    if Run([], None, ts) == Some(e) {
      var t := WaitingSound([], ts, e);
      assert [] + ts == ts;
    }
    if Derives(ts, e) {
      var t :| ParsesAs(t, ts, e);
      TreeRuns([], t, []);
      assert ts + [] == ts;
    }
  }

  /** No sequence of tokens stands for two expressions. */
  lemma Unambiguous(ts: seq<Token>, d: Expr, e: Expr)
    requires Derives(ts, d) && Derives(ts, e)
    ensures d == e
  {
    ParsesExactly(ts, d);
    ParsesExactly(ts, e);
  }

  /** What is printed for an expression is a sentence of the grammar, and
      stands for the expression grouped to the left. */
  lemma PrintedIsDerived(e: Expr)
    ensures Derives(Print(e, Top), Regrouped(e))
  {
    RoundTrip(e);
    ParsesExactly(Print(e, Top), Regrouped(e));
  }

  // ----- no parentheses without need -----

  function Opened(ts: seq<Token>): nat { multiset(ts)[OpenT] }

  lemma OpenedJoined(a: seq<Token>, b: seq<Token>)
    ensures Opened(a + b) == Opened(a) + Opened(b)
  {
  }

  lemma OpenedBetween(a: seq<Token>, sign: Token, b: seq<Token>)
    requires sign != OpenT
    ensures Opened(a + [sign] + b) == Opened(a) + Opened(b)
  {
    OpenedJoined(a, [sign]);
    OpenedJoined(a + [sign], b);
  }

  lemma OpenedEnclosed(a: seq<Token>)
    ensures Opened([OpenT] + a + [CloseT]) == 1 + Opened(a)
  {
    OpenedJoined([OpenT], a);
    OpenedJoined([OpenT] + a, [CloseT]);
  }

  lemma OpenedNegated(a: seq<Token>)
    ensures Opened([NotT] + a) == Opened(a)
  {
    OpenedJoined([NotT], a);
  }

  lemma NoneOpened(ts: seq<Token>)
    requires OpenT !in ts
    ensures Opened(ts) == 0
  {
  }

  /** The parentheses of a tree, and those of the printer. */
  function Parens(t: Tree): nat {
    match t
    case Name(_) => 0
    case Compare(_, _, _) => 0
    case Paren(x) => 1 + Parens(x)
    case Negation(x) => Parens(x)
    case Both(x, y) => Parens(x) + Parens(y)
    case Either(x, y) => Parens(x) + Parens(y)
  }

  function PrintedParens(e: Expr, prev: Outside): nat {
    (if Parenthesised(prev, e) then 1 else 0) +
    match e
    case Sym(_) => 0
    case Cmp(_, _, _) => 0
    case Not(x) => PrintedParens(x, InNot)
    case Bin(c, x, y) => PrintedParens(x, Within(c)) + PrintedParens(y, Within(c))
  }

  lemma {:induction false} YieldParens(t: Tree)
    ensures Opened(Yield(t)) == Parens(t)
  {
    hide Opened;
    match t
    case Name(_) => NoneOpened(Yield(t));
    case Compare(_, _, _) => NoneOpened(Yield(t));
    case Paren(x) =>
      YieldParens(x);
      OpenedEnclosed(Yield(x));
    case Negation(x) =>
      YieldParens(x);
      OpenedNegated(Yield(x));
    case Both(x, y) =>
      YieldParens(x);
      YieldParens(y);
      OpenedBetween(Yield(x), AndT, Yield(y));
    case Either(x, y) =>
      YieldParens(x);
      YieldParens(y);
      OpenedBetween(Yield(x), OrT, Yield(y));
  }

  lemma {:induction false} PrintParens(e: Expr, prev: Outside)
    ensures Opened(Print(e, prev)) == PrintedParens(e, prev)
    decreases e, 1
  {
    hide Opened, Body;
    BodyParens(e);
    OpenedEnclosed(Body(e));
  }

  lemma {:induction false} BodyParens(e: Expr)
    ensures Opened(Body(e)) == PrintedParens(e, Top)
    decreases e, 0
  {
    hide Opened, Print;
    match e
    case Sym(_) => NoneOpened(Body(e));
    case Cmp(_, _, _) => NoneOpened(Body(e));
    case Not(x) =>
      PrintParens(x, InNot);
      OpenedNegated(Print(x, InNot));
    case Bin(c, x, y) =>
      PrintParens(x, Within(c));
      PrintParens(y, Within(c));
      OpenedBetween(Print(x, Within(c)), PrintParse.Sign(c), Print(y, Within(c)));
  }

  /** A tree has the parentheses that the printer would put. */
  lemma {:induction false} NeededParens(t: Tree, prev: Outside)
    requires Ordered(t) && (prev == InNot ==> !Infix(t)) && (prev == InAnd ==> !t.Either?)
    ensures PrintedParens(Built(t), prev) <= Parens(t)
  {
    match t
    case Name(_) =>
    case Compare(_, _, _) =>
    case Paren(x) => NeededParens(x, Top);
    case Negation(x) => NeededParens(x, InNot);
    case Both(x, y) =>
      NeededParens(x, InAnd);
      NeededParens(y, InAnd);
    case Either(x, y) =>
      NeededParens(x, InOr);
      NeededParens(y, InOr);
  }

  lemma {:induction false} AttachParens(c: Connective, a: Expr, b: Expr)
    ensures PrintedParens(Attach(c, a, b), Top) == PrintedParens(a, Within(c)) + PrintedParens(b, Within(c))
  {
    if b.IsBin(c) { AttachParens(c, a, b.l); }
  }

  lemma {:induction false} RegroupedParens(e: Expr, prev: Outside)
    ensures PrintedParens(Regrouped(e), prev) == PrintedParens(e, prev)
  {
    match e
    case Sym(_) =>
    case Cmp(_, _, _) =>
    case Not(x) => RegroupedParens(x, InNot);
    case Bin(c, x, y) =>
      RegroupedParens(x, Within(c));
      RegroupedParens(y, Within(c));
      AttachParens(c, Regrouped(x), Regrouped(y));
  }

  /** Of all the sentences that stand for an expression, up to the grouping of
      its chains, the printed one has the fewest parentheses. */
  lemma FewestParentheses(ts: seq<Token>, d: Expr, e: Expr)
    requires Derives(ts, d) && Regrouped(d) == Regrouped(e)
    ensures Opened(Print(e, Top)) <= Opened(ts)
  {
    var t :| ParsesAs(t, ts, d);
    YieldParens(t);
    NeededParens(t, Top);
    RegroupedParens(d, Top);
    RegroupedParens(e, Top);
    PrintParens(e, Top);
  }
}
