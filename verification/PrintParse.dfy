/** Expressions as tokens: the printer, and the shift/reduce parser for the
    expression rules of the grammar. */
module PrintParse {
  import opened Symbols
  import opened Expressions

  datatype Token = Word(sym: Symbol) | Rel(rel: Relation) | OrT | AndT | NotT | OpenT | CloseT

  // ----- printing -----

  /** What the printer was in the middle of. */
  datatype Outside = Top | InOr | InAnd | InNot

  /** Parentheses go around an operand that binds less than what is outside. */
  predicate Parenthesised(prev: Outside, e: Expr) {
    (prev == InNot && e.Bin?) || (prev == InAnd && e.IsBin(Disj))
  }

  /** `expr_print`. */
  function Print(e: Expr, prev: Outside): seq<Token>
    decreases e, 1
  {
    if Parenthesised(prev, e) then [OpenT] + Body(e) + [CloseT] else Body(e)
  }

  function Body(e: Expr): seq<Token>
    decreases e, 0
  {
    match e
    case Sym(s) => [Word(s)]
    case Cmp(rel, s, t) => [Word(s), Rel(rel), Word(t)]
    case Not(x) => [NotT] + Print(x, InNot)
    case Bin(c, x, y) => Print(x, Within(c)) + [Sign(c)] + Print(y, Within(c))
  }

  function Within(c: Connective): Outside { if c.Conj? then InAnd else InOr }

  function Sign(c: Connective): Token { if c.Conj? then AndT else OrT }

  // ----- parsing -----

  /** What is on the stack below the operand that is being read. */
  datatype Frame = NotF | AndF(left: Expr) | OrF(left: Expr) | OpenF

  /** The parser from a stack of frames, with a complete operand on top or not:
      `!` binds tightest, then `&&`, then `||`, and both group to the left. */
  function Run(frames: seq<Frame>, cur: Option<Expr>, ts: seq<Token>): Option<Expr>
    decreases |ts|, |frames|
  {
    if cur.None? then
      if ts == [] then None
      else match ts[0]
        case NotT => Run(frames + [NotF], None, ts[1..])
        case OpenT => Run(frames + [OpenF], None, ts[1..])
        case Word(s) =>
          if |ts| >= 3 && ts[1].Rel? && ts[2].Word? then Run(frames, Some(Cmp(ts[1].rel, s, ts[2].sym)), ts[3..])
          else Run(frames, Some(Sym(s)), ts[1..])
        case _ => None
    else if CanReduce(frames, ts) then Run(frames[..|frames| - 1], Some(Reduced(frames[|frames| - 1], cur.value)), ts)
    else if ts == [] then if frames == [] then cur else None
    else match ts[0]
      case AndT => Run(frames + [AndF(cur.value)], None, ts[1..])
      case OrT => Run(frames + [OrF(cur.value)], None, ts[1..])
      case CloseT =>
        if frames != [] && frames[|frames| - 1].OpenF? then Run(frames[..|frames| - 1], cur, ts[1..]) else None
      case _ => None
  }

  /** An operand of `||` waits if `&&` follows. */
  predicate CanReduce(frames: seq<Frame>, ts: seq<Token>) {
    frames != [] &&
    match frames[|frames| - 1]
    case NotF => true
    case AndF(_) => true
    case OrF(_) => ts == [] || ts[0] != AndT
    case OpenF => false
  }

  function Reduced(f: Frame, e: Expr): Expr {
    match f
    case NotF => Not(e)
    case AndF(l) => Bin(Conj, l, e)
    case OrF(l) => Bin(Disj, l, e)
    case OpenF => e
  }

  /** The loop over the stack. */
  method Parse(ts: seq<Token>) returns (r: Option<Expr>)
    ensures r == Run([], None, ts)
  {
    var frames: seq<Frame> := [];
    var cur: Option<Expr> := None;
    var i := 0;
    assert ts[0..] == ts;
    while true
      invariant 0 <= i <= |ts|
      invariant Run(frames, cur, ts[i..]) == Run([], None, ts)
      decreases |ts| - i, |frames|
    {
      if i < |ts| { assert ts[i..][0] == ts[i] && ts[i..][1..] == ts[i + 1..]; }
      if cur.None? {
        if i == |ts| { return None; }
        match ts[i]
        case NotT => frames, i := frames + [NotF], i + 1;
        case OpenT => frames, i := frames + [OpenF], i + 1;
        case Word(s) =>
          if i + 3 <= |ts| && ts[i + 1].Rel? && ts[i + 2].Word? {
            assert ts[i..][3..] == ts[i + 3..];
            cur, i := Some(Cmp(ts[i + 1].rel, s, ts[i + 2].sym)), i + 3;
          } else {
            cur, i := Some(Sym(s)), i + 1;
          }
        case _ => return None;
      } else if frames != [] && Reduces(frames[|frames| - 1], i < |ts| && ts[i] == AndT) {
        frames, cur := frames[..|frames| - 1], Some(Reduced(frames[|frames| - 1], cur.value));
      } else if i == |ts| {
        return if frames == [] then cur else None;
      } else {
        match ts[i]
        case AndT => frames, cur, i := frames + [AndF(cur.value)], None, i + 1;
        case OrT => frames, cur, i := frames + [OrF(cur.value)], None, i + 1;
        case CloseT =>
          if frames == [] || !frames[|frames| - 1].OpenF? { return None; }
          frames, i := frames[..|frames| - 1], i + 1;
        case _ => return None;
      }
    }
  }

  predicate Reduces(f: Frame, andNext: bool) {
    f.NotF? || f.AndF? || (f.OrF? && !andNext)
  }

  // ----- regrouping to the left -----

  /** `a` joined with every operand of the chain `b` in turn. */
  function Attach(c: Connective, a: Expr, b: Expr): (r: Expr)
    ensures r.IsBin(c)
  {
    if b.IsBin(c) then Bin(c, Attach(c, a, b.l), b.r) else Bin(c, a, b)
  }

  /** The expression with every chain of one connective grouped to the left. */
  function Regrouped(e: Expr): (r: Expr)
    ensures r.Bin? <==> e.Bin?
    ensures r.Bin? ==> r.op == e.op
  {
    match e
    case Sym(_) => e
    case Cmp(_, _, _) => e
    case Not(x) => Not(Regrouped(x))
    case Bin(c, x, y) => Attach(c, Regrouped(x), Regrouped(y))
  }

  lemma {:induction false} AttachPreserves(c: Connective, a: Expr, b: Expr, env: Env)
    ensures Eval(Attach(c, a, b), env) == c.Apply(Eval(a, env), Eval(b, env))
  {
    if b.IsBin(c) {
      AttachPreserves(c, a, b.l, env);
    }
  }

  /** Regrouping keeps the value in every environment. */
  lemma {:induction false} RegroupedPreserves(e: Expr, env: Env)
    ensures Eval(Regrouped(e), env) == Eval(e, env)
  {
    match e
    case Sym(_) =>
    case Cmp(_, _, _) =>
    case Not(x) => RegroupedPreserves(x, env);
    case Bin(c, x, y) =>
      RegroupedPreserves(x, env);
      RegroupedPreserves(y, env);
      AttachPreserves(c, Regrouped(x), Regrouped(y), env);
  }

  /** The operands of a chain, from left to right. */
  function Chain(c: Connective, e: Expr): seq<Expr> {
    if e.IsBin(c) then Chain(c, e.l) + Chain(c, e.r) else [e]
  }

  lemma {:induction false} AttachChain(c: Connective, a: Expr, b: Expr)
    ensures Chain(c, Attach(c, a, b)) == Chain(c, a) + Chain(c, b)
  {
    if b.IsBin(c) {
      AttachChain(c, a, b.l);
    }
  }

  /** Only the grouping changes: the operands of every chain stay in order. */
  lemma {:induction false} RegroupedChain(c: Connective, e: Expr)
    ensures |Chain(c, Regrouped(e))| == |Chain(c, e)|
    ensures forall i | 0 <= i < |Chain(c, e)| :: Chain(c, Regrouped(e))[i] == Regrouped(Chain(c, e)[i])
  {
    if e.IsBin(c) {
      RegroupedChain(c, e.l);
      RegroupedChain(c, e.r);
      AttachChain(c, Regrouped(e.l), Regrouped(e.r));
    }
  }

  lemma {:induction false} AttachAssociates(c: Connective, x: Expr, a: Expr, b: Expr)
    ensures Attach(c, Attach(c, x, a), b) == Attach(c, x, Attach(c, a, b))
  {
    if b.IsBin(c) {
      AttachAssociates(c, x, a, b.l);
    }
  }

  /** A regrouped expression stays as it is. */
  lemma {:induction false} RegroupedIdempotent(e: Expr)
    ensures Regrouped(Regrouped(e)) == Regrouped(e)
  {
    match e
    case Sym(_) =>
    case Cmp(_, _, _) =>
    case Not(x) => RegroupedIdempotent(x);
    case Bin(c, x, y) =>
      RegroupedIdempotent(x);
      RegroupedIdempotent(y);
      AttachRegrouped(c, Regrouped(x), Regrouped(y));
  }

  lemma {:induction false} AttachRegrouped(c: Connective, a: Expr, b: Expr)
    requires Regrouped(a) == a && Regrouped(b) == b
    ensures Regrouped(Attach(c, a, b)) == Attach(c, a, b)
  {
    if b.IsBin(c) {
      LeftGrouped(b);
      AttachRegrouped(c, a, b.l);
      assert Regrouped(Bin(c, Attach(c, a, b.l), b.r)) == Attach(c, Attach(c, a, b.l), b.r);
    }
  }

  /** In a regrouped chain the right operand is no chain of the same connective. */
  lemma {:induction false} LeftGrouped(b: Expr)
    requires b.Bin? && Regrouped(b) == b
    ensures !b.r.IsBin(b.op) && Regrouped(b.l) == b.l && Regrouped(b.r) == b.r
  {
    var c, x, y := b.op, Regrouped(b.l), Regrouped(b.r);
    AttachEnds(c, x, y);
    RegroupedSize(b.l);
    RegroupedSize(b.r);
    AttachSize(c, x, y);
  }

  lemma AttachEnds(c: Connective, a: Expr, b: Expr)
    ensures var r := Attach(c, a, b);
      if b.IsBin(c) then r.r == b.r && r.l == Attach(c, a, b.l) else r.r == b && r.l == a
  {
  }

  lemma {:induction false} AttachSize(c: Connective, a: Expr, b: Expr)
    ensures Size(Attach(c, a, b)) == 1 + Size(a) + Size(b)
  {
    if b.IsBin(c) { AttachSize(c, a, b.l); }
  }

  lemma {:induction false} RegroupedSize(e: Expr)
    ensures Size(Regrouped(e)) == Size(e)
  {
    match e
    case Sym(_) =>
    case Cmp(_, _, _) =>
    case Not(x) => RegroupedSize(x);
    case Bin(c, x, y) =>
      RegroupedSize(x);
      RegroupedSize(y);
      AttachSize(c, Regrouped(x), Regrouped(y));
  }

  // ----- the round trip -----

  function TopOf(frames: seq<Frame>): Frame
    requires frames != []
  {
    frames[|frames| - 1]
  }

  function Below(frames: seq<Frame>): seq<Frame>
    requires frames != []
  {
    frames[..|frames| - 1]
  }

  predicate AtBottom(frames: seq<Frame>) {
    frames == [] || TopOf(frames).OpenF?
  }

  /** The stacks that can be there when an operand is printed inside `prev`. */
  predicate Fits(frames: seq<Frame>, prev: Outside) {
    if AtBottom(frames) then prev != InNot
    else match TopOf(frames)
      case NotF => prev == InNot
      case AndF(_) => prev == InAnd && (AtBottom(Below(frames)) || TopOf(Below(frames)).OrF?)
      case OrF(_) => (prev == InOr || prev == InAnd) && AtBottom(Below(frames))
  }

  /** What can follow the operand. */
  predicate Follows(prev: Outside, rest: seq<Token>) {
    rest == [] || (!rest[0].Rel? && (rest[0] == AndT ==> prev == InAnd || prev == InNot))
  }

  /** The run after the operand `v` was read: it joins the chain on the stack. */
  function Fed(frames: seq<Frame>, v: Expr, prev: Outside, rest: seq<Token>): Option<Expr> {
    if AtBottom(frames) then Run(frames, Some(v), rest)
    else match TopOf(frames)
      case AndF(x) => Run(Below(frames), Some(Attach(Conj, x, v)), rest)
      case OrF(x) =>
        if prev == InOr then
          var chain := Attach(Disj, x, v);
          Run(Below(frames) + [OrF(chain.l)], Some(chain.r), rest)
        else Run(frames, Some(v), rest)
      case _ => Run(frames, Some(v), rest)
  }

  lemma Reduce(frames: seq<Frame>, v: Expr, rest: seq<Token>)
    requires CanReduce(frames, rest)
    ensures Run(frames, Some(v), rest) == Run(Below(frames), Some(Reduced(TopOf(frames), v)), rest)
  {
  }

  lemma Shift(frames: seq<Frame>, v: Expr, c: Connective, rest: seq<Token>)
    requires !CanReduce(frames, [Sign(c)] + rest)
    ensures Run(frames, Some(v), [Sign(c)] + rest) == Run(frames + [if c.Conj? then AndF(v) else OrF(v)], None, rest)
  {
    var ts := [Sign(c)] + rest;
    assert ts[1..] == rest;
  }

  lemma Open(frames: seq<Frame>, rest: seq<Token>)
    ensures Run(frames, None, [OpenT] + rest) == Run(frames + [OpenF], None, rest)
  {
    var ts := [OpenT] + rest;
    assert ts[1..] == rest;
  }

  lemma Close(frames: seq<Frame>, v: Expr, rest: seq<Token>)
    ensures Run(frames + [OpenF], Some(v), [CloseT] + rest) == Run(frames, Some(v), rest)
  {
    var ts, f := [CloseT] + rest, frames + [OpenF];
    assert ts[1..] == rest && f[..|f| - 1] == frames;
  }

  /** An operand that is no chain of the connective on the stack is just put there. */
  lemma FedSingle(frames: seq<Frame>, v: Expr, prev: Outside, rest: seq<Token>)
    requires !AtBottom(frames) && TopOf(frames).AndF? ==> !v.IsBin(Conj)
    requires !AtBottom(frames) && TopOf(frames).OrF? && prev == InOr ==> !v.IsBin(Disj)
    ensures Fed(frames, v, prev, rest) == Run(frames, Some(v), rest)
  {
    if !AtBottom(frames) {
      assert frames == Below(frames) + [TopOf(frames)];
      if TopOf(frames).AndF? { Reduce(frames, v, rest); }
    }
  }

  lemma Pushed(frames: seq<Frame>, f: Frame)
    ensures TopOf(frames + [f]) == f && Below(frames + [f]) == frames
  {
  }

  /** Reading what was printed for an expression without parentheses. */
  lemma {:induction false} BodyRuns(frames: seq<Frame>, e: Expr, prev: Outside, rest: seq<Token>)
    requires Fits(frames, prev) && Follows(prev, rest) && !Parenthesised(prev, e)
    ensures Run(frames, None, Body(e) + rest) == Fed(frames, Regrouped(e), prev, rest)
    decreases e, 1
  {
    match e
    case Sym(s) =>
      WordRuns(frames, s, rest);
      FedSingle(frames, e, prev, rest);
    case Cmp(rel, s, t) =>
      var ts := Body(e) + rest;
      assert ts[3..] == rest && ts[1] == Rel(rel) && ts[2] == Word(t);
      FedSingle(frames, e, prev, rest);
    case Not(x) => NotRuns(frames, x, prev, rest);
    case Bin(c, x, y) => BinRuns(frames, c, x, y, prev, rest);
  }

  lemma WordRuns(frames: seq<Frame>, s: Symbol, rest: seq<Token>)
    requires rest == [] || !rest[0].Rel?
    ensures Run(frames, None, [Word(s)] + rest) == Run(frames, Some(Sym(s)), rest)
  {
    var ts := [Word(s)] + rest;
    assert ts[1..] == rest;
  }

  lemma {:induction false} NotRuns(frames: seq<Frame>, x: Expr, prev: Outside, rest: seq<Token>)
    requires Fits(frames, prev) && Follows(prev, rest)
    ensures Run(frames, None, Body(Not(x)) + rest) == Fed(frames, Not(Regrouped(x)), prev, rest)
    decreases x, 3
  {
    var ts := Body(Not(x)) + rest;
    assert ts[0] == NotT && ts[1..] == Print(x, InNot) + rest;
    assert Run(frames, None, ts) == Run(frames + [NotF], None, Print(x, InNot) + rest);
    Pushed(frames, NotF);
    PrintRuns(frames + [NotF], x, InNot, rest);
    Reduce(frames + [NotF], Regrouped(x), rest);
    FedSingle(frames, Not(Regrouped(x)), prev, rest);
  }

  lemma {:induction false} BinRuns(frames: seq<Frame>, c: Connective, x: Expr, y: Expr, prev: Outside, rest: seq<Token>)
    requires Fits(frames, prev) && Follows(prev, rest) && !Parenthesised(prev, Bin(c, x, y))
    ensures Run(frames, None, Body(Bin(c, x, y)) + rest)
      == Fed(frames, Attach(c, Regrouped(x), Regrouped(y)), prev, rest)
    decreases Bin(c, x, y), 0
  {
    hide Run, Print;
    var more := Print(y, Within(c)) + rest;
    assert Body(Bin(c, x, y)) + rest == Print(x, Within(c)) + ([Sign(c)] + more);
    PrintRuns(frames, x, Within(c), [Sign(c)] + more);
    var a, b := Regrouped(x), Regrouped(y);
    if c.Conj? {
      AndRuns(frames, a, b, more, prev, rest, y);
    } else {
      OrRuns(frames, a, b, more, prev, rest, y);
    }
  }

  lemma {:induction false} AndRuns(frames: seq<Frame>, a: Expr, b: Expr, more: seq<Token>, prev: Outside,
      rest: seq<Token>, y: Expr)
    requires Fits(frames, prev) && Follows(prev, rest) && prev != InNot && more == Print(y, InAnd) + rest
    requires b == Regrouped(y)
    ensures Fed(frames, a, InAnd, [AndT] + more) == Fed(frames, Attach(Conj, a, b), prev, rest)
    decreases y, 3
  {
    hide Run, Print;
    if !AtBottom(frames) && TopOf(frames).AndF? {
      var x, below := TopOf(frames).left, Below(frames);
      var chain := Attach(Conj, x, a);
      Shift(below, chain, Conj, more);
      Pushed(below, AndF(chain));
      PrintRuns(below + [AndF(chain)], y, InAnd, rest);
      AttachAssociates(Conj, x, a, b);
    } else {
      Shift(frames, a, Conj, more);
      Pushed(frames, AndF(a));
      PrintRuns(frames + [AndF(a)], y, InAnd, rest);
      FedSingle(frames, Attach(Conj, a, b), prev, rest);
    }
  }

  lemma {:induction false} OrRuns(frames: seq<Frame>, a: Expr, b: Expr, more: seq<Token>, prev: Outside,
      rest: seq<Token>, y: Expr)
    requires Fits(frames, prev) && Follows(prev, rest) && (prev == Top || prev == InOr) && more == Print(y, InOr) + rest
    requires b == Regrouped(y)
    ensures Fed(frames, a, InOr, [OrT] + more) == Fed(frames, Attach(Disj, a, b), prev, rest)
    decreases y, 3
  {
    hide Run, Print, Attach, Regrouped;
    if !AtBottom(frames) {
      var x, below := TopOf(frames).left, Below(frames);
      var chain := Attach(Disj, x, a);
      Pushed(below, OrF(chain.l));
      Reduce(below + [OrF(chain.l)], chain.r, [OrT] + more);
      Shift(below, chain, Disj, more);
      Pushed(below, OrF(chain));
      PrintRuns(below + [OrF(chain)], y, InOr, rest);
      AttachAssociates(Disj, x, a, b);
    } else {
      Shift(frames, a, Disj, more);
      Pushed(frames, OrF(a));
      PrintRuns(frames + [OrF(a)], y, InOr, rest);
      var chain := Attach(Disj, a, b);
      Pushed(frames, OrF(chain.l));
      Reduce(frames + [OrF(chain.l)], chain.r, rest);
    }
  }

  lemma {:induction false} PrintRuns(frames: seq<Frame>, e: Expr, prev: Outside, rest: seq<Token>)
    requires Fits(frames, prev) && Follows(prev, rest)
    ensures Run(frames, None, Print(e, prev) + rest) == Fed(frames, Regrouped(e), prev, rest)
    decreases e, 2
  {
    if Parenthesised(prev, e) {
      assert Print(e, prev) + rest == [OpenT] + (Body(e) + ([CloseT] + rest));
      hide Run, Print, Body, Regrouped;
      Open(frames, Body(e) + ([CloseT] + rest));
      Pushed(frames, OpenF);
      BodyRuns(frames + [OpenF], e, Top, [CloseT] + rest);
      Close(frames, Regrouped(e), rest);
      FedSingle(frames, Regrouped(e), prev, rest);
    } else {
      BodyRuns(frames, e, prev, rest);
    }
  }

  /** Printing an expression and parsing the tokens gives the expression back,
      with its chains grouped to the left; hence the same value everywhere. */
  lemma RoundTrip(e: Expr)
    ensures Run([], None, Print(e, Top)) == Some(Regrouped(e))
    ensures forall env: Env :: Eval(Regrouped(e), env) == Eval(e, env)
  {
    assert Print(e, Top) + [] == Print(e, Top);
    PrintRuns([], e, Top, []);
    forall env: Env ensures Eval(Regrouped(e), env) == Eval(e, env) {
      RegroupedPreserves(e, env);
    }
  }

  /** What was printed and parsed once comes back unchanged from then on. */
  lemma RoundTripStable(e: Expr)
    ensures Run([], None, Print(Regrouped(e), Top)) == Some(Regrouped(e))
  {
    RoundTrip(Regrouped(e));
    RegroupedIdempotent(e);
  }
}
