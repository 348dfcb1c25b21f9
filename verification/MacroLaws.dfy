/** What references to macros expand to, in terms of the text of the reference. */
module MacroLaws {
  import opened Symbols
  import opened Expressions
  import opened MacroSemantics
  import opened Numerals

  // ----- plain text in a clause -----

  /** No reference begins in the text, and none begins at its end. */
  predicate Inert(s: string) {
    PlainText(s) && (s == "" || s[|s| - 1] != '$')
  }

  lemma {:induction false} InertClosed(s: string)
    requires Inert(s)
    ensures Closed(s)
  {
    if s != "" {
      PlainTail(s);
      InertClosed(s[1..]);
    }
  }

  lemma PlainTail(s: string)
    requires Inert(s) && s != ""
    ensures Inert(s[1..]) && (s[0] == '$' ==> |s| > 1 && s[1] != '(')
  {
    forall i | 0 <= i < |s[1..]| - 1 ensures s[1..][i] == '$' ==> s[1..][i + 1] != '(' {
      assert s[1..][i] == s[i + 1] && s[1..][i + 1] == s[i + 2];
    }
  }

  /** Parentheses are closed in the order in which they are opened. */
  predicate Balanced(s: string, nest: int) {
    if s == "" then nest == 0 else Deeper(nest, s[0]) >= 0 && Balanced(s[1..], Deeper(nest, s[0]))
  }

  /** Text that can be a part of a clause. */
  predicate APart(s: string) {
    Balanced(s, 0) && !OuterComma(s, 0)
  }

  lemma {:induction false} BalancedNesting(s: string, nest: int)
    requires Balanced(s, nest)
    ensures Nesting(s, nest) == 0
  {
    if s != "" { BalancedNesting(s[1..], Deeper(nest, s[0])); }
  }

  lemma {:induction false} BalancedAppend(s: string, t: string, nest: int)
    requires Balanced(s, nest) && Balanced(t, 0)
    ensures Balanced(s + t, nest)
  {
    if s == "" {
      assert s + t == t;
    } else {
      assert (s + t)[1..] == s[1..] + t;
      BalancedAppend(s[1..], t, Deeper(nest, s[0]));
    }
  }

  lemma {:induction false} BalancedClosing(s: string, t: string, nest: nat)
    requires Balanced(s, nest)
    ensures Closing(s + ")" + t, nest) == Some(|s|)
  {
    var u := s + ")" + t;
    if s == "" {
      assert u[0] == ')';
    } else {
      assert u[0] == s[0] && u[1..] == s[1..] + ")" + t;
      BalancedClosing(s[1..], t, Deeper(nest, s[0]));
    }
  }

  lemma {:induction false} PartsBalanced(parts: seq<string>)
    requires parts != [] && forall i | 0 <= i < |parts| :: APart(parts[i])
    ensures Balanced(WithCommas(parts), 0) && Separate(parts, 0)
  {
    BalancedNesting(parts[0], 0);
    if |parts| > 1 {
      PartsBalanced(parts[1..]);
      var rest := WithCommas(parts[1..]);
      assert Balanced("," + rest, 0) by { assert ("," + rest)[1..] == rest; }
      BalancedAppend(parts[0], "," + rest, 0);
      assert WithCommas(parts) == parts[0] + ("," + rest);
    }
  }

  /** The texts expand to the values. */
  ghost predicate Expand(setup: Setup, vars: seq<Variable>, counts: seq<nat>, texts: seq<string>, values: seq<string>,
      outer: seq<string>)
    requires |counts| == |vars|
  {
    |texts| == |values| &&
    forall i | 0 <= i < |texts| :: Expansion(setup, vars, counts, texts[i], outer) == Done(values[i])
  }

  lemma {:induction false} PartsExpand(setup: Setup, vars: seq<Variable>, counts: seq<nat>, parts: seq<string>,
      values: seq<string>, outer: seq<string>, bound: nat)
    requires |counts| == |vars| && forall i | 0 <= i < |parts| :: |parts[i]| <= bound
    requires Expand(setup, vars, counts, parts, values, outer)
    ensures ExpandedParts(setup, vars, counts, parts, outer, bound) == Done(values)
  {
    hide Expansion;
    if parts != [] {
      PartsExpand(setup, vars, counts, parts[1..], values[1..], outer, bound);
      assert [values[0]] + values[1..] == values;
    }
  }

  lemma {:induction false} PartFails(setup: Setup, vars: seq<Variable>, counts: seq<nat>, parts: seq<string>,
      values: seq<string>, outer: seq<string>, bound: nat, k: nat, why: Failure)
    requires |counts| == |vars| && forall i | 0 <= i < |parts| :: |parts[i]| <= bound
    requires k < |parts| && Expand(setup, vars, counts, parts[..k], values, outer)
    requires Expansion(setup, vars, counts, parts[k], outer) == Failed(why)
    ensures ExpandedParts(setup, vars, counts, parts, outer, bound) == Failed(why)
  {
    hide Expansion;
    if k > 0 {
      assert parts[..k][0] == parts[0];
      assert parts[..k][1..] == parts[1..][..k - 1];
      PartFails(setup, vars, counts, parts[1..], values[1..], outer, bound, k - 1, why);
    }
  }

  /** The text of a reference: a name and arguments, with commas between them. */
  function Reference(parts: seq<string>): string
    requires parts != []
  {
    "$(" + WithCommas(parts) + ")"
  }

  /** The clause is not the number of an argument of the expansion around it. */
  predicate NoArgument(parts: seq<string>, outer: seq<string>)
    requires parts != []
  {
    var n := ArgumentNumber(WithCommas(parts));
    n == 0 || n > |outer|
  }

  /** The parts of a reference that is neither malformed nor an argument. */
  predicate Proper(parts: seq<string>, outer: seq<string>) {
    parts != [] && NoArgument(parts, outer) && forall i | 0 <= i < |parts| :: APart(parts[i])
  }

  /** The reference with these parts calls `name` with the arguments `args`. */
  ghost predicate Calls(setup: Setup, vars: seq<Variable>, counts: seq<nat>, parts: seq<string>, name: string,
      args: seq<string>, outer: seq<string>)
  {
    && |counts| == |vars| && Proper(parts, outer) && |parts| <= 16
    && Expand(setup, vars, counts, parts, [name] + args, outer)
  }

  lemma ReferenceEvaluates(setup: Setup, vars: seq<Variable>, counts: seq<nat>, parts: seq<string>,
      outer: seq<string>)
    requires |counts| == |vars| && Proper(parts, outer)
    ensures Parts(WithCommas(parts), 0) == parts
    ensures Expansion(setup, vars, counts, Reference(parts), outer)
         == Evaluated(setup, vars, counts, WithCommas(parts), outer)
  {
    hide Expansion, Evaluated, ArgumentNumber, Parts, WithCommas, Balanced;
    var clause, s := WithCommas(parts), Reference(parts);
    PartsBalanced(parts);
    PartsFound(parts, 0);
    BalancedClosing(clause, "", 0);
    assert s[2..] == clause + ")" + "" && s[2..2 + |clause|] == clause && s[3 + |clause|..] == "";
    ExpandReference(setup, vars, counts, s, outer, |clause|);
    ExpandNothing(setup, vars, counts, outer);
    ThenDone(Evaluated(setup, vars, counts, clause, outer));
  }

  /** Name and arguments are expanded first, and what they give is used. */
  lemma ReferenceApplies(setup: Setup, vars: seq<Variable>, counts: seq<nat>, parts: seq<string>, name: string,
      args: seq<string>, outer: seq<string>)
    requires Calls(setup, vars, counts, parts, name, args, outer)
    ensures Expansion(setup, vars, counts, Reference(parts), outer) == Applied(setup, vars, counts, name, args)
  {
    hide Expansion, Applied, ArgumentNumber, Reference, APart;
    ReferenceEvaluates(setup, vars, counts, parts, outer);
    PartsExpand(setup, vars, counts, parts, [name] + args, outer, |WithCommas(parts)|);
    assert ([name] + args)[1..] == args;
  }

  /** Only what name and arguments expand to matters. */
  lemma CallByValue(setup: Setup, vars: seq<Variable>, counts: seq<nat>, p: seq<string>, q: seq<string>, name: string,
      args: seq<string>, outer: seq<string>)
    requires Calls(setup, vars, counts, p, name, args, outer) && Calls(setup, vars, counts, q, name, args, outer)
    ensures Expansion(setup, vars, counts, Reference(p), outer) == Expansion(setup, vars, counts, Reference(q), outer)
  {
    hide Expansion, Applied, Reference;
    ReferenceApplies(setup, vars, counts, p, name, args, outer);
    ReferenceApplies(setup, vars, counts, q, name, args, outer);
  }

  /** The first part that cannot be expanded makes the reference fail, for its reason. */
  lemma ReferenceFails(setup: Setup, vars: seq<Variable>, counts: seq<nat>, parts: seq<string>,
      values: seq<string>, outer: seq<string>, k: nat, why: Failure)
    requires |counts| == |vars| && Proper(parts, outer)
    requires k < |parts| <= 16 && Expand(setup, vars, counts, parts[..k], values, outer)
    requires Expansion(setup, vars, counts, parts[k], outer) == Failed(why)
    ensures Expansion(setup, vars, counts, Reference(parts), outer) == Failed(why)
  {
    hide Expansion, Applied, ArgumentNumber, Reference, APart;
    ReferenceEvaluates(setup, vars, counts, parts, outer);
    PartFails(setup, vars, counts, parts, values, outer, |WithCommas(parts)|, k, why);
  }

  /** A name and fifteen arguments are the most that a reference can have. */
  lemma TooManyLaw(setup: Setup, vars: seq<Variable>, counts: seq<nat>, parts: seq<string>, outer: seq<string>)
    requires |counts| == |vars| && |parts| > 16 && forall i | 0 <= i < |parts| :: APart(parts[i])
    ensures Expansion(setup, vars, counts, Reference(parts), outer) == Failed(TooManyArguments)
  {
    CallNoArgument(parts, outer);
    ReferenceEvaluates(setup, vars, counts, parts, outer);
  }

  lemma ThenDone(o: Outcome<string>)
    ensures Then(o, Done("")) == o
  {
    assert o.Done? ==> o.value + "" == o.value;
  }

  // ----- numbers -----

  lemma {:induction false} DigitsAppend(t: string, c: char, v: nat)
    requires Digits(t, v).Some? && IsDigit(c)
    ensures Digits(t + [c], v) == Some(Digits(t, v).value * 10 + (c - '0') as nat)
  {
    var s := t + [c];
    if t == "" {
      assert s[1..] == "";
    } else {
      assert s[0] == t[0] && s[1..] == t[1..] + [c];
      DigitsAppend(t[1..], c, v * 10 + (t[0] - '0') as nat);
    }
  }

  lemma DecimalDigit(k: nat)
    requires k < 10
    ensures IsDigit(DIGITS[k]) && (DIGITS[k] - '0') as nat == k
  {
  }

  lemma {:induction false} NumeralDigits(n: nat)
    ensures Digits(Numeral(n, 10), 0) == Some(n)
    ensures forall i | 0 <= i < |Numeral(n, 10)| :: IsDigit(Numeral(n, 10)[i])
  {
    if n < 10 {
      DecimalDigit(n);
      assert Numeral(n, 10)[1..] == "";
    } else {
      NumeralDigits(n / 10);
      DecimalDigit(n % 10);
      DigitsAppend(Numeral(n / 10, 10), DIGITS[n % 10], 0);
    }
  }

  lemma NumberOfNumeral(n: nat)
    requires n <= ULONG_MAX
    ensures ArgumentNumber(Numeral(n, 10)) == n
  {
    NumeralDigits(n);
    hide Numeral, Digits;
    assert IsDigit(Numeral(n, 10)[0]);
  }

  /** A clause with a comma is not a number. */
  lemma {:induction false} CommaNoNumber(s: string)
    requires ',' in s
    ensures ArgumentNumber(s) == 0
  {
    assert s == [s[0]] + s[1..];
    if IsSpace(s[0]) {
      CommaNoNumber(s[1..]);
    } else {
      var digits := if s[0] == '-' || s[0] == '+' then s[1..] else s;
      assert ',' in digits;
      CommaNoDigits(digits, 0);
    }
  }

  lemma {:induction false} CommaNoDigits(s: string, v: nat)
    requires ',' in s
    ensures Digits(s, v) == None
  {
    assert s == [s[0]] + s[1..];
    if IsDigit(s[0]) { CommaNoDigits(s[1..], v * 10 + (s[0] - '0') as nat); }
  }

  lemma CallNoArgument(parts: seq<string>, outer: seq<string>)
    requires |parts| > 1
    ensures NoArgument(parts, outer)
  {
    var s := WithCommas(parts);
    assert s == parts[0] + "," + WithCommas(parts[1..]);
    assert s[|parts[0]|] == ',';
    CommaNoNumber(s);
  }

  // ----- arguments -----

  /** The text of `$(k)`. */
  function ArgumentText(k: nat): string {
    "$(" + Numeral(k, 10) + ")"
  }

  lemma {:induction false} DigitsBalanced(s: string)
    requires forall i | 0 <= i < |s| :: IsDigit(s[i])
    ensures Balanced(s, 0)
  {
    if s != "" {
      assert forall i | 0 <= i < |s[1..]| :: s[1..][i] == s[i + 1];
      DigitsBalanced(s[1..]);
    }
  }

  /** `$(k)` is the k-th argument of the call that is being expanded, counted from 1. */
  lemma ArgumentLaw(setup: Setup, vars: seq<Variable>, counts: seq<nat>, k: nat, args: seq<string>)
    requires |counts| == |vars| && 1 <= k <= |args| && k <= ULONG_MAX
    ensures Closed(ArgumentText(k))
    ensures Expansion(setup, vars, counts, ArgumentText(k), args) == Done(args[k - 1])
  {
    var s, clause := ArgumentText(k), Numeral(k, 10);
    NumeralDigits(k);
    NumberOfNumeral(k);
    DigitsBalanced(clause);
    BalancedClosing(clause, "", 0);
    assert s[2..] == clause + ")" + "" && s[2..2 + |clause|] == clause && s[3 + |clause|..] == "";
    assert Closed("");
    assert Evaluated(setup, vars, counts, clause, args) == Done(args[k - 1]);
    hide Expansion, Evaluated, Numeral, Balanced, ArgumentNumber;
    ExpandReference(setup, vars, counts, s, args, |clause|);
    ExpandNothing(setup, vars, counts, args);
    ThenDone(Done(args[k - 1]));
  }

  // ----- calls -----

  /** A piece of a macro body: plain text, an argument, or text with references. */
  datatype Piece = Literal(text: string) | Argument(k: nat) | Nested(text: string, value: string)

  ghost predicate WellPlaced(setup: Setup, vars: seq<Variable>, counts: seq<nat>, p: Piece, args: seq<string>)
    requires |counts| == |vars|
  {
    match p
    case Literal(text) => Inert(text)
    case Argument(k) => 1 <= k <= |args| && k <= ULONG_MAX
    case Nested(text, value) => Closed(text) && Expansion(setup, vars, counts, text, args) == Done(value)
  }

  function PieceText(p: Piece): string {
    match p
    case Literal(text) => text
    case Argument(k) => ArgumentText(k)
    case Nested(text, _) => text
  }

  /** The text of a macro body. */
  function Template(ps: seq<Piece>): string {
    if ps == [] then "" else PieceText(ps[0]) + Template(ps[1..])
  }

  /** The body with the arguments in their places. */
  function Filled(ps: seq<Piece>, args: seq<string>): string {
    if ps == [] then "" else PieceValue(ps[0], args) + Filled(ps[1..], args)
  }

  function PieceValue(p: Piece, args: seq<string>): string {
    match p
    case Literal(text) => text
    case Argument(k) => if 1 <= k <= |args| then args[k - 1] else ""
    case Nested(_, value) => value
  }

  /** A body expands to the body with the arguments filled in. */
  lemma {:induction false} BodyExpands(setup: Setup, vars: seq<Variable>, counts: seq<nat>, ps: seq<Piece>,
      args: seq<string>)
    requires |counts| == |vars| && forall i | 0 <= i < |ps| :: WellPlaced(setup, vars, counts, ps[i], args)
    ensures Expansion(setup, vars, counts, Template(ps), args) == Done(Filled(ps, args))
  {
    hide Expansion;
    if ps == [] {
      ExpandNothing(setup, vars, counts, args);
    } else {
      BodyExpands(setup, vars, counts, ps[1..], args);
      PieceExpands(setup, vars, counts, ps[0], args);
      ExpansionAppend(setup, vars, counts, PieceText(ps[0]), Template(ps[1..]), args);
    }
  }

  lemma PieceExpands(setup: Setup, vars: seq<Variable>, counts: seq<nat>, p: Piece, args: seq<string>)
    requires |counts| == |vars| && WellPlaced(setup, vars, counts, p, args)
    ensures Closed(PieceText(p))
    ensures Expansion(setup, vars, counts, PieceText(p), args) == Done(PieceValue(p, args))
  {
    hide Expansion;
    match p
    case Literal(text) =>
      InertClosed(text);
      PlainExpansion(setup, vars, counts, text, args);
    case Argument(k) => ArgumentLaw(setup, vars, counts, k, args);
    case Nested(_, _) =>
  }

  /** The first variable of that name. */
  ghost predicate Names(vars: seq<Variable>, i: nat, name: string) {
    i < |vars| && vars[i].name == name && forall j | 0 <= j < i :: vars[j].name != name
  }

  ghost predicate Unnamed(vars: seq<Variable>, name: string) {
    forall j | 0 <= j < |vars| :: vars[j].name != name
  }

  lemma FindsNamed(vars: seq<Variable>, i: nat, name: string)
    ensures Names(vars, i, name) ==> Find(vars, name) == Some(i)
    ensures Unnamed(vars, name) ==> Find(vars, name) == None
  {
  }

  /** A call of a recursive variable gives its body with the arguments filled in. */
  lemma CallLaw(setup: Setup, vars: seq<Variable>, counts: seq<nat>, parts: seq<string>, name: string,
      args: seq<string>, outer: seq<string>, i: nat, body: seq<Piece>)
    requires Calls(setup, vars, counts, parts, name, args, outer)
    requires Names(vars, i, name) && vars[i].flavor == Recursive && vars[i].value == Template(body)
    requires counts[i] <= 1000 && (args == [] ==> counts[i] == 0)
    requires forall j | 0 <= j < |body| :: WellPlaced(setup, vars, counts[i := counts[i] + 1], body[j], args)
    ensures Expansion(setup, vars, counts, Reference(parts), outer) == Done(Filled(body, args))
  {
    ReferenceApplies(setup, vars, counts, parts, name, args, outer);
    hide *;
    FindsNamed(vars, i, name);
    AppliedRecursive(setup, vars, counts, name, args, i);
    BodyExpands(setup, vars, counts[i := counts[i] + 1], body, args);
  }

  lemma AppliedRecursive(setup: Setup, vars: seq<Variable>, counts: seq<nat>, name: string, args: seq<string>, i: nat)
    requires |counts| == |vars| && Find(vars, name) == Some(i) && i < |vars| && vars[i].flavor == Recursive
    requires counts[i] <= 1000 && (args == [] ==> counts[i] == 0)
    ensures Applied(setup, vars, counts, name, args)
         == Expansion(setup, vars, counts[i := counts[i] + 1], vars[i].value, args)
  {
    hide Expansion;
  }

  /** A simple variable gives its text, and hides a built-in function of that name. */
  lemma SimpleLaw(setup: Setup, vars: seq<Variable>, counts: seq<nat>, parts: seq<string>, name: string,
      args: seq<string>, outer: seq<string>, i: nat)
    requires Calls(setup, vars, counts, parts, name, args, outer)
    requires Names(vars, i, name) && vars[i].flavor == Simple
    requires counts[i] <= 1000 && (args == [] ==> counts[i] == 0)
    ensures Expansion(setup, vars, counts, Reference(parts), outer) == Done(vars[i].value)
  {
    hide Expansion, Reference, Proper;
    ReferenceApplies(setup, vars, counts, parts, name, args, outer);
    FindsNamed(vars, i, name);
  }

  /** A variable that is being expanded may be used again only with arguments, and
      only so often. */
  lemma RecursionLaw(setup: Setup, vars: seq<Variable>, counts: seq<nat>, parts: seq<string>, name: string,
      args: seq<string>, outer: seq<string>, i: nat)
    requires Calls(setup, vars, counts, parts, name, args, outer) && Names(vars, i, name)
    ensures args == [] && counts[i] > 0 ==>
      Expansion(setup, vars, counts, Reference(parts), outer) == Failed(SelfReference)
    ensures args != [] && counts[i] > 1000 ==>
      Expansion(setup, vars, counts, Reference(parts), outer) == Failed(TooDeep)
  {
    hide Expansion, Reference, Proper;
    ReferenceApplies(setup, vars, counts, parts, name, args, outer);
    FindsNamed(vars, i, name);
  }

  // ----- built-in functions and the environment -----

  const BUILTINS: set<string> := {"error-if", "filename", "info", "lineno", "shell", "warning-if"}

  /** A built-in function hides the environment, unless a variable hides the function. */
  lemma BuiltinLaw(setup: Setup, vars: seq<Variable>, counts: seq<nat>, parts: seq<string>, name: string,
      args: seq<string>, outer: seq<string>)
    requires Calls(setup, vars, counts, parts, name, args, outer) && Unnamed(vars, name)
    ensures var r := Expansion(setup, vars, counts, Reference(parts), outer);
      && (name == "filename" ==> r == if args == [] then Done(setup.file) else Failed(TooManyForFunction))
      && (name == "lineno" ==> r == if args == [] then Done(setup.line) else Failed(TooManyForFunction))
      && (name == "shell" && |args| == 1 ==> r == Done(setup.shell(args[0])))
      && (name == "info" && |args| == 1 ==> r == Done(""))
      && (name in {"shell", "info"} && |args| != 1 ==>
           r == Failed(if args == [] then TooFewForFunction else TooManyForFunction))
      && (name == "error-if" && |args| == 2 ==> r == if args[0] == "y" then Failed(UserError) else Done(""))
      && (name == "warning-if" && |args| == 2 ==> r == Done(""))
      && (name in {"error-if", "warning-if"} && |args| != 2 ==>
           r == Failed(if |args| < 2 then TooFewForFunction else TooManyForFunction))
  {
    hide Expansion, Reference, Proper;
    ReferenceApplies(setup, vars, counts, parts, name, args, outer);
    FindsNamed(vars, 0, name);
    hide Find;
  }

  /** Any other name is looked up in the environment, and is nothing if it is not there
      or has arguments. */
  lemma EnvironmentLaw(setup: Setup, vars: seq<Variable>, counts: seq<nat>, parts: seq<string>, name: string,
      args: seq<string>, outer: seq<string>)
    requires Calls(setup, vars, counts, parts, name, args, outer) && Unnamed(vars, name)
    requires name !in BUILTINS
    ensures var r := Expansion(setup, vars, counts, Reference(parts), outer);
      r == Done(if args == [] && name != "" && setup.env(name).Some? then setup.env(name).value else "")
  {
    hide Expansion, Reference, Proper;
    ReferenceApplies(setup, vars, counts, parts, name, args, outer);
    FindsNamed(vars, 0, name);
    hide Find;
  }

  // ----- an instance -----

  /** With `f = $(1)-$(2)`, the reference `$(f,a,b)` gives `a-b`. */
  lemma Instance(setup: Setup)
    ensures Expansion(setup, [Variable("f", "$(1)-$(2)", Recursive)], [0], "$(f,a,b)", []) == Done("a-b")
  {
    var body := [Argument(1), Literal("-"), Argument(2)];
    var vars := [Variable("f", "$(1)-$(2)", Recursive)];
    assert Numeral(1, 10) == "1" && Numeral(2, 10) == "2";
    assert Reference(["f", "a", "b"]) == "$(f,a,b)" by {
      assert ["f", "a", "b"][1..] == ["a", "b"] && ["a", "b"][1..] == ["b"];
    }
    assert body[1..] == [Literal("-"), Argument(2)] && body[1..][1..] == [Argument(2)] && body[1..][1..][1..] == [];
    assert Template(body) == "$(1)-$(2)";
    assert Filled(body, ["a", "b"]) == "a-b";
    hide Expansion, Template, Filled, Reference, Numeral;
    var parts := ["f", "a", "b"];
    forall i | 0 <= i < 3
      ensures APart(parts[i]) && Expansion(setup, vars, [0], parts[i], []) == Done(parts[i])
    {
      OneLetter(setup, vars, [0], parts[i]);
    }
    CallNoArgument(parts, []);
    assert ["f"] + ["a", "b"] == parts;
    CallLaw(setup, vars, [0], parts, "f", ["a", "b"], [], 0, body);
  }

  lemma OneLetter(setup: Setup, vars: seq<Variable>, counts: seq<nat>, s: string)
    requires |counts| == |vars| && |s| == 1 && 'a' <= s[0] <= 'z'
    ensures APart(s) && Expansion(setup, vars, counts, s, []) == Done(s)
  {
    assert s[1..] == "" && Balanced("", 0);
    assert Balanced(s, 0) && !OuterComma(s, 0);
    hide Expansion;
    PlainExpansion(setup, vars, counts, s, []);
  }
}
