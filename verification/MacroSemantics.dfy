/** What macro expansion means: variables, user-defined functions with numbered
    arguments, built-in functions and the environment. */
module MacroSemantics {
  import opened Symbols
  import opened Expressions

  datatype Flavor = Simple | Recursive
  datatype Variable = Variable(name: string, value: string, flavor: Flavor)

  /** What expansion asks of its surroundings. */
  datatype Setup = Setup(env: string -> Option<string>, shell: string -> string, file: string, line: string)

  datatype Failure =
    | SelfReference | TooDeep | TooManyArguments | TooFewForFunction | TooManyForFunction | UserError | Unterminated
  datatype Outcome<T> = Done(value: T) | Failed(why: Failure)

  const MAX_DEPTH: nat := 1000
  const MAX_ARGS: nat := 16
  const ULONG_MAX: nat := 0xffff_ffff_ffff_ffff

  function Prefixed(t: string, o: Outcome<string>): Outcome<string> {
    if o.Done? then Done(t + o.value) else o
  }

  // ----- clauses -----

  /** The position of the parenthesis that closes the clause at the start. */
  function Closing(s: string, nest: nat): (q: Option<nat>)
    ensures q.Some? ==> q.value < |s|
  {
    if s == "" then None
    else if s[0] == ')' && nest == 0 then Some(0)
    else
      var deeper := if s[0] == '(' then nest + 1 else if s[0] == ')' then nest - 1 else nest;
      var rest := Closing(s[1..], deeper);
      if rest.Some? then Some(rest.value + 1) else None
  }

  /** The parts of a clause between commas outside all parentheses. */
  function Parts(s: string, nest: int): (parts: seq<string>)
    ensures |parts| >= 1
    ensures forall i | 0 <= i < |parts| :: |parts[i]| <= |s|
  {
    if s == "" then [""]
    else if nest == 0 && s[0] == ',' then [""] + Parts(s[1..], nest)
    else
      var rest := Parts(s[1..], if s[0] == '(' then nest + 1 else if s[0] == ')' then nest - 1 else nest);
      [[s[0]] + rest[0]] + rest[1..]
  }

  function Deeper(nest: int, c: char): int {
    if c == '(' then nest + 1 else if c == ')' then nest - 1 else nest
  }

  /** The nesting after a string that begins at `nest`. */
  function Nesting(s: string, nest: int): int {
    if s == "" then nest else Nesting(s[1..], Deeper(nest, s[0]))
  }

  ghost predicate Closes(s: string, nest: int, i: nat) {
    i < |s| && s[i] == ')' && Nesting(s[..i], nest) == 0
  }

  /** The clause ends at the first parenthesis that none inside the clause opens. */
  lemma {:induction false} ClosingExact(s: string, nest: nat, i: nat)
    ensures Closing(s, nest) == Some(i) <==> Closes(s, nest, i) && forall j | 0 <= j < i :: !Closes(s, nest, j)
  {
    if s != "" {
      var deeper := Deeper(nest, s[0]);
      forall j: nat | 0 < j < |s| ensures Closes(s, nest, j) <==> Closes(s[1..], deeper, j - 1) {
        assert s[..j] == [s[0]] + s[1..][..j - 1];
      }
      if s[0] == ')' && nest == 0 {
        assert Closes(s, nest, 0) by { assert s[..0] == ""; }
      } else {
        assert !Closes(s, nest, 0) by { assert s[..0] == ""; }
        if i > 0 {
          ClosingExact(s[1..], deeper, i - 1);
          assert forall j | 0 < j < i && j < |s| :: Closes(s, nest, j) <==> Closes(s[1..], deeper, j - 1);
          assert forall j | 0 <= j < i - 1 && j < |s| - 1 :: Closes(s[1..], deeper, j) <==> Closes(s, nest, j + 1);
        }
      }
    }
  }

  function WithCommas(parts: seq<string>): string
    requires parts != []
  {
    if |parts| == 1 then parts[0] else parts[0] + "," + WithCommas(parts[1..])
  }

  predicate OuterComma(s: string, nest: int) {
    s != "" && ((nest == 0 && s[0] == ',') || OuterComma(s[1..], Deeper(nest, s[0])))
  }

  /** No part has a comma outside all parentheses, and every part but the last
      closes what it opens. */
  predicate Separate(parts: seq<string>, nest: int) {
    && parts != [] && !OuterComma(parts[0], nest)
    && (|parts| > 1 ==> Nesting(parts[0], nest) == 0 && Separate(parts[1..], 0))
  }

  lemma {:induction false} PartsSeparate(s: string, nest: int)
    ensures Separate(Parts(s, nest), nest)
  {
    if s != "" {
      var deeper := Deeper(nest, s[0]);
      if nest == 0 && s[0] == ',' {
        PartsSeparate(s[1..], nest);
        assert Parts(s, nest)[1..] == Parts(s[1..], nest);
      } else {
        PartsSeparate(s[1..], deeper);
        var rest := Parts(s[1..], deeper);
        assert Parts(s, nest)[1..] == rest[1..];
        assert Parts(s, nest)[0] == [s[0]] + rest[0] && ([s[0]] + rest[0])[1..] == rest[0];
      }
    }
  }

  /** The parts put together with commas are the clause again. */
  lemma {:induction false} PartsJoined(s: string, nest: int)
    ensures WithCommas(Parts(s, nest)) == s
  {
    if s != "" {
      if nest == 0 && s[0] == ',' {
        PartsJoined(s[1..], nest);
        assert Parts(s, nest)[1..] == Parts(s[1..], nest);
      } else {
        var rest := Parts(s[1..], Deeper(nest, s[0]));
        PartsJoined(s[1..], Deeper(nest, s[0]));
        JoinedFirst(s[0], rest);
        assert Parts(s, nest) == [[s[0]] + rest[0]] + rest[1..];
      }
    }
  }

  lemma JoinedFirst(c: char, parts: seq<string>)
    requires parts != []
    ensures WithCommas([[c] + parts[0]] + parts[1..]) == [c] + WithCommas(parts)
  {
    assert ([[c] + parts[0]] + parts[1..])[1..] == parts[1..];
    if |parts| > 1 {
      assert [c] + (parts[0] + "," + WithCommas(parts[1..])) == [c] + parts[0] + "," + WithCommas(parts[1..]);
    }
  }

  /** Separate parts are found again in the clause that they make up. */
  lemma {:induction false} PartsFound(parts: seq<string>, nest: int)
    requires Separate(parts, nest)
    ensures Parts(WithCommas(parts), nest) == parts
    decreases |WithCommas(parts)|
  {
    var s := WithCommas(parts);
    if parts[0] != "" {
      var c := parts[0][0];
      var shorter := [parts[0][1..]] + parts[1..];
      assert shorter[1..] == parts[1..];
      assert [c] + shorter[0] == parts[0];
      assert [parts[0]] + parts[1..] == parts;
      assert [[c] + shorter[0]] + shorter[1..] == parts;
      JoinedFirst(c, shorter);
      assert s[1..] == WithCommas(shorter);
      PartsFound(shorter, Deeper(nest, c));
    } else if |parts| > 1 {
      assert s == "," + WithCommas(parts[1..]) && s[1..] == WithCommas(parts[1..]);
      PartsFound(parts[1..], 0);
    }
  }

  function Digits(s: string, value: nat): Option<nat> {
    if s == "" then Some(value)
    else if IsDigit(s[0]) then Digits(s[1..], value * 10 + (s[0] - '0') as nat)
    else None
  }

  /** The number that a clause denotes, as `strtoul` reads it; 0 if it denotes none. */
  function ArgumentNumber(s: string): nat {
    if s == "" then 0
    else if IsSpace(s[0]) then ArgumentNumber(s[1..])
    else
      var digits := if s[0] == '-' || s[0] == '+' then s[1..] else s;
      if digits == "" then 0
      else match Digits(digits, 0)
        case None => 0
        case Some(v) =>
          if v > ULONG_MAX then ULONG_MAX
          else if s[0] == '-' && v > 0 then ULONG_MAX + 1 - v
          else v
  }

  // ----- names -----

  /** The first variable of that name. */
  function Find(vars: seq<Variable>, name: string): (i: Option<nat>)
    ensures i.Some? ==>
      i.value < |vars| && vars[i.value].name == name && forall j | 0 <= j < i.value :: vars[j].name != name
    ensures i.None? ==> forall j | 0 <= j < |vars| :: vars[j].name != name
  {
    if vars == [] then None
    else if vars[0].name == name then Some(0)
    else
      var rest := Find(vars[1..], name);
      if rest.Some? then Some(rest.value + 1) else None
  }

  /** The built-in functions; `None` if there is none of that name. */
  function Builtin(setup: Setup, name: string, args: seq<string>): Option<Outcome<string>> {
    if name !in {"error-if", "filename", "info", "lineno", "shell", "warning-if"} then None
    else
      var arity :=
        if name == "error-if" || name == "warning-if" then 2 else if name == "info" || name == "shell" then 1 else 0;
      if |args| < arity then Some(Failed(TooFewForFunction))
      else if |args| > arity then Some(Failed(TooManyForFunction))
      else if name == "error-if" && args[0] == "y" then Some(Failed(UserError))
      else if name == "filename" then Some(Done(setup.file))
      else if name == "lineno" then Some(Done(setup.line))
      else if name == "shell" then Some(Done(setup.shell(args[0])))
      else Some(Done(""))
  }

  function Environment(setup: Setup, name: string): Option<string> {
    if name == "" then None else setup.env(name)
  }

  // ----- expansion -----

  /** How many more expansions of the variables may be opened. */
  function Budget(counts: seq<nat>): nat {
    if counts == [] then 0
    else (if counts[0] <= MAX_DEPTH then MAX_DEPTH + 1 - counts[0] else 0) + Budget(counts[1..])
  }

  lemma {:induction false} BudgetSpent(counts: seq<nat>, i: nat)
    requires i < |counts| && counts[i] <= MAX_DEPTH
    ensures Budget(counts[i := counts[i] + 1]) < Budget(counts)
  {
    var more := counts[i := counts[i] + 1];
    if i == 0 {
      assert more[1..] == counts[1..];
    } else {
      assert more[1..] == counts[1..][i - 1 := counts[i] + 1];
      BudgetSpent(counts[1..], i - 1);
    }
  }

  /** The expansion of a string, given how often each variable is being expanded. */
  function Expansion(setup: Setup, vars: seq<Variable>, counts: seq<nat>, s: string, args: seq<string>): Outcome<string>
    requires |counts| == |vars|
    decreases Budget(counts), |s|, 0
  {
    if s == "" then Done("")
    else if s[0] != '$' then Prefixed([s[0]], Expansion(setup, vars, counts, s[1..], args))
    else if |s| == 1 || s[1] != '(' then Prefixed("$", Expansion(setup, vars, counts, s[1..], args))
    else
      var q := Closing(s[2..], 0);
      if q.None? then Failed(Unterminated)
      else
        var clause := Evaluated(setup, vars, counts, s[2..2 + q.value], args);
        if clause.Failed? then clause
        else Prefixed(clause.value, Expansion(setup, vars, counts, s[3 + q.value..], args))
  }

  /** The value of a clause: an argument of the call that is being expanded, a
      variable, a built-in function, or a variable of the environment. */
  function Evaluated(setup: Setup, vars: seq<Variable>, counts: seq<nat>, s: string, args: seq<string>): Outcome<string>
    requires |counts| == |vars|
    decreases Budget(counts), |s|, 2
  {
    var n := ArgumentNumber(s);
    if 0 < n <= |args| then Done(args[n - 1])
    else
      var parts := Parts(s, 0);
      if |parts| > MAX_ARGS then Failed(TooManyArguments)
      else match ExpandedParts(setup, vars, counts, parts, args, |s|)
        case Failed(why) => Failed(why)
        case Done(texts) => Applied(setup, vars, counts, texts[0], texts[1..])
  }

  function ExpandedParts(setup: Setup, vars: seq<Variable>, counts: seq<nat>, parts: seq<string>, args: seq<string>,
      bound: nat): (r: Outcome<seq<string>>)
    requires |counts| == |vars| && forall i | 0 <= i < |parts| :: |parts[i]| <= bound
    ensures r.Done? ==> |r.value| == |parts|
    decreases Budget(counts), bound, 1, |parts|
  {
    if parts == [] then Done([])
    else match Expansion(setup, vars, counts, parts[0], args)
      case Failed(why) => Failed(why)
      case Done(text) =>
        match ExpandedParts(setup, vars, counts, parts[1..], args, bound)
        case Failed(why) => Failed(why)
        case Done(texts) => Done([text] + texts)
  }

  function Applied(setup: Setup, vars: seq<Variable>, counts: seq<nat>, name: string,
      args: seq<string>): Outcome<string>
    requires |counts| == |vars|
    decreases Budget(counts), 0, 0
  {
    match Find(vars, name)
    case Some(i) =>
      if |args| == 0 && counts[i] > 0 then Failed(SelfReference)
      else if counts[i] > MAX_DEPTH then Failed(TooDeep)
      else if vars[i].flavor == Simple then Done(vars[i].value)
      else
        BudgetSpent(counts, i);
        Expansion(setup, vars, counts[i := counts[i] + 1], vars[i].value, args)
    case None =>
      match Builtin(setup, name, args)
      case Some(o) => o
      case None =>
        match if |args| == 0 then Environment(setup, name) else None
        case Some(v) => Done(v)
        case None => Done("")
  }

  // ----- laws -----

  /** Every reference that the text begins is closed in it. */
  predicate Closed(s: string)
    decreases |s|
  {
    if s == "" then true
    else if s[0] != '$' then Closed(s[1..])
    else if |s| == 1 then false
    else if s[1] != '(' then Closed(s[1..])
    else
      var q := Closing(s[2..], 0);
      q.Some? && Closed(s[3 + q.value..])
  }

  lemma {:induction false} ClosingAppend(a: string, b: string, nest: nat)
    requires Closing(a, nest).Some?
    ensures Closing(a + b, nest) == Closing(a, nest)
  {
    assert (a + b)[1..] == a[1..] + b;
    if !(a[0] == ')' && nest == 0) {
      ClosingAppend(a[1..], b, if a[0] == '(' then nest + 1 else if a[0] == ')' then nest - 1 else nest);
    }
  }

  function Then(a: Outcome<string>, b: Outcome<string>): Outcome<string> {
    if a.Failed? then a else Prefixed(a.value, b)
  }

  lemma ThenPrefixed(t: string, a: Outcome<string>, b: Outcome<string>)
    ensures Then(Prefixed(t, a), b) == Prefixed(t, Then(a, b))
  {
    if a.Done? && b.Done? {
      assert (t + a.value) + b.value == t + (a.value + b.value);
    }
  }

  /** The text begins with a reference. */
  predicate AtReference(s: string) {
    |s| > 1 && s[0] == '$' && s[1] == '('
  }

  lemma ExpandCharacter(setup: Setup, vars: seq<Variable>, counts: seq<nat>, s: string, args: seq<string>)
    requires |counts| == |vars| && s != "" && !AtReference(s)
    ensures Expansion(setup, vars, counts, s, args) == Prefixed([s[0]], Expansion(setup, vars, counts, s[1..], args))
  {
    hide Evaluated;
  }

  lemma ExpandReference(setup: Setup, vars: seq<Variable>, counts: seq<nat>, s: string, args: seq<string>, q: nat)
    requires |counts| == |vars| && AtReference(s) && Closing(s[2..], 0) == Some(q)
    ensures q < |s[2..]|
    ensures Expansion(setup, vars, counts, s, args)
         == Then(Evaluated(setup, vars, counts, s[2..2 + q], args), Expansion(setup, vars, counts, s[3 + q..], args))
  {
    hide Evaluated;
  }

  lemma ExpandNothing(setup: Setup, vars: seq<Variable>, counts: seq<nat>, args: seq<string>)
    requires |counts| == |vars|
    ensures Expansion(setup, vars, counts, "", args) == Done("")
  {
  }

  lemma ThenThen(a: Outcome<string>, b: Outcome<string>, c: Outcome<string>)
    ensures Then(Then(a, b), c) == Then(a, Then(b, c))
  {
    if a.Done? { ThenPrefixed(a.value, b, c); }
  }

  lemma ThenNothing(o: Outcome<string>)
    ensures Then(Done(""), o) == o
  {
    assert o.Done? ==> "" + o.value == o.value;
  }

  lemma ClosedCases(a: string)
    requires Closed(a)
    ensures a != "" && !AtReference(a) ==> Closed(a[1..]) && (|a| > 1 || a[0] != '$')
    ensures AtReference(a) ==>
      Closing(a[2..], 0).Some? && 3 + Closing(a[2..], 0).value <= |a| && Closed(a[3 + Closing(a[2..], 0).value..])
  {
  }

  lemma AppendSlices(a: string, b: string, q: nat)
    requires 3 + q <= |a|
    ensures (a + b)[2..] == a[2..] + b && (a + b)[2..2 + q] == a[2..2 + q] && (a + b)[3 + q..] == a[3 + q..] + b
    ensures AtReference(a + b) == AtReference(a)
  {
  }

  lemma AppendTail(a: string, b: string)
    requires a != ""
    ensures (a + b)[0] == a[0] && (a + b)[1..] == a[1..] + b
    ensures |a| > 1 || a[0] != '$' ==> AtReference(a + b) == AtReference(a)
  {
  }

  /** Text after a closed text is expanded on its own. */
  lemma {:induction false} ExpansionAppend(setup: Setup, vars: seq<Variable>, counts: seq<nat>, a: string, b: string,
      args: seq<string>)
    requires |counts| == |vars| && Closed(a)
    ensures Expansion(setup, vars, counts, a + b, args)
         == Then(Expansion(setup, vars, counts, a, args), Expansion(setup, vars, counts, b, args))
    decreases |a|
  {
    ClosedCases(a);
    hide Closed;
    hide Expansion, Evaluated, Then, Prefixed, Closing, AtReference;
    var o := Expansion(setup, vars, counts, b, args);
    if a == "" {
      ExpandNothing(setup, vars, counts, args);
      assert a + b == b;
      ThenNothing(o);
    } else if AtReference(a) {
      var q := Closing(a[2..], 0).value;
      ClosingAppend(a[2..], b, 0);
      AppendSlices(a, b, q);
      ExpansionAppend(setup, vars, counts, a[3 + q..], b, args);
      ExpandReference(setup, vars, counts, a, args, q);
      ExpandReference(setup, vars, counts, a + b, args, q);
      ThenThen(Evaluated(setup, vars, counts, a[2..2 + q], args), Expansion(setup, vars, counts, a[3 + q..], args), o);
    } else {
      AppendTail(a, b);
      ExpansionAppend(setup, vars, counts, a[1..], b, args);
      ExpandCharacter(setup, vars, counts, a, args);
      ExpandCharacter(setup, vars, counts, a + b, args);
      ThenPrefixed([a[0]], Expansion(setup, vars, counts, a[1..], args), o);
    }
  }

  predicate PlainText(s: string) {
    forall i | 0 <= i < |s| - 1 :: s[i] == '$' ==> s[i + 1] != '('
  }

  /** Text without references stays as it is. */
  lemma {:induction false} PlainExpansion(setup: Setup, vars: seq<Variable>, counts: seq<nat>, s: string,
      args: seq<string>)
    requires |counts| == |vars| && PlainText(s)
    ensures Expansion(setup, vars, counts, s, args) == Done(s)
  {
    hide Evaluated;
    if s != "" {
      forall i | 0 <= i < |s[1..]| - 1 ensures s[1..][i] == '$' ==> s[1..][i + 1] != '(' {
        assert s[1..][i] == s[i + 1] && s[1..][i + 1] == s[i + 2];
      }
      PlainExpansion(setup, vars, counts, s[1..], args);
      assert [s[0]] + s[1..] == s;
    }
  }

  ghost predicate AtMost(d: seq<nat>, c: seq<nat>) {
    |d| == |c| && forall i | 0 <= i < |c| :: d[i] <= c[i]
  }

  /** The counts of open expansions never change what an expansion yields; they
      can only make it fail. */
  lemma {:induction false} FewerOpen(setup: Setup, vars: seq<Variable>, c: seq<nat>, d: seq<nat>, s: string,
      args: seq<string>)
    requires |c| == |vars| && AtMost(d, c) && Expansion(setup, vars, c, s, args).Done?
    ensures Expansion(setup, vars, d, s, args) == Expansion(setup, vars, c, s, args)
    decreases Budget(c), |s|, 0
  {
    if s == "" {
    } else if s[0] != '$' || |s| == 1 || s[1] != '(' {
      FewerOpen(setup, vars, c, d, s[1..], args);
    } else {
      var q := Closing(s[2..], 0).value;
      FewerOpenClause(setup, vars, c, d, s[2..2 + q], args);
      FewerOpen(setup, vars, c, d, s[3 + q..], args);
    }
  }

  lemma {:induction false} FewerOpenClause(setup: Setup, vars: seq<Variable>, c: seq<nat>, d: seq<nat>, s: string,
      args: seq<string>)
    requires |c| == |vars| && AtMost(d, c) && Evaluated(setup, vars, c, s, args).Done?
    ensures Evaluated(setup, vars, d, s, args) == Evaluated(setup, vars, c, s, args)
    decreases Budget(c), |s|, 2
  {
    var n := ArgumentNumber(s);
    if !(0 < n <= |args|) {
      var parts := Parts(s, 0);
      FewerOpenParts(setup, vars, c, d, parts, args, |s|);
      var texts := ExpandedParts(setup, vars, c, parts, args, |s|).value;
      FewerOpenApplied(setup, vars, c, d, texts[0], texts[1..]);
    }
  }

  lemma {:induction false} FewerOpenParts(setup: Setup, vars: seq<Variable>, c: seq<nat>, d: seq<nat>,
      parts: seq<string>, args: seq<string>, bound: nat)
    requires |c| == |vars| && AtMost(d, c) && forall i | 0 <= i < |parts| :: |parts[i]| <= bound
    requires ExpandedParts(setup, vars, c, parts, args, bound).Done?
    ensures ExpandedParts(setup, vars, d, parts, args, bound) == ExpandedParts(setup, vars, c, parts, args, bound)
    decreases Budget(c), bound, 1, |parts|
  {
    if parts != [] {
      FewerOpen(setup, vars, c, d, parts[0], args);
      FewerOpenParts(setup, vars, c, d, parts[1..], args, bound);
    }
  }

  lemma {:induction false} FewerOpenApplied(setup: Setup, vars: seq<Variable>, c: seq<nat>, d: seq<nat>,
      name: string, args: seq<string>)
    requires |c| == |vars| && AtMost(d, c) && Applied(setup, vars, c, name, args).Done?
    ensures Applied(setup, vars, d, name, args) == Applied(setup, vars, c, name, args)
    decreases Budget(c), 0, 0
  {
    var f := Find(vars, name);
    if f.Some? && vars[f.value].flavor == Recursive {
      var i := f.value;
      BudgetSpent(c, i);
      FewerOpen(setup, vars, c[i := c[i] + 1], d[i := d[i] + 1], vars[i].value, args);
    }
  }
}
