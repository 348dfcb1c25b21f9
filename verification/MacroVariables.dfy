/** Assignments to macro variables. */
module MacroVariables {
  import opened Expressions
  import opened MacroSemantics
  import opened Macros

  /** `=`, `:=` and `+=`. */
  datatype Operator = Set | SetNow | Append

  // ----- variables that an expansion does not consult -----

  function NoneOpen(vars: seq<Variable>): seq<nat> {
    seq(|vars|, _ => 0)
  }

  /** A count beyond the limit, so that every use of the variable fails. */
  function Barred(vars: seq<Variable>, i: nat): seq<nat>
    requires i < |vars|
  {
    NoneOpen(vars)[i := MAX_DEPTH + 1]
  }

  ghost predicate SameButAt(vars: seq<Variable>, other: seq<Variable>, i: nat) {
    && |vars| == |other| && i < |vars| && vars[i].name == other[i].name
    && forall j | 0 <= j < |vars| && j != i :: vars[j] == other[j]
  }

  lemma {:induction false} SameFind(vars: seq<Variable>, other: seq<Variable>, name: string)
    requires |vars| == |other| && forall j | 0 <= j < |vars| :: vars[j].name == other[j].name
    ensures Find(vars, name) == Find(other, name)
  {
    if vars != [] { SameFind(vars[1..], other[1..], name); }
  }

  /** What a barred variable holds is of no consequence. */
  lemma {:induction false} BarredExpansion(setup: Setup, vars: seq<Variable>, other: seq<Variable>, c: seq<nat>, i: nat,
      s: string, args: seq<string>)
    requires |c| == |vars| && SameButAt(vars, other, i) && c[i] > MAX_DEPTH
    ensures Expansion(setup, vars, c, s, args) == Expansion(setup, other, c, s, args)
    decreases Budget(c), |s|, 0
  {
    if s == "" {
    } else if s[0] != '$' || |s| == 1 || s[1] != '(' {
      BarredExpansion(setup, vars, other, c, i, s[1..], args);
    } else if Closing(s[2..], 0).Some? {
      var q := Closing(s[2..], 0).value;
      BarredClause(setup, vars, other, c, i, s[2..2 + q], args);
      BarredExpansion(setup, vars, other, c, i, s[3 + q..], args);
    }
  }

  lemma {:induction false} BarredClause(setup: Setup, vars: seq<Variable>, other: seq<Variable>, c: seq<nat>, i: nat,
      s: string, args: seq<string>)
    requires |c| == |vars| && SameButAt(vars, other, i) && c[i] > MAX_DEPTH
    ensures Evaluated(setup, vars, c, s, args) == Evaluated(setup, other, c, s, args)
    decreases Budget(c), |s|, 2
  {
    var n := ArgumentNumber(s);
    var parts := Parts(s, 0);
    if !(0 < n <= |args|) && |parts| <= MAX_ARGS {
      BarredParts(setup, vars, other, c, i, parts, args, |s|);
      var texts := ExpandedParts(setup, vars, c, parts, args, |s|);
      if texts.Done? { BarredApplied(setup, vars, other, c, i, texts.value[0], texts.value[1..]); }
    }
  }

  lemma {:induction false} BarredParts(setup: Setup, vars: seq<Variable>, other: seq<Variable>, c: seq<nat>, i: nat,
      parts: seq<string>, args: seq<string>, bound: nat)
    requires |c| == |vars| && SameButAt(vars, other, i) && c[i] > MAX_DEPTH
    requires forall j | 0 <= j < |parts| :: |parts[j]| <= bound
    ensures ExpandedParts(setup, vars, c, parts, args, bound) == ExpandedParts(setup, other, c, parts, args, bound)
    decreases Budget(c), bound, 1, |parts|
  {
    if parts != [] {
      BarredExpansion(setup, vars, other, c, i, parts[0], args);
      BarredParts(setup, vars, other, c, i, parts[1..], args, bound);
    }
  }

  lemma {:induction false} BarredApplied(setup: Setup, vars: seq<Variable>, other: seq<Variable>, c: seq<nat>, i: nat,
      name: string, args: seq<string>)
    requires |c| == |vars| && SameButAt(vars, other, i) && c[i] > MAX_DEPTH
    ensures Applied(setup, vars, c, name, args) == Applied(setup, other, c, name, args)
    decreases Budget(c), 0, 0
  {
    SameFind(vars, other, name);
    var f := Find(vars, name);
    if f.Some? && c[f.value] <= MAX_DEPTH && vars[f.value].flavor == Recursive {
      BudgetSpent(c, f.value);
      BarredExpansion(setup, vars, other, c[f.value := c[f.value] + 1], i, vars[f.value].value, args);
    }
  }

  /** A variable at the end of the list that is not consulted might as well not be there. */
  lemma {:induction false} UnusedExpansion(setup: Setup, vars: seq<Variable>, v: Variable, c: seq<nat>, k: nat,
      s: string, args: seq<string>)
    requires |c| == |vars| && k > MAX_DEPTH && Expansion(setup, vars + [v], c + [k], s, args).Done?
    ensures Expansion(setup, vars, c, s, args) == Expansion(setup, vars + [v], c + [k], s, args)
    decreases Budget(c + [k]), |s|, 0
  {
    if s == "" {
    } else if s[0] != '$' || |s| == 1 || s[1] != '(' {
      UnusedExpansion(setup, vars, v, c, k, s[1..], args);
    } else {
      var q := Closing(s[2..], 0).value;
      UnusedClause(setup, vars, v, c, k, s[2..2 + q], args);
      UnusedExpansion(setup, vars, v, c, k, s[3 + q..], args);
    }
  }

  lemma {:induction false} UnusedClause(setup: Setup, vars: seq<Variable>, v: Variable, c: seq<nat>, k: nat,
      s: string, args: seq<string>)
    requires |c| == |vars| && k > MAX_DEPTH && Evaluated(setup, vars + [v], c + [k], s, args).Done?
    ensures Evaluated(setup, vars, c, s, args) == Evaluated(setup, vars + [v], c + [k], s, args)
    decreases Budget(c + [k]), |s|, 2
  {
    var n := ArgumentNumber(s);
    if !(0 < n <= |args|) {
      var parts := Parts(s, 0);
      UnusedParts(setup, vars, v, c, k, parts, args, |s|);
      var texts := ExpandedParts(setup, vars, c, parts, args, |s|).value;
      UnusedApplied(setup, vars, v, c, k, texts[0], texts[1..]);
    }
  }

  lemma {:induction false} UnusedParts(setup: Setup, vars: seq<Variable>, v: Variable, c: seq<nat>, k: nat,
      parts: seq<string>, args: seq<string>, bound: nat)
    requires |c| == |vars| && k > MAX_DEPTH && forall j | 0 <= j < |parts| :: |parts[j]| <= bound
    requires ExpandedParts(setup, vars + [v], c + [k], parts, args, bound).Done?
    ensures ExpandedParts(setup, vars, c, parts, args, bound)
      == ExpandedParts(setup, vars + [v], c + [k], parts, args, bound)
    decreases Budget(c + [k]), bound, 1, |parts|
  {
    if parts != [] {
      UnusedExpansion(setup, vars, v, c, k, parts[0], args);
      UnusedParts(setup, vars, v, c, k, parts[1..], args, bound);
    }
  }

  lemma {:induction false} UnusedApplied(setup: Setup, vars: seq<Variable>, v: Variable, c: seq<nat>, k: nat,
      name: string, args: seq<string>)
    requires |c| == |vars| && k > MAX_DEPTH && Applied(setup, vars + [v], c + [k], name, args).Done?
    ensures Applied(setup, vars, c, name, args) == Applied(setup, vars + [v], c + [k], name, args)
    decreases Budget(c + [k]), 0, 0
  {
    FindInLonger(vars, v, name);
    var f := Find(vars, name);
    if f.Some? {
      var i := f.value;
      assert (vars + [v])[i] == vars[i] && (c + [k])[i] == c[i];
      if vars[i].flavor == Recursive {
        BudgetSpent(c + [k], i);
        assert (c + [k])[i := c[i] + 1] == c[i := c[i] + 1] + [k];
        UnusedExpansion(setup, vars, v, c[i := c[i] + 1], k, vars[i].value, args);
      }
    } else {
      assert (vars + [v])[|vars|] == v && (c + [k])[|c|] == k;
    }
  }

  lemma {:induction false} FindInLonger(vars: seq<Variable>, v: Variable, name: string)
    ensures Find(vars + [v], name) ==
      if Find(vars, name).Some? then Find(vars, name) else if v.name == name then Some(|vars|) else None
  {
    if vars == [] {
      assert vars + [v] == [v] && [v][1..] == [];
    } else {
      assert (vars + [v])[1..] == vars[1..] + [v];
      FindInLonger(vars[1..], v, name);
    }
  }

  // ----- assignment -----

  ghost predicate DistinctNames(vars: seq<Variable>) {
    forall i, j | 0 <= i < j < |vars| :: vars[i].name != vars[j].name
  }

  /** Where the variable of that name is, or will be if it is new. */
  function Slot(vars: seq<Variable>, name: string): nat {
    var i := Find(vars, name);
    if i.Some? then i.value else |vars|
  }

  /** The variables with the one of that name replaced by `v`, or `v` at the end. */
  function Put(vars: seq<Variable>, v: Variable): (r: seq<Variable>)
    ensures Slot(vars, v.name) < |r| && r[Slot(vars, v.name)] == v
  {
    var i := Find(vars, v.name);
    if i.Some? then vars[i.value := v] else vars + [v]
  }

  /** `+=` inherits the flavor of a defined variable and otherwise means `=`. */
  function FlavorOf(vars: seq<Variable>, name: string, op: Operator): Flavor {
    match op
    case Set => Recursive
    case SetNow => Simple
    case Append =>
      var i := Find(vars, name);
      if i.Some? then vars[i.value].flavor else Recursive
  }

  predicate Extends(vars: seq<Variable>, name: string, op: Operator) {
    op.Append? && Find(vars, name).Some?
  }

  /** The text that the assignment adds can be expanded without the variable. */
  ghost predicate Independent(setup: Setup, vars: seq<Variable>, name: string, text: string) {
    var during := Put(vars, Variable(name, "", Simple));
    Expansion(setup, during, Barred(during, Slot(vars, name)), text, []).Done?
  }

  lemma PutFound(vars: seq<Variable>, v: Variable)
    ensures forall w: Variable :: w.name == v.name ==> SameButAt(Put(vars, v), Put(vars, w), Slot(vars, v.name))
    ensures Find(vars, v.name).Some? ==> SameButAt(Put(vars, v), vars, Slot(vars, v.name))
  {
  }

  /** An expansion that does not consult the variable gives the same, whatever the
      variable holds meanwhile, and also if there is no such variable. */
  lemma IndependentExpansion(setup: Setup, vars: seq<Variable>, v: Variable, text: string)
    requires Independent(setup, vars, v.name, text)
    ensures Expansion(setup, vars, NoneOpen(vars), text, []).Done?
    ensures Expansion(setup, Put(vars, v), NoneOpen(Put(vars, v)), text, [])
      == Expansion(setup, vars, NoneOpen(vars), text, [])
  {
    hide Expansion, Find;
    var blank := Variable(v.name, "", Simple);
    var slot, during, put := Slot(vars, v.name), Put(vars, blank), Put(vars, v);
    PutFound(vars, blank);
    PutFound(vars, v);
    BarredExpansion(setup, during, put, Barred(during, slot), slot, text, []);
    FewerOpen(setup, put, Barred(put, slot), NoneOpen(put), text, []);
    if Find(vars, v.name).Some? {
      BarredExpansion(setup, during, vars, Barred(during, slot), slot, text, []);
      FewerOpen(setup, vars, Barred(vars, slot), NoneOpen(vars), text, []);
    } else {
      assert Barred(put, slot) == NoneOpen(vars) + [MAX_DEPTH + 1];
      UnusedExpansion(setup, vars, v, NoneOpen(vars), MAX_DEPTH + 1, text, []);
    }
  }

  /** The variables while the text is expanded. */
  function During(vars: seq<Variable>, name: string, op: Operator, stale: string): seq<Variable> {
    if Extends(vars, name, op) then vars else Put(vars, Variable(name, stale, FlavorOf(vars, name, op)))
  }

  /** What the assignment makes of the variable: the text, which for a simple variable
      is expanded at once, among the variables `during`. */
  function Assigned(setup: Setup, vars: seq<Variable>, during: seq<Variable>, name: string, text: string, op: Operator):
      Outcome<Variable>
  {
    var flavor := FlavorOf(vars, name, op);
    var added := if flavor == Simple then Expansion(setup, during, NoneOpen(during), text, []) else Done(text);
    if added.Failed? then Failed(added.why)
    else
      var before := if Extends(vars, name, op) then vars[Find(vars, name).value].value + " " else "";
      Done(Variable(name, before + added.value, flavor))
  }

  /** The assignment has a meaning: it does not read a value that is not there. */
  ghost predicate Meaningful(setup: Setup, vars: seq<Variable>, name: string, text: string, op: Operator) {
    || Extends(vars, name, op)
    || FlavorOf(vars, name, op) == Recursive
    || Independent(setup, vars, name, text)
  }

  /** Then the text is expanded as among the variables before the assignment. */
  lemma MeaningfulAssigned(setup: Setup, vars: seq<Variable>, name: string, text: string, op: Operator, stale: string)
    requires Meaningful(setup, vars, name, text, op)
    ensures Assigned(setup, vars, During(vars, name, op, stale), name, text, op)
      == Assigned(setup, vars, vars, name, text, op)
  {
    hide Expansion, Find;
    if FlavorOf(vars, name, op) == Simple && !Extends(vars, name, op) {
      IndependentExpansion(setup, vars, Variable(name, stale, Simple), text);
    }
  }

  class Variables {
    const setup: Setup
    var vars: seq<Variable>

    constructor (setup: Setup)
      ensures this.setup == setup && vars == []
    {
      this.setup, vars := setup, [];
    }

    /** `variable_add`, between the statements of a file, when nothing is being
        expanded. Except for `+=` on a defined variable, what the variable holds
        while the text is expanded is not a value of its own: `stale` is what the
        memory happens to contain. */
    method Add(name: string, text: string, op: Operator, stale: string) returns (r: Outcome<Variable>)
      requires DistinctNames(vars)
      modifies this
      ensures DistinctNames(vars)
      ensures r.Done? ==> vars == Put(old(vars), r.value) && r.value.name == name
      ensures r == Assigned(setup, old(vars), During(old(vars), name, op, stale), name, text, op)
      ensures Meaningful(setup, old(vars), name, text, op) ==>
        r == Assigned(setup, old(vars), old(vars), name, text, op)
    {
      hide Expansion, Find, Independent;
      if Meaningful(setup, vars, name, text, op) { MeaningfulAssigned(setup, vars, name, text, op, stale); }
      PutFound(vars, Variable(name, stale, FlavorOf(vars, name, op)));
      PutDistinct(vars, Variable(name, stale, FlavorOf(vars, name, op)));
      var i := Find(vars, name);
      var flavor, append := FlavorOf(vars, name, op), Extends(vars, name, op);
      var before := if append then vars[i.value].value else "";
      if !append {
        vars := Put(vars, Variable(name, stale, flavor));
      }
      var added := Done(text);
      if flavor == Simple {
        var expander := new Expander(setup, vars);
        assert expander.counts == NoneOpen(vars);
        added := expander.ExpandString(text, []);
      }
      if added.Failed? {
        return Failed(added.why);
      }
      assert "" + added.value == added.value;
      var v := Variable(name, if append then before + " " + added.value else added.value, flavor);
      PutAgain(old(vars), Variable(name, stale, flavor), v);
      vars := Put(vars, v);
      PutDistinct(old(vars), v);
      r := Done(v);
    }
  }

  lemma PutDistinct(vars: seq<Variable>, v: Variable)
    requires DistinctNames(vars)
    ensures DistinctNames(Put(vars, v))
  {
  }

  lemma PutAgain(vars: seq<Variable>, v: Variable, w: Variable)
    requires v.name == w.name
    ensures Put(Put(vars, v), w) == Put(vars, w)
  {
    FindPut(vars, v);
  }

  lemma FindPut(vars: seq<Variable>, v: Variable)
    ensures Find(Put(vars, v), v.name) == Some(Slot(vars, v.name))
  {
    var i := Find(vars, v.name);
    if i.Some? { SameFind(vars, vars[i.value := v], v.name); } else { FindInLonger(vars, v, v.name); }
  }

  // ----- what an assignment means for later references -----

  /** After `:=` a reference gives the text that was stored, whatever becomes of the
      other variables. */
  lemma SimpleReference(setup: Setup, vars: seq<Variable>, v: Variable, args: seq<string>)
    requires v.flavor == Simple
    ensures Applied(setup, Put(vars, v), NoneOpen(Put(vars, v)), v.name, args) == Done(v.value)
  {
    FindPut(vars, v);
    PutFound(vars, v);
  }

  lemma PartsOfX()
    ensures Parts("x", 0) == ["x"]
  {
    var s := "x";
    assert s[1..] == "" && Parts("", 0) == [""] && [""][1..] == [];
    assert [s[0]] + "" == s;
  }

  lemma ReferenceToX(setup: Setup, vars: seq<Variable>, c: seq<nat>)
    requires |c| == |vars|
    ensures Expansion(setup, vars, c, "$(x)", []) == Applied(setup, vars, c, "x", [])
  {
    hide Applied, Find;
    var s := "$(x)";
    assert s[2..] == "x)" && "x)"[1..] == ")";
    assert Closing(")", 0) == Some(0);
    assert Closing("x)", 0) == Some(1);
    assert s[2..3] == "x" && s[4..] == "";
    PartsOfX();
    assert Expansion(setup, vars, c, "x", []) == Done("x") by { PlainExpansion(setup, vars, c, "x", []); }
    assert ["x"][1..] == [];
    assert ExpandedParts(setup, vars, c, ["x"], [], 1) == Done(["x"]);
    assert Evaluated(setup, vars, c, "x", []) == Applied(setup, vars, c, "x", []);
    var o := Applied(setup, vars, c, "x", []);
    assert o.Done? ==> o.value + "" == o.value;
  }

  /** `x := $(x)` takes on what the memory happens to contain. */
  method StaleRead(setup: Setup, stale: string) returns (r: Outcome<Variable>)
    ensures r == Done(Variable("x", stale, Simple))
  {
    var during := During([], "x", SetNow, stale);
    ReferenceToX(setup, during, NoneOpen(during));
    SimpleReference(setup, [], Variable("x", stale, Simple), []);
    hide Expansion;
    assert "" + stale == stale;
    var table := new Variables(setup);
    r := table.Add("x", "$(x)", SetNow, stale);
  }

  /** After `+=` on a recursive variable a reference gives what its former text and
      the added text expand to, with a space between them. */
  lemma AppendedReference(setup: Setup, vars: seq<Variable>, name: string, former: string, text: string,
      args: seq<string>)
    requires Closed(former)
    ensures var after := Put(vars, Variable(name, former + " " + text, Recursive));
      var c := NoneOpen(after)[Slot(vars, name) := 1];
      Applied(setup, after, NoneOpen(after), name, args)
      == Then(Expansion(setup, after, c, former, args), Prefixed(" ", Expansion(setup, after, c, text, args)))
  {
    hide Expansion, Closed;
    var v := Variable(name, former + " " + text, Recursive);
    var after := Put(vars, v);
    FindPut(vars, v);
    PutFound(vars, v);
    var c := NoneOpen(after)[Slot(vars, name) := 1];
    ExpansionAppend(setup, after, c, former, " " + text, args);
    assert former + " " + text == former + (" " + text);
    ExpandCharacter(setup, after, c, " " + text, args);
    assert (" " + text)[1..] == text;
  }
}
