/** The macro expander, which counts in each variable how often it is being
    expanded and records the environment variables it has used. */
module Macros {
  import opened Expressions
  import opened MacroSemantics

  // ----- scanning -----

  function Shifted(k: nat, q: Option<nat>): Option<nat> {
    if q.Some? then Some(k + q.value) else None
  }

  /** The closing parenthesis of the clause that begins at `from`. */
  method FindClosing(s: string, from: nat) returns (r: Option<nat>)
    requires from <= |s|
    ensures r == Shifted(from, Closing(s[from..], 0))
  {
    var q, nest := from, 0;
    while q < |s|
      invariant from <= q <= |s|
      invariant Shifted(from, Closing(s[from..], 0)) == Shifted(q, Closing(s[q..], nest))
    {
      assert s[q..][0] == s[q] && s[q..][1..] == s[q + 1..];
      if s[q] == '(' {
        nest := nest + 1;
      } else if s[q] == ')' {
        if nest == 0 {
          return Some(q);
        }
        nest := nest - 1;
      }
      q := q + 1;
    }
    return None;
  }

  function OntoFirst(t: string, parts: seq<string>): seq<string>
    requires |parts| >= 1
  {
    [t + parts[0]] + parts[1..]
  }

  lemma PartsStep(s: string, prev: nat, p: nat, nest: int)
    requires prev <= p < |s|
    ensures var next := if s[p] == '(' then nest + 1 else if s[p] == ')' then nest - 1 else nest;
      if nest == 0 && s[p] == ','
      then OntoFirst(s[prev..p], Parts(s[p..], nest)) == [s[prev..p]] + OntoFirst("", Parts(s[p + 1..], 0))
      else OntoFirst(s[prev..p], Parts(s[p..], nest)) == OntoFirst(s[prev..p + 1], Parts(s[p + 1..], next))
  {
    assert s[p..][0] == s[p] && s[p..][1..] == s[p + 1..];
    var next := if s[p] == '(' then nest + 1 else if s[p] == ')' then nest - 1 else nest;
    if nest == 0 && s[p] == ',' {
      var rest := Parts(s[p + 1..], 0);
      assert s[prev..p] + "" == s[prev..p];
      assert "" + rest[0] == rest[0];
      assert rest == [rest[0]] + rest[1..];
    } else {
      var rest := Parts(s[p + 1..], next);
      assert s[prev..p] + ([s[p]] + rest[0]) == s[prev..p + 1] + rest[0];
    }
  }

  /** Cuts a clause into the name and the arguments. */
  method SplitClause(s: string) returns (r: Outcome<seq<string>>)
    ensures r == if |Parts(s, 0)| > MAX_ARGS then Failed(TooManyArguments) else Done(Parts(s, 0))
  {
    hide Parts;
    var argv: seq<string> := [];
    var prev, p, nest := 0, 0, 0;
    SplitStart(s);
    while p < |s|
      invariant 0 <= prev <= p <= |s| && |argv| <= MAX_ARGS
      invariant Parts(s, 0) == argv + OntoFirst(s[prev..p], Parts(s[p..], nest))
    {
      PartsStep(s, prev, p, nest);
      if nest == 0 && s[p] == ',' {
        if |argv| >= MAX_ARGS {
          return Failed(TooManyArguments);
        }
        assert argv + ([s[prev..p]] + OntoFirst("", Parts(s[p + 1..], 0)))
          == argv + [s[prev..p]] + OntoFirst("", Parts(s[p + 1..], 0));
        argv := argv + [s[prev..p]];
        prev := p + 1;
        assert s[prev..p + 1] == "";
      } else if s[p] == '(' {
        nest := nest + 1;
      } else if s[p] == ')' {
        nest := nest - 1;
      }
      p := p + 1;
    }
    SplitEnd(s, prev, nest);
    if |argv| >= MAX_ARGS {
      return Failed(TooManyArguments);
    }
    r := Done(argv + [s[prev..]]);
  }

  lemma SplitStart(s: string)
    ensures Parts(s, 0) == [] + OntoFirst(s[0..0], Parts(s[0..], 0))
  {
    assert s[0..] == s;
    var parts := Parts(s, 0);
    assert s[0..0] + parts[0] == parts[0];
    assert parts == [parts[0]] + parts[1..];
  }

  lemma SplitEnd(s: string, prev: nat, nest: int)
    requires prev <= |s|
    ensures OntoFirst(s[prev..|s|], Parts(s[|s|..], nest)) == [s[prev..]]
  {
    assert s[prev..|s|] + "" == s[prev..];
  }

  class Expander {
    const setup: Setup
    const vars: seq<Variable>
    /** How often each variable is being expanded. */
    var counts: seq<nat>
    /** The environment variables that were asked for, with their values. */
    var used: seq<(string, string)>

    constructor (setup: Setup, vars: seq<Variable>)
      ensures Valid() && this.setup == setup && this.vars == vars && (forall i | 0 <= i < |vars| :: counts[i] == 0)
      ensures used == []
    {
      this.setup, this.vars, counts, used := setup, vars, seq(|vars|, _ => 0), [];
    }

    ghost predicate Valid()
      reads this
    {
      && |counts| == |vars|
      && forall i | 0 <= i < |used| :: Environment(setup, used[i].0) == Some(used[i].1)
    }

    method Lookup(name: string) returns (r: Option<nat>)
      ensures r == Find(vars, name)
    {
      var i := 0;
      while i < |vars|
        invariant 0 <= i <= |vars| && forall j | 0 <= j < i :: vars[j].name != name
      {
        if vars[i].name == name {
          return Some(i);
        }
        i := i + 1;
      }
      return None;
    }

    /** `env_expand`: what was found once is remembered. */
    method EnvExpand(name: string) returns (r: Option<string>)
      requires Valid()
      modifies this`used
      ensures Valid() && r == Environment(setup, name)
      ensures old(used) <= used && (r.Some? ==> (name, r.value) in used)
    {
      if name == "" {
        return None;
      }
      for i := 0 to |used|
      {
        if used[i].0 == name {
          return Some(used[i].1);
        }
      }
      r := setup.env(name);
      if r.Some? {
        used := used + [(name, r.value)];
      }
    }

    /** `__expand_string` up to the end of the string: the result is the expansion
        that the definitions give, every count is as before unless the expansion
        fails, and the expansion ends for every set of variables. */
    method ExpandString(s: string, args: seq<string>) returns (r: Outcome<string>)
      requires Valid()
      modifies this`counts, this`used
      ensures r == Expansion(setup, vars, old(counts), s, args)
      ensures r.Done? ==> Valid() && counts == old(counts)
      ensures Remembers(old(used), used)
      decreases Budget(counts), |s|, 0
    {
      hide Expansion, Evaluated, Closing;
      var from, p, out := 0, 0, "";
      PrefixStart(setup, vars, counts, s, args);
      while p < |s|
        invariant 0 <= from <= p <= |s|
        invariant Valid() && counts == old(counts) && Remembers(old(used), used)
        invariant Expansion(setup, vars, counts, s, args)
          == Prefixed(out + s[from..p], Expansion(setup, vars, counts, s[p..], args))
      {
        if s[p] == '$' {
          var part, next := ExpandDollar(s, p + 1, args);
          if part.Failed? {
            return part;
          }
          PrefixReference(setup, vars, counts, s, args, out + s[from..p], p, next, part.value);
          out := out + s[from..p] + part.value;
          from, p := next, next;
          assert s[from..p] == "";
          assert out + "" == out;
        } else {
          PrefixCharacter(setup, vars, counts, s, args, out, from, p);
          p := p + 1;
        }
      }
      assert s[from..p] == s[from..];
      PrefixEnd(setup, vars, counts, s, args, out + s[from..]);
      r := Done(out + s[from..]);
    }

    /** What follows a dollar sign; `next` is where the text goes on. */
    method ExpandDollar(s: string, at: nat, args: seq<string>) returns (r: Outcome<string>, next: nat)
      requires Valid() && 0 < at <= |s| && s[at - 1] == '$'
      modifies this`counts, this`used
      ensures at <= next <= |s|
      ensures r.Done? ==> Valid() && counts == old(counts)
      ensures r.Failed? ==> Expansion(setup, vars, old(counts), s[at - 1..], args) == r
      ensures r.Done? ==>
        Expansion(setup, vars, old(counts), s[at - 1..], args)
        == Prefixed(r.value, Expansion(setup, vars, old(counts), s[next..], args))
      ensures Remembers(old(used), used)
      decreases Budget(counts), |s| - 1, 3
    {
      hide Evaluated, Closing;
      ghost var t := s[at - 1..];
      if at == |s| || s[at] != '(' {
        assert t[1..] == s[at..];
        r, next := Done("$"), at;
        return;
      }
      var q := FindClosing(s, at + 1);
      assert t[2..] == s[at + 1..];
      if q.None? {
        r, next := Failed(Unterminated), |s|;
        return;
      }
      next := q.value + 1;
      ClosingBound(s[at + 1..]);
      r := EvalClause(s[at + 1..q.value], args);
      assert t[2..2 + (q.value - at - 1)] == s[at + 1..q.value] && t[3 + (q.value - at - 1)..] == s[next..];
    }

    /** `eval_clause`. */
    method EvalClause(s: string, args: seq<string>) returns (r: Outcome<string>)
      requires Valid()
      modifies this`counts, this`used
      ensures r == Evaluated(setup, vars, old(counts), s, args)
      ensures r.Done? ==> Valid() && counts == old(counts)
      ensures Remembers(old(used), used)
      decreases Budget(counts), |s|, 2
    {
      hide Expansion, Applied, Parts, ExpandedParts, ArgumentNumber;
      var n := ArgumentNumber(s);
      if 0 < n <= |args| {
        return Done(args[n - 1]);
      }
      var parts := SplitClause(s);
      if parts.Failed? {
        return Failed(parts.why);
      }
      var texts := ExpandParts(parts.value, args, |s|);
      if texts.Failed? {
        return Failed(texts.why);
      }
      r := Apply(texts.value[0], texts.value[1..]);
    }

    /** The name and the arguments, from left to right. */
    method ExpandParts(parts: seq<string>, args: seq<string>, ghost bound: nat) returns (r: Outcome<seq<string>>)
      requires Valid() && forall i | 0 <= i < |parts| :: |parts[i]| <= bound
      modifies this`counts, this`used
      ensures r == ExpandedParts(setup, vars, old(counts), parts, args, bound)
      ensures r.Done? ==> Valid() && counts == old(counts)
      ensures Remembers(old(used), used)
      decreases Budget(counts), bound, 1
    {
      hide Expansion, ExpandedParts;
      var texts: seq<string> := [];
      PartsStart(setup, vars, counts, parts, args, bound);
      for i := 0 to |parts|
        invariant Valid() && counts == old(counts) && |texts| == i && Remembers(old(used), used)
        invariant ExpandedParts(setup, vars, counts, parts, args, bound)
          == Behind(texts, ExpandedParts(setup, vars, counts, parts[i..], args, bound))
      {
        var text := ExpandString(parts[i], args);
        PartsNext(setup, vars, old(counts), parts, args, bound, i, texts);
        if text.Failed? {
          return Failed(text.why);
        }
        texts := texts + [text.value];
      }
      PartsEnd(setup, vars, counts, parts, args, bound, texts);
      r := Done(texts);
    }

    /** `variable_expand`, then the built-in functions, then the environment. */
    method Apply(name: string, args: seq<string>) returns (r: Outcome<string>)
      requires Valid()
      modifies this`counts, this`used
      ensures r == Applied(setup, vars, old(counts), name, args)
      ensures r.Done? ==> Valid() && counts == old(counts)
      ensures Remembers(old(used), used)
      decreases Budget(counts), 0, 0
    {
      hide Expansion;
      var found := Lookup(name);
      if found.Some? {
        var i := found.value;
        if |args| == 0 && counts[i] > 0 {
          return Failed(SelfReference);
        }
        if counts[i] > MAX_DEPTH {
          return Failed(TooDeep);
        }
        BudgetSpent(counts, i);
        counts := counts[i := counts[i] + 1];
        if vars[i].flavor == Recursive {
          r := ExpandString(vars[i].value, args);
          if r.Failed? {
            return;
          }
        } else {
          r := Done(vars[i].value);
        }
        counts := counts[i := counts[i] - 1];
        assert counts == old(counts);
        return;
      }
      var builtin := Builtin(setup, name, args);
      if builtin.Some? {
        return builtin.value;
      }
      if |args| == 0 {
        var value := EnvExpand(name);
        if value.Some? {
          return Done(value.value);
        }
      }
      return Done("");
    }
  }

  ghost predicate Remembers(a: seq<(string, string)>, b: seq<(string, string)>) {
    a <= b
  }

  lemma ClosingBound(s: string)
    ensures Closing(s, 0).Some? ==> Closing(s, 0).value < |s|
  {
  }

  // ----- steps of the loops -----

  lemma PrefixStart(setup: Setup, vars: seq<Variable>, counts: seq<nat>, s: string, args: seq<string>)
    requires |counts| == |vars|
    ensures Expansion(setup, vars, counts, s, args)
      == Prefixed("" + s[0..0], Expansion(setup, vars, counts, s[0..], args))
  {
    hide Expansion;
    assert s[0..] == s;
    var o := Expansion(setup, vars, counts, s, args);
    assert o.Done? ==> ("" + s[0..0]) + o.value == o.value;
  }

  lemma PrefixCharacter(setup: Setup, vars: seq<Variable>, counts: seq<nat>, s: string, args: seq<string>,
      out: string, from: nat, p: nat)
    requires |counts| == |vars| && from <= p < |s| && s[p] != '$'
    ensures Prefixed(out + s[from..p], Expansion(setup, vars, counts, s[p..], args))
         == Prefixed(out + s[from..p + 1], Expansion(setup, vars, counts, s[p + 1..], args))
  {
    ExpandCharacter(setup, vars, counts, s[p..], args);
    hide Expansion;
    assert s[p..][1..] == s[p + 1..];
    var o := Expansion(setup, vars, counts, s[p + 1..], args);
    if o.Done? {
      assert (out + s[from..p]) + ([s[p]] + o.value) == (out + s[from..p + 1]) + o.value;
    }
  }

  lemma PrefixReference(setup: Setup, vars: seq<Variable>, counts: seq<nat>, s: string, args: seq<string>,
      out: string, p: nat, next: nat, part: string)
    requires |counts| == |vars| && p <= |s| && next <= |s|
    requires Expansion(setup, vars, counts, s[p..], args)
      == Prefixed(part, Expansion(setup, vars, counts, s[next..], args))
    ensures Prefixed(out, Expansion(setup, vars, counts, s[p..], args))
      == Prefixed(out + part, Expansion(setup, vars, counts, s[next..], args))
  {
    hide Expansion;
    var o := Expansion(setup, vars, counts, s[next..], args);
    if o.Done? {
      assert out + (part + o.value) == (out + part) + o.value;
    }
  }

  lemma PrefixEnd(setup: Setup, vars: seq<Variable>, counts: seq<nat>, s: string, args: seq<string>, out: string)
    requires |counts| == |vars|
    ensures Prefixed(out, Expansion(setup, vars, counts, s[|s|..], args)) == Done(out)
  {
    assert out + "" == out;
  }

  function Behind(texts: seq<string>, o: Outcome<seq<string>>): Outcome<seq<string>> {
    if o.Done? then Done(texts + o.value) else o
  }

  lemma PartsStart(setup: Setup, vars: seq<Variable>, counts: seq<nat>, parts: seq<string>, args: seq<string>,
      bound: nat)
    requires |counts| == |vars| && forall i | 0 <= i < |parts| :: |parts[i]| <= bound
    ensures ExpandedParts(setup, vars, counts, parts, args, bound)
      == Behind([], ExpandedParts(setup, vars, counts, parts[0..], args, bound))
  {
    hide ExpandedParts;
    assert parts[0..] == parts;
    var o := ExpandedParts(setup, vars, counts, parts, args, bound);
    assert o.Done? ==> [] + o.value == o.value;
  }

  lemma PartsNext(setup: Setup, vars: seq<Variable>, counts: seq<nat>, parts: seq<string>, args: seq<string>,
      bound: nat, i: nat, texts: seq<string>)
    requires |counts| == |vars| && i < |parts| && forall k | 0 <= k < |parts| :: |parts[k]| <= bound
    ensures match Expansion(setup, vars, counts, parts[i], args)
      case Failed(why) => ExpandedParts(setup, vars, counts, parts[i..], args, bound) == Failed(why)
      case Done(text) =>
        Behind(texts, ExpandedParts(setup, vars, counts, parts[i..], args, bound))
        == Behind(texts + [text], ExpandedParts(setup, vars, counts, parts[i + 1..], args, bound))
  {
    hide Expansion;
    assert parts[i..][0] == parts[i] && parts[i..][1..] == parts[i + 1..];
    var text, o := Expansion(setup, vars, counts, parts[i], args),
      ExpandedParts(setup, vars, counts, parts[i + 1..], args, bound);
    if text.Done? && o.Done? {
      assert texts + ([text.value] + o.value) == (texts + [text.value]) + o.value;
    }
  }

  lemma PartsEnd(setup: Setup, vars: seq<Variable>, counts: seq<nat>, parts: seq<string>, args: seq<string>,
      bound: nat, texts: seq<string>)
    requires |counts| == |vars|
    ensures Behind(texts, ExpandedParts(setup, vars, counts, parts[|parts|..], args, bound)) == Done(texts)
  {
    assert texts + [] == texts;
  }
}
