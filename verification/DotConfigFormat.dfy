/** The lines of a configuration file and what they mean. */
module DotConfigFormat {
  import opened Symbols
  import opened Expressions

  const PREFIX: string := "CONFIG_"
  const UNSET: string := "is not set"

  /** The value a symbol is given: a tristate, or a text. */
  datatype Value = Logic(tri: Tri) | Str(text: string)

  // ----- quoted strings -----

  predicate Special(c: char) { c == '"' || c == '\\' }

  function EscapedBody(s: string): string {
    if s == "" then ""
    else (if Special(s[0]) then ['\\', s[0]] else [s[0]]) + EscapedBody(s[1..])
  }

  function Escaped(s: string): string {
    "\"" + EscapedBody(s) + "\""
  }

  /** The text up to the closing quote, without the backslashes that escape;
      `None` if there is no closing quote. */
  function Unescaped(s: string): Option<string>
    decreases |s|
  {
    if s == "" then None
    else if s[0] == '"' then Some("")
    else if s[0] == '\\' then
      if |s| == 1 then None else Prepend(s[1], Unescaped(s[2..]))
    else Prepend(s[0], Unescaped(s[1..]))
  }

  function Prepend(c: char, r: Option<string>): Option<string> {
    if r.Some? then Some([c] + r.value) else None
  }

  /** Unescaping inverts escaping, whatever follows the closing quote. */
  lemma {:induction false} UnescapeInverts(s: string, rest: string)
    ensures Unescaped(EscapedBody(s) + ("\"" + rest)) == Some(s)
  {
    var e := EscapedBody(s) + ("\"" + rest);
    if s == "" {
      assert e == "\"" + rest;
    } else {
      UnescapeInverts(s[1..], rest);
      assert [s[0]] + s[1..] == s;
      if Special(s[0]) {
        assert e[0] == '\\' && e[1] == s[0] && e[2..] == EscapedBody(s[1..]) + ("\"" + rest);
      } else {
        assert e[0] == s[0] && e[1..] == EscapedBody(s[1..]) + ("\"" + rest);
      }
    }
  }

  // ----- values -----

  predicate IsHexDigit(c: char) { IsDigit(c) || 'a' <= c <= 'f' || 'A' <= c <= 'F' }

  predicate AllDigits(d: string) { forall i | 0 <= i < |d| :: IsDigit(d[i]) }

  predicate AllHexDigits(d: string) { forall i | 0 <= i < |d| :: IsHexDigit(d[i]) }

  function Unsigned(s: string): string { if s != "" && s[0] == '-' then s[1..] else s }

  function Unprefixed(s: string): string {
    if |s| >= 2 && s[0] == '0' && (s[1] == 'x' || s[1] == 'X') then s[2..] else s
  }

  /** A decimal number without superfluous zeros. */
  predicate ValidInt(s: string) {
    var d := Unsigned(s);
    d != "" && (d[0] == '0' ==> |d| == 1) && AllDigits(d)
  }

  predicate ValidHex(s: string) {
    Unprefixed(s) != "" && AllHexDigits(Unprefixed(s))
  }

  /** The value that the text after the equals sign gives to a symbol. */
  function Assigned(ty: SymbolType, v: string): Option<Value> {
    match ty
    case SUnknown => None
    case SBool =>
      if v == "" then None
      else if v[0] == 'y' then Some(Logic(YES))
      else if v[0] == 'n' then Some(Logic(NO))
      else None
    case STristate =>
      if v == "" then None
      else if v[0] == 'm' then Some(Logic(MOD))
      else if v[0] == 'y' then Some(Logic(YES))
      else if v[0] == 'n' then Some(Logic(NO))
      else None
    case SInt => if ValidInt(v) then Some(Str(v)) else None
    case SHex => if ValidHex(v) then Some(Str(v)) else None
    case SString =>
      if v == "" || v[0] != '"' then None
      else match Unescaped(v[1..])
        case Some(u) => Some(Str(u))
        case None => None
  }

  // ----- lines -----

  /** The position of the character, or the length if there is none. */
  function IndexOf(s: string, c: char): (i: nat)
    ensures i <= |s| && (i < |s| ==> s[i] == c) && forall j | 0 <= j < i :: s[j] != c
  {
    if s == "" then 0 else if s[0] == c then 0 else 1 + IndexOf(s[1..], c)
  }

  /** The text without the line end. */
  function Chomped(s: string): string {
    var k := IndexOf(s, '\n');
    if k == |s| then s
    else if k > 0 && s[k - 1] == '\r' then s[..k - 1]
    else s[..k]
  }

  function UnsetEffect(types: map<string, SymbolType>, line: string): Option<(string, Value)>
    requires |line| >= 9
  {
    var i := IndexOf(line[9..], ' ');
    if 9 + i == |line| then None
    else
      var name := line[9..9 + i];
      if !(UNSET <= line[10 + i..]) || name !in types then None
      else if types[name] == SBool || types[name] == STristate then Some((name, Logic(NO)))
      else None
  }

  function AssignEffect(types: map<string, SymbolType>, line: string): Option<(string, Value)>
    requires |line| >= 7
  {
    var i := IndexOf(line[7..], '=');
    if 7 + i == |line| then None
    else
      var name := line[7..7 + i];
      if name !in types then None
      else match Assigned(types[name], Chomped(line[8 + i..]))
        case Some(v) => Some((name, v))
        case None => None
  }

  /** The symbol that a line sets, and its value. */
  function Effect(types: map<string, SymbolType>, line: string): Option<(string, Value)> {
    if line != "" && line[0] == '#' then
      if |line| >= 9 && line[2..9] == PREFIX then UnsetEffect(types, line) else None
    else if |line| >= 7 && line[..7] == PREFIX then AssignEffect(types, line)
    else None
  }

  function Updated(values: map<string, Value>, effect: Option<(string, Value)>): map<string, Value> {
    if effect.Some? then values[effect.value.0 := effect.value.1] else values
  }

  /** The lines of a file, each with its line end. */
  function Lines(file: string): seq<string>
    decreases |file|
  {
    if file == "" then []
    else
      var k := IndexOf(file, '\n');
      if k == |file| then [file] else [file[..k + 1]] + Lines(file[k + 1..])
  }

  /** The values after all lines. */
  function After(types: map<string, SymbolType>, values: map<string, Value>, lines: seq<string>): map<string, Value> {
    if lines == [] then values
    else Updated(After(types, values, lines[..|lines| - 1]), Effect(types, lines[|lines| - 1]))
  }

  // ----- writing -----

  datatype Entry = Entry(name: string, ty: SymbolType, val: string)

  function LineBody(e: Entry): string {
    if (e.ty == SBool || e.ty == STristate) && e.val != "" && e.val[0] == 'n' then
      "# " + PREFIX + e.name + " " + UNSET
    else
      PREFIX + e.name + "=" + (if e.ty == SString then Escaped(e.val) else e.val)
  }

  /** `__print_symbol` for a configuration file. */
  function Printed(e: Entry): string {
    if e.ty == SUnknown then "" else LineBody(e) + "\n"
  }

  function Written(entries: seq<Entry>): string {
    if entries == [] then "" else Written(entries[..|entries| - 1]) + Printed(entries[|entries| - 1])
  }

  /** The value that the entry stands for. */
  function Meant(e: Entry): Value
  {
    if e.ty == SBool || e.ty == STristate then Logic(if e.val == "y" then YES else if e.val == "m" then MOD else NO)
    else Str(e.val)
  }

  predicate Free(s: string, c: char) {
    forall i | 0 <= i < |s| :: s[i] != c
  }

  /** Names and values that the format can carry. */
  predicate Writable(e: Entry) {
    && e.ty != SUnknown
    && Free(e.name, ' ') && Free(e.name, '=') && Free(e.name, '\n')
    && match e.ty
       case SBool => e.val == "n" || e.val == "y"
       case STristate => e.val == "n" || e.val == "m" || e.val == "y"
       case SInt => ValidInt(e.val)
       case SHex => ValidHex(e.val)
       case _ => Free(e.val, '\n')
  }

  // ----- the round trip -----

  lemma IndexOfSplit(s: string, c: char, rest: string)
    requires Free(s, c)
    ensures IndexOf(s + ([c] + rest), c) == |s|
  {
    var t := s + ([c] + rest);
    assert t[|s|] == c;
    assert forall j | 0 <= j < |s| :: t[j] == s[j];
  }

  lemma {:induction false} EscapedFree(s: string, c: char)
    requires Free(s, c) && !Special(c)
    ensures Free(EscapedBody(s), c)
  {
    if s != "" { EscapedFree(s[1..], c); }
  }

  /** A written value has no newline and does not end with a carriage return. */
  lemma ValueFree(e: Entry)
    requires Writable(e)
    ensures var v := if e.ty == SString then Escaped(e.val) else e.val; v != "" && Free(v, '\n') && v[|v| - 1] != '\r'
  {
    if e.ty == SString { EscapedFree(e.val, '\n'); }
    if e.ty == SInt { IntFree(e.val); }
    if e.ty == SHex { HexFree(e.val); }
  }

  lemma IntFree(s: string)
    requires ValidInt(s)
    ensures s != "" && Free(s, '\n') && s[|s| - 1] != '\r'
  {
    var d := Unsigned(s);
    if d != s {
      forall i | 1 <= i < |s| ensures IsDigit(s[i]) { assert s[i] == d[i - 1]; }
    }
  }

  lemma HexFree(s: string)
    requires ValidHex(s)
    ensures s != "" && Free(s, '\n') && s[|s| - 1] != '\r'
  {
    var d := Unprefixed(s);
    if d != s {
      forall i | 2 <= i < |s| ensures IsHexDigit(s[i]) { assert s[i] == d[i - 2]; }
    }
  }

  lemma BodyFree(e: Entry)
    requires Writable(e)
    ensures Free(LineBody(e), '\n')
  {
    ValueFree(e);
  }

  lemma AssignedValue(e: Entry)
    requires Writable(e)
    ensures var v := if e.ty == SString then Escaped(e.val) else e.val; Assigned(e.ty, v) == Some(Meant(e))
  {
    if e.ty == SString {
      UnescapeInverts(e.val, "");
      assert "\"" + "" == "\"";
      assert Escaped(e.val)[1..] == EscapedBody(e.val) + ("\"" + "");
    }
  }

  lemma AssignLine(types: map<string, SymbolType>, name: string, v: string)
    requires name in types && Free(name, '=') && Free(v, '\n') && v != "" && v[|v| - 1] != '\r'
    ensures var line := PREFIX + name + "=" + v + "\n";
      Effect(types, line) == match Assigned(types[name], v) case Some(x) => Some((name, x)) case None => None
  {
    hide Assigned, IndexOf, Chomped;
    var line := PREFIX + name + "=" + v + "\n";
    AssignSlices(name, v);
    IndexOfSplit(name, '=', v + "\n");
    ChompedValue(v);
  }

  lemma AssignSlices(name: string, v: string)
    ensures var line := PREFIX + name + "=" + v + "\n";
      && |line| > 8 + |name| && line[0] == 'C' && line[..7] == PREFIX && line[7..] == name + ("=" + (v + "\n"))
      && line[7..7 + |name|] == name && line[8 + |name|..] == v + "\n"
  {
    var line, tail := PREFIX + name + "=" + v + "\n", "=" + (v + "\n");
    assert line == PREFIX + (name + tail);
    assert (name + tail)[..|name|] == name && (name + tail)[|name| + 1..] == v + "\n";
    assert line[8 + |name|..] == (name + tail)[|name| + 1..] && line[7..7 + |name|] == (name + tail)[..|name|];
  }

  lemma ChompedValue(v: string)
    requires Free(v, '\n') && v != "" && v[|v| - 1] != '\r'
    ensures Chomped(v + "\n") == v
  {
    assert v + "\n" == v + ("\n" + "");
    IndexOfSplit(v, '\n', "");
    assert (v + "\n")[..|v|] == v;
  }

  lemma UnsetLine(types: map<string, SymbolType>, name: string)
    requires name in types && Free(name, ' ') && (types[name] == SBool || types[name] == STristate)
    ensures Effect(types, "# " + PREFIX + name + " " + UNSET + "\n") == Some((name, Logic(NO)))
  {
    var line := "# " + PREFIX + name + " " + UNSET + "\n";
    assert line[2..9] == PREFIX;
    assert line[9..] == name + (" " + (UNSET + "\n"));
    IndexOfSplit(name, ' ', UNSET + "\n");
    assert line[9..9 + |name|] == name && line[10 + |name|..] == UNSET + "\n";
  }

  /** Reading the line of an entry restores its value. */
  lemma LineRoundTrip(types: map<string, SymbolType>, e: Entry)
    requires Writable(e) && e.name in types && types[e.name] == e.ty
    ensures Effect(types, Printed(e)) == Some((e.name, Meant(e)))
  {
    if (e.ty == SBool || e.ty == STristate) && e.val[0] == 'n' {
      UnsetLine(types, e.name);
      assert Printed(e) == "# " + PREFIX + e.name + " " + UNSET + "\n";
    } else {
      ValueFree(e);
      AssignedValue(e);
      AssignLine(types, e.name, if e.ty == SString then Escaped(e.val) else e.val);
    }
  }

  lemma {:induction false} LinesAppend(a: string, body: string)
    requires Free(body, '\n') && (a == "" || a[|a| - 1] == '\n')
    ensures Lines(a + (body + "\n")) == Lines(a) + [body + "\n"]
    decreases |a|
  {
    hide Lines, IndexOf;
    if a == "" {
      OneLine(body);
      assert a + (body + "\n") == body + "\n";
      NoLines();
    } else {
      var k := IndexOf(a, '\n');
      FirstLine(a, body + "\n", k);
      LinesAppend(a[k + 1..], body);
      Regrouped(a[..k + 1], Lines(a[k + 1..]), body + "\n");
    }
  }

  lemma NoLines()
    ensures Lines("") == []
  {
  }

  lemma Regrouped(first: string, rest: seq<string>, last: string)
    ensures [first] + (rest + [last]) == ([first] + rest) + [last]
  {
  }

  lemma OneLine(body: string)
    requires Free(body, '\n')
    ensures Lines(body + "\n") == [body + "\n"]
  {
    var file := body + "\n";
    assert file == body + ("\n" + "");
    IndexOfSplit(body, '\n', "");
    assert file[..|body| + 1] == file && file[|body| + 1..] == "";
    assert Lines(file) == [file] + Lines("");
  }

  lemma FirstLine(a: string, b: string, k: nat)
    requires a != "" && a[|a| - 1] == '\n' && k == IndexOf(a, '\n')
    ensures k < |a| && (a[k + 1..] == "" || a[k + 1..][|a[k + 1..]| - 1] == '\n')
    ensures Lines(a) == [a[..k + 1]] + Lines(a[k + 1..])
    ensures Lines(a + b) == [a[..k + 1]] + Lines(a[k + 1..] + b)
  {
    hide Lines;
    assert a[|a| - 1] == '\n';
    FirstBreak(a, b, k);
    LinesUnfold(a, k);
    LinesUnfold(a + b, k);
    assert (a + b)[..k + 1] == a[..k + 1] && (a + b)[k + 1..] == a[k + 1..] + b;
  }

  lemma FirstBreak(a: string, b: string, k: nat)
    requires k == IndexOf(a, '\n') && k < |a|
    ensures IndexOf(a + b, '\n') == k
  {
    assert forall j | 0 <= j < |a| :: (a + b)[j] == a[j];
  }

  lemma LinesUnfold(file: string, k: nat)
    requires k == IndexOf(file, '\n') && k < |file|
    ensures Lines(file) == [file[..k + 1]] + Lines(file[k + 1..])
  {
  }

  function LinesOf(entries: seq<Entry>): seq<string> {
    if entries == [] then [] else LinesOf(entries[..|entries| - 1]) + [Printed(entries[|entries| - 1])]
  }

  lemma {:induction false} WrittenLines(entries: seq<Entry>)
    requires forall i | 0 <= i < |entries| :: Writable(entries[i])
    ensures Lines(Written(entries)) == LinesOf(entries)
    ensures Written(entries) == "" || Written(entries)[|Written(entries)| - 1] == '\n'
  {
    if entries != [] {
      var last := entries[|entries| - 1];
      WrittenLines(entries[..|entries| - 1]);
      BodyFree(last);
      LinesAppend(Written(entries[..|entries| - 1]), LineBody(last));
    }
  }

  predicate Names(entries: seq<Entry>, types: map<string, SymbolType>) {
    && (forall i | 0 <= i < |entries| ::
         Writable(entries[i]) && entries[i].name in types && types[entries[i].name] == entries[i].ty)
    && (forall i, j | 0 <= i < j < |entries| :: entries[i].name != entries[j].name)
  }

  /** The values are those of the entries, and there are no others. */
  ghost predicate Carries(r: map<string, Value>, entries: seq<Entry>) {
    && (forall i | 0 <= i < |entries| ::
         Writable(entries[i]) && entries[i].name in r && r[entries[i].name] == Meant(entries[i]))
    && (forall name | name in r :: exists i | 0 <= i < |entries| :: entries[i].name == name)
  }

  lemma CarriesStep(r: map<string, Value>, entries: seq<Entry>, e: Entry)
    requires Carries(r, entries) && Writable(e) && forall i | 0 <= i < |entries| :: entries[i].name != e.name
    ensures Carries(r[e.name := Meant(e)], entries + [e])
  {
    hide Writable, Meant;
    var more, q := entries + [e], r[e.name := Meant(e)];
    forall name | name in q ensures exists i | 0 <= i < |more| :: more[i].name == name {
      if name == e.name {
        assert more[|entries|].name == name;
      } else {
        var i :| 0 <= i < |entries| && entries[i].name == name;
        assert more[i].name == name;
      }
    }
  }

  lemma {:induction false} AfterLines(types: map<string, SymbolType>, entries: seq<Entry>)
    requires Names(entries, types)
    ensures Carries(After(types, map[], LinesOf(entries)), entries)
  {
    hide *;
    if entries == [] {
      CarriesNothing(types);
    } else {
      NamesInit(types, entries);
      AfterLines(types, entries[..|entries| - 1]);
      AfterLast(types, entries);
    }
  }

  lemma AfterLast(types: map<string, SymbolType>, entries: seq<Entry>)
    requires entries != [] && Names(entries, types)
    requires Carries(After(types, map[], LinesOf(entries[..|entries| - 1])), entries[..|entries| - 1])
    ensures Carries(After(types, map[], LinesOf(entries)), entries)
  {
    hide *;
    NamesInit(types, entries);
    AfterEntry(types, entries);
    var init, e := entries[..|entries| - 1], entries[|entries| - 1];
    var r := After(types, map[], LinesOf(init));
    LineRoundTrip(types, e);
    UpdatedBy(r, e.name, Meant(e));
    CarriesStep(r, init, e);
    assert init + [e] == entries;
  }

  lemma CarriesNothing(types: map<string, SymbolType>)
    ensures Carries(After(types, map[], LinesOf([])), [])
  {
  }

  lemma AfterEntry(types: map<string, SymbolType>, entries: seq<Entry>)
    requires entries != []
    ensures var k := |entries| - 1;
      After(types, map[], LinesOf(entries))
      == Updated(After(types, map[], LinesOf(entries[..k])), Effect(types, Printed(entries[k])))
  {
    hide After, Effect, Printed;
    var k := |entries| - 1;
    AfterSnoc(types, LinesOf(entries[..k]), Printed(entries[k]));
  }

  lemma UpdatedBy(values: map<string, Value>, name: string, v: Value)
    ensures Updated(values, Some((name, v))) == values[name := v]
  {
  }

  lemma NamesInit(types: map<string, SymbolType>, entries: seq<Entry>)
    requires Names(entries, types) && entries != []
    ensures var k := |entries| - 1;
      && Names(entries[..k], types)
      && Writable(entries[k]) && entries[k].name in types && types[entries[k].name] == entries[k].ty
      && forall i | 0 <= i < k :: entries[..k][i].name != entries[k].name
  {
    hide Writable;
  }

  lemma AfterSnoc(types: map<string, SymbolType>, lines: seq<string>, line: string)
    ensures After(types, map[], lines + [line]) == Updated(After(types, map[], lines), Effect(types, line))
  {
    hide Effect;
    assert (lines + [line])[..|lines|] == lines;
  }

  /** Reading a written configuration restores the value of every symbol in it,
      and sets no other. */
  lemma WriteRead(types: map<string, SymbolType>, entries: seq<Entry>)
    requires Names(entries, types)
    ensures Carries(After(types, map[], Lines(Written(entries))), entries)
  {
    WrittenLines(entries);
    AfterLines(types, entries);
  }
}
