/** What a line of a configuration file says, stated by the shape of the line
    and not by how it is scanned. */
module DotConfigLaws {
  import opened Symbols
  import opened Expressions
  import opened DotConfigFormat
  import DotConfig
  import Numerals

  // ----- the escaped text -----

  /** How many characters need a backslash. */
  function Marks(s: string): nat { multiset(s)['"'] + multiset(s)['\\'] }

  lemma MarksJoined(a: string, b: string)
    ensures Marks(a + b) == Marks(a) + Marks(b)
  {
  }

  lemma EscapedOne(c: char)
    ensures Marks([c]) == (if c == '"' || c == '\\' then 1 else 0) && |EscapedBody([c])| == 1 + Marks([c])
    ensures EscapedBody([c])[Marks([c])] == c && (Marks([c]) == 1 ==> EscapedBody([c])[0] == '\\')
  {
    assert EscapedBody([c]) == (if Special(c) then ['\\', c] else [c]) + EscapedBody("");
  }

  lemma {:induction false} EscapedLength(s: string)
    ensures |EscapedBody(s)| == |s| + Marks(s)
  {
    if s == "" {
    } else {
      var t, c := s[..|s| - 1], s[|s| - 1];
      assert s == t + [c];
      EscapedLength(t);
      DotConfig.EscapedAppend(t, [c]);
      MarksJoined(t, [c]);
      EscapedOne(c);
    }
  }

  /** Where a character is in the escaped text. */
  function Place(s: string, i: nat): nat
    requires i < |s|
  {
    i + Marks(s[..i + 1])
  }

  /** The escaped text holds every character in order, moved by the number of
      quotes and backslashes up to it; each of those has a backslash before it,
      and there is nothing else. */
  lemma EscapedShape(s: string, i: nat)
    requires i < |s|
    ensures |EscapedBody(s)| == |s| + Marks(s)
    ensures Place(s, i) < |EscapedBody(s)| && EscapedBody(s)[Place(s, i)] == s[i]
    ensures s[i] == '"' || s[i] == '\\' ==> 0 < Place(s, i) && EscapedBody(s)[Place(s, i) - 1] == '\\'
  {
    var a, c, b := s[..i], s[i], s[i + 1..];
    assert s[..i + 1] == a + [c] && s == (a + [c]) + b;
    EscapedLength(s);
    EscapedLength(a);
    EscapedOne(c);
    MarksJoined(a, [c]);
    DotConfig.EscapedAppend(a, [c]);
    DotConfig.EscapedAppend(a + [c], b);
    hide Marks, EscapedBody;
    var x, y := EscapedBody(a), EscapedBody([c]);
    assert EscapedBody(s) == x + y + EscapedBody(b);
    assert (x + y + EscapedBody(b))[|x| + Marks([c])] == y[Marks([c])];
    assert (x + y + EscapedBody(b))[|x|] == y[0];
  }

  // ----- quoted strings -----

  /** The text between the quotes spells the string: a character stands for
      itself, or after a backslash for itself whatever it is. */
  predicate Spells(body: string, u: string)
    decreases |u|
  {
    if u == "" then body == ""
    else
      || (body != "" && body[0] == u[0] && u[0] != '"' && u[0] != '\\' && Spells(body[1..], u[1..]))
      || (|body| >= 2 && body[0] == '\\' && body[1] == u[0] && Spells(body[2..], u[1..]))
  }

  /** The text starts with the quoted string, without its opening quote. */
  ghost predicate Quotes(s: string, u: string) {
    exists k | 0 <= k < |s| :: s[k] == '"' && Spells(s[..k], u)
  }

  lemma {:induction false} QuotesRead(s: string, u: string, k: nat)
    requires k < |s| && s[k] == '"' && Spells(s[..k], u)
    ensures Unescaped(s) == Some(u)
    decreases |s|
  {
    var body := s[..k];
    if u != "" {
      if body[0] == '\\' {
        assert body[2..] == s[2..][..k - 2] && s[2..][k - 2] == '"';
        QuotesRead(s[2..], u[1..], k - 2);
      } else {
        assert body[1..] == s[1..][..k - 1] && s[1..][k - 1] == '"';
        QuotesRead(s[1..], u[1..], k - 1);
      }
      assert u == [u[0]] + u[1..];
    }
  }

  lemma {:induction false} ReadQuotes(s: string, u: string) returns (k: nat)
    requires Unescaped(s) == Some(u)
    ensures k < |s| && s[k] == '"' && Spells(s[..k], u)
    decreases |s|
  {
    if s[0] == '"' {
      k := 0;
    } else {
      var n := if s[0] == '\\' then 2 else 1;
      var v := Unescaped(s[n..]).value;
      var j := ReadQuotes(s[n..], v);
      k := n + j;
      assert s[..k][n..] == s[n..][..j] && u[1..] == v;
    }
  }

  /** A string is read if and only if the text quotes it. */
  lemma UnescapedExact(s: string, u: string)
    ensures Unescaped(s) == Some(u) <==> Quotes(s, u)
  {
    if Unescaped(s) == Some(u) { var k := ReadQuotes(s, u); }
    if Quotes(s, u) {
      var k :| 0 <= k < |s| && s[k] == '"' && Spells(s[..k], u);
      QuotesRead(s, u, k);
    }
  }

  // ----- numbers -----

  predicate PlainNumber(d: string) {
    d != "" && AllDigits(d) && (d[0] == '0' ==> |d| == 1)
  }

  lemma {:induction false} DigitsNumeral(d: string) returns (n: nat)
    requires PlainNumber(d)
    ensures d == Numerals.Numeral(n, 10) && (n == 0 <==> d == "0")
  {
    var c := d[|d| - 1];
    var k := (c - '0') as int;
    assert Numerals.DIGITS[k] == c;
    if |d| == 1 {
      n := k;
    } else {
      var m := DigitsNumeral(d[..|d| - 1]);
      n := m * 10 + k;
      assert n / 10 == m && n % 10 == k;
      assert d == d[..|d| - 1] + [c];
    }
  }

  lemma NumeralDigits(n: nat)
    ensures PlainNumber(Numerals.Numeral(n, 10))
  {
    Numerals.NumeralPlain(n, 10);
    hide Numerals.Numeral;
    var s := Numerals.Numeral(n, 10);
    forall i | 0 <= i < |s| ensures IsDigit(s[i]) { assert Digit(s[i]) < 10; }
    if s[0] == '0' { ZeroNumeral(); }
  }

  lemma ZeroNumeral()
    ensures Numerals.Numeral(0, 10) == "0"
  {
  }

  /** The texts that an int symbol takes are the decimal numbers, and `-0`. */
  lemma ValidIntExact(s: string)
    ensures ValidInt(s) <==> s == "-0" || exists a: int :: s == Numerals.Decimal(a)
  {
    hide Numerals.Numeral;
    if ValidInt(s) {
      var d := DotConfigFormat.Unsigned(s);
      var n := DigitsNumeral(d);
      if d == s {
        assert s == Numerals.Decimal(n);
      } else {
        assert s == "-" + d;
        var a: int := n;
        if n != 0 { assert s == Numerals.Decimal(-a); }
      }
    }
    if a: int :| s == Numerals.Decimal(a) {
      NumeralDigits(if a < 0 then -a else a);
      if a < 0 { assert s[1..] == Numerals.Numeral(-a, 10); }
    }
  }

  // ----- the value of an assignment -----

  /** What the text after the equals sign says about a symbol of a type. */
  ghost predicate Says(ty: SymbolType, text: string, v: Value) {
    match ty
    case SUnknown => false
    case SBool => text != "" && ((text[0] == 'y' && v == Logic(YES)) || (text[0] == 'n' && v == Logic(NO)))
    case STristate =>
      text != "" && ((text[0] == 'y' && v == Logic(YES)) || (text[0] == 'm' && v == Logic(MOD))
      || (text[0] == 'n' && v == Logic(NO)))
    case SInt => v == Str(text) && (text == "-0" || exists a: int :: text == Numerals.Decimal(a))
    case SHex =>
      v == Str(text)
      && exists d: string | d != "" && AllHexDigits(d) :: text == d || text == "0x" + d || text == "0X" + d
    case SString => v.Str? && text != "" && text[0] == '"' && Quotes(text[1..], v.text)
  }

  lemma ValidHexExact(s: string)
    ensures ValidHex(s) <==> exists d: string | d != "" && AllHexDigits(d) :: s == d || s == "0x" + d || s == "0X" + d
  {
    var u := Unprefixed(s);
    if ValidHex(s) {
      assert s == u || s == "0x" + u || s == "0X" + u;
    }
    if d: string :| d != "" && AllHexDigits(d) && (s == d || s == "0x" + d || s == "0X" + d) {
      if s == d {
        if |s| >= 2 { assert IsHexDigit(d[1]); }
      } else {
        assert s[2..] == d;
      }
    }
  }

  lemma AssignedExact(ty: SymbolType, text: string, v: Value)
    ensures Assigned(ty, text) == Some(v) <==> Says(ty, text, v)
  {
    match ty
    case SUnknown =>
    case SBool =>
    case STristate =>
    case SInt => ValidIntExact(text);
    case SHex => ValidHexExact(text);
    case SString =>
      if text != "" && v.Str? { UnescapedExact(text[1..], v.text); }
  }

  // ----- lines -----

  /** The text is the rest of the line, without what ends the line. */
  ghost predicate Ended(rest: string, text: string) {
    || (Free(rest, '\n') && text == rest)
    || (Free(text, '\n') && text + "\r\n" <= rest)
    || (Free(text, '\n') && text + "\n" <= rest && (text == "" || text[|text| - 1] != '\r'))
  }

  lemma ChompedExact(rest: string, text: string)
    ensures Chomped(rest) == text <==> Ended(rest, text)
  {
    var k := IndexOf(rest, '\n');
    if Chomped(rest) == text { ChompedEnds(rest); }
    if Ended(rest, text) {
      if Free(text, '\n') && text + "\r\n" <= rest {
        BreakAt(rest, text + "\r");
      } else if Free(text, '\n') && text + "\n" <= rest {
        BreakAt(rest, text);
      }
    }
  }

  lemma ChompedEnds(rest: string)
    ensures Ended(rest, Chomped(rest))
  {
    var k, text := IndexOf(rest, '\n'), Chomped(rest);
    if k < |rest| {
      assert rest[..k + 1] == rest[..k] + "\n";
      if k > 0 && rest[k - 1] == '\r' {
        assert rest[..k] == text + "\r";
        assert text + "\r\n" == (text + "\r") + "\n";
      }
    }
  }

  lemma BreakAt(rest: string, head: string)
    requires Free(head, '\n') && head + "\n" <= rest
    ensures IndexOf(rest, '\n') == |head| && rest[..|head|] == head
  {
    var tail := rest[|head| + 1..];
    assert rest == head + (['\n'] + tail);
    IndexOfSplit(head, '\n', tail);
  }

  /** The line says that the symbol is not set. */
  ghost predicate SaysUnset(line: string, name: string) {
    exists c: char :: Free(name, ' ') && ['#', c] + "CONFIG_" + name + " is not set" <= line
  }

  /** The line assigns the text to the symbol. */
  ghost predicate SaysAssigned(line: string, name: string, text: string) {
    exists rest: string :: Free(name, '=') && line == "CONFIG_" + name + "=" + rest && Ended(rest, text)
  }

  ghost predicate SaysOf(types: map<string, SymbolType>, line: string, name: string, v: Value) {
    && name in types
    && (
       || (SaysUnset(line, name) && (types[name] == SBool || types[name] == STristate) && v == Logic(NO))
       || (exists text :: SaysAssigned(line, name, text) && Says(types[name], text, v)))
  }

  lemma UnsetExact(types: map<string, SymbolType>, line: string, name: string, v: Value)
    requires line != "" && line[0] == '#'
    ensures Effect(types, line) == Some((name, v)) <==>
      name in types && SaysUnset(line, name) && (types[name] == SBool || types[name] == STristate) && v == Logic(NO)
  {
    if Effect(types, line) == Some((name, v)) {
      UnsetShape(types, line, name, v);
    }
    if SaysUnset(line, name) {
      var c :| Free(name, ' ') && ['#', c] + "CONFIG_" + name + " is not set" <= line;
      UnsetParts(line, c, name);
    }
  }

  lemma UnsetShape(types: map<string, SymbolType>, line: string, name: string, v: Value)
    requires line != "" && line[0] == '#' && Effect(types, line) == Some((name, v))
    ensures SaysUnset(line, name)
  {
    var i := IndexOf(line[9..], ' ');
    assert line[9 + i] == line[9..][i] == ' ';
    forall j | 0 <= j < |name| ensures name[j] != ' ' { assert name[j] == line[9..][j]; }
    UnsetJoined(line, i);
  }

  lemma UnsetJoined(line: string, i: nat)
    requires 9 + i < |line| && line[0] == '#' && line[2..9] == PREFIX && line[9 + i] == ' ' && UNSET <= line[10 + i..]
    ensures ['#', line[1]] + "CONFIG_" + line[9..9 + i] + " is not set" <= line
  {
    assert line[10 + i..][..10] == UNSET;
    assert line[9 + i..20 + i] == " is not set" by {
      assert line[9 + i..20 + i] == [line[9 + i]] + line[10 + i..][..10];
    }
    assert line[..2] == ['#', line[1]];
    assert line[..20 + i] == line[..2] + line[2..9] + line[9..9 + i] + line[9 + i..20 + i];
  }

  lemma UnsetParts(line: string, c: char, name: string)
    requires Free(name, ' ') && ['#', c] + "CONFIG_" + name + " is not set" <= line
    ensures |line| >= 9 && line[2..9] == PREFIX && IndexOf(line[9..], ' ') == |name|
    ensures 10 + |name| <= |line| && line[9..9 + |name|] == name && UNSET <= line[10 + |name|..]
  {
    var head := ['#', c] + "CONFIG_" + name + " is not set";
    var rest := line[|head|..];
    assert line == head + rest;
    assert line[9..] == name + ([' '] + (UNSET + rest));
    IndexOfSplit(name, ' ', UNSET + rest);
    assert line[10 + |name|..] == UNSET + rest;
  }

  lemma AssignExact(types: map<string, SymbolType>, line: string, name: string, v: Value)
    requires line == "" || line[0] != '#'
    ensures Effect(types, line) == Some((name, v)) <==>
      name in types && exists text :: SaysAssigned(line, name, text) && Says(types[name], text, v)
  {
    hide Assigned, Says, Chomped, Ended;
    if Effect(types, line) == Some((name, v)) {
      var rest := AssignShape(types, line, name, v);
      AssignedExact(types[name], Chomped(rest), v);
      ChompedExact(rest, Chomped(rest));
      assert SaysAssigned(line, name, Chomped(rest));
    }
    if name in types && exists text :: SaysAssigned(line, name, text) && Says(types[name], text, v) {
      var text :| SaysAssigned(line, name, text) && Says(types[name], text, v);
      var rest :| Free(name, '=') && line == "CONFIG_" + name + "=" + rest && Ended(rest, text);
      AssignParts(line, name, rest);
      ChompedExact(rest, text);
      AssignedExact(types[name], text, v);
    }
  }

  lemma AssignShape(types: map<string, SymbolType>, line: string, name: string, v: Value) returns (rest: string)
    requires (line == "" || line[0] != '#') && Effect(types, line) == Some((name, v))
    ensures name in types && Free(name, '=') && line == "CONFIG_" + name + "=" + rest
    ensures Assigned(types[name], Chomped(rest)) == Some(v)
  {
    hide Assigned, Chomped;
    var i := IndexOf(line[7..], '=');
    rest := line[8 + i..];
    assert line == line[..7] + line[7..7 + i] + [line[7 + i]] + rest;
    assert line[7 + i] == line[7..][i] == '=';
    forall j | 0 <= j < |name| ensures name[j] != '=' { assert name[j] == line[7..][j]; }
  }

  lemma AssignParts(line: string, name: string, rest: string)
    requires Free(name, '=') && line == "CONFIG_" + name + "=" + rest
    ensures |line| > 7 + |name| && line[..7] == PREFIX && IndexOf(line[7..], '=') == |name|
    ensures line[7..7 + |name|] == name && line[8 + |name|..] == rest
  {
    assert line[7..] == name + (['='] + rest);
    IndexOfSplit(name, '=', rest);
  }

  /** A line sets a symbol if and only if it says so: `# CONFIG_X is not set`
      for a symbol with a logic value, or `CONFIG_X=` with a text that its type takes. */
  lemma LineExact(types: map<string, SymbolType>, line: string, name: string, v: Value)
    ensures Effect(types, line) == Some((name, v)) <==> SaysOf(types, line, name, v)
  {
    hide Effect, Says, SaysUnset, SaysAssigned;
    if line != "" && line[0] == '#' {
      UnsetExact(types, line, name, v);
      forall text ensures !SaysAssigned(line, name, text) { Assigns(line, name, text); }
    } else {
      AssignExact(types, line, name, v);
      Unsets(line, name);
    }
  }

  lemma Assigns(line: string, name: string, text: string)
    ensures SaysAssigned(line, name, text) ==> line != "" && line[0] == 'C'
  {
  }

  lemma Unsets(line: string, name: string)
    ensures SaysUnset(line, name) ==> line != "" && line[0] == '#'
  {
    if c: char :| Free(name, ' ') && ['#', c] + "CONFIG_" + name + " is not set" <= line {
      assert line[0] == (['#', c] + "CONFIG_" + name + " is not set")[0];
    }
  }

  // ----- whole files -----

  /** The line sets the symbol, to whatever value. */
  predicate Concerns(types: map<string, SymbolType>, line: string, name: string) {
    Effect(types, line).Some? && Effect(types, line).value.0 == name
  }

  /** A symbol that no line sets keeps its value. */
  lemma {:induction false} OtherLinesKeep(types: map<string, SymbolType>, values: map<string, Value>,
      lines: seq<string>, name: string)
    requires forall j | 0 <= j < |lines| :: !Concerns(types, lines[j], name)
    ensures var r := After(types, values, lines);
      (name in r <==> name in values) && (name in r ==> r[name] == values[name])
  {
    hide Effect;
    if lines != [] {
      var init, last := lines[..|lines| - 1], lines[|lines| - 1];
      forall j | 0 <= j < |init| ensures !Concerns(types, init[j], name) { assert init[j] == lines[j]; }
      OtherLinesKeep(types, values, init, name);
      assert !Concerns(types, last, name);
    }
  }

  /** The last line that sets a symbol decides. */
  lemma {:induction false} LastLineDecides(types: map<string, SymbolType>, values: map<string, Value>,
      lines: seq<string>, name: string, k: nat)
    requires k < |lines| && Concerns(types, lines[k], name)
    requires forall j | k < j < |lines| :: !Concerns(types, lines[j], name)
    ensures var r := After(types, values, lines); name in r && r[name] == Effect(types, lines[k]).value.1
  {
    hide Effect;
    var init, last := lines[..|lines| - 1], lines[|lines| - 1];
    if k < |lines| - 1 {
      assert init[k] == lines[k];
      forall j | k < j < |init| ensures !Concerns(types, init[j], name) { assert init[j] == lines[j]; }
      LastLineDecides(types, values, init, name, k);
      assert !Concerns(types, last, name);
    }
  }

  function Whole(lines: seq<string>): string {
    if lines == [] then "" else lines[0] + Whole(lines[1..])
  }

  /** A line with its end, which only the last line can lack. */
  predicate ALine(line: string, last: bool) {
    line != "" && Free(line[..|line| - 1], '\n') && (line[|line| - 1] == '\n' || last)
  }

  predicate AreLines(lines: seq<string>) {
    forall i | 0 <= i < |lines| :: ALine(lines[i], i == |lines| - 1)
  }

  /** Every character of the file is in exactly one line, in order, and a line
      ends with the first newline in it. */
  lemma {:induction false} LinesShape(file: string)
    ensures Whole(Lines(file)) == file && AreLines(Lines(file))
    decreases |file|
  {
    if file == "" {
    } else {
      var k := IndexOf(file, '\n');
      if k == |file| {
        NoMoreLines(file);
      } else {
        LinesUnfold(file, k);
        LinesShape(file[k + 1..]);
        hide Lines, ALine, Whole, IndexOf, AreLines;
        FirstALine(file, k);
        MoreLines(file[..k + 1], Lines(file[k + 1..]));
      }
    }
  }

  lemma FirstALine(file: string, k: nat)
    requires k == IndexOf(file, '\n') && k < |file|
    ensures ALine(file[..k + 1], false) && file[..k + 1] + file[k + 1..] == file
  {
    hide IndexOf;
    var line := file[..k + 1];
    assert line[k] == '\n' && line[..k] == file[..k];
    forall j | 0 <= j < k ensures line[..k][j] != '\n' { assert file[j] != '\n'; }
  }

  lemma NoMoreLines(file: string)
    requires file != "" && IndexOf(file, '\n') == |file|
    ensures Lines(file) == [file] && Whole([file]) == file && AreLines([file])
  {
    assert Whole([file]) == file + Whole([]);
  }

  lemma MoreLines(first: string, rest: seq<string>)
    requires ALine(first, false) && AreLines(rest)
    ensures Whole([first] + rest) == first + Whole(rest) && AreLines([first] + rest)
  {
    assert ([first] + rest)[1..] == rest;
  }

  lemma {:induction false} LineOfEntry(entries: seq<Entry>, i: nat)
    requires i < |entries|
    ensures |LinesOf(entries)| == |entries| && LinesOf(entries)[i] == Printed(entries[i])
  {
    hide Printed;
    var n := |entries| - 1;
    if n > 0 { LineOfEntry(entries[..n], if i < n then i else 0); }
  }

  /** A written file has one line for each symbol, in the order of the symbols. */
  lemma WrittenInOrder(entries: seq<Entry>)
    requires forall i | 0 <= i < |entries| :: Writable(entries[i])
    ensures |Lines(Written(entries))| == |entries|
    ensures forall i | 0 <= i < |entries| :: Lines(Written(entries))[i] == Printed(entries[i])
  {
    WrittenLines(entries);
    hide *;
    if entries == [] {
      NoLinesOf();
    } else {
      forall i | 0 <= i < |entries|
        ensures |LinesOf(entries)| == |entries| && LinesOf(entries)[i] == Printed(entries[i])
      {
        LineOfEntry(entries, i);
      }
      LineOfEntry(entries, 0);
    }
  }

  lemma NoLinesOf()
    ensures LinesOf([]) == []
  {
  }

  lemma {:induction false} EscapedSpells(s: string)
    ensures Spells(EscapedBody(s), s)
  {
    if s != "" {
      EscapedSpells(s[1..]);
      var n := if Special(s[0]) then 2 else 1;
      assert EscapedBody(s)[n..] == EscapedBody(s[1..]);
    }
  }

  /** A symbol that is `n` is written as a comment. */
  lemma WrittenUnset(e: Entry)
    requires e.val == "n" && (e.ty == SBool || e.ty == STristate)
    ensures Printed(e) == "# CONFIG_" + e.name + " is not set\n"
  {
    assert Printed(e) == "# " + PREFIX + e.name + " " + UNSET + "\n";
    assert "# " + PREFIX == "# CONFIG_" && " " + UNSET + "\n" == " is not set\n";
    Joined4("# CONFIG_", e.name, " ", UNSET, "\n");
  }

  lemma Joined4(a: string, b: string, c: string, d: string, f: string)
    ensures a + b + c + d + f == a + b + (c + d + f)
  {
  }

  /** A string is written in quotes, with a backslash before each quote and backslash
      of it and nothing else added. */
  lemma WrittenString(e: Entry) returns (body: string)
    requires e.ty == SString
    ensures Spells(body, e.val) && |body| == |e.val| + Marks(e.val)
    ensures Printed(e) == "CONFIG_" + e.name + "=\"" + body + "\"\n"
  {
    body := EscapedBody(e.val);
    EscapedSpells(e.val);
    EscapedLength(e.val);
    hide EscapedBody, Spells, Marks;
    assert Printed(e) == "CONFIG_" + e.name + "=" + ("\"" + body + "\"") + "\n";
    assert "\"" + "\n" == "\"\n" && "=" + "\"" == "=\"";
    Quoted("CONFIG_" + e.name, "=", "\"", body, "\n");
  }

  lemma Quoted(a: string, b: string, q: string, body: string, z: string)
    ensures a + b + (q + body + q) + z == a + (b + q) + body + (q + z)
  {
  }

  /** Everything else is written as it is. */
  lemma WrittenPlain(e: Entry)
    requires e.ty == SInt || e.ty == SHex || ((e.ty == SBool || e.ty == STristate) && (e.val == "y" || e.val == "m"))
    ensures Printed(e) == "CONFIG_" + e.name + "=" + e.val + "\n"
  {
  }
}
