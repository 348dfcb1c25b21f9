/** Writing and reading configuration files, with the strings in buffers. */
module DotConfig {
  import opened Symbols
  import opened Expressions
  import opened DotConfigFormat

  // ----- escaping -----

  function Specials(s: string): nat {
    if s == "" then 0 else (if Special(s[0]) then 1 else 0) + Specials(s[1..])
  }

  lemma {:induction false} EscapedLength(s: string)
    ensures |EscapedBody(s)| == |s| + Specials(s)
  {
    if s != "" { EscapedLength(s[1..]); }
  }

  lemma {:induction false} EscapedAppend(a: string, b: string)
    ensures EscapedBody(a + b) == EscapedBody(a) + EscapedBody(b)
  {
    if a == "" {
      assert a + b == b;
    } else {
      assert (a + b)[1..] == a[1..] + b;
      EscapedAppend(a[1..], b);
    }
  }

  predicate NoSpecials(s: string) {
    forall i | 0 <= i < |s| :: !Special(s[i])
  }

  lemma {:induction false} EscapedPlain(s: string)
    requires NoSpecials(s)
    ensures EscapedBody(s) == s && Specials(s) == 0
  {
    if s != "" { EscapedPlain(s[1..]); }
  }

  /** `strcspn` from `p` on. */
  method Span(s: string, p: nat) returns (q: nat)
    requires p <= |s|
    ensures p <= q <= |s| && NoSpecials(s[p..q]) && (q < |s| ==> Special(s[q]))
  {
    q := p;
    while q < |s| && !Special(s[q])
      invariant p <= q <= |s| && NoSpecials(s[p..q])
    {
      assert s[p..q + 1] == s[p..q] + [s[q]];
      q := q + 1;
    }
  }

  lemma SpecialsAt(s: string, p: nat, q: nat)
    requires p <= q <= |s| && NoSpecials(s[p..q]) && (q < |s| ==> Special(s[q]))
    ensures Specials(s[p..]) == if q < |s| then 1 + Specials(s[q + 1..]) else 0
  {
    EscapedLength(s[p..]);
    EscapedLength(s[q..]);
    EscapedAppend(s[p..q], s[q..]);
    assert s[p..q] + s[q..] == s[p..];
    EscapedPlain(s[p..q]);
    if q < |s| {
      assert s[q..][1..] == s[q + 1..];
    }
  }

  /** The first pass: how much room the escaped string needs with its end. */
  method EscapedRoom(s: string) returns (len: nat)
    ensures len == |Escaped(s)| + 1
  {
    EscapedLength(s);
    len := |s| + 2 + 1;
    var p := 0;
    assert s[0..] == s;
    while true
      invariant 0 <= p <= |s|
      invariant len + Specials(s[p..]) == |s| + 3 + Specials(s)
      decreases |s| - p
    {
      var q := Span(s, p);
      SpecialsAt(s, p, q);
      p := q;
      if p == |s| {
        break;
      }
      len := len + 1;
      p := p + 1;
    }
  }

  /** Writes a piece of text behind what the buffer holds. */
  method Put(out: array<char>, pos: nat, piece: string) returns (next: nat)
    requires pos + |piece| <= out.Length
    modifies out
    ensures next == pos + |piece| && out[..next] == old(out[..pos]) + piece
  {
    for i := 0 to |piece|
      invariant out[..pos + i] == old(out[..pos]) + piece[..i]
    {
      out[pos + i] := piece[i];
      assert out[..pos + (i + 1)] == out[..pos + i] + [piece[i]];
    }
    next := pos + |piece|;
    assert piece[..|piece|] == piece;
  }

  /** `escape_string_value`: the second pass fills the buffer exactly. */
  method EscapeStringValue(s: string) returns (out: array<char>)
    ensures out[..] == Escaped(s) + ['\0']
  {
    hide EscapedBody, NoSpecials;
    var len := EscapedRoom(s);
    out := new char[len](_ => '\0');
    var pos := Put(out, 0, "\"");
    var p := 0;
    StartEscaped(s);
    while true
      invariant 0 <= p <= |s| && 0 <= pos && pos + |EscapedBody(s[p..])| + 2 == len == out.Length
      invariant out[..pos] == "\"" + EscapedBody(s[..p])
      decreases |s| - p
    {
      var q := Span(s, p);
      SplitEscaped(s, p, q);
      pos := Put(out, pos, s[p..q]);
      p := q;
      if p == |s| {
        break;
      }
      StepEscaped(s, p);
      pos := Put(out, pos, ['\\', s[p]]);
      p := p + 1;
    }
    EndEscaped(s);
    pos := Put(out, pos, ['"', '\0']);
    assert out[..pos] == out[..];
    assert "\"" + EscapedBody(s) + ['"', '\0'] == Escaped(s) + ['\0'];
  }

  lemma StartEscaped(s: string)
    ensures EscapedBody(s[..0]) == "" && EscapedBody(s[0..]) == EscapedBody(s)
  {
    assert s[0..] == s;
  }

  lemma EndEscaped(s: string)
    ensures EscapedBody(s[..|s|]) == EscapedBody(s) && EscapedBody(s[|s|..]) == ""
  {
    assert s[..|s|] == s;
  }

  lemma SplitEscaped(s: string, p: nat, q: nat)
    requires p <= q <= |s| && NoSpecials(s[p..q])
    ensures |EscapedBody(s[p..])| == (q - p) + |EscapedBody(s[q..])|
    ensures "\"" + EscapedBody(s[..p]) + s[p..q] == "\"" + EscapedBody(s[..q])
  {
    assert s[p..] == s[p..q] + s[q..];
    EscapedAppend(s[p..q], s[q..]);
    EscapedPlain(s[p..q]);
    assert s[..p] + s[p..q] == s[..q];
    EscapedAppend(s[..p], s[p..q]);
  }

  lemma StepEscaped(s: string, p: nat)
    requires p < |s| && Special(s[p])
    ensures |EscapedBody(s[p..])| == 2 + |EscapedBody(s[p + 1..])| 
    ensures "\"" + EscapedBody(s[..p]) + ['\\', s[p]] == "\"" + EscapedBody(s[..p + 1])
  {
    assert s[p..][1..] == s[p + 1..];
    assert s[..p + 1] == s[..p] + [s[p]];
    EscapedAppend(s[..p], [s[p]]);
    assert EscapedBody([s[p]]) == ['\\', s[p]] + EscapedBody([s[p]][1..]);
  }

  // ----- unescaping in place -----

  function PrependAll(t: string, r: Option<string>): Option<string> {
    if r.Some? then Some(t + r.value) else None
  }

  lemma {:induction false} UnescapedPlain(a: string, b: string)
    requires NoSpecials(a)
    ensures Unescaped(a + b) == PrependAll(a, Unescaped(b))
  {
    if a == "" {
      assert a + b == b;
      PrependNothing(Unescaped(b));
    } else {
      assert (a + b)[1..] == a[1..] + b && (a + b)[0] == a[0];
      UnescapedPlain(a[1..], b);
      var u := Unescaped(b);
      if u.Some? {
        assert [a[0]] + (a[1..] + u.value) == a + u.value;
      }
    }
  }

  /** `strpbrk` in the string that ends at `end`. */
  method FindSpecial(buf: array<char>, p: nat, end: nat) returns (r: Option<nat>)
    requires p <= end < buf.Length && buf[end] == '\0'
    ensures match r
      case None => NoSpecials(buf[p..end])
      case Some(q) => p <= q < end && Special(buf[q]) && NoSpecials(buf[p..q])
  {
    var q := p;
    while q < end
      invariant p <= q <= end && NoSpecials(buf[p..q])
    {
      if Special(buf[q]) {
        return Some(q);
      }
      q := q + 1;
    }
    return None;
  }

  /** `memmove` of the string after `q`, with its end, one place to the left. */
  method CloseGap(buf: array<char>, q: nat, end: nat)
    requires q < end < buf.Length
    modifies buf
    ensures buf[..q] == old(buf[..q]) && buf[q..end] == old(buf[q + 1..end + 1]) && buf[end] == old(buf[end])
  {
    for i := q to end
      invariant buf[..q] == old(buf[..q]) && buf[q..i] == old(buf[q + 1..i + 1]) && buf[i..] == old(buf[i..])
    {
      assert buf[i + 1] == old(buf[i + 1]) by { assert buf[i..][1] == old(buf[i..])[1]; }
      buf[i] := buf[i + 1];
      assert buf[q..i + 1] == buf[q..i] + [buf[i]];
      assert old(buf[q + 1..i + 2]) == old(buf[q + 1..i + 1]) + [old(buf[i + 1])];
      assert buf[i + 1..] == old(buf[i..])[1..];
    }
    assert buf[end..][0] == old(buf[end..])[0];
  }

  /** The loop of `conf_set_sym_val` that takes out the backslashes and cuts the
      string at the closing quote. */
  method Unescape(buf: array<char>, from: nat, last: nat) returns (end: Option<nat>)
    requires from <= last < buf.Length && buf[last] == '\0'
    modifies buf
    ensures match Unescaped(old(buf[from..last]))
      case None => end == None
      case Some(v) =>
        && end == Some(from + |v|) && from + |v| < buf.Length
        && buf[from..from + |v|] == v && buf[from + |v|] == '\0'
  {
    hide Unescaped, PrependAll, NoSpecials;
    var p, e := from, last;
    assert buf[from..from] == "";
    PrependNothing(Unescaped(buf[from..last]));
    while true
      invariant from <= p <= e < buf.Length && buf[e] == '\0'
      invariant Unescaped(old(buf[from..last])) == PrependAll(buf[from..p], Unescaped(buf[p..e]))
      decreases e - p
    {
      var q := FindSpecial(buf, p, e);
      if q.None? {
        NothingSpecial(buf[from..p], buf[p..e]);
        return None;
      }
      ghost var now := buf[..];
      assert now[p..e] == buf[p..e] && now[from..p] == buf[from..p] && now[p..q.value] == buf[p..q.value];
      UnescapedStep(now, from, p, q.value, e);
      if buf[q.value] == '"' {
        buf[q.value] := '\0';
        return Some(q.value);
      }
      CloseGap(buf, q.value, e);
      GapClosed(now, buf[..], from, q.value, e);
      p := q.value + 1;
      if p < e {
        e := e - 1;
      } else {
        NothingSpecial(buf[from..p], buf[p..e]);
      }
    }
  }

  lemma NothingSpecial(t: string, s: string)
    requires NoSpecials(s)
    ensures PrependAll(t, Unescaped(s)) == None
  {
    UnescapedPlain(s, "");
    assert s + "" == s;
  }

  lemma PrependNothing(r: Option<string>)
    ensures PrependAll("", r) == r
  {
    if r.Some? { assert "" + r.value == r.value; }
  }

  /** What the next special character does. */
  lemma UnescapedStep(b: seq<char>, from: nat, p: nat, q: nat, e: nat)
    requires from <= p <= q < e < |b| && Special(b[q]) && NoSpecials(b[p..q])
    ensures b[q] == '"' ==> PrependAll(b[from..p], Unescaped(b[p..e])) == Some(b[from..q])
    ensures b[q] == '\\' && q + 1 < e ==>
      PrependAll(b[from..p], Unescaped(b[p..e])) == PrependAll(b[from..q] + [b[q + 1]], Unescaped(b[q + 2..e]))
    ensures b[q] == '\\' && q + 1 == e ==> PrependAll(b[from..p], Unescaped(b[p..e])) == None
  {
    assert b[p..e] == b[p..q] + b[q..e];
    UnescapedPlain(b[p..q], b[q..e]);
    assert b[from..p] + b[p..q] == b[from..q];
    var rest := b[q..e];
    assert rest[0] == b[q];
    if b[q] == '"' {
      assert b[p..q] + "" == b[p..q];
    } else if q + 1 < e {
      assert rest[1] == b[q + 1] && rest[2..] == b[q + 2..e];
      var u := Unescaped(b[q + 2..e]);
      if u.Some? {
        assert b[from..p] + (b[p..q] + ([b[q + 1]] + u.value)) == b[from..q] + [b[q + 1]] + u.value;
      }
    }
  }

  lemma GapClosed(b: seq<char>, c: seq<char>, from: nat, q: nat, e: nat)
    requires from <= q < e < |b| == |c| && c[..q] == b[..q] && c[q..e] == b[q + 1..e + 1]
    ensures c[from..q + 1] == b[from..q] + [b[q + 1]]
    ensures q + 1 < e ==> c[q + 1..e - 1] == b[q + 2..e] && c[e - 1] == b[e]
  {
    forall i | q <= i < e ensures c[i] == b[i + 1] {
      assert c[i] == c[q..e][i - q] && b[i + 1] == b[q + 1..e + 1][i - q];
    }
    assert c[from..q] == c[..q][from..] && b[from..q] == b[..q][from..];
    assert c[from..q + 1] == c[from..q] + [c[q]];
  }

  // ----- files -----

  /** `__print_symbol` for every symbol in turn. */
  method WriteConfig(entries: seq<Entry>) returns (file: string)
    ensures file == Written(entries)
  {
    file := "";
    for i := 0 to |entries|
      invariant file == Written(entries[..i])
    {
      assert entries[..i + 1][..i] == entries[..i];
      var line := PrintSymbol(entries[i]);
      file := file + line;
    }
    assert entries[..|entries|] == entries;
  }

  method PrintSymbol(e: Entry) returns (line: string)
    ensures line == Printed(e)
  {
    if e.ty == SUnknown {
      return "";
    }
    if (e.ty == SBool || e.ty == STristate) && e.val != "" && e.val[0] == 'n' {
      return "# " + PREFIX + e.name + " " + UNSET + "\n";
    }
    var val := e.val;
    if e.ty == SString {
      var escaped := EscapeStringValue(e.val);
      val := escaped[..escaped.Length - 1];
      assert val == Escaped(e.val);
    }
    line := PREFIX + e.name + "=" + val + "\n";
  }

  class Reader {
    const types: map<string, SymbolType>
    /** The values of the symbols that have been set. */
    var values: map<string, Value>

    constructor (types: map<string, SymbolType>)
      ensures this.types == types && values == map[]
    {
      this.types, values := types, map[];
    }

    /** `conf_set_sym_val`. */
    method SetSymVal(name: string, p: string)
      requires name in types && Free(p, '\0')
      modifies this`values
      ensures values == match Assigned(types[name], p)
        case Some(v) => old(values)[name := v]
        case None => old(values)
    {
      hide Unescaped, ValidInt, ValidHex;
      match types[name]
      case SUnknown =>
      case SBool =>
        if p != "" && (p[0] == 'y' || p[0] == 'n') {
          values := values[name := Logic(if p[0] == 'y' then YES else NO)];
        }
      case STristate =>
        if p != "" && p[0] == 'm' {
          values := values[name := Logic(MOD)];
        } else if p != "" && (p[0] == 'y' || p[0] == 'n') {
          values := values[name := Logic(if p[0] == 'y' then YES else NO)];
        }
      case SInt => if ValidInt(p) { values := values[name := Str(p)]; }
      case SHex => if ValidHex(p) { values := values[name := Str(p)]; }
      case SString =>
        if p != "" && p[0] == '"' {
          var buf := new char[|p| + 1](i requires 0 <= i <= |p| => if i < |p| then p[i] else '\0');
          assert buf[1..|p|] == p[1..];
          var end := Unescape(buf, 1, |p|);
          if end.Some? {
            values := values[name := Str(buf[1..end.value])];
          }
        }
    }

    /** One line of the file. */
    method ReadLine(line: string)
      requires Free(line, '\0')
      modifies this`values
      ensures values == Updated(old(values), Effect(types, line))
    {
      hide Assigned;
      if line != "" && line[0] == '#' {
        if |line| < 9 || line[2..9] != PREFIX { return; }
        var i := IndexOf(line[9..], ' ');
        if 9 + i == |line| { return; }
        var name := line[9..9 + i];
        if !(UNSET <= line[10 + i..]) || name !in types { return; }
        if types[name] == SBool || types[name] == STristate {
          values := values[name := Logic(NO)];
        }
      } else if |line| >= 7 && line[..7] == PREFIX {
        var i := IndexOf(line[7..], '=');
        if 7 + i == |line| { return; }
        var name := line[7..7 + i];
        if name !in types { return; }
        FreeChomped(line, 8 + i);
        SetSymVal(name, Chomped(line[8 + i..]));
      }
    }

    /** `conf_read_simple`: all values are reset, then the lines are read. */
    method Read(file: string)
      requires Free(file, '\0')
      modifies this`values
      ensures values == After(types, map[], Lines(file))
    {
      hide Effect, Lines, After;
      values := map[];
      var i := 0;
      ghost var done: seq<string> := [];
      NoLine(types, file);
      while i < |file|
        invariant 0 <= i <= |file| && Lines(file) == done + Lines(file[i..]) && values == After(types, map[], done)
      {
        var k := IndexOf(file[i..], '\n');
        var next := if i + k == |file| then |file| else i + k + 1;
        var line := file[i..next];
        NextLine(file, i, k, next);
        ReadLine(line);
        AfterSnoc(types, done, line);
        Grouped(done, line, Lines(file[next..]));
        done, i := done + [line], next;
      }
      assert done + [] == done;
    }
  }

  lemma FreeChomped(line: string, k: nat)
    requires Free(line, '\0') && k <= |line|
    ensures Free(Chomped(line[k..]), '\0')
  {
    hide IndexOf;
    var rest := line[k..];
    forall j | 0 <= j < |rest| ensures rest[j] != '\0' { assert rest[j] == line[k + j]; }
  }

  lemma NoLine(types: map<string, SymbolType>, file: string)
    ensures Lines(file) == [] + Lines(file[0..]) && Lines(file[|file|..]) == [] && After(types, map[], []) == map[]
  {
    assert file[0..] == file;
  }

  lemma Grouped(done: seq<string>, line: string, rest: seq<string>)
    ensures done + ([line] + rest) == (done + [line]) + rest
  {
  }

  lemma FirstLine(rest: string, k: nat)
    requires rest != "" && k == IndexOf(rest, '\n')
    ensures k <= |rest| && Lines("") == []
    ensures Lines(rest) == if k == |rest| then [rest] else [rest[..k + 1]] + Lines(rest[k + 1..])
  {
    hide IndexOf;
  }

  lemma NextLine(file: string, i: nat, k: nat, next: nat)
    requires i < |file| && k == IndexOf(file[i..], '\n') && next == if i + k == |file| then |file| else i + k + 1
    ensures Lines(file[i..]) == [file[i..next]] + Lines(file[next..])
  {
    var rest := file[i..];
    FirstLine(rest, k);
    hide Lines, IndexOf;
    if k == |rest| {
      assert file[i..next] == rest && file[next..] == "";
    } else {
      assert rest[..k + 1] == file[i..next] && rest[k + 1..] == file[next..];
    }
  }

  /** Writing a configuration and reading it back restores every value. */
  method WriteAndRead(types: map<string, SymbolType>, entries: seq<Entry>) returns (reader: Reader)
    requires Names(entries, types) && Free(Written(entries), '\0')
    ensures Carries(reader.values, entries)
  {
    hide *;
    var file := WriteConfig(entries);
    reader := new Reader(types);
    reader.Read(file);
    WriteRead(types, entries);
  }
}
