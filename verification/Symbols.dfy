/** Tristate values, symbols, and the comparison of two symbols as the expression evaluator performs it. */
module Symbols {

  /** `no`, `mod` and `yes` are the integers 0, 1 and 2; conjunction is the
      minimum, disjunction the maximum, negation `2 - x`. */
  type Tri = x: int | 0 <= x <= 2

  const NO: Tri := 0
  const MOD: Tri := 1
  const YES: Tri := 2

  function Min(a: Tri, b: Tri): Tri { if a < b then a else b }
  function Max(a: Tri, b: Tri): Tri { if a > b then a else b }
  function Neg(a: Tri): Tri { 2 - a }

  datatype SymbolType = SUnknown | SBool | STristate | SInt | SHex | SString

  /** A symbol; two symbols are the same object exactly when they are equal.
      The three predefined constants are singled out, `Const` is a quoted
      constant and `Config` any other name. */
  datatype Symbol =
    | SymYes
    | SymMod
    | SymNo
    | Const(name: string)
    | Config(id: nat, kind: SymbolType)
  {
    function Type(): SymbolType {
      if Config? then kind else SUnknown
    }

    predicate IsConst() {
      !Config?
    }

    /** Whether the symbol takes tristate values. */
    predicate IsLogic() {
      Type() == SBool || Type() == STristate
    }
  }

  // ----- strings and numbers, with the meaning of strcmp and strtoll -----

  const LLONG_MAX := 0x7fff_ffff_ffff_ffff
  const ULLONG_MAX := 0xffff_ffff_ffff_ffff

  /** The sign of `strcmp(a, b)`. */
  function StrCmp(a: string, b: string): int {
    if a == "" && b == "" then 0
    else if a == "" then -1
    else if b == "" then 1
    else if a[0] < b[0] then -1
    else if a[0] > b[0] then 1
    else StrCmp(a[1..], b[1..])
  }

  predicate IsSpace(c: char) {
    c == ' ' || '\t' <= c <= '\r'
  }

  predicate IsDigit(c: char) { '0' <= c <= '9' }

  /** The value of an alphanumeric digit, or 36 for any other character. */
  function Digit(c: char): (d: nat)
    ensures d <= 36
  {
    if '0' <= c <= '9' then (c - '0') as int
    else if 'a' <= c <= 'z' then (c - 'a') as int + 10
    else if 'A' <= c <= 'Z' then (c - 'A') as int + 10
    else 36
  }

  function SkipSpace(s: string, i: nat): (j: nat)
    requires i <= |s|
    ensures i <= j <= |s|
    decreases |s| - i
  {
    if i < |s| && IsSpace(s[i]) then SkipSpace(s, i + 1) else i
  }

  function DigitsEnd(s: string, i: nat, base: nat): (j: nat)
    requires i <= |s|
    ensures i <= j <= |s|
    decreases |s| - i
  {
    if i < |s| && Digit(s[i]) < base then DigitsEnd(s, i + 1, base) else i
  }

  function DigitsValue(s: string, i: nat, j: nat, base: nat): nat
    requires i <= j <= |s|
  {
    if i == j then 0 else DigitsValue(s, i, j - 1, base) * base + Digit(s[j - 1])
  }

  /** A number read by `strtoll` or `strtoull`: sign, magnitude and the index
      of the first character that was not used (0 when there is no number). */
  datatype Number = Number(negative: bool, magnitude: nat, tail: nat)

  function ReadNumber(s: string, base: nat): (n: Number)
    ensures n.tail <= |s|
  {
    var i := SkipSpace(s, 0);
    var signed := i < |s| && (s[i] == '-' || s[i] == '+');
    var negative := signed && s[i] == '-';
    var start := if signed then i + 1 else i;
    var prefixed := (base == 0 || base == 16) && start + 2 < |s| && s[start] == '0'
                    && (s[start + 1] == 'x' || s[start + 1] == 'X') && Digit(s[start + 2]) < 16;
    var radix := if base != 0 then base
                 else if prefixed then 16
                 else if start < |s| && s[start] == '0' then 8
                 else 10;
    var from := if prefixed then start + 2 else start;
    var end := DigitsEnd(s, from, radix);
    if end == from then Number(false, 0, 0)
    else Number(negative, DigitsValue(s, from, end, radix), end)
  }

  /** `strtoll`, which saturates. */
  function StrToLL(s: string, base: nat): int {
    var n := ReadNumber(s, base);
    if n.negative then
      if n.magnitude > LLONG_MAX + 1 then -LLONG_MAX - 1 else 0 - n.magnitude
    else
      if n.magnitude > LLONG_MAX then LLONG_MAX else n.magnitude
  }

  datatype Parsed = Text | Signed(s: int) | Unsigned(u: nat)

  function LogicNumber(str: string): int {
    if str == "n" then 0 else if str == "m" then 1 else if str == "y" then 2 else -1
  }

  /** How a symbol's string value is read before a comparison. */
  function ParseString(str: string, ty: SymbolType): Parsed {
    if ty == SBool || ty == STristate then
      Signed(LogicNumber(str))
    else
      var n := ReadNumber(str, if ty == SInt then 10 else if ty == SHex then 16 else 0);
      if n.tail < |str| || n.tail == 0 || Digit(str[n.tail - 1]) >= 16 then Text
      else if ty == SHex then
        if n.magnitude > ULLONG_MAX then Text
        else Unsigned(if n.negative then (ULLONG_MAX + 1 - n.magnitude) % (ULLONG_MAX + 1) else n.magnitude)
      else if n.negative then
        if n.magnitude > LLONG_MAX + 1 then Text else Signed(0 - n.magnitude)
      else
        if n.magnitude > LLONG_MAX then Text else Signed(n.magnitude)
  }

  /** The bit pattern of a parsed number read as unsigned. */
  function AsUnsigned(p: Parsed): nat
    requires !p.Text?
  {
    if p.Unsigned? then p.u else p.s % (ULLONG_MAX + 1)
  }

  function Sign(a: int, b: int): int {
    if a > b then 1 else if a < b then -1 else 0
  }

  /** The three-way result from which all six comparison operators are read off. */
  function CompareText(str1: string, ty1: SymbolType, str2: string, ty2: SymbolType): int {
    if ty1 == SString && ty2 == SString then StrCmp(str1, str2)
    else
      var p1 := ParseString(str1, ty1);
      var p2 := ParseString(str2, ty2);
      if p1.Text? || p2.Text? then StrCmp(str1, str2)
      else if p1.Unsigned? || p2.Unsigned? then Sign(AsUnsigned(p1), AsUnsigned(p2))
      else Sign(p1.s, p2.s)
  }

  // ----- the values a configuration gives to symbols -----

  /** A settled configuration: the value of the modules symbol, and for every
      configuration symbol its tristate and its string value. */
  datatype Configuration = Configuration(modules: Tri, tri: Symbol -> Tri, text: Symbol -> string)

  /** Bool symbols are never `m`, and tristate ones only with modules enabled. */
  ghost predicate Settled(c: Configuration) {
    && (forall s: Symbol :: s.Type() == SBool ==> c.tri(s) != MOD)
    && (forall s: Symbol :: s.Type() == STristate && c.tri(s) == MOD ==> c.modules != NO)
  }

  /** `curr.tri`: symbols that are not bool or tristate are `no`. */
  function TriOf(c: Configuration, s: Symbol): Tri {
    match s
    case SymYes => YES
    case SymMod => MOD
    case SymNo => NO
    case Const(_) => NO
    case Config(_, _) => if s.IsLogic() then c.tri(s) else NO
  }

  /** `sym_get_string_value`. */
  function TextOf(c: Configuration, s: Symbol): string {
    match s
    case SymYes => "y"
    case SymMod => "m"
    case SymNo => "n"
    case Const(name) => name
    case Config(_, _) =>
      if s.IsLogic() then
        if c.tri(s) == YES then "y"
        else if c.tri(s) == MOD && c.modules != NO then "m"
        else "n"
      else c.text(s)
  }

  /** What the evaluation of an expression observes of a configuration. */
  datatype Env = Env(tri: Symbol -> Tri, cmp: (Symbol, Symbol) -> int)

  ghost predicate Observes(env: Env, c: Configuration) {
    && (forall s :: env.tri(s) == TriOf(c, s))
    && (forall s, t :: env.cmp(s, t) == CompareText(TextOf(c, s), s.Type(), TextOf(c, t), t.Type()))
  }

  /** An environment that comes from a settled configuration. */
  ghost predicate WellFormed(env: Env) {
    exists c: Configuration :: Settled(c) && Observes(env, c)
  }

  /** The environment a configuration is observed through. */
  ghost function EnvOf(c: Configuration): (env: Env)
    ensures Observes(env, c)
  {
    Env(s => TriOf(c, s), (s, t) => CompareText(TextOf(c, s), s.Type(), TextOf(c, t), t.Type()))
  }

  /** The tristate value that a constant stands for when a tristate symbol is
      compared with it: its name, or the integer it spells. */
  function Denotes(s: Symbol): (d: int)
    requires s.IsConst()
    ensures -1 <= d <= 2
  {
    match s
    case SymYes => 2
    case SymMod => 1
    case SymNo => 0
    case Const(name) =>
      match ParseString(name, SUnknown)
      case Signed(i) => if 0 <= i <= 2 then i else -1
      case _ => LogicNumber(name)
  }

  lemma StrCmpZero(a: string, b: string)
    ensures StrCmp(a, b) == 0 <==> a == b
  {
    if a != "" && b != "" && a[0] == b[0] {
      StrCmpZero(a[1..], b[1..]);
      assert a == [a[0]] + a[1..] && b == [b[0]] + b[1..];
    }
  }

  lemma LettersAreText()
    ensures ParseString("y", SUnknown) == ParseString("m", SUnknown) == ParseString("n", SUnknown) == Text
  {
  }

  /** How a bool or tristate value compares with a constant's string. */
  lemma LogicAgainstText(a: string, ty: SymbolType, b: string)
    requires a == "n" || a == "m" || a == "y"
    requires ty == SBool || ty == STristate
    ensures var p := ParseString(b, SUnknown);
      CompareText(a, ty, b, SUnknown) == 0 <==> if p.Signed? then LogicNumber(a) == p.s else a == b
  {
    StrCmpZero(a, b);
  }

  lemma DenotesText(c: Configuration, k: Symbol, a: string)
    requires k.IsConst()
    requires a == "n" || a == "m" || a == "y"
    ensures var p := ParseString(TextOf(c, k), SUnknown);
      (if p.Signed? then LogicNumber(a) == p.s else a == TextOf(c, k)) <==> Denotes(k) == LogicNumber(a)
  {
    LettersAreText();
  }

  /** A settled bool or tristate symbol equals a constant exactly when the
      constant denotes its value. */
  lemma EqualsConstant(env: Env, s: Symbol, k: Symbol)
    requires WellFormed(env) && s.IsLogic() && k.IsConst()
    ensures env.cmp(s, k) == 0 <==> Denotes(k) == env.tri(s)
  {
    var c: Configuration :| Settled(c) && Observes(env, c);
    var a := TextOf(c, s);
    assert (a == "n" || a == "m" || a == "y") && LogicNumber(a) == env.tri(s);
    DenotesText(c, k, a);
    LogicAgainstText(a, s.Type(), TextOf(c, k));
  }

  lemma SettledValues(env: Env, s: Symbol)
    requires WellFormed(env)
    ensures s.Type() == SBool ==> env.tri(s) != MOD
    ensures env.tri(SymYes) == YES && env.tri(SymMod) == MOD && env.tri(SymNo) == NO
  {
    var c: Configuration :| Settled(c) && Observes(env, c);
  }

  /** Every tristate value is taken by some settled configuration. */
  lemma TristateReaches(s: Symbol, t: Tri) returns (env: Env)
    requires s.Type() == STristate
    ensures WellFormed(env) && env.tri(s) == t
  {
    var c := Configuration(YES, (x: Symbol) => if x == s then t else NO, x => "");
    env := EnvOf(c);
    assert Settled(c) && Observes(env, c);
  }
}
