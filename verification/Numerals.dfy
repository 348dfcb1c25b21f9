/** How numbers are written, and that comparisons order symbols by the numbers and the
    texts they stand for. */
module Numerals {
  import opened Symbols
  import opened Expressions

  const DIGITS: string := "0123456789abcdef"

  /** The digits of a number, the most significant one first. */
  function Numeral(n: nat, base: nat): (s: string)
    requires 2 <= base <= 16
    ensures s != ""
  {
    if n < base then [DIGITS[n]] else Numeral(n / base, base) + [DIGITS[n % base]]
  }

  lemma DigitOf(k: nat)
    requires k < 16
    ensures Digit(DIGITS[k]) == k && !IsSpace(DIGITS[k]) && DIGITS[k] != '-' && DIGITS[k] != '+' && DIGITS[k] != 'x'
    ensures DIGITS[k] != 'X' && (DIGITS[k] == '0' <==> k == 0)
  {
  }

  lemma {:induction false} ValueOfPrefix(s: string, t: string, j: nat, base: nat)
    requires j <= |s| && j <= |t| && s[..j] == t[..j]
    ensures DigitsValue(s, 0, j, base) == DigitsValue(t, 0, j, base)
  {
    if j > 0 {
      assert s[..j - 1] == s[..j][..j - 1] && t[..j - 1] == t[..j][..j - 1];
      assert s[j - 1] == s[..j][j - 1] == t[..j][j - 1] == t[j - 1];
      ValueOfPrefix(s, t, j - 1, base);
    }
  }

  /** Neither space, sign nor the letter of the hexadecimal prefix. */
  predicate PlainDigit(c: char) {
    !IsSpace(c) && c != '-' && c != '+' && c != 'x' && c != 'X'
  }

  lemma {:induction false} NumeralPlain(n: nat, base: nat)
    requires 2 <= base <= 16
    ensures var s := Numeral(n, base);
      && (forall i | 0 <= i < |s| :: Digit(s[i]) < base && PlainDigit(s[i]))
      && (s[0] == '0' <==> n == 0)
  {
    if n < base {
      DigitOf(n);
    } else {
      Quotient(n, base);
      NumeralPlain(n / base, base);
      DigitOf(n % base);
    }
  }

  lemma Quotient(n: nat, base: nat)
    requires 2 <= base <= n
    ensures 0 < n / base < n && n == n / base * base + n % base && n % base < base
  {
  }

  lemma {:induction false} NumeralSpells(n: nat, base: nat)
    requires 2 <= base <= 16
    ensures var s := Numeral(n, base); DigitsValue(s, 0, |s|, base) == n
  {
    var s := Numeral(n, base);
    if n < base {
      DigitOf(n);
      assert DigitsValue(s, 0, 0, base) == 0;
    } else {
      Quotient(n, base);
      var t := Numeral(n / base, base);
      NumeralSpells(n / base, base);
      DigitOf(n % base);
      assert s[..|t|] == t[..|t|];
      ValueOfPrefix(s, t, |t|, base);
      assert s == t + [DIGITS[n % base]];
      LastDigit(t, DIGITS[n % base], base);
    }
  }

  lemma LastDigit(t: string, c: char, base: nat)
    ensures var s := t + [c]; DigitsValue(s, 0, |s|, base) == DigitsValue(s, 0, |t|, base) * base + Digit(c)
  {
  }

  lemma {:induction false} AllDigits(s: string, i: nat, base: nat)
    requires i <= |s| && forall j | i <= j < |s| :: Digit(s[j]) < base
    ensures DigitsEnd(s, i, base) == |s|
    decreases |s| - i
  {
    if i < |s| { AllDigits(s, i + 1, base); }
  }

  lemma {:induction false} ValueBehind(p: string, s: string, j: nat, base: nat)
    requires j <= |s|
    ensures DigitsValue(p + s, |p|, |p| + j, base) == DigitsValue(s, 0, j, base)
  {
    if j > 0 {
      ValueBehind(p, s, j - 1, base);
      assert (p + s)[|p| + j - 1] == s[j - 1];
    }
  }

  /** What may stand before the digits: a sign, and `0x` for a hexadecimal number. */
  function Head(negative: bool, prefixed: bool): string {
    if negative then if prefixed then "-0x" else "-" else if prefixed then "0x" else ""
  }

  function Written(negative: bool, prefixed: bool, digits: string): string {
    Head(negative, prefixed) + digits
  }

  /** Reading a written number gives the number, in its own base, and without a base
      if it is decimal without a leading zero or hexadecimal with its prefix. */
  lemma ReadsWritten(n: nat, base: nat, negative: bool, prefixed: bool, given: nat)
    requires (base == 10 && !prefixed && (given == 10 || (given == 0 && n > 0)))
          || (base == 16 && (given == 16 || (given == 0 && prefixed)))
    ensures var s := Written(negative, prefixed, Numeral(n, base));
      ReadNumber(s, given) == Number(negative, n, |s|)
  {
    var digits := Numeral(n, base);
    NumeralPlain(n, base);
    NumeralSpells(n, base);
    var s, head := Written(negative, prefixed, digits), Head(negative, prefixed);
    Beginning(negative, prefixed, digits);
    EndOfDigits(head, digits, base);
    ValueBehind(head, digits, |digits|, base);
    hide DigitsEnd, DigitsValue, SkipSpace, Digit, HasPrefix, Numeral;
    ReadParts(s, given, negative, prefixed, base);
  }

  lemma EndOfDigits(head: string, digits: string, base: nat)
    requires forall i | 0 <= i < |digits| :: Digit(digits[i]) < base
    ensures DigitsEnd(head + digits, |head|, base) == |head + digits|
  {
    hide Digit;
    AllDigits(head + digits, |head|, base);
  }

  /** A hexadecimal prefix, with a digit behind it, where the digits begin. */
  predicate HasPrefix(s: string, start: nat) {
    && start + 2 < |s| && s[start] == '0' && (s[start + 1] == 'x' || s[start + 1] == 'X') && Digit(s[start + 2]) < 16
  }

  lemma Beginning(negative: bool, prefixed: bool, digits: string)
    requires digits != "" && forall i | 0 <= i < |digits| :: Digit(digits[i]) < 16 && PlainDigit(digits[i])
    ensures var s, start := Written(negative, prefixed, digits), if negative then 1 else 0;
      && start < |s| && SkipSpace(s, 0) == 0 && (s[0] == '-' <==> negative) && s[0] != '+'
      && (HasPrefix(s, start) <==> prefixed) && (!prefixed ==> s[start] == digits[0])
  {
    var s, head := Written(negative, prefixed, digits), Head(negative, prefixed);
    hide Digit;
    assert s[|head|] == digits[0] && (|digits| > 1 ==> s[|head| + 1] == digits[1]);
    if head != "" { assert s[0] == head[0]; }
    if |head| > 1 { assert s[1] == head[1]; }
    if |head| > 2 { assert s[2] == head[2]; }
  }

  lemma ReadParts(s: string, given: nat, negative: bool, prefixed: bool, base: nat)
    requires var start := if negative then 1 else 0;
      && start < |s| && SkipSpace(s, 0) == 0 && (s[0] == '-' <==> negative) && s[0] != '+'
      && (HasPrefix(s, start) <==> prefixed) && (prefixed ==> given == 0 || given == 16)
      && base == (if given != 0 then given else if prefixed then 16 else if s[start] == '0' then 8 else 10)
    requires var from := (if negative then 1 else 0) + if prefixed then 2 else 0;
      from < |s| && DigitsEnd(s, from, base) == |s|
    ensures var from := (if negative then 1 else 0) + if prefixed then 2 else 0;
      ReadNumber(s, given) == Number(negative, DigitsValue(s, from, |s|, base), |s|)
  {
    hide DigitsEnd, DigitsValue, SkipSpace, Digit;
  }

  /** `strtoll` gives the number, or the nearest one that fits in 64 bits. */
  lemma StrToLLReads(n: nat, base: nat, negative: bool)
    requires base == 10 || base == 16
    ensures StrToLL(Written(negative, false, Numeral(n, base)), base) ==
      if negative then (if n > LLONG_MAX + 1 then -LLONG_MAX - 1 else 0 - n) else if n > LLONG_MAX then LLONG_MAX else n
  {
    ReadsWritten(n, base, negative, false, base);
    hide ReadNumber, Written, Numeral;
  }

  // ----- comparisons -----

  /** A decimal number with its sign. */
  function Decimal(a: int): string {
    Written(a < 0, false, Numeral(if a < 0 then -a else a, 10))
  }

  lemma DecimalParses(a: int)
    requires -LLONG_MAX - 1 <= a <= LLONG_MAX
    ensures ParseString(Decimal(a), SInt) == Signed(a)
  {
    var n: nat := if a < 0 then -a else a;
    ReadsWritten(n, 10, a < 0, false, 10);
    NumeralPlain(n, 10);
    var s := Decimal(a);
    assert s[|s| - 1] == Numeral(n, 10)[|Numeral(n, 10)| - 1];
    hide ReadNumber, Numeral;
  }

  /** Two int symbols compare as their numbers. */
  lemma IntsCompare(a: int, b: int)
    requires -LLONG_MAX - 1 <= a <= LLONG_MAX && -LLONG_MAX - 1 <= b <= LLONG_MAX
    ensures var order := CompareText(Decimal(a), SInt, Decimal(b), SInt);
      (order < 0 <==> a < b) && (order == 0 <==> a == b) && (order > 0 <==> a > b)
  {
    DecimalParses(a);
    DecimalParses(b);
    hide ParseString, Decimal;
  }

  function Hexadecimal(n: nat): string {
    Written(false, true, Numeral(n, 16))
  }

  /** Two hex symbols compare as their numbers, up to the largest unsigned one. */
  lemma HexesCompare(a: nat, b: nat)
    requires a <= ULLONG_MAX && b <= ULLONG_MAX
    ensures var order := CompareText(Hexadecimal(a), SHex, Hexadecimal(b), SHex);
      (order < 0 <==> a < b) && (order == 0 <==> a == b) && (order > 0 <==> a > b)
  {
    HexadecimalParses(a);
    HexadecimalParses(b);
    hide ParseString, Hexadecimal;
  }

  lemma HexadecimalParses(n: nat)
    requires n <= ULLONG_MAX
    ensures ParseString(Hexadecimal(n), SHex) == Unsigned(n)
  {
    ReadsWritten(n, 16, false, true, 16);
    NumeralPlain(n, 16);
    var s := Hexadecimal(n);
    assert s[|s| - 1] == Numeral(n, 16)[|Numeral(n, 16)| - 1];
    hide ReadNumber, Numeral;
  }

  /** Texts compare by their first difference; a beginning comes before the whole. */
  lemma {:induction false} TextsCompare(p: string, a: char, x: string, b: char, y: string)
    ensures StrCmp(p, p) == 0 && StrCmp(p, p + [b] + y) < 0 && StrCmp(p + [a] + x, p) > 0
    ensures a < b ==> StrCmp(p + [a] + x, p + [b] + y) < 0
    ensures a > b ==> StrCmp(p + [a] + x, p + [b] + y) > 0
  {
    var s, t := p + [a] + x, p + [b] + y;
    if p != "" {
      assert s[0] == t[0] == p[0];
      assert s[1..] == p[1..] + [a] + x && t[1..] == p[1..] + [b] + y;
      TextsCompare(p[1..], a, x, b, y);
    }
  }

  lemma StringsCompare(x: string, y: string)
    ensures CompareText(x, SString, y, SString) == StrCmp(x, y)
  {
  }

  /** The six comparison operators on two int symbols. */
  lemma ComparisonLaw(c: Configuration, s: Symbol, t: Symbol, a: int, b: int)
    requires s.Config? && t.Config? && s.Type() == SInt && t.Type() == SInt
    requires c.text(s) == Decimal(a) && c.text(t) == Decimal(b)
    requires -LLONG_MAX - 1 <= a <= LLONG_MAX && -LLONG_MAX - 1 <= b <= LLONG_MAX
    ensures var env := EnvOf(c);
      && (Eval(Cmp(Less, s, t), env) == Truth(a < b)) && (Eval(Cmp(LessEqual, s, t), env) == Truth(a <= b))
      && (Eval(Cmp(Greater, s, t), env) == Truth(a > b)) && (Eval(Cmp(GreaterEqual, s, t), env) == Truth(a >= b))
      && (Eval(Cmp(Equal, s, t), env) == Truth(a == b)) && (Eval(Cmp(Unequal, s, t), env) == Truth(a != b))
  {
    IntsCompare(a, b);
    hide Decimal, CompareText;
    var env := EnvOf(c);
    assert env.cmp(s, t) == CompareText(TextOf(c, s), SInt, TextOf(c, t), SInt);
    hide *;
    ByOrder(env, s, t);
  }

  lemma ByOrder(env: Env, s: Symbol, t: Symbol)
    ensures Eval(Cmp(Less, s, t), env) == Truth(env.cmp(s, t) < 0)
    ensures Eval(Cmp(LessEqual, s, t), env) == Truth(env.cmp(s, t) <= 0)
    ensures Eval(Cmp(Greater, s, t), env) == Truth(env.cmp(s, t) > 0)
    ensures Eval(Cmp(GreaterEqual, s, t), env) == Truth(env.cmp(s, t) >= 0)
    ensures Eval(Cmp(Equal, s, t), env) == Truth(env.cmp(s, t) == 0)
    ensures Eval(Cmp(Unequal, s, t), env) == Truth(env.cmp(s, t) != 0)
  {
  }
}
