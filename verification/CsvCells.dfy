/**
 Cell decoding for price-list files. `Number` is exact on plain decimals; every
 other text the language's own parser accepts goes to the function `other`.
 */
module CsvCells {
  import opened Wrappers

  predicate IsSpace(c: char) {
    '\U{0009}' <= c <= '\U{000D}' || c == ' ' || c == '\U{00A0}' || c == '\U{1680}' ||
    '\U{2000}' <= c <= '\U{200A}' || c == '\U{2028}' || c == '\U{2029}' || c == '\U{202F}' ||
    c == '\U{205F}' || c == '\U{3000}' || c == '\U{FEFF}'
  }

  function TrimStart(s: string): string {
    if s != [] && IsSpace(s[0]) then TrimStart(s[1..]) else s
  }

  function TrimEnd(s: string): string {
    if s != [] && IsSpace(s[|s| - 1]) then TrimEnd(s[..|s| - 1]) else s
  }

  function Trim(s: string): string { TrimEnd(TrimStart(s)) }

  predicate IsDigit(c: char) { '0' <= c <= '9' }

  predicate AllDigits(s: string) { forall i :: 0 <= i < |s| ==> IsDigit(s[i]) }

  function LowerChar(c: char): char {
    if 'A' <= c <= 'Z' then c - 'A' + 'a' else c
  }

  function Lower(s: string): string {
    if s == [] then [] else [LowerChar(s[0])] + Lower(s[1..])
  }

  // ---- Numbers ------------------------------------------------------------------

  function DigitsValue(s: string): nat
    requires AllDigits(s)
  {
    if s == [] then 0 else 10 * DigitsValue(s[..|s| - 1]) + (s[|s| - 1] as int - '0' as int)
  }

  function Pow10(n: nat): nat { if n == 0 then 1 else 10 * Pow10(n - 1) }

  lemma {:induction false} Pow10Positive(n: nat)
    ensures Pow10(n) > 0
  {
    if n > 0 { Pow10Positive(n - 1); }
  }

  /** Text before the first '.', or all of it. */
  function Whole(s: string): string {
    if s == [] || s[0] == '.' then [] else [s[0]] + Whole(s[1..])
  }

  /** Text after the first '.', or nothing. */
  function Fraction(s: string): string {
    if s == [] then [] else if s[0] == '.' then s[1..] else Fraction(s[1..])
  }

  predicate PlainUnsigned(s: string) {
    AllDigits(Whole(s)) && AllDigits(Fraction(s)) && Whole(s) + Fraction(s) != []
  }

  function UnsignedValue(s: string): real
    requires PlainUnsigned(s)
  {
    Pow10Positive(|Fraction(s)|);
    DigitsValue(Whole(s)) as real + DigitsValue(Fraction(s)) as real / Pow10(|Fraction(s)|) as real
  }

  function Number(s: string, other: string -> Option<real>): Option<real> {
    if s == [] then Some(0.0)
    else if s[0] == '-' && PlainUnsigned(s[1..]) then Some(-UnsignedValue(s[1..]))
    else if s[0] == '+' && PlainUnsigned(s[1..]) then Some(UnsignedValue(s[1..]))
    else if PlainUnsigned(s) then Some(UnsignedValue(s))
    else other(s)
  }

  // ---- Decoders -----------------------------------------------------------------

  const PG_INT_MAX := 2_147_483_647

  predicate FitsPgInt(n: int) { -PG_INT_MAX - 1 <= n <= PG_INT_MAX }

  function Without(s: string, drop: char -> bool): string {
    if s == [] then [] else (if drop(s[0]) then [] else [s[0]]) + Without(s[1..], drop)
  }

  predicate IsComma(c: char) { c == ',' }

  predicate MoneyNoise(c: char) { c == '$' || c == ',' || IsSpace(c) }

  /** Round half up, as `Math.round` does. */
  function Round(x: real): int { (x + 0.5).Floor }

  function Truncate(x: real): int { if x >= 0.0 then x.Floor else -((-x).Floor) }

  function UsdToCents(raw: string, other: string -> Option<real>): Option<int> {
    var s := Trim(raw);
    if s == [] || s == "-" || s == "\U{2014}" then None
    else
      match Number(Without(s, MoneyNoise), other)
      case None => None
      case Some(n) => var cents := Round(n * 100.0); if FitsPgInt(cents) then Some(cents) else None
  }

  function IntOrNull(raw: string, other: string -> Option<real>): Option<int> {
    var s := Without(Trim(raw), IsComma);
    if s == [] then None
    else
      match Number(s, other)
      case None => None
      case Some(n) => if FitsPgInt(Truncate(n)) then Some(Truncate(n)) else None
  }

  function BlankToNull(raw: string): Option<string> {
    if Trim(raw) == [] then None else Some(Trim(raw))
  }

  predicate IsIsoDay(s: string) {
    |s| == 10 && AllDigits(s[..4]) && s[4] == '-' && AllDigits(s[5..7]) && s[7] == '-' && AllDigits(s[8..])
  }

  function DateOrNull(raw: string): Option<string> {
    if IsIsoDay(Trim(raw)) then Some(Trim(raw)) else None
  }

  // ---- Printing, and decoding what was printed -------------------------------------

  function Digit(n: nat): char
    requires n < 10
  {
    '0' + n as char
  }

  function Digits(n: nat): string {
    if n < 10 then [Digit(n)] else Digits(n / 10) + [Digit(n % 10)]
  }

  function PrintInt(n: int): string {
    if n < 0 then "-" + Digits(-n) else Digits(n)
  }

  function PrintMoney(cents: nat): string {
    Digits(cents / 100) + "." + [Digit(cents / 10 % 10), Digit(cents % 10)]
  }

  function PrintCents(cents: int): string {
    if cents < 0 then "-" + PrintMoney(-cents) else PrintMoney(cents)
  }

  lemma {:induction false} DigitsRoundTrip(n: nat)
    ensures Digits(n) != [] && AllDigits(Digits(n)) && DigitsValue(Digits(n)) == n
  {
    if n >= 10 {
      DigitsRoundTrip(n / 10);
      assert Digits(n)[..|Digits(n)| - 1] == Digits(n / 10);
    } else {
      assert Digits(n)[..0] == [] && DigitsValue([]) == 0;
      assert DigitsValue(Digits(n)) == 10 * DigitsValue(Digits(n)[..0]) + n;
    }
  }

  lemma TrimKeeps(s: string)
    requires s != [] && !IsSpace(s[0]) && !IsSpace(s[|s| - 1])
    ensures Trim(s) == s
  {
  }

  lemma {:induction false} WithoutKeeps(s: string, drop: char -> bool)
    requires forall i :: 0 <= i < |s| ==> !drop(s[i])
    ensures Without(s, drop) == s
  {
    if s == [] {
    } else {
      WithoutKeeps(s[1..], drop);
    }
  }

  lemma {:induction false} WholeAndFraction(a: string, b: string)
    requires AllDigits(a)
    ensures Whole(a) == a && Fraction(a) == []
    ensures Whole(a + "." + b) == a && Fraction(a + "." + b) == b
  {
    if a == [] {
      assert a + "." + b == "." + b;
    } else {
      assert (a + "." + b)[1..] == a[1..] + "." + b;
      WholeAndFraction(a[1..], b);
    }
  }

  lemma TwoDigits(x: nat, y: nat)
    requires x < 10 && y < 10
    ensures AllDigits([Digit(x), Digit(y)]) && DigitsValue([Digit(x), Digit(y)]) == 10 * x + y
  {
    var s := [Digit(x), Digit(y)];
    assert s[..1] == [Digit(x)] && s[..1][..0] == [];
    assert DigitsValue([]) == 0;
    assert DigitsValue([Digit(x)]) == x;
  }

  lemma MoneyValue(cents: nat)
    ensures PlainUnsigned(PrintMoney(cents)) && UnsignedValue(PrintMoney(cents)) == cents as real / 100.0
  {
    var a, b := Digits(cents / 100), [Digit(cents / 10 % 10), Digit(cents % 10)];
    DigitsRoundTrip(cents / 100);
    TwoDigits(cents / 10 % 10, cents % 10);
    WholeAndFraction(a, b);
    assert PrintMoney(cents) == a + "." + b;
    assert Pow10(2) == 100 by { assert Pow10(1) == 10 * Pow10(0); }
    assert cents == 100 * (cents / 100) + (10 * (cents / 10 % 10) + cents % 10);
  }

  predicate NumberChar(c: char) { IsDigit(c) || c == '.' || c == '-' }

  lemma NumberCharsStay(s: string)
    requires |s| > 1 && forall i :: 0 <= i < |s| ==> NumberChar(s[i])
    ensures Trim(s) == s
    ensures Without(s, MoneyNoise) == s
  {
    TrimKeeps(s);
    WithoutKeeps(s, MoneyNoise);
  }

  /** A sign in front of a plain number negates it. */
  lemma SignedNumber(text: string, other: string -> Option<real>)
    requires text != [] && IsDigit(text[0]) && PlainUnsigned(text)
    ensures Number(text, other) == Some(UnsignedValue(text)) && Number("-" + text, other) == Some(-UnsignedValue(text))
  {
    assert ("-" + text)[1..] == text;
  }

  lemma MoneyChars(cents: int)
    ensures |PrintCents(cents)| > 1 && forall i :: 0 <= i < |PrintCents(cents)| ==> NumberChar(PrintCents(cents)[i])
  {
    DigitsRoundTrip((if cents < 0 then -cents else cents) / 100);
  }

  lemma MoneyNumber(cents: int, other: string -> Option<real>)
    ensures Number(PrintCents(cents), other) == Some(cents as real / 100.0)
  {
    var n: nat := if cents < 0 then -cents else cents;
    DigitsRoundTrip(n / 100);
    assert PrintMoney(n)[0] == Digits(n / 100)[0];
    MoneyValue(n);
    SignedNumber(PrintMoney(n), other);
  }

  lemma CentsScale(cents: int)
    ensures Round(cents as real / 100.0 * 100.0) == cents
  {
    assert cents as real / 100.0 * 100.0 == cents as real;
    assert (cents as real + 0.5).Floor == cents;
  }

  /** Printed cents decode to the same cents. */
  lemma CentsRoundTrip(cents: int, other: string -> Option<real>)
    requires FitsPgInt(cents)
    ensures UsdToCents(PrintCents(cents), other) == Some(cents)
  {
    MoneyNumber(cents, other);
    MoneyChars(cents);
    NumberCharsStay(PrintCents(cents));
    CentsScale(cents);
  }

  /** Printed integers decode to the same integer. */
  lemma IntRoundTrip(n: int, other: string -> Option<real>)
    requires FitsPgInt(n)
    ensures IntOrNull(PrintInt(n), other) == Some(n)
  {
    var m := if n < 0 then -n else n;
    IntText(n);
    DigitsAreNumber(m);
    SignedNumber(Digits(m), other);
  }

  lemma IntChars(n: int)
    ensures PrintInt(n) != [] && forall i :: 0 <= i < |PrintInt(n)| ==> NumberChar(PrintInt(n)[i])
  {
    DigitsRoundTrip(if n < 0 then -n else n);
  }

  /** Trimming and dropping commas leave a printed integer alone. */
  lemma IntText(n: int)
    ensures PrintInt(n) != [] && Without(Trim(PrintInt(n)), IsComma) == PrintInt(n)
  {
    var s := PrintInt(n);
    IntChars(n);
    TrimKeeps(s);
    WithoutKeeps(s, IsComma);
  }

  lemma DigitsAreNumber(m: nat)
    ensures Digits(m) != [] && IsDigit(Digits(m)[0]) && PlainUnsigned(Digits(m))
    ensures UnsignedValue(Digits(m)) == m as real
  {
    DigitsRoundTrip(m);
    WholeAndFraction(Digits(m), []);
    assert DigitsValue([]) == 0;
  }
}
