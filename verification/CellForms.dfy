/**
 The forms in which a price-list cell may spell a value: dollar signs, thousands
 commas and blanks around and inside an amount, blanks around any cell.
 */
module CellForms {
  import opened Wrappers
  import opened CsvCells

  predicate Blanks(s: string) { forall i :: 0 <= i < |s| ==> IsSpace(s[i]) }

  /** The white space and line terminators of sections 12.2 and 12.3 of ECMA-262. */
  const WHITE := ['\U{0009}', '\U{000A}', '\U{000B}', '\U{000C}', '\U{000D}', ' ', '\U{00A0}', '\U{1680}', '\U{2000}',
                  '\U{2001}', '\U{2002}', '\U{2003}', '\U{2004}', '\U{2005}', '\U{2006}', '\U{2007}', '\U{2008}',
                  '\U{2009}', '\U{200A}', '\U{2028}', '\U{2029}', '\U{202F}', '\U{205F}', '\U{3000}', '\U{FEFF}']

  lemma SpacesAreThese(c: char)
    ensures IsSpace(c) <==> c in WHITE
  {
    if c in WHITE {
      var i :| 0 <= i < |WHITE| && WHITE[i] == c;
    }
    if '\U{0009}' <= c <= '\U{000D}' {
      assert c == WHITE[c as int - 9];
    } else if '\U{2000}' <= c <= '\U{200A}' {
      assert c == WHITE[8 + (c as int - 0x2000)];
    } else if IsSpace(c) {
      assert c == WHITE[5] || c == WHITE[6] || c == WHITE[7] || c == WHITE[19] || c == WHITE[20] || c == WHITE[21] ||
             c == WHITE[22] || c == WHITE[23] || c == WHITE[24];
    }
  }

  // ---- Blanks around a cell -------------------------------------------------------------------------

  lemma {:induction false} TrimStartDrops(p: string, s: string)
    requires Blanks(p)
    ensures TrimStart(p + s) == TrimStart(s)
  {
    if p == [] {
      assert p + s == s;
    } else {
      assert (p + s)[1..] == p[1..] + s;
      TrimStartDrops(p[1..], s);
    }
  }

  lemma {:induction false} TrimEndDrops(s: string, q: string)
    requires Blanks(q)
    ensures TrimEnd(s + q) == TrimEnd(s)
  {
    if q == [] {
      assert s + q == s;
    } else {
      assert (s + q)[..|s + q| - 1] == s + q[..|q| - 1];
      TrimEndDrops(s, q[..|q| - 1]);
    }
  }

  /** A text without blanks at its ends. */
  predicate Core(s: string) { s != [] ==> !IsSpace(s[0]) && !IsSpace(s[|s| - 1]) }

  /** Blanks around a cell are dropped, and nothing else. */
  lemma PaddingIsDropped(p: string, s: string, q: string)
    requires Blanks(p) && Blanks(q) && Core(s)
    ensures Trim(p + s + q) == s
  {
    assert p + s + q == p + (s + q);
    TrimStartDrops(p, s + q);
    if s == [] {
      assert s + q == q && q + [] == q && [] + q == q;
      TrimStartDrops(q, []);
    } else {
      assert TrimStart(s + q) == s + q;
      TrimEndDrops(s, q);
    }
  }

  /** A blank cell holds no text, no price and no count. */
  lemma BlankCellIsNothing(p: string, other: string -> Option<real>)
    requires Blanks(p)
    ensures BlankToNull(p) == None && UsdToCents(p, other) == None && IntOrNull(p, other) == None
    ensures DateOrNull(p) == None
  {
    PaddingIsDropped(p, [], []);
    assert p + [] + [] == p;
  }

  lemma PaddedText(p: string, s: string, q: string)
    requires Blanks(p) && Blanks(q) && Core(s) && s != []
    ensures BlankToNull(p + s + q) == Some(s)
  {
    PaddingIsDropped(p, s, q);
  }

  // ---- Amounts -----------------------------------------------------------------------------------------

  /** `text` is `plain` with dollar signs, commas and blanks put in anywhere. */
  predicate Dressed(plain: string, text: string) {
    if text == [] then plain == []
    else
      (plain != [] && text[0] == plain[0] && Dressed(plain[1..], text[1..])) ||
      ((text[0] == '$' || text[0] == ',' || IsSpace(text[0])) && Dressed(plain, text[1..]))
  }

  predicate NumberText(s: string) { forall i :: 0 <= i < |s| ==> NumberChar(s[i]) }

  lemma {:induction false} UndressedIsPlain(plain: string, text: string)
    requires Dressed(plain, text) && NumberText(plain)
    ensures Without(text, MoneyNoise) == plain
  {
    if text == [] {
    } else if plain != [] && text[0] == plain[0] && Dressed(plain[1..], text[1..]) {
      UndressedIsPlain(plain[1..], text[1..]);
    } else {
      UndressedIsPlain(plain, text[1..]);
    }
  }

  lemma {:induction false} WithoutSplits(a: string, b: string, drop: char -> bool)
    ensures Without(a + b, drop) == Without(a, drop) + Without(b, drop)
  {
    if a == [] {
      assert a + b == b;
    } else {
      assert (a + b)[1..] == a[1..] + b;
      WithoutSplits(a[1..], b, drop);
    }
  }

  lemma {:induction false} NoiseInBlanks(s: string)
    ensures Without(TrimStart(s), MoneyNoise) == Without(s, MoneyNoise)
    ensures Without(TrimEnd(s), MoneyNoise) == Without(s, MoneyNoise)
  {
    if s == [] {
    } else {
      if IsSpace(s[0]) {
        NoiseInBlanks(s[1..]);
      }
      if IsSpace(s[|s| - 1]) {
        NoiseInBlanks(s[..|s| - 1]);
        WithoutSplits(s[..|s| - 1], [s[|s| - 1]], MoneyNoise);
        assert s == s[..|s| - 1] + [s[|s| - 1]];
      }
    }
  }

  /** A dressed amount is read as the plain one is. */
  lemma DressedReads(plain: string, text: string, other: string -> Option<real>)
    requires Dressed(plain, text) && NumberText(plain) && |plain| > 1
    ensures UsdToCents(text, other) ==
            match Number(plain, other)
            case None => None
            case Some(n) => if FitsPgInt(Round(n * 100.0)) then Some(Round(n * 100.0)) else None
  {
    UndressedIsPlain(plain, text);
    TrimmingIsNoise(text);
    NotADash(Trim(text));
  }

  lemma TrimmingIsNoise(text: string)
    ensures Without(Trim(text), MoneyNoise) == Without(text, MoneyNoise)
  {
    NoiseInBlanks(text);
    NoiseInBlanks(TrimStart(text));
  }

  lemma NotADash(s: string)
    requires |Without(s, MoneyNoise)| > 1
    ensures s != [] && s != "-" && s != "\U{2014}"
  {
    DashesAreShort();
  }

  /** An amount however dressed decodes to its cents, and to nothing when they do not fit the column. */
  lemma DressedCents(cents: int, text: string, other: string -> Option<real>)
    requires Dressed(PrintCents(cents), text)
    ensures UsdToCents(text, other) == if -2_147_483_648 <= cents <= 2_147_483_647 then Some(cents) else None
  {
    MoneyChars(cents);
    DressedReads(PrintCents(cents), text, other);
    MoneyNumber(cents, other);
    CentsScale(cents);
  }

  lemma DashesAreShort()
    ensures |Without("", MoneyNoise)| == 0 && |Without("-", MoneyNoise)| <= 1 && |Without("\U{2014}", MoneyNoise)| <= 1
  {
    assert "-"[1..] == "" && "\U{2014}"[1..] == "";
  }

  /** Nothing, a dash or an em dash, with any blanks around it, is no price. */
  lemma DashIsNoPrice(p: string, s: string, q: string, other: string -> Option<real>)
    requires Blanks(p) && Blanks(q) && (s == "" || s == "-" || s == "\U{2014}")
    ensures UsdToCents(p + s + q, other) == None
  {
    PaddingIsDropped(p, s, q);
  }

  // ---- Thousands ---------------------------------------------------------------------------------------

  function ThreeDigits(n: nat): string
    requires n < 1000
  {
    [Digit(n / 100), Digit(n / 10 % 10), Digit(n % 10)]
  }

  /** A comma before each group of three digits. */
  function Grouped(n: nat): string {
    if n < 1000 then Digits(n) else Grouped(n / 1000) + "," + ThreeDigits(n % 1000)
  }

  /** The form the files use: `$1,234.50`. */
  function Dollars(cents: nat): string {
    "$" + Grouped(cents / 100) + "." + [Digit(cents / 10 % 10), Digit(cents % 10)]
  }

  lemma LastDigit(n: nat)
    requires n >= 10
    ensures Digits(n) == Digits(n / 10) + [Digit(n % 10)]
  {
  }

  lemma ThreeParts(n: nat)
    ensures n / 10 / 10 == n / 100 && n / 100 / 10 == n / 1000
    ensures n % 1000 / 100 == n / 100 % 10 && n % 1000 / 10 % 10 == n / 10 % 10 && n % 1000 % 10 == n % 10
  {
  }

  lemma LastThree(n: nat)
    requires n >= 1000
    ensures Digits(n) == Digits(n / 1000) + ThreeDigits(n % 1000)
  {
    LastDigit(n);
    LastDigit(n / 10);
    LastDigit(n / 100);
    ThreeParts(n);
  }

  lemma {:induction false} DressedItself(s: string)
    ensures Dressed(s, s)
  {
    if s == [] {
    } else {
      DressedItself(s[1..]);
    }
  }

  lemma {:induction false} DressedJoins(a: string, a': string, b: string, b': string)
    requires Dressed(a, a') && Dressed(b, b')
    ensures Dressed(a + b, a' + b')
  {
    if a' == [] {
      assert a + b == b && a' + b' == b';
    } else {
      assert (a' + b')[1..] == a'[1..] + b';
      if a != [] && a'[0] == a[0] && Dressed(a[1..], a'[1..]) {
        assert (a + b)[1..] == a[1..] + b;
        DressedJoins(a[1..], a'[1..], b, b');
      } else {
        DressedJoins(a, a'[1..], b, b');
      }
    }
  }

  lemma DressedSign(s: string, c: char)
    requires c == '$' || c == ','
    ensures Dressed(s, [c] + s)
  {
    DressedItself(s);
    assert ([c] + s)[1..] == s;
  }

  lemma {:induction false} GroupedIsDressed(n: nat)
    ensures Dressed(Digits(n), Grouped(n))
  {
    if n < 1000 {
      DressedItself(Digits(n));
    } else {
      GroupedIsDressed(n / 1000);
      LastThree(n);
      DressedSign(ThreeDigits(n % 1000), ',');
      DressedJoins(Digits(n / 1000), Grouped(n / 1000), ThreeDigits(n % 1000), "," + ThreeDigits(n % 1000));
      assert Grouped(n) == Grouped(n / 1000) + ("," + ThreeDigits(n % 1000));
    }
  }

  lemma DollarsAreDressed(cents: nat)
    ensures Dressed(PrintMoney(cents), Dollars(cents)) && Dressed("-" + PrintMoney(cents), "-" + Dollars(cents))
  {
    var tail := "." + [Digit(cents / 10 % 10), Digit(cents % 10)];
    GroupedIsDressed(cents / 100);
    DressedItself(tail);
    DressedJoins(Digits(cents / 100), Grouped(cents / 100), tail, tail);
    DressedSign([], '$');
    DressedJoins([], "$", Digits(cents / 100) + tail, Grouped(cents / 100) + tail);
    assert Dollars(cents) == "$" + (Grouped(cents / 100) + tail);
    assert PrintMoney(cents) == [] + (Digits(cents / 100) + tail);
    DressedItself("-");
    DressedJoins("-", "-", PrintMoney(cents), Dollars(cents));
  }

  /** Dollar amounts as the files print them read back to the cent, with either sign. */
  lemma DollarsRoundTrip(cents: int, other: string -> Option<real>)
    requires -2_147_483_648 <= cents <= 2_147_483_647
    ensures UsdToCents(if cents < 0 then "-" + Dollars(-cents) else Dollars(cents), other) == Some(cents)
  {
    DollarsAreDressed(if cents < 0 then -cents else cents);
    DressedCents(cents, if cents < 0 then "-" + Dollars(-cents) else Dollars(cents), other);
  }

  /** The files' own form. */
  lemma DollarsExample()
    ensures Dollars(123450) == "$1,234.50"
  {
    assert Grouped(1234) == Grouped(1) + "," + ThreeDigits(234) && Grouped(1) == Digits(1);
  }

  // ---- Any plain decimal ---------------------------------------------------------------------------------

  /** The value of digits after the point. */
  function FractionValue(b: string): real
    requires AllDigits(b)
  {
    Pow10Positive(|b|);
    DigitsValue(b) as real / Pow10(|b|) as real
  }

  lemma DecimalValue(n: nat, b: string)
    requires AllDigits(b)
    ensures PlainUnsigned(Digits(n) + "." + b) && UnsignedValue(Digits(n) + "." + b) == n as real + FractionValue(b)
  {
    DigitsRoundTrip(n);
    WholeAndFraction(Digits(n), b);
  }

  lemma {:induction false} DigitsAreBelow(b: string)
    requires AllDigits(b)
    ensures DigitsValue(b) < Pow10(|b|)
  {
    if b == [] {
    } else {
      DigitsAreBelow(b[..|b| - 1]);
    }
  }

  lemma FractionIsBelowOne(b: string)
    requires AllDigits(b)
    ensures 0.0 <= FractionValue(b) < 1.0
  {
    DigitsAreBelow(b);
    ProperFraction(DigitsValue(b), Pow10(|b|));
  }

  lemma ProperFraction(x: nat, y: nat)
    requires x < y
    ensures 0.0 <= x as real / y as real < 1.0
  {
    PositiveFactor(1.0 - x as real / y as real, y as real);
  }

  lemma PositiveFactor(a: real, y: real)
    requires y > 0.0 && a * y > 0.0
    ensures a > 0.0
  {
  }

  lemma DecimalNumber(n: nat, b: string, other: string -> Option<real>)
    requires AllDigits(b)
    ensures var plain := Digits(n) + "." + b;
            NumberText(plain) && |plain| > 1 && Number(plain, other) == Some(n as real + FractionValue(b)) &&
            Number("-" + plain, other) == Some(-(n as real + FractionValue(b)))
  {
    DigitsRoundTrip(n);
    DecimalValue(n, b);
    SignedNumber(Digits(n) + "." + b, other);
  }

  lemma RoundIsNearest(x: real)
    ensures x - 0.5 < Round(x) as real <= x + 0.5
    ensures x >= 0.0 ==> (FitsPgInt(Round(x)) <==> x < 2_147_483_647.5)
  {
  }

  /** A price with any number of decimals decodes to the nearest cent, half a cent upwards. */
  lemma DecimalsRound(n: nat, b: string, text: string, other: string -> Option<real>)
    requires AllDigits(b) && Dressed(Digits(n) + "." + b, text)
    ensures var exact := (n as real + FractionValue(b)) * 100.0;
            var cents := UsdToCents(text, other);
            (cents.Some? ==> exact - 0.5 < cents.value as real <= exact + 0.5) &&
            (cents.None? <==> exact >= 2_147_483_647.5)
  {
    DecimalNumber(n, b, other);
    DressedReads(Digits(n) + "." + b, text, other);
    FractionIsBelowOne(b);
    RoundIsNearest((n as real + FractionValue(b)) * 100.0);
  }

  // ---- Counts ------------------------------------------------------------------------------------------

  /** `text` is `plain` with commas put in anywhere. */
  predicate WithCommas(plain: string, text: string) {
    if text == [] then plain == []
    else
      (plain != [] && text[0] == plain[0] && WithCommas(plain[1..], text[1..])) ||
      (text[0] == ',' && WithCommas(plain, text[1..]))
  }

  lemma {:induction false} CommasAreDropped(plain: string, text: string)
    requires WithCommas(plain, text) && NumberText(plain)
    ensures Without(text, IsComma) == plain
    ensures forall i :: 0 <= i < |text| ==> !IsSpace(text[i])
  {
    if text == [] {
    } else if plain != [] && text[0] == plain[0] && WithCommas(plain[1..], text[1..]) {
      CommasAreDropped(plain[1..], text[1..]);
      assert forall i :: 1 <= i < |text| ==> text[i] == text[1..][i - 1];
    } else {
      CommasAreDropped(plain, text[1..]);
      assert forall i :: 1 <= i < |text| ==> text[i] == text[1..][i - 1];
    }
  }

  /** A whole number with thousands commas and blanks around decodes to itself, and to nothing when it does not fit. */
  lemma CountRoundTrip(n: int, p: string, text: string, q: string, other: string -> Option<real>)
    requires Blanks(p) && Blanks(q) && WithCommas(PrintInt(n), text)
    ensures IntOrNull(p + text + q, other) == if -2_147_483_648 <= n <= 2_147_483_647 then Some(n) else None
  {
    var m := if n < 0 then -n else n;
    IntChars(n);
    CommasAreDropped(PrintInt(n), text);
    PaddingIsDropped(p, text, q);
    DigitsAreNumber(m);
    SignedNumber(Digits(m), other);
  }

  lemma CutToWhole(n: int, f: real)
    requires n >= 0 && 0.0 <= f < 1.0
    ensures Truncate(n as real + f) == n && Truncate(-(n as real + f)) == -n
  {
    assert (n as real + f).Floor == n;
  }

  lemma CountReads(s: string, x: real, other: string -> Option<real>)
    requires s != [] && NumberText(s) && Number(s, other) == Some(x)
    ensures IntOrNull(s, other) == if FitsPgInt(Truncate(x)) then Some(Truncate(x)) else None
  {
    TrimKeeps(s);
    WithoutKeeps(s, IsComma);
  }

  /** Decimals of a count are cut off, towards zero. */
  lemma DecimalsAreCut(n: int, b: string, other: string -> Option<real>)
    requires AllDigits(b) && -2_147_483_648 <= n <= 2_147_483_647
    ensures IntOrNull(if n < 0 then "-" + (Digits(-n) + "." + b) else Digits(n) + "." + b, other) == Some(n)
  {
    var m: nat := if n < 0 then -n else n;
    var x := m as real + FractionValue(b);
    DecimalNumber(m, b, other);
    FractionIsBelowOne(b);
    CutToWhole(m, FractionValue(b));
    if n < 0 {
      CountReads("-" + (Digits(m) + "." + b), -x, other);
    } else {
      CountReads(Digits(m) + "." + b, x, other);
    }
  }

  // ---- Days --------------------------------------------------------------------------------------------

  /** A day is four digits, two and two, with dashes between; everything else is no day. */
  lemma DayIff(s: string)
    ensures IsIsoDay(s) <==>
            |s| == 10 && s[4] == '-' && s[7] == '-' &&
            forall i :: 0 <= i < 10 && i != 4 && i != 7 ==> '0' <= s[i] <= '9'
  {
    if |s| == 10 {
      assert forall i :: 0 <= i < 4 ==> s[..4][i] == s[i];
      assert forall i :: 5 <= i < 7 ==> s[5..7][i - 5] == s[i];
      assert forall i :: 8 <= i < 10 ==> s[8..][i - 8] == s[i];
    }
  }

  lemma PaddedDay(p: string, s: string, q: string)
    requires Blanks(p) && Blanks(q) && Core(s)
    ensures DateOrNull(p + s + q) == if IsIsoDay(s) then Some(s) else None
  {
    PaddingIsDropped(p, s, q);
  }
}
