/** One delimited line: the quote-and-delimiter state machine, and section 2 of RFC 4180 as its inverse. */
module CsvSplit {
  const QUOTE := '"'

  /** The fields of `s`, with `cur` already read of the first one, inside quotes when `q`. */
  function Split(s: string, d: char, cur: string, q: bool): seq<string> {
    if s == [] then [cur]
    else if q then
      if s[0] == QUOTE then
        if |s| > 1 && s[1] == QUOTE then Split(s[2..], d, cur + [QUOTE], true) else Split(s[1..], d, cur, false)
      else Split(s[1..], d, cur + [s[0]], true)
    else if s[0] == QUOTE then Split(s[1..], d, cur, true)
    else if s[0] == d then [cur] + Split(s[1..], d, [], false)
    else Split(s[1..], d, cur + [s[0]], false)
  }

  function Fields(line: string, d: char): seq<string> { Split(line, d, [], false) }

  method SplitDelimitedLine(line: string, delimiter: char) returns (out: seq<string>)
    ensures out == Fields(line, delimiter)
  {
    out := [];
    var cur: string := [];
    var inQuotes := false;
    var i := 0;
    while i < |line|
      invariant 0 <= i <= |line|
      invariant Fields(line, delimiter) == out + Split(line[i..], delimiter, cur, inQuotes)
    {
      var ch := line[i];
      if inQuotes {
        if ch == QUOTE {
          if i + 1 < |line| && line[i + 1] == QUOTE {
            cur := cur + [QUOTE];
            i := i + 1;
          } else {
            inQuotes := false;
          }
        } else {
          cur := cur + [ch];
        }
      } else if ch == QUOTE {
        inQuotes := true;
      } else if ch == delimiter {
        assert out + ([cur] + Split(line[i..][1..], delimiter, [], false)) ==
               (out + [cur]) + Split(line[i..][1..], delimiter, [], false);
        out := out + [cur];
        cur := [];
      } else {
        cur := cur + [ch];
      }
      i := i + 1;
    }
    out := out + [cur];
  }

  // ---- Printing -----------------------------------------------------------------

  datatype Cell = Bare(text: string) | Quoted(text: string)

  function Escape(t: string): string {
    if t == [] then [] else (if t[0] == QUOTE then [QUOTE, QUOTE] else [t[0]]) + Escape(t[1..])
  }

  function Print(c: Cell): string {
    match c case Bare(t) => t case Quoted(t) => [QUOTE] + Escape(t) + [QUOTE]
  }

  function PrintLine(cells: seq<Cell>, d: char): string
    requires cells != []
  {
    if |cells| == 1 then Print(cells[0]) else Print(cells[0]) + [d] + PrintLine(cells[1..], d)
  }

  predicate Plain(t: string, d: char) { QUOTE !in t && d !in t }

  predicate Printable(c: Cell, d: char) { c.Bare? ==> Plain(c.text, d) }

  function Texts(cells: seq<Cell>): seq<string> {
    if cells == [] then [] else [cells[0].text] + Texts(cells[1..])
  }

  lemma {:induction false} BareRun(t: string, rest: string, d: char, cur: string)
    requires Plain(t, d)
    ensures Split(t + rest, d, cur, false) == Split(rest, d, cur + t, false)
  {
    if t == [] {
      assert t + rest == rest && cur + t == cur;
    } else {
      assert (t + rest)[1..] == t[1..] + rest && (cur + [t[0]]) + t[1..] == cur + t;
      BareRun(t[1..], rest, d, cur + [t[0]]);
    }
  }

  lemma {:induction false} QuotedRun(t: string, rest: string, d: char, cur: string)
    requires rest == [] || rest[0] != QUOTE
    ensures Split(Escape(t) + [QUOTE] + rest, d, cur, true) == Split(rest, d, cur + t, false)
  {
    var s := Escape(t) + [QUOTE] + rest;
    if t == [] {
      assert s[1..] == rest && cur + t == cur;
    } else {
      var tail := Escape(t[1..]) + [QUOTE] + rest;
      assert (cur + [t[0]]) + t[1..] == cur + t;
      if t[0] == QUOTE {
        assert s == [QUOTE, QUOTE] + tail && s[2..] == tail;
      } else {
        assert s == [t[0]] + tail && s[1..] == tail;
      }
      QuotedRun(t[1..], rest, d, cur + [t[0]]);
    }
  }

  /** A run of a cell, with `cur` already read of it. */
  lemma OneRun(c: Cell, rest: string, d: char, cur: string)
    requires Printable(c, d) && (c.Quoted? ==> rest == [] || rest[0] != QUOTE)
    ensures Split(Print(c) + rest, d, cur, false) == Split(rest, d, cur + c.text, false)
  {
    if c.Bare? {
      BareRun(c.text, rest, d, cur);
    } else {
      assert (Print(c) + rest)[1..] == Escape(c.text) + [QUOTE] + rest;
      QuotedRun(c.text, rest, d, cur);
    }
  }

  lemma CellRun(c: Cell, rest: string, d: char)
    requires Printable(c, d) && d != QUOTE && (rest == [] || rest[0] == d)
    ensures Split(Print(c) + rest, d, [], false) == Split(rest, d, c.text, false)
  {
    OneRun(c, rest, d, []);
    assert [] + c.text == c.text;
  }

  /** Printing fields, quoted or bare in any mix, and splitting the line gives them back exactly. */
  lemma {:induction false} SplitUndoesPrint(cells: seq<Cell>, d: char)
    requires cells != [] && d != QUOTE && forall i :: 0 <= i < |cells| ==> Printable(cells[i], d)
    ensures Fields(PrintLine(cells, d), d) == Texts(cells)
  {
    if |cells| == 1 {
      assert Print(cells[0]) + [] == Print(cells[0]);
      CellRun(cells[0], [], d);
    } else {
      var rest := [d] + PrintLine(cells[1..], d);
      assert PrintLine(cells, d) == Print(cells[0]) + rest && rest[1..] == PrintLine(cells[1..], d);
      CellRun(cells[0], rest, d);
      SplitUndoesPrint(cells[1..], d);
    }
  }

  // ---- Cells quoted in part ---------------------------------------------------------

  /** A cell written as runs, some of them quoted; two quoted runs in a row would read as a doubled quote. */
  function PrintRuns(runs: seq<Cell>): string {
    if runs == [] then [] else Print(runs[0]) + PrintRuns(runs[1..])
  }

  function TextOfRuns(runs: seq<Cell>): string {
    if runs == [] then [] else runs[0].text + TextOfRuns(runs[1..])
  }

  predicate Runs(runs: seq<Cell>, d: char) {
    (forall i :: 0 <= i < |runs| ==> Printable(runs[i], d)) &&
    forall i :: 0 < i < |runs| && runs[i - 1].Quoted? ==> runs[i].Bare? && runs[i].text != []
  }

  /** What follows a quoted run does not begin with a quote. */
  lemma AfterQuoted(runs: seq<Cell>, rest: string, d: char)
    requires runs != [] && Runs(runs, d) && d != QUOTE && (rest == [] || rest[0] == d) && runs[0].Quoted?
    ensures PrintRuns(runs[1..]) + rest == [] || (PrintRuns(runs[1..]) + rest)[0] != QUOTE
  {
    if |runs| > 1 {
      assert runs[1].Bare? && runs[1].text != [] && runs[1..][0] == runs[1];
    }
  }

  lemma FirstRun(runs: seq<Cell>, rest: string, cur: string)
    requires runs != []
    ensures PrintRuns(runs) + rest == Print(runs[0]) + (PrintRuns(runs[1..]) + rest)
    ensures cur + runs[0].text + TextOfRuns(runs[1..]) == cur + TextOfRuns(runs)
  {
    Grouping(Print(runs[0]), PrintRuns(runs[1..]), rest);
    Grouping(cur, runs[0].text, TextOfRuns(runs[1..]));
  }

  lemma Grouping(a: string, b: string, c: string)
    ensures a + b + c == a + (b + c)
  {
  }

  /** A quote opens and closes anywhere in a cell, and what it encloses loses no delimiter. */
  lemma {:induction false} RunsJoin(runs: seq<Cell>, rest: string, d: char, cur: string)
    requires Runs(runs, d) && d != QUOTE && (rest == [] || rest[0] == d)
    ensures Split(PrintRuns(runs) + rest, d, cur, false) == Split(rest, d, cur + TextOfRuns(runs), false)
  {
    if runs == [] {
      assert [] + rest == rest && cur + [] == cur;
    } else {
      var more := PrintRuns(runs[1..]) + rest;
      if runs[0].Quoted? {
        AfterQuoted(runs, rest, d);
      }
      OneRun(runs[0], more, d, cur);
      RunsJoin(runs[1..], rest, d, cur + runs[0].text);
      FirstRun(runs, rest, cur);
    }
  }

  /** Text after a quote that is never closed is one field to the end of the line. */
  lemma {:induction false} UnclosedQuote(t: string, d: char, cur: string)
    ensures Split(Escape(t), d, cur, true) == [cur + t]
  {
    if t == [] {
      assert cur + t == cur;
    } else {
      assert (cur + [t[0]]) + t[1..] == cur + t;
      UnclosedQuote(t[1..], d, cur + [t[0]]);
    }
  }

  // ---- When quoting is needed -----------------------------------------------------

  function Bares(fields: seq<string>): seq<Cell> {
    seq(|fields|, i requires 0 <= i < |fields| => Bare(fields[i]))
  }

  function Size(fields: seq<string>): nat {
    if fields == [] then 0 else |fields[0]| + 1 + Size(fields[1..])
  }

  function Count(s: string, c: char): nat {
    if s == [] then 0 else (if s[0] == c then 1 else 0) + Count(s[1..], c)
  }

  function CountAll(fields: seq<string>, c: char): nat {
    if fields == [] then 0 else Count(fields[0], c) + CountAll(fields[1..], c)
  }

  /** Splitting drops at least one character from a line that holds a quote, and none otherwise. */
  lemma {:induction false} SplitSize(s: string, d: char, cur: string, q: bool)
    requires d != QUOTE
    ensures Size(Split(s, d, cur, q)) <= |cur| + |s| + 1
    ensures QUOTE in s ==> Size(Split(s, d, cur, q)) <= |cur| + |s|
    ensures !q && QUOTE !in s ==> |Split(s, d, cur, q)| == 1 + Count(s, d)
    decreases |s|
  {
    if s == [] {
    } else {
      if q && s[0] == QUOTE && |s| > 1 && s[1] == QUOTE {
        SplitSize(s[2..], d, cur + [QUOTE], true);
      } else if q && s[0] == QUOTE {
        SplitSize(s[1..], d, cur, false);
      } else if q {
        SplitSize(s[1..], d, cur + [s[0]], true);
      } else if s[0] == QUOTE {
        SplitSize(s[1..], d, cur, true);
      } else if s[0] == d {
        SplitSize(s[1..], d, [], false);
        assert ([cur] + Split(s[1..], d, [], false))[1..] == Split(s[1..], d, [], false);
      } else {
        SplitSize(s[1..], d, cur + [s[0]], false);
      }
    }
  }

  lemma {:induction false} CountJoins(a: string, b: string, c: char)
    ensures Count(a + b, c) == Count(a, c) + Count(b, c)
    ensures Count(a, c) == 0 <==> c !in a
  {
    if a == [] {
      assert a + b == b;
    } else {
      assert (a + b)[1..] == a[1..] + b;
      CountJoins(a[1..], b, c);
    }
  }

  lemma {:induction false} BareLine(fields: seq<string>, d: char)
    requires fields != []
    ensures |PrintLine(Bares(fields), d)| + 1 == Size(fields)
    ensures d != QUOTE ==> Count(PrintLine(Bares(fields), d), d) == |fields| - 1 + CountAll(fields, d)
    ensures forall i :: 0 <= i < |fields| && QUOTE in fields[i] ==> QUOTE in PrintLine(Bares(fields), d)
  {
    CountJoins(fields[0], [], d);
    assert fields[0] + [] == fields[0];
    if |fields| > 1 {
      var tail := PrintLine(Bares(fields[1..]), d);
      assert Bares(fields)[1..] == Bares(fields[1..]);
      BareLine(fields[1..], d);
      CountJoins(fields[0], [d] + tail, d);
      CountJoins([d], tail, d);
      assert fields[0] + [d] + tail == fields[0] + ([d] + tail);
      forall i | 0 <= i < |fields| && QUOTE in fields[i] ensures QUOTE in PrintLine(Bares(fields), d) {
        if i > 0 { assert fields[1..][i - 1] == fields[i]; }
      }
    }
  }

  lemma {:induction false} CountNone(fields: seq<string>, c: char)
    requires CountAll(fields, c) == 0
    ensures forall i :: 0 <= i < |fields| ==> c !in fields[i]
  {
    if fields == [] {
    } else {
      CountJoins(fields[0], [], c);
      CountNone(fields[1..], c);
    }
  }

  lemma {:induction false} TextsOfBares(fields: seq<string>)
    ensures Texts(Bares(fields)) == fields
  {
    if fields == [] {
    } else {
      assert Bares(fields)[1..] == Bares(fields[1..]);
      TextsOfBares(fields[1..]);
    }
  }

  /** Fields written without quotes come back exactly when none holds a quote or the delimiter. */
  lemma BareRoundTripIff(fields: seq<string>, d: char)
    requires fields != [] && d != QUOTE
    ensures Fields(PrintLine(Bares(fields), d), d) == fields <==> forall i :: 0 <= i < |fields| ==> Plain(fields[i], d)
  {
    var line := PrintLine(Bares(fields), d);
    BareLine(fields, d);
    SplitSize(line, d, [], false);
    if Fields(line, d) == fields {
      CountNone(fields, d);
    }
    if forall i :: 0 <= i < |fields| ==> Plain(fields[i], d) {
      SplitUndoesPrint(Bares(fields), d);
      TextsOfBares(fields);
    }
  }
}
