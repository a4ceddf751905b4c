/**
 Price-list files as they come: any line breaks, blank lines, a byte order mark,
 columns in any order, header names in any letter case, cells quoted or not with
 blanks around them, dollar amounts in their usual dress, and lines without an id.
 */
module PriceListFiles {
  import opened Wrappers
  import opened CsvSplit
  import opened CsvCells
  import opened CellForms
  import opened PriceListCsv
  import opened PriceListPrint

  // ---- Lines ------------------------------------------------------------------------------------------

  predicate IsBreak(b: string) { b == "\n" || b == "\r\n" || b == "\r" }

  /** Lines with any breaks between them. */
  function JoinWith(lines: seq<string>, breaks: seq<string>): string
    requires lines != [] && |breaks| == |lines| - 1
  {
    if |lines| == 1 then lines[0] else lines[0] + breaks[0] + JoinWith(lines[1..], breaks[1..])
  }

  /** A line is kept by the reader when it holds more than blanks; `all` has such lines only besides `lines`. */
  predicate WithBlankLines(lines: seq<string>, all: seq<string>) {
    if all == [] then lines == []
    else
      (lines != [] && all[0] == lines[0] && WithBlankLines(lines[1..], all[1..])) ||
      (Blanks(all[0]) && WithBlankLines(lines, all[1..]))
  }

  lemma {:induction false} LineThenBreaks(t: string, rest: string)
    requires '\r' !in t
    ensures UnixBreaks(t + rest) == t + UnixBreaks(rest)
  {
    if t == [] {
      assert t + rest == rest && t + UnixBreaks(rest) == UnixBreaks(rest);
    } else {
      assert (t + rest)[1..] == t[1..] + rest;
      LineThenBreaks(t[1..], rest);
      assert t == [t[0]] + t[1..];
    }
  }

  lemma BreakBecomesNewline(b: string, rest: string)
    requires IsBreak(b) && (b == "\r" ==> rest == [] || rest[0] != '\n')
    ensures UnixBreaks(b + rest) == ['\n'] + UnixBreaks(rest)
  {
    assert (b + rest)[|b|..] == rest;
    if b == "\r\n" {
      assert (b + rest)[0] == '\r' && (b + rest)[1] == '\n' && (b + rest)[2..] == rest;
    } else {
      assert (b + rest)[0] == b[0] && (b + rest)[1..] == rest;
    }
  }

  /** A carriage return followed by a line feed is one break, although an empty line between them was meant. */
  lemma ReturnMergesFeed(rest: string)
    ensures UnixBreaks("\r" + ("\n" + rest)) == ['\n'] + UnixBreaks(rest)
  {
    var s := "\r" + ("\n" + rest);
    assert s[0] == '\r' && |s| > 1 && s[1] == '\n' && s[2..] == rest;
  }

  lemma BlankIsDropped(first: string, tail: seq<string>)
    requires Blanks(first)
    ensures NonBlank([first] + tail) == NonBlank(tail)
  {
    PaddingIsDropped(first, [], []);
    assert first + [] + [] == first && ([first] + tail)[1..] == tail;
  }

  function KeptLines(text: string): seq<string> { NonBlank(SplitLines(UnixBreaks(text), [])) }

  lemma FirstLine(first: string, more: string)
    requires OneLine(first)
    ensures NonBlank(SplitLines(first + ['\n'] + more, [])) == NonBlank([first] + SplitLines(more, []))
  {
    SplitFirst(first, more);
  }

  lemma NonBlankStep(first: string, tail: seq<string>)
    ensures NonBlank([first] + tail) == (if Trim(first) != [] then [first] else []) + NonBlank(tail)
  {
    assert ([first] + tail)[1..] == tail;
  }

  lemma OneLineKept(first: string)
    requires OneLine(first)
    ensures KeptLines(first) == NonBlank([first])
  {
    SplitFirst(first, []);
    NoReturns(first);
  }

  /** A break that stands alone, with the lines after it kept. */
  lemma BreakKept(first: string, b: string, more: string, tail: seq<string>)
    requires OneLine(first) && IsBreak(b) && (b == "\r" ==> more == [] || more[0] != '\n')
    requires KeptLines(more) == NonBlank(tail)
    ensures KeptLines(first + b + more) == NonBlank([first] + tail)
  {
    assert first + b + more == first + (b + more);
    LineThenBreaks(first, b + more);
    BreakBecomesNewline(b, more);
    Rejoin(first, more, tail);
    NonBlankStep(first, tail);
  }

  /** A return that meets a feed, with an empty line between them. */
  lemma MergeKept(first: string, rest: string, tail: seq<string>)
    requires OneLine(first) && KeptLines(rest) == NonBlank(tail)
    ensures KeptLines(first + "\r" + ("\n" + rest)) == NonBlank([first] + ([[]] + tail))
  {
    assert first + "\r" + ("\n" + rest) == first + ("\r" + ("\n" + rest));
    LineThenBreaks(first, "\r" + ("\n" + rest));
    ReturnMergesFeed(rest);
    Rejoin(first, rest, tail);
    NonBlankStep([], tail);
    NonBlankStep(first, [[]] + tail);
  }

  /** Whatever the breaks, the reader keeps the lines that are not blank. */
  lemma {:induction false} BreaksComeBack(lines: seq<string>, breaks: seq<string>)
    requires lines != [] && |breaks| == |lines| - 1
    requires forall i :: 0 <= i < |lines| ==> OneLine(lines[i])
    requires forall i :: 0 <= i < |breaks| ==> IsBreak(breaks[i])
    ensures KeptLines(JoinWith(lines, breaks)) == NonBlank(lines)
    decreases |lines|
  {
    var first := lines[0];
    assert lines == [first] + lines[1..];
    if |lines| == 1 {
      assert lines == [first];
      OneLineKept(first);
    } else {
      var b, more := breaks[0], JoinWith(lines[1..], breaks[1..]);
      if b == "\r" && more != [] && more[0] == '\n' {
        FeedMeansEmpty(lines[1..], breaks[1..]);
        assert lines[1..][1..] == lines[2..] && breaks[1..][1..] == breaks[2..];
        BreaksComeBack(lines[2..], breaks[2..]);
        MergeKept(first, JoinWith(lines[2..], breaks[2..]), lines[2..]);
        assert lines[1..] == [[]] + lines[2..];
      } else {
        BreaksComeBack(lines[1..], breaks[1..]);
        BreakKept(first, b, more, lines[1..]);
      }
    }
  }

  lemma Rejoin(first: string, more: string, tail: seq<string>)
    requires OneLine(first) && KeptLines(more) == NonBlank(tail)
    ensures NonBlank(SplitLines(first + (['\n'] + UnixBreaks(more)), [])) ==
            (if Trim(first) != [] then [first] else []) + NonBlank(tail)
  {
    assert first + (['\n'] + UnixBreaks(more)) == first + ['\n'] + UnixBreaks(more);
    FirstLine(first, UnixBreaks(more));
    NonBlankStep(first, SplitLines(UnixBreaks(more), []));
  }

  lemma StartsWithItsLine(lines: seq<string>, breaks: seq<string>)
    requires lines != [] && |breaks| == |lines| - 1
    ensures lines[0] <= JoinWith(lines, breaks)
  {
  }

  lemma FeedMeansEmpty(lines: seq<string>, breaks: seq<string>)
    requires lines != [] && |breaks| == |lines| - 1 && OneLine(lines[0])
    requires forall i :: 0 <= i < |breaks| ==> IsBreak(breaks[i])
    requires JoinWith(lines, breaks) != [] && JoinWith(lines, breaks)[0] == '\n'
    ensures lines[0] == [] && |lines| > 1 && breaks[0] == "\n"
    ensures JoinWith(lines, breaks) == "\n" + JoinWith(lines[1..], breaks[1..])
  {
    StartsWithItsLine(lines, breaks);
  }

  lemma {:induction false} BlankLinesAreDropped(lines: seq<string>, all: seq<string>)
    requires WithBlankLines(lines, all) && forall i :: 0 <= i < |lines| ==> InkedLine(lines[i])
    ensures NonBlank(all) == lines
  {
    if all == [] {
    } else if lines != [] && all[0] == lines[0] && WithBlankLines(lines[1..], all[1..]) {
      BlankLinesAreDropped(lines[1..], all[1..]);
      assert InkedLine(lines[0]) && all == [all[0]] + all[1..] && lines == [lines[0]] + lines[1..];
      KeepInked(lines[0], all[1..]);
    } else {
      BlankLinesAreDropped(lines, all[1..]);
      assert all == [all[0]] + all[1..];
      BlankIsDropped(all[0], all[1..]);
    }
  }

  /** A byte order mark is dropped, and only at the start. */
  lemma MarkIsDropped(text: string)
    ensures TextLines(['\U{FEFF}'] + text) == KeptLines(text)
    ensures text == [] || text[0] != '\U{FEFF}' ==> TextLines(text) == KeptLines(text)
  {
    assert (['\U{FEFF}'] + text)[1..] == text;
  }

  // ---- Header -----------------------------------------------------------------------------------------

  const CAPITALS := "ABCDEFGHIJKLMNOPQRSTUVWXYZ"
  const SMALLS := "abcdefghijklmnopqrstuvwxyz"

  /** Lower case takes each capital to its own small letter and leaves every other character alone. */
  lemma LowerIsTheAlphabet(c: char)
    ensures forall k :: 0 <= k < 26 && CAPITALS[k] == c ==> LowerChar(c) == SMALLS[k]
    ensures c !in CAPITALS ==> LowerChar(c) == c
  {
    forall k | 0 <= k < 26 ensures CAPITALS[k] == 'A' + k as char && SMALLS[k] == 'a' + k as char {
      AlphabetAt(k);
    }
    if 'A' <= c <= 'Z' {
      assert CAPITALS[c as int - 'A' as int] == c;
    }
  }

  lemma AlphabetAt(k: nat)
    requires k < 26
    ensures CAPITALS[k] == 'A' + k as char && SMALLS[k] == 'a' + k as char
  {
  }

  predicate Spaces(s: string) { forall i :: 0 <= i < |s| ==> s[i] == ' ' }

  /** A header cell that spells `name` in any letter case, with spaces around. */
  ghost predicate SpellsHeader(text: string, name: string) {
    exists p, cased, q :: Spaces(p) && Spaces(q) && text == p + cased + q && Lower(cased) == name && Core(cased) &&
                          '\t' !in cased && ',' !in cased && OneLine(cased)
  }

  lemma HeaderTextReads(text: string, name: string)
    requires SpellsHeader(text, name)
    ensures Lower(Trim(text)) == name && '\t' !in text && ',' !in text && OneLine(text)
  {
    var p, cased, q :| Spaces(p) && Spaces(q) && text == p + cased + q && Lower(cased) == name && Core(cased) &&
                       '\t' !in cased && ',' !in cased && OneLine(cased);
    PaddingIsDropped(p, cased, q);
  }

  lemma {:induction false} HeaderCellsRead(heads: seq<Cell>, names: seq<string>)
    requires |heads| == |names| && forall i :: 0 <= i < |heads| ==> SpellsHeader(heads[i].text, names[i])
    ensures LowerAll(Texts(heads)) == names
  {
    if heads == [] {
    } else {
      HeaderTextReads(heads[0].text, names[0]);
      HeaderCellsRead(heads[1..], names[1..]);
    }
  }

  lemma {:induction false} EscapeAdds(t: string, c: char)
    requires c != QUOTE && c !in t
    ensures c !in Escape(t)
  {
    if t == [] {
    } else {
      EscapeAdds(t[1..], c);
    }
  }

  lemma {:induction false} CellsWithout(cells: seq<Cell>, d: char, c: char)
    requires cells != [] && d != c && c != QUOTE && forall i :: 0 <= i < |cells| ==> c !in cells[i].text
    ensures c !in PrintLine(cells, d)
  {
    EscapeAdds(cells[0].text, c);
    if |cells| > 1 {
      CellsWithout(cells[1..], d, c);
    }
  }

  /** The header's delimiter is recognised and its names are read, however they are written. */
  lemma AnyHeaderRecognised(heads: seq<Cell>, names: seq<string>, d: char)
    requires |heads| == |names| > 1 && (d == ',' || d == '\t')
    requires forall i :: 0 <= i < |heads| ==> SpellsHeader(heads[i].text, names[i]) && Printable(heads[i], d)
    ensures var line := PrintLine(heads, d);
            Delimiter(line) == d && LowerAll(Fields(line, d)) == names && OneLine(line)
  {
    var line := PrintLine(heads, d);
    forall i | 0 <= i < |heads| ensures '\t' !in heads[i].text && ',' !in heads[i].text && OneLine(heads[i].text) {
      HeaderTextReads(heads[i].text, names[i]);
    }
    SplitUndoesPrint(heads, d);
    HeaderCellsRead(heads, names);
    PrintOneLine(heads, d);
    CountJoins(line, [], '\t');
    if d == '\t' {
      CellsWithout(heads, d, ',');
      NoCommas(line, false);
      assert line[|Print(heads[0])|] == d;
    } else {
      CellsWithout(heads, d, '\t');
    }
  }

  // ---- Data lines ---------------------------------------------------------------------------------------

  ghost predicate Padded(text: string, core: string) {
    exists p, q :: Blanks(p) && Blanks(q) && text == p + core + q && Core(core)
  }

  ghost predicate ShowsText(text: string, value: Option<string>) {
    if value.Some? then value.value != [] && Padded(text, value.value) else Blanks(text)
  }

  predicate NoPriceSign(s: string) { s == "" || s == "-" || s == "\U{2014}" }

  /** A price in any dress, or blanks or a dash where there is none. */
  ghost predicate ShowsPrice(text: string, cents: Option<int>) {
    if cents.Some? then -2_147_483_648 <= cents.value <= 2_147_483_647 && Dressed(PrintCents(cents.value), text)
    else exists s :: NoPriceSign(s) && Padded(text, s)
  }

  ghost predicate ShowsCount(text: string, n: Option<int>) {
    if n.Some? then
      -2_147_483_648 <= n.value <= 2_147_483_647 &&
      exists p, t, q :: Blanks(p) && Blanks(q) && text == p + t + q && WithCommas(PrintInt(n.value), t)
    else Blanks(text)
  }

  /** A day, or anything that is none. */
  ghost predicate ShowsDay(text: string, day: Option<string>) {
    if day.Some? then IsIsoDay(day.value) && Padded(text, day.value)
    else exists s :: !IsIsoDay(s) && Padded(text, s)
  }

  /** The cell a row has under a header; nothing when the line is too short or the header absent. */
  function Under(texts: seq<string>, names: seq<string>, header: string): string {
    CellAt(texts, HeaderIndex(names), header)
  }

  /** These cells, under these headers, show this row. */
  ghost predicate Shows(texts: seq<string>, names: seq<string>, columns: Columns, row: Row) {
    row.id != [] && AllDigits(row.id) && Padded(Under(texts, names, "id"), row.id) &&
    Padded(Under(texts, names, "console-name"), row.consoleName) &&
    Padded(Under(texts, names, "product-name"), row.productName) &&
    ShowsText(Under(texts, names, "upc"), row.upc) && ShowsText(Under(texts, names, "genre"), row.genre) &&
    ShowsText(Under(texts, names, "tcg-id"), row.tcgId) && ShowsText(Under(texts, names, "asin"), row.asin) &&
    ShowsText(Under(texts, names, "epid"), row.epid) &&
    ShowsDay(Under(texts, names, "release-date"), row.releaseDate) &&
    ShowsCount(Under(texts, names, "sales-volume"), row.salesVolume) && ShowsPrices(texts, names, columns, row)
  }

  ghost predicate ShowsPrices(texts: seq<string>, names: seq<string>, columns: Columns, row: Row) {
    row.prices.Keys == (set i | 0 <= i < |columns| :: columns[i].1) &&
    forall i :: 0 <= i < |columns| ==>
      columns[i].1 in row.prices && ShowsPrice(Under(texts, names, columns[i].0), row.prices[columns[i].1])
  }

  /** A cell stands under the header at its own place, when the names are distinct and none is empty. */
  lemma CellStandsUnder(texts: seq<string>, names: seq<string>, k: nat)
    requires k < |names| && (forall i :: 0 <= i < |names| ==> names[i] != [])
    requires forall i, j :: 0 <= i < j < |names| ==> names[i] != names[j]
    ensures Under(texts, names, names[k]) == if k < |texts| then texts[k] else []
  {
    IndexOfNames(names, k);
  }

  lemma PaddedReads(text: string, core: string)
    requires Padded(text, core)
    ensures Trim(text) == core
  {
    var p, q :| Blanks(p) && Blanks(q) && text == p + core + q && Core(core);
    PaddingIsDropped(p, core, q);
  }

  lemma TextReads(text: string, value: Option<string>)
    requires ShowsText(text, value)
    ensures BlankToNull(text) == value
  {
    if value.Some? {
      PaddedReads(text, value.value);
    } else {
      BlankCellIsNothing(text, _ => None);
    }
  }

  lemma PriceReads(text: string, cents: Option<int>, other: string -> Option<real>)
    requires ShowsPrice(text, cents)
    ensures UsdToCents(text, other) == cents
  {
    if cents.Some? {
      DressedCents(cents.value, text, other);
    } else {
      var s :| NoPriceSign(s) && Padded(text, s);
      PaddedReads(text, s);
    }
  }

  lemma CountReadsBack(text: string, n: Option<int>, other: string -> Option<real>)
    requires ShowsCount(text, n)
    ensures IntOrNull(text, other) == n
  {
    if n.Some? {
      var p, t, q :| Blanks(p) && Blanks(q) && text == p + t + q && WithCommas(PrintInt(n.value), t);
      CountRoundTrip(n.value, p, t, q, other);
    } else {
      BlankCellIsNothing(text, other);
    }
  }

  lemma DayReads(text: string, day: Option<string>)
    requires ShowsDay(text, day)
    ensures DateOrNull(text) == day
  {
    if day.Some? {
      PaddedReads(text, day.value);
    } else {
      var s :| !IsIsoDay(s) && Padded(text, s);
      PaddedReads(text, s);
    }
  }

  lemma PricesRead(texts: seq<string>, names: seq<string>, columns: Columns, row: Row, other: string -> Option<real>)
    requires ShowsPrices(texts, names, columns, row)
    ensures Prices(texts, HeaderIndex(names), columns, other) == row.prices
  {
    forall i | 0 <= i < |columns|
      ensures UsdToCents(CellAt(texts, HeaderIndex(names), columns[i].0), other) == row.prices[columns[i].1]
    {
      PriceReads(Under(texts, names, columns[i].0), row.prices[columns[i].1], other);
    }
    AllPrices(texts, HeaderIndex(names), columns, row, other);
  }

  /** Cells that show a row are read as that row, wherever its columns are. */
  lemma ShownRowIsRead(texts: seq<string>, names: seq<string>, columns: Columns, row: Row,
                       other: string -> Option<real>)
    requires Shows(texts, names, columns, row)
    ensures BuildRow(texts, HeaderIndex(names), columns, other) == row && Trim(Under(texts, names, "id")) == row.id
  {
    PaddedReads(Under(texts, names, "id"), row.id);
    PaddedReads(Under(texts, names, "console-name"), row.consoleName);
    PaddedReads(Under(texts, names, "product-name"), row.productName);
    TextReads(Under(texts, names, "upc"), row.upc);
    TextReads(Under(texts, names, "genre"), row.genre);
    TextReads(Under(texts, names, "tcg-id"), row.tcgId);
    TextReads(Under(texts, names, "asin"), row.asin);
    TextReads(Under(texts, names, "epid"), row.epid);
    DayReads(Under(texts, names, "release-date"), row.releaseDate);
    CountReadsBack(Under(texts, names, "sales-volume"), row.salesVolume, other);
    PricesRead(texts, names, columns, row, other);
  }

  /** A line whose id cell holds no digits, or more than digits: it shows no row. */
  ghost predicate ShowsNone(texts: seq<string>, names: seq<string>) {
    exists s :: Padded(Under(texts, names, "id"), s) && (s == [] || exists i :: 0 <= i < |s| && !('0' <= s[i] <= '9'))
  }

  ghost predicate LineShows(cells: seq<Cell>, names: seq<string>, columns: Columns, row: Option<Row>) {
    if row.Some? then Shows(Texts(cells), names, columns, row.value) else ShowsNone(Texts(cells), names)
  }

  lemma LineReads(cells: seq<Cell>, names: seq<string>, columns: Columns, row: Option<Row>, d: char,
                  other: string -> Option<real>)
    requires cells != [] && d != QUOTE && (forall i :: 0 <= i < |cells| ==> Printable(cells[i], d))
    requires LineShows(cells, names, columns, row)
    ensures ReadLine(PrintLine(cells, d), d, HeaderIndex(names), columns, other) == row
  {
    SplitUndoesPrint(cells, d);
    if row.Some? {
      ShownRowIsRead(Texts(cells), names, columns, row.value, other);
    } else {
      var s :| Padded(Under(Texts(cells), names, "id"), s) &&
               (s == [] || exists i :: 0 <= i < |s| && !('0' <= s[i] <= '9'));
      PaddedReads(Under(Texts(cells), names, "id"), s);
    }
  }

  // ---- The file -----------------------------------------------------------------------------------------

  function Somes(shown: seq<Option<Row>>): (rows: seq<Row>)
    ensures |rows| <= |shown|
  {
    if shown == [] then []
    else Somes(shown[..|shown| - 1]) + if shown[|shown| - 1].Some? then [shown[|shown| - 1].value] else []
  }

  function Nones(shown: seq<Option<Row>>): nat {
    if shown == [] then 0 else Nones(shown[..|shown| - 1]) + if shown[|shown| - 1].None? then 1 else 0
  }

  lemma {:induction false} ReadAllShown(lines: seq<string>, shown: seq<Option<Row>>, read: string -> Option<Row>)
    requires |lines| == |shown| && forall i :: 0 <= i < |lines| ==> read(lines[i]) == shown[i]
    ensures ReadAll(lines, read) == Somes(shown) && |Somes(shown)| + Nones(shown) == |shown|
  {
    if lines == [] {
    } else {
      ReadAllShown(lines[..|lines| - 1], shown[..|shown| - 1], read);
    }
  }

  lemma {:induction false} TextsAreInTheLine(cells: seq<Cell>, d: char, i: nat, c: char)
    requires i < |cells| && c in cells[i].text
    ensures c in PrintLine(cells, d)
  {
    if i == 0 {
      EscapeKeeps(cells[0].text, c);
      assert c in Print(cells[0]);
    } else {
      TextsAreInTheLine(cells[1..], d, i - 1, c);
    }
  }

  lemma {:induction false} EscapeKeeps(t: string, c: char)
    requires c in t
    ensures c in Escape(t)
  {
    if c == t[0] {
    } else {
      EscapeKeeps(t[1..], c);
    }
  }

  lemma InkFrom(cells: seq<Cell>, d: char, i: nat, c: char)
    requires i < |cells| && c in cells[i].text && !IsSpace(c) && OneLine(PrintLine(cells, d))
    ensures InkedLine(PrintLine(cells, d))
  {
    TextsAreInTheLine(cells, d, i, c);
    var k :| 0 <= k < |PrintLine(cells, d)| && PrintLine(cells, d)[k] == c;
  }

  /** Header cells under which rows can be read. */
  ghost predicate HeaderOf(heads: seq<Cell>, names: seq<string>, d: char) {
    |heads| == |names| > 1 && (d == ',' || d == '\t') && "id" in names && "product-name" in names &&
    forall i :: 0 <= i < |heads| ==> SpellsHeader(heads[i].text, names[i]) && Printable(heads[i], d)
  }

  lemma HeaderIsInked(heads: seq<Cell>, names: seq<string>, d: char)
    requires HeaderOf(heads, names, d)
    ensures InkedLine(PrintLine(heads, d))
  {
    AnyHeaderRecognised(heads, names, d);
    var i :| 0 <= i < |names| && names[i] == "id";
    assert SpellsHeader(heads[i].text, names[i]);
    var p, cased, q :| Spaces(p) && Spaces(q) && heads[i].text == p + cased + q && Lower(cased) == names[i] &&
                       Core(cased) && '\t' !in cased && ',' !in cased && OneLine(cased);
    assert cased != [] && heads[i].text[|p|] == cased[0];
    InkFrom(heads, d, i, cased[0]);
  }

  /** A data line: cells that show a row, or show none without being blank. */
  ghost predicate DataLine(cells: seq<Cell>, names: seq<string>, columns: Columns, row: Option<Row>, d: char) {
    cells != [] && (forall i :: 0 <= i < |cells| ==> Printable(cells[i], d) && OneLine(cells[i].text)) &&
    LineShows(cells, names, columns, row) && InkedLine(PrintLine(cells, d))
  }

  ghost predicate DataOf(data: seq<seq<Cell>>, names: seq<string>, columns: Columns, shown: seq<Option<Row>>, d: char) {
    |data| == |shown| && forall k :: 0 <= k < |data| ==> DataLine(data[k], names, columns, shown[k], d)
  }

  function LinesOf(heads: seq<Cell>, data: seq<seq<Cell>>, d: char): seq<string>
    requires heads != [] && forall k :: 0 <= k < |data| ==> data[k] != []
  {
    [PrintLine(heads, d)] + seq(|data|, k requires 0 <= k < |data| => PrintLine(data[k], d))
  }

  /** The header and the data lines, with blank lines and any breaks, and perhaps a byte order mark in front. */
  ghost predicate FileOf(text: string, lines: seq<string>) {
    exists all, breaks :: FileWith(text, lines, all, breaks)
  }

  ghost predicate FileWith(text: string, lines: seq<string>, all: seq<string>, breaks: seq<string>) {
    all != [] && |breaks| == |all| - 1 && WithBlankLines(lines, all) &&
    (forall i :: 0 <= i < |all| ==> OneLine(all[i])) && (forall i :: 0 <= i < |breaks| ==> IsBreak(breaks[i])) &&
    var body := JoinWith(all, breaks);
    text == ['\U{FEFF}'] + body || (text == body && (body == [] || body[0] != '\U{FEFF}'))
  }

  lemma FileLinesAreKept(text: string, lines: seq<string>)
    requires FileOf(text, lines) && forall i :: 0 <= i < |lines| ==> InkedLine(lines[i])
    ensures TextLines(text) == lines
  {
    var all, breaks :| FileWith(text, lines, all, breaks);
    BreaksComeBack(all, breaks);
    BlankLinesAreDropped(lines, all);
    MarkIsDropped(JoinWith(all, breaks));
  }

  /**
   Any such file parses to the rows its lines show, the last of each id winning, with
   the lines that show none counted as skipped.
   */
  lemma FilesAreRead(text: string, heads: seq<Cell>, names: seq<string>, data: seq<seq<Cell>>, shown: seq<Option<Row>>,
                     columns: Columns, d: char, other: string -> Option<real>)
    requires HeaderOf(heads, names, d) && DataOf(data, names, columns, shown, d)
    requires FileOf(text, LinesOf(heads, data, d))
    ensures Parse(text, columns, other) ==
            Ok(Parsed(LastWins(Somes(shown)), Nones(shown), GenreCounts(LastWins(Somes(shown)))))
  {
    var lines := LinesOf(heads, data, d);
    var read := Reader(d, HeaderIndex(names), columns, other);
    AnyHeaderRecognised(heads, names, d);
    HeaderIsInked(heads, names, d);
    forall i | 0 <= i < |lines| ensures InkedLine(lines[i]) {
      if i > 0 {
        assert DataLine(data[i - 1], names, columns, shown[i - 1], d);
      }
    }
    FileLinesAreKept(text, lines);
    forall k | 0 <= k < |data| ensures read(lines[1..][k]) == shown[k] {
      assert DataLine(data[k], names, columns, shown[k], d);
      LineReads(data[k], names, columns, shown[k], d, other);
    }
    ReadAllShown(lines[1..], shown, read);
    NamedAreIndexed(names, "id");
    NamedAreIndexed(names, "product-name");
    LinesParse(lines, columns, other, d, names, shown);
  }

  lemma {:induction false} NamedAreIndexed(names: seq<string>, name: string)
    requires name in names && name != []
    ensures name in HeaderIndex(names)
  {
    if names[|names| - 1] == name {
    } else {
      NamedAreIndexed(names[..|names| - 1], name);
    }
  }

  lemma DataParses(data: seq<string>, read: string -> Option<Row>, shown: seq<Option<Row>>)
    requires ReadAll(data, read) == Somes(shown) && |data| == |shown| && |Somes(shown)| + Nones(shown) == |shown|
    ensures ParseData(data, read) ==
            Parsed(LastWins(Somes(shown)), Nones(shown), GenreCounts(LastWins(Somes(shown))))
  {
  }

  lemma LinesParse(lines: seq<string>, columns: Columns, other: string -> Option<real>, d: char, names: seq<string>,
                   shown: seq<Option<Row>>)
    requires lines != [] && |lines| == |shown| + 1
    requires Delimiter(lines[0]) == d && LowerAll(Fields(lines[0], d)) == names
    requires "id" in HeaderIndex(names) && "product-name" in HeaderIndex(names)
    requires ReadAll(lines[1..], Reader(d, HeaderIndex(names), columns, other)) == Somes(shown)
    requires |Somes(shown)| + Nones(shown) == |shown|
    ensures ParseLines(lines, columns, other) ==
            Ok(Parsed(LastWins(Somes(shown)), Nones(shown), GenreCounts(LastWins(Somes(shown)))))
  {
    var read := Reader(d, HeaderIndex(names), columns, other);
    DataParses(lines[1..], read, shown);
    if |lines| >= 2 {
      ParseWithHeader(lines, columns, other, d, names);
    } else {
      NothingShown(shown);
    }
  }

  lemma ParseWithHeader(lines: seq<string>, columns: Columns, other: string -> Option<real>, d: char,
                        names: seq<string>)
    requires |lines| >= 2 && Delimiter(lines[0]) == d && LowerAll(Fields(lines[0], d)) == names
    requires "id" in HeaderIndex(names) && "product-name" in HeaderIndex(names)
    ensures ParseLines(lines, columns, other) ==
            Ok(ParseData(lines[1..], Reader(d, HeaderIndex(names), columns, other)))
  {
  }

  lemma NothingShown(shown: seq<Option<Row>>)
    requires shown == []
    ensures LastWins(Somes(shown)) == [] && Nones(shown) == 0 && GenreCounts([]) == map[]
  {
  }

  lemma {:induction false} IndexedAreNamed(names: seq<string>, name: string)
    requires name in HeaderIndex(names)
    ensures name in names
  {
    if name in HeaderIndex(names[..|names| - 1]) {
      IndexedAreNamed(names[..|names| - 1], name);
    }
  }

  /** A file with data whose header names no id or no product is refused, whatever its lines hold. */
  lemma HeaderIsRequired(text: string, heads: seq<Cell>, names: seq<string>, data: seq<string>, columns: Columns,
                         d: char, other: string -> Option<real>)
    requires |heads| == |names| > 1 && (d == ',' || d == '\t')
    requires forall i :: 0 <= i < |heads| ==> SpellsHeader(heads[i].text, names[i]) && Printable(heads[i], d)
    requires InkedLine(PrintLine(heads, d)) && data != [] && forall i :: 0 <= i < |data| ==> InkedLine(data[i])
    requires FileOf(text, [PrintLine(heads, d)] + data) && ("id" !in names || "product-name" !in names)
    ensures Parse(text, columns, other) == Err(MissingHeader)
  {
    var lines := [PrintLine(heads, d)] + data;
    AnyHeaderRecognised(heads, names, d);
    forall i | 0 <= i < |lines| ensures InkedLine(lines[i]) {
      assert i == 0 || lines[i] == data[i - 1];
    }
    FileLinesAreKept(text, lines);
    if "id" in HeaderIndex(names) && "product-name" in HeaderIndex(names) {
      IndexedAreNamed(names, "id");
      IndexedAreNamed(names, "product-name");
    }
  }
}
