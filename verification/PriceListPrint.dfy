/** Printing price-list rows, and the proof that the file parser reads them back unchanged. */
module PriceListPrint {
  import opened Wrappers
  import opened CsvSplit
  import opened CsvCells
  import opened PriceListCsv

  function FixedNames(): seq<string> {
    ["id", "console-name", "product-name", "upc", "sales-volume", "genre", "tcg-id", "asin", "epid", "release-date"]
  }

  function PriceNames(columns: Columns): seq<string> {
    seq(|columns|, i requires 0 <= i < |columns| => columns[i].0)
  }

  function Names(columns: Columns): seq<string> { FixedNames() + PriceNames(columns) }

  function TextOf(t: Option<string>): string { if t.Some? then t.value else [] }

  function CentsText(c: Option<int>): string { if c.Some? then PrintCents(c.value) else [] }

  function FixedTexts(row: Row): seq<string> {
    [row.id, row.consoleName, row.productName, TextOf(row.upc),
     if row.salesVolume.Some? then PrintInt(row.salesVolume.value) else [],
     TextOf(row.genre), TextOf(row.tcgId), TextOf(row.asin), TextOf(row.epid), TextOf(row.releaseDate)]
  }

  function PriceTexts(row: Row, columns: Columns): seq<string>
    requires forall i :: 0 <= i < |columns| ==> columns[i].1 in row.prices
  {
    seq(|columns|, i requires 0 <= i < |columns| => CentsText(row.prices[columns[i].1]))
  }

  /** Quoted where it must be, and wherever `bare` does not ask for a bare cell. */
  function Wrap(t: string, d: char, bare: string -> bool): Cell {
    if bare(t) && Plain(t, d) then Bare(t) else Quoted(t)
  }

  function WrapAll(texts: seq<string>, d: char, bare: string -> bool): seq<Cell> {
    if texts == [] then [] else [Wrap(texts[0], d, bare)] + WrapAll(texts[1..], d, bare)
  }

  predicate OneLine(t: string) { '\n' !in t && '\r' !in t }

  predicate CleanText(t: string) { Trim(t) == t && OneLine(t) }

  predicate CleanOption(t: Option<string>) { t.Some? ==> t.value != [] && CleanText(t.value) }

  /** A row that fits on one line and reads back: every row the parser produces is one (`ParsedRowsAreStorable`). */
  predicate Storable(row: Row, columns: Columns) {
    row.id != [] && AllDigits(row.id) && CleanText(row.consoleName) && CleanText(row.productName) &&
    CleanOption(row.upc) && CleanOption(row.genre) && CleanOption(row.tcgId) && CleanOption(row.asin) &&
    CleanOption(row.epid) && (row.releaseDate.Some? ==> IsIsoDay(row.releaseDate.value)) &&
    (row.salesVolume.Some? ==> FitsPgInt(row.salesVolume.value)) &&
    row.prices.Keys == (set i | 0 <= i < |columns| :: columns[i].1) &&
    forall i :: 0 <= i < |columns| ==>
      columns[i].1 in row.prices && (row.prices[columns[i].1].Some? ==> FitsPgInt(row.prices[columns[i].1].value))
  }

  predicate HeaderName(n: string) {
    n != [] && Lower(Trim(n)) == n && OneLine(n) && '\t' !in n && ',' !in n && QUOTE !in n && !IsSpace(n[0])
  }

  /** Headers the parser can tell apart and the delimiter detector cannot misread. */
  ghost predicate Headers(names: seq<string>) {
    (forall i :: 0 <= i < |names| ==> HeaderName(names[i])) &&
    forall i, j :: 0 <= i < j < |names| ==> names[i] != names[j]
  }

  function RowLine(row: Row, columns: Columns, d: char, bare: string -> bool): string
    requires Storable(row, columns)
  {
    PrintLine(WrapAll(FixedTexts(row) + PriceTexts(row, columns), d, bare), d)
  }

  function JoinLines(lines: seq<string>): string
    requires lines != []
  {
    if |lines| == 1 then lines[0] else lines[0] + ['\n'] + JoinLines(lines[1..])
  }

  function RowLines(rows: seq<Row>, columns: Columns, d: char, bare: string -> bool): seq<string>
    requires forall i :: 0 <= i < |rows| ==> Storable(rows[i], columns)
  {
    seq(|rows|, i requires 0 <= i < |rows| => RowLine(rows[i], columns, d, bare))
  }

  function PrintFile(rows: seq<Row>, columns: Columns, d: char, bare: string -> bool): string
    requires forall i :: 0 <= i < |rows| ==> Storable(rows[i], columns)
  {
    JoinLines([PrintLine(Bares(Names(columns)), d)] + RowLines(rows, columns, d, bare))
  }

  // ---- Lines ------------------------------------------------------------------------

  lemma {:induction false} NoReturns(s: string)
    requires '\r' !in s
    ensures UnixBreaks(s) == s
  {
    if s == [] {
    } else {
      assert s == [s[0]] + s[1..];
      NoReturns(s[1..]);
    }
  }

  lemma {:induction false} SplitLinesRun(t: string, rest: string, cur: string)
    requires '\n' !in t
    ensures SplitLines(t + rest, cur) == SplitLines(rest, cur + t)
  {
    if t == [] {
      assert t + rest == rest && cur + t == cur;
    } else {
      assert (t + rest)[1..] == t[1..] + rest && (cur + [t[0]]) + t[1..] == cur + t;
      SplitLinesRun(t[1..], rest, cur + [t[0]]);
    }
  }

  lemma {:induction false} TrimSeesInk(s: string, k: nat)
    requires k < |s| && !IsSpace(s[k])
    ensures TrimEnd(s) != [] && Trim(s) != []
    decreases |s|
  {
    InkAtEnd(s, k);
    if IsSpace(s[0]) {
      TrimSeesInk(s[1..], k - 1);
    }
  }

  lemma {:induction false} InkAtEnd(s: string, k: nat)
    requires k < |s| && !IsSpace(s[k])
    ensures TrimEnd(s) != []
    decreases |s|
  {
    if IsSpace(s[|s| - 1]) {
      InkAtEnd(s[..|s| - 1], k);
    }
  }

  ghost predicate InkedLine(line: string) {
    OneLine(line) && exists k :: 0 <= k < |line| && !IsSpace(line[k])
  }

  lemma KeepInked(first: string, tail: seq<string>)
    requires InkedLine(first)
    ensures NonBlank([first] + tail) == [first] + NonBlank(tail)
  {
    var k :| 0 <= k < |first| && !IsSpace(first[k]);
    TrimSeesInk(first, k);
    assert ([first] + tail)[1..] == tail;
  }

  lemma SplitFirst(first: string, more: string)
    requires '\n' !in first
    ensures SplitLines(first, []) == [first]
    ensures SplitLines(first + ['\n'] + more, []) == [first] + SplitLines(more, [])
  {
    assert [] + first == first && first + [] == first;
    SplitLinesRun(first, [], []);
    SplitLinesRun(first, ['\n'] + more, []);
    assert first + ['\n'] + more == first + (['\n'] + more) && (['\n'] + more)[1..] == more;
  }

  lemma {:induction false} LinesComeBack(lines: seq<string>)
    requires lines != [] && forall i :: 0 <= i < |lines| ==> InkedLine(lines[i])
    ensures '\r' !in JoinLines(lines)
    ensures NonBlank(SplitLines(JoinLines(lines), [])) == lines
  {
    var first := lines[0];
    assert InkedLine(first);
    if |lines| == 1 {
      SplitFirst(first, []);
      KeepInked(first, []);
      assert [first] + [] == [first];
    } else {
      SplitFirst(first, JoinLines(lines[1..]));
      KeepInked(first, SplitLines(JoinLines(lines[1..]), []));
      LinesComeBack(lines[1..]);
    }
  }

  lemma {:induction false} EscapeOneLine(t: string)
    requires OneLine(t)
    ensures OneLine(Escape(t))
  {
    if t == [] {
    } else {
      EscapeOneLine(t[1..]);
    }
  }

  lemma {:induction false} PrintOneLine(cells: seq<Cell>, d: char)
    requires cells != [] && d != '\n' && d != '\r' && forall i :: 0 <= i < |cells| ==> OneLine(cells[i].text)
    ensures OneLine(PrintLine(cells, d))
    ensures |Print(cells[0])| <= |PrintLine(cells, d)| && PrintLine(cells, d)[..|Print(cells[0])|] == Print(cells[0])
  {
    EscapeOneLine(cells[0].text);
    if |cells| > 1 {
      PrintOneLine(cells[1..], d);
    }
  }

  lemma {:induction false} Wrapped(texts: seq<string>, d: char, bare: string -> bool)
    ensures |WrapAll(texts, d, bare)| == |texts| && Texts(WrapAll(texts, d, bare)) == texts
    ensures forall i :: 0 <= i < |texts| ==> WrapAll(texts, d, bare)[i] == Wrap(texts[i], d, bare)
  {
    if texts == [] {
    } else {
      Wrapped(texts[1..], d, bare);
    }
  }

  // ---- Header -------------------------------------------------------------------------

  lemma {:induction false} NoCommas(s: string, q: bool)
    requires ',' !in s
    ensures Commas(s, q) == 0
  {
    if s == [] {
    } else {
      NoCommas(s[1..], if s[0] == QUOTE then !q else q);
    }
  }

  lemma {:induction false} CharAbsent(names: seq<string>, d: char, c: char)
    requires names != [] && d != c && forall i :: 0 <= i < |names| ==> c !in names[i]
    ensures c !in PrintLine(Bares(names), d)
  {
    if |names| > 1 {
      assert Bares(names)[1..] == Bares(names[1..]);
      CharAbsent(names[1..], d, c);
    }
  }

  lemma {:induction false} CountAllZero(names: seq<string>, c: char)
    requires forall i :: 0 <= i < |names| ==> c !in names[i]
    ensures CountAll(names, c) == 0
  {
    if names == [] {
    } else {
      CountJoins(names[0], [], c);
      CountAllZero(names[1..], c);
    }
  }

  lemma {:induction false} LowerAllKeeps(names: seq<string>)
    requires forall i :: 0 <= i < |names| ==> Lower(Trim(names[i])) == names[i]
    ensures LowerAll(names) == names
  {
    if names == [] {
    } else {
      LowerAllKeeps(names[1..]);
    }
  }

  /** The detector recognises the delimiter a header of at least two names was printed with. */
  lemma HeaderRecognised(names: seq<string>, d: char)
    requires |names| > 1 && Headers(names) && (d == ',' || d == '\t')
    ensures var line := PrintLine(Bares(names), d);
            Delimiter(line) == d && LowerAll(Fields(line, d)) == names && InkedLine(line) && line[0] == names[0][0]
  {
    var line := PrintLine(Bares(names), d);
    forall i | 0 <= i < |names| ensures Plain(names[i], d) && HeaderName(names[i]) {}
    BareLine(names, d);
    if d == '\t' {
      CountAllZero(names, d);
      CharAbsent(names, d, ',');
      NoCommas(line, false);
    } else {
      CharAbsent(names, d, '\t');
      CountJoins(line, [], '\t');
    }
    SplitUndoesPrint(Bares(names), d);
    TextsOfBares(names);
    LowerAllKeeps(names);
    PrintOneLine(Bares(names), d);
    assert line[0] == names[0][0];
  }

  lemma {:induction false} IndexOfNames(names: seq<string>, k: nat)
    requires k < |names| && (forall i :: 0 <= i < |names| ==> names[i] != []) &&
             forall i, j :: 0 <= i < j < |names| ==> names[i] != names[j]
    ensures names[k] in HeaderIndex(names) && HeaderIndex(names)[names[k]] == k
  {
    if k < |names| - 1 {
      IndexOfNames(names[..|names| - 1], k);
    }
  }

  // ---- Rows ---------------------------------------------------------------------------

  lemma BlankRoundTrip(t: Option<string>)
    requires CleanOption(t)
    ensures BlankToNull(TextOf(t)) == t
  {
  }

  lemma DayRoundTrip(t: Option<string>)
    requires t.Some? ==> IsIsoDay(t.value)
    ensures DateOrNull(TextOf(t)) == t && OneLine(TextOf(t))
  {
    if t.Some? {
      var s := t.value;
      assert s[0] == s[..4][0] && s[9] == s[8..][1];
      TrimKeeps(s);
      forall i | 0 <= i < |s| ensures s[i] == '-' || IsDigit(s[i]) {
        if i < 4 { assert s[i] == s[..4][i]; }
        else if 5 <= i < 7 { assert s[i] == s[5..7][i - 5]; }
        else if 8 <= i { assert s[i] == s[8..][i - 8]; }
      }
    }
  }

  lemma NumberTextOneLine(n: int)
    ensures OneLine(PrintInt(n)) && OneLine(PrintCents(n))
  {
    IntChars(n);
    MoneyChars(n);
    NumberCharsOneLine(PrintInt(n));
    NumberCharsOneLine(PrintCents(n));
  }

  lemma NumberCharsOneLine(s: string)
    requires s != [] && forall i :: 0 <= i < |s| ==> NumberChar(s[i])
    ensures OneLine(s)
  {
  }

  lemma {:induction false} PricesComeBack(cols: seq<string>, index: map<string, nat>, columns: Columns, row: Row,
                                          other: string -> Option<real>)
    requires forall i :: 0 <= i < |columns| ==>
               columns[i].1 in row.prices &&
               UsdToCents(CellAt(cols, index, columns[i].0), other) == row.prices[columns[i].1]
    ensures forall i :: 0 <= i < |columns| ==> columns[i].1 in Prices(cols, index, columns, other)
    ensures forall c :: c in Prices(cols, index, columns, other) ==>
              c in row.prices && Prices(cols, index, columns, other)[c] == row.prices[c]
  {
    if columns == [] {
    } else {
      PricesComeBack(cols, index, columns[..|columns| - 1], row, other);
      assert columns == columns[..|columns| - 1] + [columns[|columns| - 1]];
    }
  }

  lemma RowTexts(row: Row, columns: Columns)
    requires Storable(row, columns)
    ensures forall i :: 0 <= i < 10 + |columns| ==> OneLine((FixedTexts(row) + PriceTexts(row, columns))[i])
  {
    DayRoundTrip(row.releaseDate);
    if row.salesVolume.Some? { NumberTextOneLine(row.salesVolume.value); }
    forall i | 0 <= i < |columns| ensures OneLine(PriceTexts(row, columns)[i]) {
      if row.prices[columns[i].1].Some? { NumberTextOneLine(row.prices[columns[i].1].value); }
    }
  }

  lemma CellsOf(row: Row, columns: Columns, cols: seq<string>, index: map<string, nat>, k: nat)
    requires Storable(row, columns) && Headers(Names(columns)) && k < |Names(columns)|
    requires cols == FixedTexts(row) + PriceTexts(row, columns) && index == HeaderIndex(Names(columns))
    ensures CellAt(cols, index, Names(columns)[k]) == cols[k]
  {
    IndexOfNames(Names(columns), k);
  }

  /** The cells under the fixed headers, as the row prints them. */
  ghost predicate FixedCells(cols: seq<string>, index: map<string, nat>, row: Row) {
    CellAt(cols, index, "id") == row.id &&
    CellAt(cols, index, "console-name") == row.consoleName &&
    CellAt(cols, index, "product-name") == row.productName &&
    CellAt(cols, index, "upc") == TextOf(row.upc) &&
    CellAt(cols, index, "sales-volume") == (if row.salesVolume.Some? then PrintInt(row.salesVolume.value) else []) &&
    CellAt(cols, index, "genre") == TextOf(row.genre) &&
    CellAt(cols, index, "tcg-id") == TextOf(row.tcgId) &&
    CellAt(cols, index, "asin") == TextOf(row.asin) &&
    CellAt(cols, index, "epid") == TextOf(row.epid) &&
    CellAt(cols, index, "release-date") == TextOf(row.releaseDate)
  }

  lemma FixedCellsComeBack(row: Row, columns: Columns, cols: seq<string>, index: map<string, nat>)
    requires Storable(row, columns) && Headers(Names(columns))
    requires cols == FixedTexts(row) + PriceTexts(row, columns) && index == HeaderIndex(Names(columns))
    ensures FixedCells(cols, index, row)
  {
    FixedCell(row, columns, cols, index, 0);
    FixedCell(row, columns, cols, index, 1);
    FixedCell(row, columns, cols, index, 2);
    FixedCell(row, columns, cols, index, 3);
    FixedCell(row, columns, cols, index, 4);
    FixedCell(row, columns, cols, index, 5);
    FixedCell(row, columns, cols, index, 6);
    FixedCell(row, columns, cols, index, 7);
    FixedCell(row, columns, cols, index, 8);
    FixedCell(row, columns, cols, index, 9);
  }

  lemma FixedCell(row: Row, columns: Columns, cols: seq<string>, index: map<string, nat>, k: nat)
    requires Storable(row, columns) && Headers(Names(columns)) && k < 10
    requires cols == FixedTexts(row) + PriceTexts(row, columns) && index == HeaderIndex(Names(columns))
    ensures CellAt(cols, index, FixedNames()[k]) == FixedTexts(row)[k]
  {
    CellsOf(row, columns, cols, index, k);
  }

  lemma PriceCellsComeBack(row: Row, columns: Columns, cols: seq<string>, index: map<string, nat>,
                           other: string -> Option<real>)
    requires Storable(row, columns) && Headers(Names(columns))
    requires cols == FixedTexts(row) + PriceTexts(row, columns) && index == HeaderIndex(Names(columns))
    ensures Prices(cols, index, columns, other) == row.prices
  {
    forall i | 0 <= i < |columns|
      ensures UsdToCents(CellAt(cols, index, columns[i].0), other) == row.prices[columns[i].1]
    {
      PriceCell(row, columns, cols, index, i, other);
    }
    AllPrices(cols, index, columns, row, other);
  }

  lemma PriceCell(row: Row, columns: Columns, cols: seq<string>, index: map<string, nat>, i: nat,
                  other: string -> Option<real>)
    requires Storable(row, columns) && Headers(Names(columns)) && i < |columns|
    requires cols == FixedTexts(row) + PriceTexts(row, columns) && index == HeaderIndex(Names(columns))
    ensures UsdToCents(CellAt(cols, index, columns[i].0), other) == row.prices[columns[i].1]
  {
    CellsOf(row, columns, cols, index, 10 + i);
    PriceText(row.prices[columns[i].1], other);
  }

  lemma AllPrices(cols: seq<string>, index: map<string, nat>, columns: Columns, row: Row, other: string -> Option<real>)
    requires row.prices.Keys == set i | 0 <= i < |columns| :: columns[i].1
    requires forall i :: 0 <= i < |columns| ==>
               columns[i].1 in row.prices &&
               UsdToCents(CellAt(cols, index, columns[i].0), other) == row.prices[columns[i].1]
    ensures Prices(cols, index, columns, other) == row.prices
  {
    PricesComeBack(cols, index, columns, row, other);
    forall c | c in row.prices ensures c in Prices(cols, index, columns, other) {
      assert c in row.prices.Keys;
    }
  }

  lemma PriceText(cents: Option<int>, other: string -> Option<real>)
    requires cents.Some? ==> FitsPgInt(cents.value)
    ensures UsdToCents(CentsText(cents), other) == cents
  {
    if cents.Some? {
      CentsRoundTrip(cents.value, other);
    }
  }

  lemma RowFromCells(row: Row, columns: Columns, cols: seq<string>, index: map<string, nat>,
                     other: string -> Option<real>)
    requires Storable(row, columns) && FixedCells(cols, index, row) && Prices(cols, index, columns, other) == row.prices
    ensures BuildRow(cols, index, columns, other) == row && Trim(row.id) == row.id
  {
    assert IsDigit(row.id[0]) && IsDigit(row.id[|row.id| - 1]);
    TrimKeeps(row.id);
    BlankRoundTrip(row.upc);
    BlankRoundTrip(row.genre);
    BlankRoundTrip(row.tcgId);
    BlankRoundTrip(row.asin);
    BlankRoundTrip(row.epid);
    DayRoundTrip(row.releaseDate);
    SalesText(row.salesVolume, other);
  }

  lemma SalesText(n: Option<int>, other: string -> Option<real>)
    requires n.Some? ==> FitsPgInt(n.value)
    ensures IntOrNull(if n.Some? then PrintInt(n.value) else [], other) == n
  {
    if n.Some? {
      IntRoundTrip(n.value, other);
    }
  }

  /** Splitting a printed row line gives the row's texts. */
  lemma RowLineFields(row: Row, columns: Columns, d: char, bare: string -> bool)
    requires Storable(row, columns) && (d == ',' || d == '\t')
    ensures Fields(RowLine(row, columns, d, bare), d) == FixedTexts(row) + PriceTexts(row, columns)
    ensures InkedLine(RowLine(row, columns, d, bare))
  {
    var texts := FixedTexts(row) + PriceTexts(row, columns);
    var cells := WrapAll(texts, d, bare);
    Wrapped(texts, d, bare);
    SplitUndoesPrint(cells, d);
    RowTexts(row, columns);
    PrintOneLine(cells, d);
    assert texts[0] == row.id && cells[0] == Wrap(row.id, d, bare) && IsDigit(row.id[0]);
    assert PrintLine(cells, d)[0] == Print(cells[0])[0];
  }

  /** A printed row line reads back as the row. */
  lemma RowComesBack(row: Row, columns: Columns, d: char, bare: string -> bool, other: string -> Option<real>)
    requires Storable(row, columns) && Headers(Names(columns)) && (d == ',' || d == '\t')
    ensures ReadLine(RowLine(row, columns, d, bare), d, HeaderIndex(Names(columns)), columns, other) == Some(row)
  {
    var cols := FixedTexts(row) + PriceTexts(row, columns);
    var index := HeaderIndex(Names(columns));
    RowLineFields(row, columns, d, bare);
    FixedCellsComeBack(row, columns, cols, index);
    PriceCellsComeBack(row, columns, cols, index, other);
    RowFromCells(row, columns, cols, index, other);
  }

  lemma {:induction false} DistinctStay(rows: seq<Row>)
    requires DistinctIds(rows)
    ensures LastWins(rows) == rows
  {
    if rows == [] {
    } else {
      DistinctStay(rows[..|rows| - 1]);
      IndexOfFinds(rows[..|rows| - 1], rows[|rows| - 1].id);
    }
  }

  lemma {:induction false} ReadAllGives(lines: seq<string>, read: string -> Option<Row>, rows: seq<Row>)
    requires |lines| == |rows| && forall i :: 0 <= i < |rows| ==> read(lines[i]) == Some(rows[i])
    ensures ReadAll(lines, read) == rows
  {
    if rows == [] {
    } else {
      ReadAllGives(lines[..|lines| - 1], read, rows[..|rows| - 1]);
    }
  }

  lemma RowsComeBack(rows: seq<Row>, columns: Columns, d: char, bare: string -> bool, other: string -> Option<real>)
    requires forall i :: 0 <= i < |rows| ==> Storable(rows[i], columns)
    requires Headers(Names(columns)) && (d == ',' || d == '\t')
    ensures ReadAll(RowLines(rows, columns, d, bare), Reader(d, HeaderIndex(Names(columns)), columns, other)) == rows
  {
    var read := Reader(d, HeaderIndex(Names(columns)), columns, other);
    var lines := RowLines(rows, columns, d, bare);
    forall i | 0 <= i < |rows| ensures read(lines[i]) == Some(rows[i]) {
      RowComesBack(rows[i], columns, d, bare, other);
    }
    ReadAllGives(lines, read, rows);
  }

  lemma ParseShape(lines: seq<string>, columns: Columns, other: string -> Option<real>, d: char, names: seq<string>,
                   rows: seq<Row>)
    requires lines != [] && Delimiter(lines[0]) == d && LowerAll(Fields(lines[0], d)) == names
    requires "id" in HeaderIndex(names) && "product-name" in HeaderIndex(names)
    requires ReadAll(lines[1..], Reader(d, HeaderIndex(names), columns, other)) == rows
    requires |rows| == |lines| - 1 && LastWins(rows) == rows
    ensures ParseLines(lines, columns, other) == Ok(Parsed(rows, 0, GenreCounts(rows)))
  {
    if |lines| >= 2 {
      DataShape(lines[1..], Reader(d, HeaderIndex(names), columns, other), rows);
    }
  }

  lemma DataShape(data: seq<string>, read: string -> Option<Row>, rows: seq<Row>)
    requires ReadAll(data, read) == rows && |rows| == |data| && LastWins(rows) == rows
    ensures ParseData(data, read) == Parsed(rows, 0, GenreCounts(rows))
  {
  }

  lemma HeaderHas(columns: Columns)
    requires Headers(Names(columns))
    ensures "id" in HeaderIndex(Names(columns)) && "product-name" in HeaderIndex(Names(columns))
    ensures |Names(columns)| > 1 && !IsSpace(Names(columns)[0][0])
  {
    var names := Names(columns);
    assert HeaderName(names[0]) && HeaderName(names[2]);
    IndexOfNames(names, 0);
    IndexOfNames(names, 2);
    assert names[0] == "id" && names[2] == "product-name";
  }

  lemma {:induction false} RowsInked(rows: seq<Row>, columns: Columns, d: char, bare: string -> bool)
    requires forall i :: 0 <= i < |rows| ==> Storable(rows[i], columns)
    requires d == ',' || d == '\t'
    ensures forall i :: 0 <= i < |rows| ==> InkedLine(RowLines(rows, columns, d, bare)[i])
  {
    forall i | 0 <= i < |rows| ensures InkedLine(RowLines(rows, columns, d, bare)[i]) {
      RowLineFields(rows[i], columns, d, bare);
    }
  }

  lemma HeaderComesFirst(header: string, data: seq<string>)
    requires header != []
    ensures header <= JoinLines([header] + data)
  {
  }

  lemma FileLines(header: string, data: seq<string>)
    requires InkedLine(header) && header != [] && !IsSpace(header[0])
    requires forall i :: 0 <= i < |data| ==> InkedLine(data[i])
    ensures TextLines(JoinLines([header] + data)) == [header] + data
  {
    var lines := [header] + data;
    forall i | 0 <= i < |lines| ensures InkedLine(lines[i]) {
      assert i == 0 || lines[i] == data[i - 1];
    }
    LinesComeBack(lines);
    NoReturns(JoinLines(lines));
    HeaderComesFirst(header, data);
    assert DropBom(JoinLines(lines)) == JoinLines(lines);
  }

  /** Printing rows with distinct ids under a recognisable header and parsing the file gives the same rows. */
  lemma ParseUndoesPrint(rows: seq<Row>, columns: Columns, d: char, bare: string -> bool, other: string -> Option<real>)
    requires DistinctIds(rows) && forall i :: 0 <= i < |rows| ==> Storable(rows[i], columns)
    requires Headers(Names(columns)) && (d == ',' || d == '\t')
    ensures Parse(PrintFile(rows, columns, d, bare), columns, other) == Ok(Parsed(rows, 0, GenreCounts(rows)))
  {
    var names := Names(columns);
    var header, data := PrintLine(Bares(names), d), RowLines(rows, columns, d, bare);
    HeaderHas(columns);
    HeaderRecognised(names, d);
    RowsInked(rows, columns, d, bare);
    FileLines(header, data);
    RowsComeBack(rows, columns, d, bare, other);
    DistinctStay(rows);
    assert ([header] + data)[1..] == data;
    ParseShape([header] + data, columns, other, d, names, rows);
  }
}
