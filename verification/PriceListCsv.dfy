/** The price-list file parser: header, delimiter, rows by id with the last row winning, genre counts. */
module PriceListCsv {
  import opened Wrappers
  import opened CsvSplit
  import opened CsvCells

  datatype Row = Row(id: string, consoleName: string, productName: string, prices: map<string, Option<int>>,
                     upc: Option<string>, salesVolume: Option<int>, genre: Option<string>, tcgId: Option<string>,
                     asin: Option<string>, epid: Option<string>, releaseDate: Option<string>)

  /** Price header and the cents column it fills. */
  type Columns = seq<(string, string)>

  datatype Parsed = Parsed(rows: seq<Row>, skipped: nat, genres: map<string, nat>)

  datatype ParseError = MissingHeader

  // ---- Text to lines --------------------------------------------------------------

  function DropBom(text: string): string {
    if text != [] && text[0] == '\U{FEFF}' then text[1..] else text
  }

  /** CRLF and lone CR become LF. */
  function UnixBreaks(s: string): string {
    if s == [] then []
    else if s[0] == '\r' then
      ['\n'] + UnixBreaks(if |s| > 1 && s[1] == '\n' then s[2..] else s[1..])
    else [s[0]] + UnixBreaks(s[1..])
  }

  function SplitLines(s: string, cur: string): seq<string> {
    if s == [] then [cur]
    else if s[0] == '\n' then [cur] + SplitLines(s[1..], [])
    else SplitLines(s[1..], cur + [s[0]])
  }

  function NonBlank(lines: seq<string>): seq<string> {
    if lines == [] then []
    else (if Trim(lines[0]) != [] then [lines[0]] else []) + NonBlank(lines[1..])
  }

  function TextLines(text: string): seq<string> {
    NonBlank(SplitLines(UnixBreaks(DropBom(text)), []))
  }

  // ---- Header ---------------------------------------------------------------------

  /** Commas outside quotes. */
  function Commas(s: string, q: bool): nat {
    if s == [] then 0
    else if s[0] == QUOTE then Commas(s[1..], !q)
    else (if s[0] == ',' && !q then 1 else 0) + Commas(s[1..], q)
  }

  function Delimiter(header: string): char {
    if Count(header, '\t') + 1 > Commas(header, false) + 1 then '\t' else ','
  }

  method DetectDelimiter(headerLine: string) returns (d: char)
    ensures d == Delimiter(headerLine)
  {
    var tabs, commas, inQuotes := 1, 0, false;
    for i := 0 to |headerLine|
      invariant tabs + Count(headerLine[i..], '\t') == Count(headerLine, '\t') + 1
      invariant commas + Commas(headerLine[i..], inQuotes) == Commas(headerLine, false)
    {
      assert headerLine[i..][1..] == headerLine[i + 1..];
      if headerLine[i] == '\t' {
        tabs := tabs + 1;
      }
      if headerLine[i] == QUOTE {
        inQuotes := !inQuotes;
      } else if headerLine[i] == ',' && !inQuotes {
        commas := commas + 1;
      }
    }
    d := if tabs > commas + 1 then '\t' else ',';
  }

  /** The characters `c` from position `k` on. */
  function Positions(s: string, c: char, k: nat): set<int> { set i | k <= i < |s| && s[i] == c }

  /** The commas from position `k` on that have an even number of quotes before them. */
  function BareCommas(s: string, k: nat): set<int> {
    set i | k <= i < |s| && s[i] == ',' && Count(s[..i], QUOTE) % 2 == 0
  }

  lemma {:induction false} CountIsPositions(s: string, c: char, k: nat)
    requires k <= |s|
    ensures Count(s[k..], c) == |Positions(s, c, k)|
    decreases |s| - k
  {
    if k < |s| {
      CountIsPositions(s, c, k + 1);
      assert s[k..][1..] == s[k + 1..];
      assert Positions(s, c, k) == if s[k] == c then Positions(s, c, k + 1) + {k} else Positions(s, c, k + 1);
    } else {
      assert Positions(s, c, k) == {};
    }
  }

  lemma QuotesStep(s: string, k: nat)
    requires k < |s|
    ensures Count(s[..k + 1], QUOTE) == Count(s[..k], QUOTE) + if s[k] == QUOTE then 1 else 0
  {
    CountJoins(s[..k], [s[k]], QUOTE);
    assert s[..k + 1] == s[..k] + [s[k]];
    assert [s[k]][1..] == "" && Count("", QUOTE) == 0;
  }

  lemma BareCommasStep(s: string, k: nat)
    requires k < |s|
    ensures |BareCommas(s, k)| ==
            |BareCommas(s, k + 1)| + if s[k] == ',' && Count(s[..k], QUOTE) % 2 == 0 then 1 else 0
  {
    var later := BareCommas(s, k + 1);
    assert BareCommas(s, k) == if s[k] == ',' && Count(s[..k], QUOTE) % 2 == 0 then later + {k} else later;
  }

  lemma {:induction false} CommasAreBare(s: string, k: nat, q: bool)
    requires k <= |s| && (q <==> Count(s[..k], QUOTE) % 2 == 1)
    ensures Commas(s[k..], q) == |BareCommas(s, k)|
    decreases |s| - k
  {
    if k < |s| {
      QuotesStep(s, k);
      BareCommasStep(s, k);
      assert s[k..][1..] == s[k + 1..];
      CommasAreBare(s, k + 1, if s[k] == QUOTE then !q else q);
    } else {
      assert BareCommas(s, k) == {};
    }
  }

  /** The file is read as tab-separated exactly when its header has more tabs than commas outside quotes. */
  lemma TabIff(header: string)
    ensures Delimiter(header) == '\t' <==> |Positions(header, '\t', 0)| > |BareCommas(header, 0)|
    ensures Delimiter(header) != '\t' ==> Delimiter(header) == ','
  {
    CountIsPositions(header, '\t', 0);
    CommasAreBare(header, 0, false);
    assert header[0..] == header && header[..0] == "" && Count("", QUOTE) == 0;
  }

  function LowerAll(cells: seq<string>): seq<string> {
    if cells == [] then [] else [Lower(Trim(cells[0]))] + LowerAll(cells[1..])
  }

  /** Header name to column position; a repeated name keeps its last position, blanks are ignored. */
  function HeaderIndex(names: seq<string>): map<string, nat> {
    if names == [] then map[]
    else
      var before := HeaderIndex(names[..|names| - 1]);
      if names[|names| - 1] != [] then before[names[|names| - 1] := |names| - 1] else before
  }

  // ---- Rows -----------------------------------------------------------------------

  function CellAt(cols: seq<string>, index: map<string, nat>, header: string): string {
    if header in index && index[header] < |cols| then cols[index[header]] else []
  }

  function Prices(cols: seq<string>, index: map<string, nat>, columns: Columns, other: string -> Option<real>)
    : map<string, Option<int>>
  {
    if columns == [] then map[]
    else
      var (header, column) := columns[|columns| - 1];
      Prices(cols, index, columns[..|columns| - 1], other)[column := UsdToCents(CellAt(cols, index, header), other)]
  }

  function BuildRow(cols: seq<string>, index: map<string, nat>, columns: Columns, other: string -> Option<real>): Row {
    Row(Trim(CellAt(cols, index, "id")),
        Trim(CellAt(cols, index, "console-name")),
        Trim(CellAt(cols, index, "product-name")),
        Prices(cols, index, columns, other),
        BlankToNull(CellAt(cols, index, "upc")),
        IntOrNull(CellAt(cols, index, "sales-volume"), other),
        BlankToNull(CellAt(cols, index, "genre")),
        BlankToNull(CellAt(cols, index, "tcg-id")),
        BlankToNull(CellAt(cols, index, "asin")),
        BlankToNull(CellAt(cols, index, "epid")),
        DateOrNull(CellAt(cols, index, "release-date")))
  }

  /** A data line is valid when its id cell is all digits. */
  function ReadLine(line: string, d: char, index: map<string, nat>, columns: Columns, other: string -> Option<real>)
    : Option<Row>
  {
    var cols := Fields(line, d);
    var id := Trim(CellAt(cols, index, "id"));
    if id != [] && AllDigits(id) then Some(BuildRow(cols, index, columns, other)) else None
  }

  function Reader(d: char, index: map<string, nat>, columns: Columns, other: string -> Option<real>)
    : string -> Option<Row>
  {
    line => ReadLine(line, d, index, columns, other)
  }

  /** The valid rows of the data lines, in file order. */
  function ReadAll(lines: seq<string>, read: string -> Option<Row>): (valid: seq<Row>)
    ensures |valid| <= |lines|
  {
    if lines == [] then []
    else
      var before := ReadAll(lines[..|lines| - 1], read);
      match read(lines[|lines| - 1])
      case Some(row) => before + [row]
      case None => before
  }

  // ---- Last row wins ----------------------------------------------------------------

  function IndexOf(rows: seq<Row>, id: string): Option<nat> {
    if rows == [] then None
    else if rows[|rows| - 1].id == id then Some(|rows| - 1)
    else IndexOf(rows[..|rows| - 1], id)
  }

  function Put(rows: seq<Row>, row: Row): seq<Row> {
    match IndexOf(rows, row.id)
    case Some(i) => if i < |rows| then rows[i := row] else rows
    case None => rows + [row]
  }

  function LastWins(valid: seq<Row>): seq<Row> {
    if valid == [] then [] else Put(LastWins(valid[..|valid| - 1]), valid[|valid| - 1])
  }

  function GenreOf(row: Row): string {
    if row.genre.Some? then row.genre.value else "(blank)"
  }

  function GenreCounts(rows: seq<Row>): map<string, nat> {
    if rows == [] then map[]
    else
      var before, g := GenreCounts(rows[..|rows| - 1]), GenreOf(rows[|rows| - 1]);
      before[g := 1 + if g in before then before[g] else 0]
  }

  function Parse(text: string, columns: Columns, other: string -> Option<real>): Result<Parsed, ParseError> {
    ParseLines(TextLines(text), columns, other)
  }

  function ParseLines(lines: seq<string>, columns: Columns, other: string -> Option<real>): Result<Parsed, ParseError> {
    if |lines| < 2 then Ok(Parsed([], 0, map[]))
    else
      var d := Delimiter(lines[0]);
      var index := HeaderIndex(LowerAll(Fields(lines[0], d)));
      if "id" !in index || "product-name" !in index then Err(MissingHeader)
      else Ok(ParseData(lines[1..], Reader(d, index, columns, other)))
  }

  function ParseData(lines: seq<string>, read: string -> Option<Row>): Parsed {
    var valid := ReadAll(lines, read);
    Parsed(LastWins(valid), |lines| - |valid|, GenreCounts(LastWins(valid)))
  }

  ghost predicate DistinctIds(rows: seq<Row>) {
    forall i, j :: 0 <= i < j < |rows| ==> rows[i].id != rows[j].id
  }

  lemma {:induction false} IndexOfFinds(rows: seq<Row>, id: string)
    ensures IndexOf(rows, id).None? <==> forall i :: 0 <= i < |rows| ==> rows[i].id != id
    ensures IndexOf(rows, id).Some? ==> IndexOf(rows, id).value < |rows| && rows[IndexOf(rows, id).value].id == id
  {
    if rows == [] {
    } else {
      IndexOfFinds(rows[..|rows| - 1], id);
    }
  }

  // ---- The parser's loops -------------------------------------------------------------

  /** An insertion-ordered map: `order` holds the keys, `byId` their values. */
  ghost predicate Keyed(order: seq<string>, byId: map<string, Row>) {
    (forall i, j :: 0 <= i < j < |order| ==> order[i] != order[j]) &&
    (forall id :: id in byId <==> id in order) &&
    (forall id :: id in byId ==> byId[id].id == id)
  }

  function Values(order: seq<string>, byId: map<string, Row>): seq<Row>
    requires forall id :: id in order ==> id in byId
  {
    seq(|order|, i requires 0 <= i < |order| => byId[order[i]])
  }

  lemma PutIsSet(order: seq<string>, byId: map<string, Row>, row: Row)
    requires Keyed(order, byId)
    ensures var more := if row.id in byId then order else order + [row.id];
            Keyed(more, byId[row.id := row]) && Values(more, byId[row.id := row]) == Put(Values(order, byId), row)
  {
    var rows := Values(order, byId);
    IndexOfFinds(rows, row.id);
    var more := if row.id in byId then order else order + [row.id];
    assert Keyed(more, byId[row.id := row]);
    if row.id in byId {
      var k :| 0 <= k < |order| && order[k] == row.id;
      assert rows[k].id == row.id;
    }
    assert Values(more, byId[row.id := row]) == Put(rows, row);
  }

  method ReadData(lines: seq<string>, read: string -> Option<Row>) returns (parsed: Parsed)
    ensures parsed == ParseData(lines, read)
  {
    var rows, skipped := ReadRows(lines, read);
    var genres := CountGenres(rows);
    parsed := Parsed(rows, skipped, genres);
  }

  lemma ReadOneMore(lines: seq<string>, li: nat, read: string -> Option<Row>)
    requires li < |lines|
    ensures ReadAll(lines[..li + 1], read) ==
            match read(lines[li])
            case Some(row) => ReadAll(lines[..li], read) + [row]
            case None => ReadAll(lines[..li], read)
  {
    assert lines[..li + 1][..li] == lines[..li];
  }

  lemma LastWinsOfMore(before: seq<Row>, row: Row)
    ensures LastWins(before + [row]) == Put(LastWins(before), row)
  {
    assert (before + [row])[..|before|] == before;
  }

  method ReadRows(lines: seq<string>, read: string -> Option<Row>) returns (rows: seq<Row>, skipped: nat)
    ensures rows == LastWins(ReadAll(lines, read))
    ensures skipped + |ReadAll(lines, read)| == |lines|
  {
    var order: seq<string>, byId: map<string, Row> := [], map[];
    skipped := 0;
    for li := 0 to |lines|
      invariant Keyed(order, byId)
      invariant Values(order, byId) == LastWins(ReadAll(lines[..li], read))
      invariant skipped + |ReadAll(lines[..li], read)| == li
    {
      ReadOneMore(lines, li, read);
      match read(lines[li])
      case None =>
        skipped := skipped + 1;
      case Some(row) =>
        LastWinsOfMore(ReadAll(lines[..li], read), row);
        PutIsSet(order, byId, row);
        order := if row.id in byId then order else order + [row.id];
        byId := byId[row.id := row];
    }
    assert lines[..|lines|] == lines;
    rows := Values(order, byId);
  }

  method CountGenres(rows: seq<Row>) returns (genres: map<string, nat>)
    ensures genres == GenreCounts(rows)
  {
    genres := map[];
    for i := 0 to |rows|
      invariant genres == GenreCounts(rows[..i])
    {
      assert rows[..i + 1][..i] == rows[..i];
      var key := GenreOf(rows[i]);
      genres := genres[key := (if key in genres then genres[key] else 0) + 1];
    }
    assert rows[..|rows|] == rows;
  }

  method ParsePricechartingCsv(text: string, columns: Columns, other: string -> Option<real>)
    returns (r: Result<Parsed, ParseError>)
    ensures r == Parse(text, columns, other)
  {
    var lines := TextLines(text);
    if |lines| < 2 {
      return Ok(Parsed([], 0, map[]));
    }
    var d := DetectDelimiter(lines[0]);
    var header := SplitDelimitedLine(lines[0], d);
    var index := IndexHeaders(LowerAll(header));
    if "id" !in index || "product-name" !in index {
      return Err(MissingHeader);
    }
    var parsed := ReadData(lines[1..], Reader(d, index, columns, other));
    r := Ok(parsed);
  }

  method IndexHeaders(names: seq<string>) returns (index: map<string, nat>)
    ensures index == HeaderIndex(names)
  {
    index := map[];
    for i := 0 to |names|
      invariant index == HeaderIndex(names[..i])
    {
      assert names[..i + 1][..i] == names[..i];
      if names[i] != [] {
        index := index[names[i] := i];
      }
    }
    assert names[..|names|] == names;
  }

  // ---- What last-row-wins means --------------------------------------------------------

  /** Row `r` is the last of `valid` with its id. */
  ghost predicate IsLastRow(valid: seq<Row>, r: Row) {
    exists k :: 0 <= k < |valid| && valid[k] == r && forall m :: k < m < |valid| ==> valid[m].id != r.id
  }

  /** Position of the first valid line with an id. */
  function FirstAt(valid: seq<Row>, id: string): nat {
    if valid == [] || valid[0].id == id then 0 else 1 + FirstAt(valid[1..], id)
  }

  lemma {:induction false} FirstAtStep(valid: seq<Row>, last: Row, id: string)
    ensures FirstAt(valid, id) <= |valid|
    ensures FirstAt(valid, id) < |valid| <==> exists k :: 0 <= k < |valid| && valid[k].id == id
    ensures FirstAt(valid, id) < |valid| ==> FirstAt(valid + [last], id) == FirstAt(valid, id)
    ensures FirstAt(valid, id) == |valid| && last.id == id ==> FirstAt(valid + [last], id) == |valid|
  {
    if valid == [] {
    } else if valid[0].id != id {
      assert (valid + [last])[1..] == valid[1..] + [last];
      FirstAtStep(valid[1..], last, id);
      if k :| 0 <= k < |valid| && valid[k].id == id {
        assert valid[1..][k - 1].id == id;
      }
      if k :| 0 <= k < |valid[1..]| && valid[1..][k].id == id {
        assert valid[k + 1].id == id;
      }
    }
  }

  lemma PutMembers(rows: seq<Row>, row: Row)
    requires DistinctIds(rows)
    ensures DistinctIds(Put(rows, row))
    ensures forall r :: r in Put(rows, row) ==> r == row || (r in rows && r.id != row.id)
  {
    IndexOfFinds(rows, row.id);
  }

  /** Distinct ids, and each row is the last valid line with its id. */
  lemma {:induction false} LastRowWins(valid: seq<Row>)
    ensures DistinctIds(LastWins(valid))
    ensures forall r :: r in LastWins(valid) ==> IsLastRow(valid, r)
  {
    if valid == [] {
    } else {
      var n := |valid| - 1;
      var front, row := valid[..n], valid[n];
      var before := LastWins(front);
      LastRowWins(front);
      PutMembers(before, row);
      forall r | r in LastWins(valid) ensures IsLastRow(valid, r) {
        if r == row {
          assert valid[n] == r;
        } else {
          assert r in before && IsLastRow(front, r) && r.id != row.id;
          LastRowStays(front, row, r);
          assert valid == front + [row];
        }
      }
    }
  }

  lemma LastRowStays(front: seq<Row>, row: Row, r: Row)
    requires IsLastRow(front, r) && r.id != row.id
    ensures IsLastRow(front + [row], r)
  {
    var k :| 0 <= k < |front| && front[k] == r && forall m :: k < m < |front| ==> front[m].id != r.id;
    assert (front + [row])[k] == r;
  }

  /** Putting a row keeps the ids in place, and may add its own at the end. */
  lemma PutKeepsIds(rows: seq<Row>, row: Row)
    ensures |Put(rows, row)| == |rows| + if IndexOf(rows, row.id).None? then 1 else 0
    ensures forall i :: 0 <= i < |rows| ==> Put(rows, row)[i].id == rows[i].id
    ensures IndexOf(rows, row.id).None? ==> Put(rows, row)[|rows|].id == row.id
  {
    IndexOfFinds(rows, row.id);
  }

  /** Every id of the file is kept. */
  lemma {:induction false} EveryIdKept(valid: seq<Row>, k: nat)
    requires k < |valid|
    ensures exists i :: 0 <= i < |LastWins(valid)| && LastWins(valid)[i].id == valid[k].id
  {
    var n := |valid| - 1;
    var before, row := LastWins(valid[..n]), valid[n];
    PutKeepsIds(before, row);
    if k < n {
      EveryIdKept(valid[..n], k);
      var i :| 0 <= i < |before| && before[i].id == valid[..n][k].id;
      assert LastWins(valid)[i].id == valid[k].id;
    } else {
      IndexOfFinds(before, row.id);
      var at := if IndexOf(before, row.id).Some? then IndexOf(before, row.id).value else |before|;
      assert LastWins(valid)[at].id == row.id;
    }
  }

  lemma KeptIdIsThere(valid: seq<Row>, i: nat)
    requires i < |LastWins(valid)|
    ensures FirstAt(valid, LastWins(valid)[i].id) < |valid|
  {
    var r := LastWins(valid)[i];
    LastRowWins(valid);
    assert r in LastWins(valid) && IsLastRow(valid, r);
    FirstAtStep(valid, r, r.id);
  }

  lemma NewIdIsNew(valid: seq<Row>, id: string)
    requires IndexOf(LastWins(valid), id).None?
    ensures FirstAt(valid, id) == |valid|
  {
    IndexOfFinds(LastWins(valid), id);
    forall k | 0 <= k < |valid| ensures valid[k].id != id {
      EveryIdKept(valid, k);
    }
    if valid != [] {
      FirstAtStep(valid, valid[0], id);
    }
  }

  /** Rows come in the order their ids first appear. */
  lemma {:induction false} FirstAppearanceOrder(valid: seq<Row>, i: nat, j: nat)
    requires i < j < |LastWins(valid)|
    ensures FirstAt(valid, LastWins(valid)[i].id) < FirstAt(valid, LastWins(valid)[j].id)
  {
    var front, row := valid[..|valid| - 1], valid[|valid| - 1];
    var before := LastWins(front);
    assert valid == front + [row];
    PutKeepsIds(before, row);
    KeptIdIsThere(front, i);
    FirstAtStep(front, row, before[i].id);
    if j < |before| {
      FirstAppearanceOrder(front, i, j);
      KeptIdIsThere(front, j);
      FirstAtStep(front, row, before[j].id);
    } else {
      NewIdIsNew(front, row.id);
      FirstAtStep(front, row, row.id);
    }
  }

  function CountGenre(rows: seq<Row>, g: string): nat {
    if rows == [] then 0 else CountGenre(rows[..|rows| - 1], g) + if GenreOf(rows[|rows| - 1]) == g then 1 else 0
  }

  ghost function Total(counts: map<string, nat>, keys: set<string>): nat
    requires keys <= counts.Keys
  {
    if keys == {} then 0 else var k :| k in keys; counts[k] + Total(counts, keys - {k})
  }

  lemma {:induction false} TotalPick(counts: map<string, nat>, keys: set<string>, k: string)
    requires keys <= counts.Keys && k in keys
    ensures Total(counts, keys) == counts[k] + Total(counts, keys - {k})
    decreases |keys|
  {
    var x :| x in keys && Total(counts, keys) == counts[x] + Total(counts, keys - {x});
    if x != k {
      TotalPick(counts, keys - {x}, k);
      TotalPick(counts, keys - {k}, x);
      assert keys - {x} - {k} == keys - {k} - {x};
    }
  }

  lemma {:induction false} TotalAgrees(a: map<string, nat>, b: map<string, nat>, keys: set<string>)
    requires keys <= a.Keys && keys <= b.Keys && forall k :: k in keys ==> a[k] == b[k]
    ensures Total(a, keys) == Total(b, keys)
    decreases |keys|
  {
    if keys != {} {
      var k :| k in keys;
      TotalPick(a, keys, k);
      TotalPick(b, keys, k);
      TotalAgrees(a, b, keys - {k});
    }
  }

  /** Each genre's count is its number of rows, and the counts sum to the row count. */
  lemma {:induction false} GenresSumToRows(rows: seq<Row>)
    ensures forall g :: (g in GenreCounts(rows) <==> CountGenre(rows, g) > 0) &&
                        (g in GenreCounts(rows) ==> GenreCounts(rows)[g] == CountGenre(rows, g))
    ensures Total(GenreCounts(rows), GenreCounts(rows).Keys) == |rows|
  {
    if rows == [] {
    } else {
      var front, g := rows[..|rows| - 1], GenreOf(rows[|rows| - 1]);
      var before, after := GenreCounts(front), GenreCounts(rows);
      GenresSumToRows(front);
      TotalPick(after, after.Keys, g);
      TotalAgrees(before, after, after.Keys - {g});
      if g in before {
        TotalPick(before, before.Keys, g);
        assert after.Keys - {g} == before.Keys - {g};
      } else {
        assert after.Keys - {g} == before.Keys;
      }
    }
  }
}
