/**
 What the rows of a history import mean, cell by cell: which are accepted, with
 which cents, which reason a refused one gets, and which days there are.
 */
module ManualRows {
  import opened Wrappers
  import opened CsvCells
  import opened CellForms
  import opened ManualHistory

  // ---- Cells ------------------------------------------------------------------------------------------

  /** A cell is taken with exactly the cents its text decodes to, which must not be negative. */
  lemma CellIff(columns: set<string>, cell: (string, string), cents: int, other: string -> Option<real>)
    ensures CellCents(columns, cell, other) == Ok(Some(cents)) <==>
            cell.0 in columns && cell.1 != [] && !(Trim(cell.1) != [] && Trim(cell.1)[0] == '-') &&
            UsdToCents(cell.1, other) == Some(cents) && 0 <= cents
    ensures CellCents(columns, cell, other) == Ok(None) <==> cell.0 in columns && cell.1 == []
  {
  }

  lemma {:induction false} DressedHasNoDash(plain: string, text: string)
    requires Dressed(plain, text) && '-' !in plain
    ensures '-' !in text
  {
    if text == [] {
    } else if plain != [] && text[0] == plain[0] && Dressed(plain[1..], text[1..]) {
      DressedHasNoDash(plain[1..], text[1..]);
      assert plain[0] in plain;
    } else {
      DressedHasNoDash(plain, text[1..]);
      assert !IsSpace('-');
    }
  }

  lemma {:induction false} TrimIsInside(s: string)
    ensures forall c :: c in TrimStart(s) ==> c in s
    ensures forall c :: c in TrimEnd(s) ==> c in s
  {
    if s == [] {
    } else {
      if IsSpace(s[0]) {
        TrimIsInside(s[1..]);
      }
      if IsSpace(s[|s| - 1]) {
        TrimIsInside(s[..|s| - 1]);
      }
    }
  }

  /** An amount typed with dollar signs, commas and blanks is taken to the cent; a negative one never is. */
  lemma TypedAmount(columns: set<string>, key: string, cents: int, text: string, other: string -> Option<real>)
    requires key in columns && Dressed(PrintCents(cents), text) && cents <= 2_147_483_647
    ensures if cents >= 0 then CellCents(columns, (key, text), other) == Ok(Some(cents))
            else CellCents(columns, (key, text), other).Err?
  {
    DressedCents(cents, text, other);
    MoneyChars(cents);
    if cents >= 0 {
      MoneyHasNoDash(cents);
      DressedHasNoDash(PrintCents(cents), text);
      TrimIsInside(text);
      TrimIsInside(TrimStart(text));
    }
  }

  lemma MoneyHasNoDash(cents: nat)
    ensures '-' !in PrintMoney(cents)
  {
    DigitsRoundTrip(cents / 100);
  }

  // ---- A patch ------------------------------------------------------------------------------------------

  /** Cell `i` is the last filled one of its column. */
  predicate LastFilled(cells: seq<(string, string)>, c: string, i: nat) {
    i < |cells| && cells[i].0 == c && cells[i].1 != [] &&
    forall k :: i < k < |cells| && cells[k].0 == c ==> cells[k].1 == []
  }

  predicate Filled(cells: seq<(string, string)>, c: string) {
    exists i :: 0 <= i < |cells| && cells[i].0 == c && cells[i].1 != []
  }

  /** Cell `i` is the first that is not taken. */
  predicate FirstBadCell(columns: set<string>, cells: seq<(string, string)>, i: nat, other: string -> Option<real>) {
    i < |cells| && CellCents(columns, cells[i], other).Err? &&
    forall k :: 0 <= k < i ==> CellCents(columns, cells[k], other).Ok?
  }

  lemma {:induction false} PatchFails(columns: set<string>, cells: seq<(string, string)>, i: nat,
                                      other: string -> Option<real>)
    requires FirstBadCell(columns, cells, i, other)
    ensures PatchCells(columns, cells, other) == Err(CellCents(columns, cells[i], other).error)
  {
    PatchSucceeds(columns, cells[..i], other);
    assert cells[..i + 1][..i] == cells[..i];
    FirstErrorStays(columns, cells, i + 1, other);
  }

  lemma FilledOneMore(cells: seq<(string, string)>)
    requires cells != []
    ensures var front, last := cells[..|cells| - 1], cells[|cells| - 1];
            forall c :: Filled(cells, c) <==> Filled(front, c) || (last.0 == c && last.1 != [])
  {
    var front := cells[..|cells| - 1];
    forall c | Filled(front, c) ensures Filled(cells, c) {
      var i :| 0 <= i < |front| && front[i].0 == c && front[i].1 != [];
      assert cells[i] == front[i];
    }
  }

  lemma {:induction false} PatchSucceeds(columns: set<string>, cells: seq<(string, string)>,
                                         other: string -> Option<real>)
    requires forall k :: 0 <= k < |cells| ==> CellCents(columns, cells[k], other).Ok?
    ensures PatchCells(columns, cells, other).Ok?
    ensures forall c :: c in PatchCells(columns, cells, other).value <==> Filled(cells, c)
  {
    if cells == [] {
    } else {
      var front, last := cells[..|cells| - 1], cells[|cells| - 1];
      PatchSucceeds(columns, front, other);
      FilledOneMore(cells);
      assert CellCents(columns, last, other).Ok?;
      CellIff(columns, last, 0, other);
    }
  }

  /** A patch holds, per filled column, the cents its last filled cell decodes to. */
  lemma {:induction false} PatchHolds(columns: set<string>, cells: seq<(string, string)>, c: string, i: nat,
                                      other: string -> Option<real>)
    requires PatchCells(columns, cells, other).Ok? && LastFilled(cells, c, i)
    ensures c in PatchCells(columns, cells, other).value
    ensures UsdToCents(cells[i].1, other) == Some(PatchCells(columns, cells, other).value[c])
  {
    if i < |cells| - 1 {
      PatchHolds(columns, cells[..|cells| - 1], c, i, other);
    }
  }

  // ---- A row ----------------------------------------------------------------------------------------------

  predicate NumericId(row: Row) { Trim(row.productId) != [] && AllDigits(Trim(row.productId)) }

  predicate CellsTaken(columns: set<string>, row: Row, other: string -> Option<real>) {
    forall k :: 0 <= k < |row.cells| ==> CellCents(columns, row.cells[k], other).Ok?
  }

  predicate AnyFilled(row: Row) { exists k :: 0 <= k < |row.cells| && row.cells[k].1 != [] }

  lemma CellsDecide(columns: set<string>, row: Row, other: string -> Option<real>)
    ensures CellsTaken(columns, row, other) && AnyFilled(row) ==> Patch(columns, row.cells, other).Ok?
    ensures CellsTaken(columns, row, other) && !AnyFilled(row) ==> Patch(columns, row.cells, other) == Err(NoPrice)
    ensures forall i: nat :: FirstBadCell(columns, row.cells, i, other) ==>
              Patch(columns, row.cells, other) == Err(CellCents(columns, row.cells[i], other).error)
  {
    if CellsTaken(columns, row, other) {
      PatchSucceeds(columns, row.cells, other);
      var patch := PatchCells(columns, row.cells, other).value;
      if AnyFilled(row) {
        var k :| 0 <= k < |row.cells| && row.cells[k].1 != [];
        assert Filled(row.cells, row.cells[k].0) && row.cells[k].0 in patch;
      } else {
        assert forall c :: c !in patch;
        assert patch == map[];
      }
    }
    forall i: nat | FirstBadCell(columns, row.cells, i, other)
      ensures Patch(columns, row.cells, other) == Err(CellCents(columns, row.cells[i], other).error)
    {
      PatchFails(columns, row.cells, i, other);
    }
  }

  lemma {:induction false} FirstBadExists(columns: set<string>, cells: seq<(string, string)>,
                                          other: string -> Option<real>) returns (i: nat)
    requires exists k :: 0 <= k < |cells| && CellCents(columns, cells[k], other).Err?
    ensures FirstBadCell(columns, cells, i, other)
  {
    i := 0;
    while CellCents(columns, cells[i], other).Ok?
      invariant i < |cells| && forall k :: 0 <= k < i ==> CellCents(columns, cells[k], other).Ok?
      decreases |cells| - i
    {
      i := i + 1;
    }
  }

  /**
   A row is accepted exactly when its id is digits and in the catalog, its day is one
   of the calendar's, every cell is taken and one is filled. The reason of a refusal
   is the first of these checks that fails, in the order the code makes them.
   */
  lemma AcceptedIff(t: Tables, columns: set<string>, row: Row, other: string -> Option<real>)
    ensures Accept(t, columns, row, other).Ok? <==>
            NumericId(row) && IsIsoDay(row.observedOn) && CellsTaken(columns, row, other) && AnyFilled(row) &&
            Trim(row.productId) in t.products && CalendarDay(row.observedOn)
    ensures !NumericId(row) ==> Accept(t, columns, row, other) == Err(NotNumericId)
    ensures NumericId(row) && !IsIsoDay(row.observedOn) ==> Accept(t, columns, row, other) == Err(BadDay)
    ensures NumericId(row) && IsIsoDay(row.observedOn) ==>
              (forall i: nat :: FirstBadCell(columns, row.cells, i, other) ==>
                 Accept(t, columns, row, other) == Err(CellCents(columns, row.cells[i], other).error)) &&
              (CellsTaken(columns, row, other) ==>
                 Accept(t, columns, row, other) ==
                 if !AnyFilled(row) then Err(NoPrice)
                 else if Trim(row.productId) !in t.products then Err(NoProduct)
                 else if !CalendarDay(row.observedOn) then Err(NoSuchDay)
                 else Ok((Trim(row.productId), Patch(columns, row.cells, other).value)))
  {
    CellsDecide(columns, row, other);
    if !CellsTaken(columns, row, other) {
      var i := FirstBadExists(columns, row.cells, other);
    }
  }

  /** What an accepted row writes to a column of its own day: the cents its last filled cell decodes to. */
  lemma WrittenIs(t: Tables, columns: set<string>, row: Row, c: string, i: nat, other: string -> Option<real>)
    requires Accept(t, columns, row, other).Ok? && LastFilled(row.cells, c, i)
    ensures WrittenBy(t, columns, row, (Trim(row.productId), row.observedOn), c, other).Some?
    ensures UsdToCents(row.cells[i].1, other) ==
            WrittenBy(t, columns, row, (Trim(row.productId), row.observedOn), c, other)
  {
    PatchHolds(columns, row.cells, c, i, other);
  }

  /** It writes nothing else: no other day or product, no column it does not fill. */
  lemma NothingElseWritten(t: Tables, columns: set<string>, row: Row, key: Key, c: string,
                           other: string -> Option<real>)
    requires key != (Trim(row.productId), row.observedOn) || !Filled(row.cells, c)
    ensures WrittenBy(t, columns, row, key, c, other).None?
  {
    AcceptedIff(t, columns, row, other);
    if Accept(t, columns, row, other).Ok? {
      PatchSucceeds(columns, row.cells, other);
    }
  }

  // ---- The loose price and the report --------------------------------------------------------------------

  /** The cents row `row` sends to the catalog's loose price of a product. */
  function LooseBy(t: Tables, columns: set<string>, row: Row, id: string, other: string -> Option<real>): Option<int> {
    WrittenBy(t, columns, row, (id, row.observedOn), "loose_price_cents", other)
  }

  function LooseOf(t: Tables, id: string): Option<int> { if id in t.loose then Some(t.loose[id]) else None }

  lemma OneRowLoose(t: Tables, before: Tables, columns: set<string>, row: Row, sync: bool, id: string,
                    other: string -> Option<real>)
    requires before.products == t.products
    ensures LooseOf(Record(before, columns, row, sync, other), id) ==
            if sync && LooseBy(t, columns, row, id, other).Some? then LooseBy(t, columns, row, id, other)
            else LooseOf(before, id)
  {
    AcceptsAlike(t, before, columns, row, other);
  }

  /** When asked, the catalog's loose price is that of the last accepted row that fills it, else it stays. */
  lemma {:induction false} LooseFollowsLast(t: Tables, columns: set<string>, rows: seq<Row>, sync: bool, id: string,
                                            other: string -> Option<real>, k: nat)
    requires k <= |rows| && (k < |rows| ==> LooseBy(t, columns, rows[k], id, other).Some?)
    requires forall m :: (if k < |rows| then k < m else 0 <= m) && m < |rows| ==>
               LooseBy(t, columns, rows[m], id, other).None?
    ensures LooseOf(Import(t, columns, rows, sync, other), id) ==
            if sync && k < |rows| then LooseBy(t, columns, rows[k], id, other) else LooseOf(t, id)
    ensures !sync ==> Import(t, columns, rows, sync, other).loose == t.loose
  {
    if rows == [] {
    } else {
      var n := |rows| - 1;
      var before := Import(t, columns, rows[..n], sync, other);
      ProductsKept(t, columns, rows[..n], sync, other);
      OneRowLoose(t, before, columns, rows[n], sync, id, other);
      if k != n {
        LooseFollowsLast(t, columns, rows[..n], sync, id, other, if k == |rows| then n else k);
      } else if !sync {
        LooseUntouched(t, columns, rows[..n], other);
      }
    }
  }

  lemma {:induction false} LooseUntouched(t: Tables, columns: set<string>, rows: seq<Row>,
                                          other: string -> Option<real>)
    ensures Import(t, columns, rows, false, other).loose == t.loose
  {
    if rows == [] {
    } else {
      LooseUntouched(t, columns, rows[..|rows| - 1], other);
    }
  }

  function RowsWhere(rows: seq<Row>, taken: Row -> bool): set<int> {
    set i | 0 <= i < |rows| && taken(rows[i])
  }

  lemma WhereOneMore(rows: seq<Row>, taken: Row -> bool)
    requires rows != []
    ensures |RowsWhere(rows, taken)| ==
            |RowsWhere(rows[..|rows| - 1], taken)| + if taken(rows[|rows| - 1]) then 1 else 0
  {
    var n := |rows| - 1;
    var before := RowsWhere(rows[..n], taken);
    assert RowsWhere(rows, taken) == if taken(rows[n]) then before + {n} else before;
  }

  lemma AcceptedOneMore(t: Tables, columns: set<string>, rows: seq<Row>, taken: Row -> bool,
                        other: string -> Option<real>)
    requires rows != [] && (taken(rows[|rows| - 1]) <==> Accept(t, columns, rows[|rows| - 1], other).Ok?)
    ensures AcceptedRows(t, columns, rows, other) ==
            AcceptedRows(t, columns, rows[..|rows| - 1], other) + if taken(rows[|rows| - 1]) then 1 else 0
  {
  }

  lemma {:induction false} CountWhere(t: Tables, columns: set<string>, rows: seq<Row>, taken: Row -> bool,
                                      other: string -> Option<real>)
    requires forall row :: taken(row) <==> Accept(t, columns, row, other).Ok?
    ensures AcceptedRows(t, columns, rows, other) == |RowsWhere(rows, taken)|
  {
    if rows == [] {
    } else {
      CountWhere(t, columns, rows[..|rows| - 1], taken, other);
      WhereOneMore(rows, taken);
      AcceptedOneMore(t, columns, rows, taken, other);
    }
  }

  /** The report counts each accepted row once. */
  lemma EveryAcceptedCounts(t: Tables, columns: set<string>, rows: seq<Row>, other: string -> Option<real>)
    ensures AcceptedRows(t, columns, rows, other) ==
            |RowsWhere(rows, row => Accept(t, columns, row, other).Ok?)|
  {
    CountWhere(t, columns, rows, row => Accept(t, columns, row, other).Ok?, other);
  }

  /** The report on a row. */
  function Report(t: Tables, columns: set<string>, row: Row, other: string -> Option<real>): seq<Failure> {
    match Accept(t, columns, row, other)
    case Ok(_) => []
    case Err(e) => [Failure(row.line, row.productId, e)]
  }

  lemma FailuresOneMore(t: Tables, columns: set<string>, rows: seq<Row>, other: string -> Option<real>)
    requires rows != []
    ensures Failures(t, columns, rows, other) ==
            Failures(t, columns, rows[..|rows| - 1], other) + Report(t, columns, rows[|rows| - 1], other)
  {
  }

  function Reports(rows: seq<Row>, report: Row -> seq<Failure>): seq<Failure> {
    if rows == [] then [] else Reports(rows[..|rows| - 1], report) + report(rows[|rows| - 1])
  }

  lemma {:induction false} FailuresAreReports(t: Tables, columns: set<string>, rows: seq<Row>,
                                              report: Row -> seq<Failure>, other: string -> Option<real>)
    requires forall row :: report(row) == Report(t, columns, row, other)
    ensures Failures(t, columns, rows, other) == Reports(rows, report)
  {
    if rows == [] {
    } else {
      FailuresAreReports(t, columns, rows[..|rows| - 1], report, other);
      FailuresOneMore(t, columns, rows, other);
    }
  }

  lemma {:induction false} ReportsInOrder(rows: seq<Row>, report: Row -> seq<Failure>, i: nat)
    requires i < |rows|
    ensures Reports(rows[..i], report) + report(rows[i]) <= Reports(rows, report)
  {
    if i < |rows| - 1 {
      ReportsInOrder(rows[..|rows| - 1], report, i);
      assert rows[..|rows| - 1][..i] == rows[..i];
    }
  }

  /** Each refused row follows those refused before it in the report, with its line, its id as typed and its reason. */
  lemma EveryRefusalIsReported(t: Tables, columns: set<string>, rows: seq<Row>, i: nat, other: string -> Option<real>)
    requires i < |rows|
    ensures Failures(t, columns, rows[..i], other) + Report(t, columns, rows[i], other) <=
            Failures(t, columns, rows, other)
  {
    var report := row => Report(t, columns, row, other);
    FailuresAreReports(t, columns, rows, report, other);
    FailuresAreReports(t, columns, rows[..i], report, other);
    ReportsInOrder(rows, report, i);
  }

  // ---- The calendar ----------------------------------------------------------------------------------------

  /** Days of year `y` up to the end of month `m`. */
  function DaysTo(y: nat, m: nat): nat { if m == 0 then 0 else DaysTo(y, m - 1) + DaysIn(y, m) }

  /** Days before year `y` in the Gregorian calendar. */
  function DaysBefore(y: nat): int
    requires y >= 1
  {
    365 * (y - 1) + (y - 1) / 4 - (y - 1) / 100 + (y - 1) / 400
  }

  lemma Quarter(y: nat, m: nat)
    ensures DaysTo(y, m + 3) == DaysTo(y, m) + DaysIn(y, m + 1) + DaysIn(y, m + 2) + DaysIn(y, m + 3)
  {
    assert DaysTo(y, m + 1) == DaysTo(y, m) + DaysIn(y, m + 1);
    assert DaysTo(y, m + 2) == DaysTo(y, m + 1) + DaysIn(y, m + 2);
  }

  lemma LeapStep(y: nat)
    requires y >= 1
    ensures DaysBefore(y + 1) == DaysBefore(y) + if LeapYear(y) then 366 else 365
  {
    By4(y);
    By100(y);
    By400(y);
  }

  lemma By4(y: nat)
    requires y >= 1
    ensures y / 4 == (y - 1) / 4 + if y % 4 == 0 then 1 else 0
  {
  }

  lemma By100(y: nat)
    requires y >= 1
    ensures y / 100 == (y - 1) / 100 + if y % 100 == 0 then 1 else 0
    ensures y % 100 == 0 ==> y % 4 == 0
  {
  }

  lemma By400(y: nat)
    requires y >= 1
    ensures y / 400 == (y - 1) / 400 + if y % 400 == 0 then 1 else 0
    ensures y % 400 == 0 ==> y % 100 == 0
  {
  }

  /** The twelve months of every year fill exactly its days, leap days included. */
  lemma MonthsFillTheYear(y: nat)
    requires y >= 1
    ensures DaysBefore(y + 1) == DaysBefore(y) + DaysTo(y, 12)
    ensures forall m :: 1 <= m <= 12 && m != 2 ==> DaysIn(y, m) == 30 + (m + m / 8) % 2
  {
    LeapStep(y);
    Quarter(y, 0);
    Quarter(y, 3);
    Quarter(y, 6);
    Quarter(y, 9);
  }

  function Two(n: nat): string
    requires n < 100
  {
    [Digit(n / 10), Digit(n % 10)]
  }

  function DayText(y: nat, m: nat, d: nat): string
    requires y < 10000 && m < 100 && d < 100
  {
    Two(y / 100) + Two(y % 100) + "-" + Two(m) + "-" + Two(d)
  }

  lemma FourDigits(y: nat)
    requires y < 10000
    ensures AllDigits(Two(y / 100) + Two(y % 100)) && DigitsValue(Two(y / 100) + Two(y % 100)) == y
  {
    var s := Two(y / 100) + Two(y % 100);
    TwoDigits(y / 100 / 10, y / 100 % 10);
    assert s[..3][..2] == Two(y / 100) && s[..3] == Two(y / 100) + [Digit(y % 100 / 10)];
  }

  /** A day is taken exactly when its text names a day of the calendar, from year 1. */
  lemma DayIsTakenIff(y: nat, m: nat, d: nat)
    requires y < 10000 && m < 100 && d < 100
    ensures IsIsoDay(DayText(y, m, d)) &&
            (CalendarDay(DayText(y, m, d)) <==>
               y >= 1 && 1 <= m <= 12 && 1 <= d && DaysTo(y, m - 1) + d <= DaysTo(y, m))
  {
    var s := DayText(y, m, d);
    FourDigits(y);
    TwoDigits(m / 10, m % 10);
    TwoDigits(d / 10, d % 10);
    assert s[..4] == Two(y / 100) + Two(y % 100) && s[5..7] == Two(m) && s[8..] == Two(d);
  }
}
