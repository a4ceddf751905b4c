/**
 Admin price history: dollar cells become a patch of cents, a patch is merged
 into the stored day, and a bulk file is a fold over its rows. `columns` is the
 set of price columns; the tables are maps.
 */
module ManualHistory {
  import opened Wrappers
  import opened CsvCells

  type Prices = map<string, Option<int>>

  type Key = (string, string)

  /** Stored days by (product, day), and the catalog's current loose price by product. */
  datatype Tables = Tables(products: set<string>, history: map<Key, Prices>, loose: map<string, int>)

  datatype Row = Row(line: nat, productId: string, observedOn: string, cells: seq<(string, string)>)

  datatype RowError =
    | NotNumericId | BadDay | UnknownColumn | Negative | NotAPrice | NoPrice | NoProduct | NoSuchDay

  const LOOSE := "loose_price_cents"

  /** One cell: skipped when blank, refused when unknown, negative or not a price. */
  function CellCents(columns: set<string>, cell: (string, string), other: string -> Option<real>)
    : Result<Option<int>, RowError>
  {
    var (key, text) := cell;
    if key !in columns then Err(UnknownColumn)
    else if text == [] then Ok(None)
    else if Trim(text) != [] && Trim(text)[0] == '-' then Err(Negative)
    else
      var cents := UsdToCents(text, other);
      if cents.None? || cents.value < 0 then Err(NotAPrice) else Ok(cents)
  }

  function PatchCells(columns: set<string>, cells: seq<(string, string)>, other: string -> Option<real>)
    : Result<map<string, int>, RowError>
  {
    if cells == [] then Ok(map[])
    else
      match PatchCells(columns, cells[..|cells| - 1], other)
      case Err(e) => Err(e)
      case Ok(patch) =>
        match CellCents(columns, cells[|cells| - 1], other)
        case Err(e) => Err(e)
        case Ok(None) => Ok(patch)
        case Ok(Some(cents)) => Ok(patch[cells[|cells| - 1].0 := cents])
  }

  /** The whole patch: at least one price is required. */
  function Patch(columns: set<string>, cells: seq<(string, string)>, other: string -> Option<real>)
    : Result<map<string, int>, RowError>
  {
    match PatchCells(columns, cells, other)
    case Err(e) => Err(e)
    case Ok(patch) => if |patch| == 0 then Err(NoPrice) else Ok(patch)
  }

  method ManualHistoryPricePatch(columns: set<string>, cells: seq<(string, string)>, other: string -> Option<real>)
    returns (r: Result<map<string, int>, RowError>)
    ensures r == Patch(columns, cells, other)
  {
    var patch: map<string, int> := map[];
    for i := 0 to |cells|
      invariant PatchCells(columns, cells[..i], other) == Ok(patch)
    {
      assert cells[..i + 1][..i] == cells[..i];
      var cents := CellCents(columns, cells[i], other);
      match cents
      case Err(e) =>
        FirstErrorStays(columns, cells, i + 1, other);
        return Err(e);
      case Ok(None) =>
      case Ok(Some(c)) => patch := patch[cells[i].0 := c];
    }
    assert cells[..|cells|] == cells;
    if |patch| == 0 {
      return Err(NoPrice);
    }
    r := Ok(patch);
  }

  lemma {:induction false} FirstErrorStays(columns: set<string>, cells: seq<(string, string)>, n: nat,
                                           other: string -> Option<real>)
    requires n <= |cells| && PatchCells(columns, cells[..n], other).Err?
    ensures PatchCells(columns, cells, other) == PatchCells(columns, cells[..n], other)
    decreases |cells|
  {
    if n == |cells| {
      assert cells[..n] == cells;
    } else {
      assert cells[..|cells| - 1][..n] == cells[..n];
      FirstErrorStays(columns, cells[..|cells| - 1], n, other);
    }
  }

  lemma {:induction false} PatchInColumns(columns: set<string>, cells: seq<(string, string)>,
                                          other: string -> Option<real>)
    requires PatchCells(columns, cells, other).Ok?
    ensures PatchCells(columns, cells, other).value.Keys <= columns
    ensures forall c :: c in PatchCells(columns, cells, other).value ==> PatchCells(columns, cells, other).value[c] >= 0
  {
    if cells == [] {
    } else {
      PatchInColumns(columns, cells[..|cells| - 1], other);
    }
  }

  // ---- Merging one day ----------------------------------------------------------------

  function Prior(existing: Option<Prices>, c: string): Option<int> {
    if existing.Some? && c in existing.value then existing.value[c] else None
  }

  function Merge(columns: set<string>, existing: Option<Prices>, patch: map<string, int>): Prices {
    map c | c in columns + patch.Keys :: if c in patch then Some(patch[c]) else Prior(existing, c)
  }

  function ColumnSet(columns: seq<string>): set<string> { set c | c in columns }

  /** The first loop: every column, at its stored value or none. */
  method PriorDay(columns: seq<string>, existing: Option<Prices>) returns (next: Prices)
    ensures next == Merge(ColumnSet(columns), existing, map[])
  {
    next := map[];
    for i := 0 to |columns|
      invariant next == map c | c in columns[..i] :: Prior(existing, c)
    {
      next := next[columns[i] := Prior(existing, columns[i])];
    }
    assert columns[..|columns|] == columns;
  }

  method MergeManualHistoryPrices(columns: seq<string>, existing: Option<Prices>, patch: seq<(string, int)>)
    returns (r: Result<Prices, RowError>)
    ensures var keys := ColumnSet(columns);
            if forall p :: p in patch ==> p.0 in keys then r == Ok(Merge(keys, existing, AsPatch(patch)))
            else r == Err(UnknownColumn)
  {
    var next := PriorDay(columns, existing);
    for i := 0 to |patch|
      invariant forall p :: p in patch[..i] ==> p.0 in columns
      invariant next == Merge(ColumnSet(columns), existing, AsPatch(patch[..i]))
    {
      assert patch[..i + 1][..i] == patch[..i];
      if patch[i].0 !in columns {
        assert patch[i] in patch;
        return Err(UnknownColumn);
      }
      next := next[patch[i].0 := Some(patch[i].1)];
    }
    assert patch[..|patch|] == patch;
    r := Ok(next);
  }

  function AsPatch(entries: seq<(string, int)>): map<string, int> {
    if entries == [] then map[]
    else
      var last := entries[|entries| - 1];
      AsPatch(entries[..|entries| - 1])[last.0 := last.1]
  }

  /** Two merges are one merge of the combined patch, and the keys are always the full column set. */
  lemma MergeTwice(columns: set<string>, existing: Option<Prices>, p: map<string, int>, q: map<string, int>)
    requires p.Keys <= columns && q.Keys <= columns
    ensures Merge(columns, Some(Merge(columns, existing, p)), q) == Merge(columns, existing, p + q)
    ensures Merge(columns, existing, p).Keys == columns
  {
  }

  // ---- One row, and a file of them --------------------------------------------------------

  predicate LeapYear(y: nat) { y % 4 == 0 && (y % 100 != 0 || y % 400 == 0) }

  function DaysIn(y: nat, m: nat): nat {
    if m == 2 then if LeapYear(y) then 29 else 28
    else if m in {4, 6, 9, 11} then 30
    else 31
  }

  /** What the database's `date` type takes of texts shaped YYYY-MM-DD: days of the calendar, from year 1. */
  predicate CalendarDay(s: string)
    requires IsIsoDay(s)
  {
    var y, m, d := DigitsValue(s[..4]), DigitsValue(s[5..7]), DigitsValue(s[8..]);
    y >= 1 && 1 <= m <= 12 && 1 <= d <= DaysIn(y, m)
  }

  /** The row's product id and patch when every check passes; the last check is the cast to `date`. */
  function Accept(t: Tables, columns: set<string>, row: Row, other: string -> Option<real>)
    : Result<(string, map<string, int>), RowError>
  {
    var id := Trim(row.productId);
    if id == [] || !AllDigits(id) then Err(NotNumericId)
    else if !IsIsoDay(row.observedOn) then Err(BadDay)
    else
      match Patch(columns, row.cells, other)
      case Err(e) => Err(e)
      case Ok(patch) =>
        if id !in t.products then Err(NoProduct)
        else if !CalendarDay(row.observedOn) then Err(NoSuchDay)
        else Ok((id, patch))
  }

  function Stored(t: Tables, key: Key): Option<Prices> {
    if key in t.history then Some(t.history[key]) else None
  }

  function Record(t: Tables, columns: set<string>, row: Row, sync: bool, other: string -> Option<real>): Tables {
    match Accept(t, columns, row, other)
    case Err(_) => t
    case Ok((id, patch)) =>
      var key := (id, row.observedOn);
      var t := t.(history := t.history[key := Merge(columns, Stored(t, key), patch)]);
      if sync && LOOSE in patch then t.(loose := t.loose[id := patch[LOOSE]]) else t
  }

  function Import(t: Tables, columns: set<string>, rows: seq<Row>, sync: bool, other: string -> Option<real>): Tables {
    if rows == [] then t
    else Record(Import(t, columns, rows[..|rows| - 1], sync, other), columns, rows[|rows| - 1], sync, other)
  }

  datatype Failure = Failure(line: nat, productId: string, error: RowError)

  /** The refused rows in file order, each with its line, its id as written and the first check it failed. */
  function Failures(t: Tables, columns: set<string>, rows: seq<Row>, other: string -> Option<real>): seq<Failure> {
    if rows == [] then []
    else
      var front, row := Failures(t, columns, rows[..|rows| - 1], other), rows[|rows| - 1];
      match Accept(t, columns, row, other)
      case Err(e) => front + [Failure(row.line, row.productId, e)]
      case Ok(_) => front
  }

  function AcceptedRows(t: Tables, columns: set<string>, rows: seq<Row>, other: string -> Option<real>): nat {
    if rows == [] then 0
    else
      AcceptedRows(t, columns, rows[..|rows| - 1], other) +
      if Accept(t, columns, rows[|rows| - 1], other).Ok? then 1 else 0
  }

  class History {
    var tables: Tables
    const columns: set<string>

    method RecordManualHistory(row: Row, sync: bool, other: string -> Option<real>)
      returns (r: Result<map<string, int>, RowError>)
      modifies this`tables
      ensures tables == Record(old(tables), columns, row, sync, other)
      ensures match Accept(old(tables), columns, row, other)
              case Err(e) => r == Err(e)
              case Ok((_, patch)) => r == Ok(patch)
    {
      var id := Trim(row.productId);
      if id == [] || !AllDigits(id) {
        return Err(NotNumericId);
      }
      if !IsIsoDay(row.observedOn) {
        return Err(BadDay);
      }
      r := ManualHistoryPricePatch(columns, row.cells, other);
      if r.Err? {
        return;
      }
      if id !in tables.products {
        return Err(NoProduct);
      }
      if !CalendarDay(row.observedOn) {
        return Err(NoSuchDay);
      }
      var key := (id, row.observedOn);
      var prices := Merge(columns, Stored(tables, key), r.value);
      tables := tables.(history := tables.history[key := prices]);
      if sync && LOOSE in r.value {
        tables := tables.(loose := tables.loose[id := r.value[LOOSE]]);
      }
    }

    /** Rows in file order; a refused row is reported and changes nothing. */
    method ImportManualHistoryCsv(rows: seq<Row>, sync: bool, other: string -> Option<real>)
      returns (ok: nat, failed: seq<Failure>)
      modifies this`tables
      ensures tables == Import(old(tables), columns, rows, sync, other)
      ensures ok == AcceptedRows(old(tables), columns, rows, other) && ok + |failed| == |rows|
      ensures failed == Failures(old(tables), columns, rows, other)
    {
      ok, failed := 0, [];
      for i := 0 to |rows|
        invariant tables == Import(old(tables), columns, rows[..i], sync, other)
        invariant tables.products == old(tables).products
        invariant ok == AcceptedRows(old(tables), columns, rows[..i], other) && ok + |failed| == i
        invariant failed == Failures(old(tables), columns, rows[..i], other)
      {
        assert rows[..i + 1][..i] == rows[..i];
        AcceptsAlike(old(tables), tables, columns, rows[i], other);
        var r := RecordManualHistory(rows[i], sync, other);
        match r
        case Ok(_) => ok := ok + 1;
        case Err(e) => failed := failed + [Failure(rows[i].line, rows[i].productId, e)];
      }
      assert rows[..|rows|] == rows;
    }
  }

  /** Whether a row is accepted depends on the catalog only, which history never changes. */
  lemma AcceptsAlike(a: Tables, b: Tables, columns: set<string>, row: Row, other: string -> Option<real>)
    requires a.products == b.products
    ensures Accept(a, columns, row, other) == Accept(b, columns, row, other)
  {
  }

  // ---- Last writer wins ----------------------------------------------------------------

  /** The cents row `k` writes to a product, day and column, if it is accepted and fills that column. */
  function WrittenBy(t: Tables, columns: set<string>, row: Row, key: Key, c: string, other: string -> Option<real>)
    : Option<int>
  {
    match Accept(t, columns, row, other)
    case Err(_) => None
    case Ok((id, patch)) => if (id, row.observedOn) == key && c in patch then Some(patch[c]) else None
  }

  /** Importing any rows leaves, per product, day and column, the cents of the last accepted row that filled it. */
  lemma {:induction false} LastWriterWins(t: Tables, columns: set<string>, rows: seq<Row>, sync: bool, key: Key,
                                          c: string, other: string -> Option<real>, k: nat)
    requires c in columns && k <= |rows| && (k < |rows| ==> WrittenBy(t, columns, rows[k], key, c, other).Some?)
    requires forall m :: (if k < |rows| then k < m else 0 <= m) && m < |rows| ==>
               WrittenBy(t, columns, rows[m], key, c, other).None?
    ensures Prior(Stored(Import(t, columns, rows, sync, other), key), c) ==
            if k < |rows| then WrittenBy(t, columns, rows[k], key, c, other) else Prior(Stored(t, key), c)
    ensures Import(t, columns, rows, sync, other).products == t.products
  {
    if rows == [] {
    } else {
      var n := |rows| - 1;
      var before := Import(t, columns, rows[..n], sync, other);
      ProductsKept(t, columns, rows[..n], sync, other);
      OneRowWrites(t, before, columns, rows[n], sync, key, c, other);
      if k != n {
        LastWriterWins(t, columns, rows[..n], sync, key, c, other, if k == |rows| then n else k);
        assert WrittenBy(t, columns, rows[n], key, c, other).None?;
      }
    }
  }

  /** One row changes a stored price exactly when it writes it. */
  lemma OneRowWrites(t: Tables, before: Tables, columns: set<string>, row: Row, sync: bool, key: Key, c: string,
                     other: string -> Option<real>)
    requires c in columns && before.products == t.products
    ensures var written := WrittenBy(t, columns, row, key, c, other);
            Prior(Stored(Record(before, columns, row, sync, other), key), c) ==
            if written.Some? then written else Prior(Stored(before, key), c)
    ensures Record(before, columns, row, sync, other).products == t.products
  {
    AcceptsAlike(t, before, columns, row, other);
    PatchKeys(before, columns, row, other);
  }

  lemma PatchKeys(t: Tables, columns: set<string>, row: Row, other: string -> Option<real>)
    ensures Accept(t, columns, row, other).Ok? ==> Accept(t, columns, row, other).value.1.Keys <= columns
  {
    if PatchCells(columns, row.cells, other).Ok? {
      PatchInColumns(columns, row.cells, other);
    }
  }

  lemma {:induction false} ProductsKept(t: Tables, columns: set<string>, rows: seq<Row>, sync: bool,
                                        other: string -> Option<real>)
    ensures Import(t, columns, rows, sync, other).products == t.products
  {
    if rows == [] {
    } else {
      ProductsKept(t, columns, rows[..|rows| - 1], sync, other);
    }
  }

  /** Every stored day keeps exactly the price columns as its keys. */
  lemma {:induction false} FullColumns(t: Tables, columns: set<string>, rows: seq<Row>, sync: bool,
                                       other: string -> Option<real>)
    requires forall key :: key in t.history ==> t.history[key].Keys == columns
    ensures forall key :: key in Import(t, columns, rows, sync, other).history ==>
              Import(t, columns, rows, sync, other).history[key].Keys == columns
  {
    if rows == [] {
    } else {
      var n := |rows| - 1;
      FullColumns(t, columns, rows[..n], sync, other);
      PatchKeys(Import(t, columns, rows[..n], sync, other), columns, rows[n], other);
    }
  }
}
