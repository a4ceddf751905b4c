/**
 The published rates: a copy in each process's memory over one shared table, one
 row per currency. Refreshes hold a lock across processes, so each is one step;
 a process may die after its commit and before its own copy changes.
 */
module FxService {
  import opened Wrappers
  import opened FxSnapshot

  datatype Memory = Empty | Live(date: nat, fetchedAt: int, rates: map<string, real>)

  datatype Vnd = Vnd(date: nat, rate: real)

  /** The allowlist asks the ECB for something, and for neither the dollar nor the dong. */
  predicate Listed(codes: seq<string>) { codes != [] && "VND" !in codes && "USD" !in codes }

  lemma EcbCodesAreListed()
    ensures Listed(ECB_QUOTE_CURRENCIES)
  {
    assert forall c :: c in ECB_QUOTE_CURRENCIES ==> |c| == 3 && (c[0] != 'V' && c[0] != 'U');
    assert "VND"[0] == 'V' && "USD"[0] == 'U';
  }

  // ---- Eight decimals --------------------------------------------------------------------------------

  const SCALE := 100000000.0

  function Units(rate: real): int { (rate * SCALE + 0.5).Floor }

  /** The rate as the numeric(20, 8) column keeps it. */
  function Stored(rate: real): real { Units(rate) as real / SCALE }

  /** What the column and its positivity check take. */
  predicate Fits(rate: real) { 1 <= Units(rate) < 100_000_000_000_000_000_000 }

  lemma FloorBounds(x: real)
    ensures x.Floor as real <= x < x.Floor as real + 1.0
  {
  }

  /** The check refuses exactly the rates below half a unit of the last decimal, and the overflowing ones. */
  lemma FitsIff(rate: real)
    ensures Fits(rate) <==> 0.000000005 <= rate < 999999999999.999999995
  {
    FloorBounds(rate * SCALE + 0.5);
    assert 1.0 <= rate * SCALE + 0.5 <==> 0.000000005 <= rate;
    assert 100_000_000_000_000_000_000.0 <= rate * SCALE + 0.5 <==> 999999999999.999999995 <= rate;
  }

  lemma StoredIsNear(rate: real)
    ensures -0.000000005 <= Stored(rate) - rate <= 0.000000005
  {
    FloorBounds(rate * SCALE + 0.5);
  }

  // ---- Table and memory --------------------------------------------------------------------------------

  function Without(table: seq<StoredRow>, c: string): seq<StoredRow> {
    if table == [] then []
    else
      var front := Without(table[..|table| - 1], c);
      if table[|table| - 1].currency == c then front else front + [table[|table| - 1]]
  }

  function Save(table: seq<StoredRow>, row: StoredRow): seq<StoredRow> { Without(table, row.currency) + [row] }

  lemma {:induction false} WithoutKeepsOthers(table: seq<StoredRow>, c: string)
    ensures forall row :: row in Without(table, c) <==> row in table && row.currency != c
  {
    if table == [] {
    } else {
      WithoutKeepsOthers(table[..|table| - 1], c);
      assert table == table[..|table| - 1] + [table[|table| - 1]];
    }
  }

  predicate Covers(codes: seq<string>, parsed: Parsed) {
    forall c :: c in codes ==> c in parsed.rates
  }

  function RowFor(parsed: Parsed, c: string, now: int): StoredRow
    requires c in parsed.rates
  {
    StoredRow(c, Some(Stored(parsed.rates[c])), Some(parsed.date), now)
  }

  function SaveCodes(table: seq<StoredRow>, codes: seq<string>, parsed: Parsed, now: int): seq<StoredRow>
    requires Covers(codes, parsed)
  {
    if codes == [] then table
    else Save(SaveCodes(table, codes[..|codes| - 1], parsed, now), RowFor(parsed, codes[|codes| - 1], now))
  }

  function Commit(table: seq<StoredRow>, codes: seq<string>, parsed: Parsed, vnd: Option<Vnd>, now: int): seq<StoredRow>
    requires Covers(codes, parsed)
  {
    var saved := SaveCodes(table, codes, parsed, now);
    if vnd.None? then saved else Save(saved, StoredRow("VND", Some(Stored(vnd.value.rate)), Some(vnd.value.date), now))
  }

  predicate AllFit(codes: seq<string>, parsed: Parsed, vnd: Option<Vnd>)
    requires Covers(codes, parsed)
  {
    (forall c :: c in codes ==> Fits(parsed.rates[c])) && (vnd.Some? ==> Fits(vnd.value.rate))
  }

  predicate Unchanged(codes: seq<string>, mem: Memory, parsed: Parsed, vnd: Option<Vnd>)
    requires Covers(codes, parsed)
  {
    mem.Live? && mem.date == parsed.date &&
    (forall c :: c in codes ==> c in mem.rates && mem.rates[c] == parsed.rates[c]) &&
    (vnd.Some? ==> "VND" in mem.rates && mem.rates["VND"] == vnd.value.rate)
  }

  function WithVnd(rates: map<string, real>, vnd: Option<real>): map<string, real> {
    if vnd.None? then rates else rates["VND" := vnd.value]
  }

  function ToPublic(date: nat, fetchedAt: int, rates: map<string, real>): Memory {
    Live(date, fetchedAt, map["USD" := 1.0] + rates)
  }

  /** A fresh dong rate wins; failing that the one in memory is carried over. */
  function Published(mem: Memory, parsed: Parsed, vnd: Option<Vnd>, now: int): Memory {
    var dong := if vnd.Some? then Some(vnd.value.rate)
                else if mem.Live? && "VND" in mem.rates then Some(mem.rates["VND"])
                else None;
    ToPublic(parsed.date, now, WithVnd(parsed.rates, dong))
  }

  /** The first dong row, when its rate is positive. */
  function SupplementaryVndRate(table: seq<StoredRow>): Option<real> {
    if table == [] then None
    else if table[0].currency == "VND" then
      if table[0].rate.Some? && table[0].rate.value > 0.0 then table[0].rate else None
    else SupplementaryVndRate(table[1..])
  }

  function Loaded(mem: Memory, found: Option<Snapshot>, table: seq<StoredRow>): Memory {
    if found.None? then mem
    else ToPublic(found.value.date, found.value.fetchedAt, WithVnd(found.value.rates, SupplementaryVndRate(table)))
  }

  datatype RefreshError = BadPayload(error: PayloadError) | Refused

  class FxTable {
    var rows: seq<StoredRow>
  }

  class Service {
    var memory: Memory

    constructor ()
      ensures memory == Empty
    {
      memory := Empty;
    }

    method LoadFromDb(codes: seq<string>, db: FxTable) returns (loaded: bool, ghost found: Option<Snapshot>)
      modifies this
      ensures IsPublishable(codes, db.rows, found) && loaded == found.Some?
      ensures memory == Loaded(old(memory), found, db.rows)
    {
      var next := PublishableFxSnapshot(codes, db.rows);
      found := next;
      if next.None? {
        return false, found;
      }
      var rates := WithVnd(next.value.rates, SupplementaryVndRate(db.rows));
      memory := ToPublic(next.value.date, next.value.fetchedAt, rates);
      loaded := true;
    }

    /** All rows or none: the first row the table refuses rolls the transaction back. */
    method Transaction(codes: seq<string>, db: FxTable, parsed: Parsed, vnd: Option<Vnd>, now: int) returns (ok: bool)
      requires Covers(codes, parsed)
      modifies db
      ensures ok <==> AllFit(codes, parsed, vnd)
      ensures db.rows == if ok then Commit(old(db.rows), codes, parsed, vnd, now) else old(db.rows)
    {
      var rows := db.rows;
      for i := 0 to |codes|
        invariant rows == SaveCodes(old(db.rows), codes[..i], parsed, now) && db.rows == old(db.rows)
        invariant forall c :: c in codes[..i] ==> Fits(parsed.rates[c])
      {
        var code := codes[i];
        assert code in codes;
        if !Fits(parsed.rates[code]) {
          return false;
        }
        assert codes[..i + 1][..i] == codes[..i] && codes[..i + 1] == codes[..i] + [code];
        rows := Save(rows, RowFor(parsed, code, now));
      }
      assert codes[..|codes|] == codes;
      if vnd.Some? {
        if !Fits(vnd.value.rate) {
          return false;
        }
        rows := Save(rows, StoredRow("VND", Some(Stored(vnd.value.rate)), Some(vnd.value.date), now));
      }
      db.rows := rows;
      ok := true;
    }

    /** `vnd` is the dong fetch's outcome: any failure there is None and stops nothing. */
    method FetchAndStore(codes: seq<string>, db: FxTable, body: Option<seq<Option<PayloadRow>>>, vnd: Option<Vnd>,
                         now: int)
      returns (r: Result<bool, RefreshError>, ghost parsed: Parsed)
      modifies this, db
      ensures r.Err? ==> memory == old(memory) && db.rows == old(db.rows)
      ensures r.Err? && r.error.BadPayload? <==> !GoodPayload(codes, body)
      ensures GoodPayload(codes, body) ==>
                parsed == ParsedOf(codes, body) && Covers(codes, parsed) &&
                (r == Ok(false) <==> Unchanged(codes, old(memory), parsed, vnd)) &&
                (r == Ok(true) <==> !Unchanged(codes, old(memory), parsed, vnd) && AllFit(codes, parsed, vnd))
      ensures r == Ok(false) ==> memory == old(memory) && db.rows == old(db.rows)
      ensures r == Ok(true) ==>
                Covers(codes, parsed) && db.rows == Commit(old(db.rows), codes, parsed, vnd, now) &&
                memory == Published(old(memory), parsed, vnd, now)
    {
      var p := ParseEcbRatesPayload(codes, body);
      if p.Err? {
        parsed := Parsed(0, map[]);
        return Err(BadPayload(p.error)), parsed;
      }
      var rates := p.value;
      parsed := rates;
      if Unchanged(codes, memory, rates, vnd) {
        return Ok(false), parsed;
      }
      var ok := Transaction(codes, db, rates, vnd, now);
      if !ok {
        return Err(Refused), parsed;
      }
      memory := Published(memory, rates, vnd, now);
      r := Ok(true);
    }
  }

  function ParsedOf(codes: seq<string>, body: Option<seq<Option<PayloadRow>>>): Parsed
    requires GoodPayload(codes, body)
  {
    assert RowFault(body.value[0]).None?;
    Parsed(DateOf(body.value[0]).value, PayloadRates(body.value))
  }

  // ---- A committed table can be read back ---------------------------------------------------------------

  datatype Entry = Entry(parsed: Parsed, now: int)

  /** The table's listed rows are exactly one payload's. */
  ghost predicate Holds(codes: seq<string>, table: seq<StoredRow>, e: Entry) {
    Covers(codes, e.parsed) && (forall c :: c in codes ==> Fits(e.parsed.rates[c])) &&
    (forall row :: row in table && row.currency in codes ==> row == RowFor(e.parsed, row.currency, e.now)) &&
    (forall c :: c in codes ==> RowFor(e.parsed, c, e.now) in table)
  }

  lemma {:induction false} SavedCodesHold(table: seq<StoredRow>, codes: seq<string>, parsed: Parsed, now: int)
    requires Covers(codes, parsed)
    ensures forall row :: row in SaveCodes(table, codes, parsed, now) ==>
              if row.currency in codes then row == RowFor(parsed, row.currency, now) else row in table
    ensures forall c :: c in codes ==> RowFor(parsed, c, now) in SaveCodes(table, codes, parsed, now)
  {
    if codes == [] {
    } else {
      var front, c := codes[..|codes| - 1], codes[|codes| - 1];
      assert codes == front + [c];
      SavedCodesHold(table, front, parsed, now);
      WithoutKeepsOthers(SaveCodes(table, front, parsed, now), c);
    }
  }

  lemma CommitHolds(table: seq<StoredRow>, codes: seq<string>, parsed: Parsed, vnd: Option<Vnd>, now: int)
    requires Listed(codes) && Covers(codes, parsed) && AllFit(codes, parsed, vnd)
    ensures Holds(codes, Commit(table, codes, parsed, vnd, now), Entry(parsed, now))
  {
    SavedCodesHold(table, codes, parsed, now);
    WithoutKeepsOthers(SaveCodes(table, codes, parsed, now), "VND");
  }

  /** Reading a committed table back gives that payload's date and its rates to eight decimals. */
  lemma HeldTableIsPublishable(codes: seq<string>, table: seq<StoredRow>, e: Entry, found: Option<Snapshot>)
    requires Listed(codes) && Holds(codes, table, e) && IsPublishable(codes, table, found)
    ensures found.Some? && found.value.date == e.parsed.date && found.value.fetchedAt == e.now
    ensures forall c :: c in found.value.rates <==> c in codes
    ensures forall c :: c in codes ==> c in found.value.rates && found.value.rates[c] == Stored(e.parsed.rates[c])
  {
    var d := e.parsed.date;
    forall c | c in codes ensures On(codes, RowFor(e.parsed, c, e.now), d) && Quoted(codes, table, d, c) {
      assert Fits(e.parsed.rates[c]);
    }
    assert codes[0] in codes;
    assert Complete(codes, table, d);
    forall row, o | row in table && On(codes, row, o) ensures o == d && row == RowFor(e.parsed, row.currency, e.now) {}
    NewestOnIsMax(codes, table, d);
    forall c ensures c in RatesOn(codes, table, d) <==> c in codes
      ensures c in RatesOn(codes, table, d) ==> RatesOn(codes, table, d)[c] == Stored(e.parsed.rates[c])
    {
      RatesOnAreLast(codes, table, d, c);
    }
  }
}
