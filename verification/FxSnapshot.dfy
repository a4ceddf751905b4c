/**
 Which exchange rates may be published: the newest observation date on which
 every listed currency has a positive rate. A date is its eight digits read as a
 number, so textual order is numeric order; a rate is an exact rational.
 */
module FxSnapshot {
  import opened Wrappers

  /** `rate` is None when the cell is not a finite number, `date` when it is not shaped like a date. */
  datatype StoredRow = StoredRow(currency: string, rate: Option<real>, date: Option<nat>, fetchedAt: int)

  datatype Snapshot = Snapshot(date: nat, fetchedAt: int, rates: map<string, real>)

  /** Quotes asked of the ECB; the dollar is the base and the dong comes from elsewhere. */
  const ECB_QUOTE_CURRENCIES := [
    "EUR", "GBP", "KRW", "JPY", "SGD", "CAD", "AUD", "CHF", "HKD", "CNY", "IDR", "MYR", "PHP", "THB"]

  // ---- What a complete date is ---------------------------------------------------------------------

  predicate Valid(codes: seq<string>, row: StoredRow) {
    row.rate.Some? && row.rate.value > 0.0 && row.currency in codes && row.date.Some?
  }

  predicate On(codes: seq<string>, row: StoredRow, d: nat) { Valid(codes, row) && row.date == Some(d) }

  predicate Quoted(codes: seq<string>, rows: seq<StoredRow>, d: nat, c: string) {
    exists row :: row in rows && On(codes, row, d) && row.currency == c
  }

  predicate Complete(codes: seq<string>, rows: seq<StoredRow>, d: nat) {
    (exists row :: row in rows && On(codes, row, d)) && forall c :: c in codes ==> Quoted(codes, rows, d, c)
  }

  /** The rates of one date; a later row of a currency replaces an earlier one. */
  function RatesOn(codes: seq<string>, rows: seq<StoredRow>, d: nat): map<string, real> {
    if rows == [] then map[]
    else
      var front, row := RatesOn(codes, rows[..|rows| - 1], d), rows[|rows| - 1];
      if On(codes, row, d) then front[row.currency := row.rate.value] else front
  }

  function NewestOn(codes: seq<string>, rows: seq<StoredRow>, d: nat): Option<int> {
    if rows == [] then None
    else
      var front, row := NewestOn(codes, rows[..|rows| - 1], d), rows[|rows| - 1];
      if !On(codes, row, d) then front
      else if front.None? || row.fetchedAt > front.value then Some(row.fetchedAt) else front
  }

  /** Row `i` is the last of its currency on that date. */
  predicate LastOn(codes: seq<string>, rows: seq<StoredRow>, d: nat, c: string, i: int) {
    0 <= i < |rows| && On(codes, rows[i], d) && rows[i].currency == c &&
    forall j :: i < j < |rows| ==> !(On(codes, rows[j], d) && rows[j].currency == c)
  }

  lemma LastOnStays(codes: seq<string>, front: seq<StoredRow>, row: StoredRow, d: nat, c: string, i: int)
    requires LastOn(codes, front, d, c, i) && !(On(codes, row, d) && row.currency == c)
    ensures LastOn(codes, front + [row], d, c, i)
  {
  }

  lemma QuotedOneMore(codes: seq<string>, front: seq<StoredRow>, row: StoredRow, d: nat, c: string)
    ensures Quoted(codes, front + [row], d, c) <==>
            Quoted(codes, front, d, c) || (On(codes, row, d) && row.currency == c)
  {
    if On(codes, row, d) && row.currency == c {
      assert row in front + [row];
    }
  }

  /** Each published rate is a row's rate, the last one of its currency on that date. */
  lemma {:induction false} RatesOnAreLast(codes: seq<string>, rows: seq<StoredRow>, d: nat, c: string)
    ensures c in RatesOn(codes, rows, d) <==> Quoted(codes, rows, d, c)
    ensures c in RatesOn(codes, rows, d) ==>
              exists i :: LastOn(codes, rows, d, c, i) && rows[i].rate.value == RatesOn(codes, rows, d)[c]
  {
    if rows == [] {
    } else {
      var front, row := rows[..|rows| - 1], rows[|rows| - 1];
      assert rows == front + [row];
      RatesOnAreLast(codes, front, d, c);
      QuotedOneMore(codes, front, row, d, c);
      if On(codes, row, d) && row.currency == c {
        assert LastOn(codes, rows, d, c, |rows| - 1);
      } else if c in RatesOn(codes, rows, d) {
        var i :| LastOn(codes, front, d, c, i) && front[i].rate.value == RatesOn(codes, front, d)[c];
        LastOnStays(codes, front, row, d, c, i);
      }
    }
  }

  lemma {:induction false} NewestOnIsMax(codes: seq<string>, rows: seq<StoredRow>, d: nat)
    ensures NewestOn(codes, rows, d).Some? <==> exists row :: row in rows && On(codes, row, d)
    ensures forall row :: row in rows && On(codes, row, d) ==> row.fetchedAt <= NewestOn(codes, rows, d).value
    ensures NewestOn(codes, rows, d).Some? ==>
              exists row :: row in rows && On(codes, row, d) && row.fetchedAt == NewestOn(codes, rows, d).value
  {
    if rows == [] {
    } else {
      var front, row := rows[..|rows| - 1], rows[|rows| - 1];
      NewestOnIsMax(codes, front, d);
      assert rows == front + [row];
    }
  }

  // ---- The selection --------------------------------------------------------------------------------

  datatype Bucket = Bucket(rates: map<string, real>, fetchedAt: int)

  ghost predicate IsBucket(codes: seq<string>, rows: seq<StoredRow>, d: nat, b: Bucket) {
    b.rates == RatesOn(codes, rows, d) && NewestOn(codes, rows, d) == Some(b.fetchedAt)
  }

  /** Rows bucketed by date, malformed rows and other currencies skipped. */
  method BucketByDate(codes: seq<string>, rows: seq<StoredRow>) returns (byDate: map<nat, Bucket>)
    ensures forall d :: d in byDate <==> exists row :: row in rows && On(codes, row, d)
    ensures forall d :: d in byDate ==> IsBucket(codes, rows, d, byDate[d])
  {
    byDate := map[];
    for i := 0 to |rows|
      invariant forall d :: d in byDate <==> NewestOn(codes, rows[..i], d).Some?
      invariant forall d :: d in byDate ==> IsBucket(codes, rows[..i], d, byDate[d])
      invariant forall d :: d !in byDate ==> RatesOn(codes, rows[..i], d) == map[]
    {
      var row := rows[i];
      assert rows[..i + 1][..i] == rows[..i];
      if Valid(codes, row) {
        var d := row.date.value;
        var b := if d in byDate then byDate[d] else Bucket(map[], row.fetchedAt);
        b := Bucket(b.rates[row.currency := row.rate.value],
                    if row.fetchedAt > b.fetchedAt then row.fetchedAt else b.fetchedAt);
        byDate := byDate[d := b];
      }
    }
    assert rows[..|rows|] == rows;
    forall d ensures d in byDate <==> exists row :: row in rows && On(codes, row, d) {
      NewestOnIsMax(codes, rows, d);
    }
  }

  function InsertDate(dates: seq<nat>, d: nat): (r: seq<nat>)
    requires forall i, j :: 0 <= i < j < |dates| ==> dates[i] <= dates[j]
    ensures forall i, j :: 0 <= i < j < |r| ==> r[i] <= r[j]
    ensures forall x :: x in r <==> x == d || x in dates
  {
    if dates == [] || dates[|dates| - 1] <= d then dates + [d]
    else
      var last := |dates| - 1;
      assert dates == dates[..last] + [dates[last]];
      var front := InsertDate(dates[..last], d);
      assert forall i :: 0 <= i < |front| ==> front[i] in front;
      assert forall x :: x in front ==> x <= dates[last];
      front + [dates[last]]
  }

  method SortDates(keys: set<nat>) returns (dates: seq<nat>)
    ensures forall i, j :: 0 <= i < j < |dates| ==> dates[i] <= dates[j]
    ensures forall d :: d in dates <==> d in keys
  {
    dates := [];
    var left := keys;
    while left != {}
      invariant left <= keys
      invariant forall i, j :: 0 <= i < j < |dates| ==> dates[i] <= dates[j]
      invariant forall d :: d in dates <==> d in keys - left
      decreases |left|
    {
      var d :| d in left;
      dates := InsertDate(dates, d);
      left := left - {d};
    }
  }

  /** `r` is the newest complete date's own rates and newest fetch, or nothing when no date is complete. */
  ghost predicate IsPublishable(codes: seq<string>, rows: seq<StoredRow>, r: Option<Snapshot>) {
    (r.None? <==> forall d: nat :: !Complete(codes, rows, d)) &&
    (r.Some? ==>
       Complete(codes, rows, r.value.date) &&
       (forall d: nat :: Complete(codes, rows, d) ==> d <= r.value.date) &&
       r.value.rates == RatesOn(codes, rows, r.value.date) &&
       NewestOn(codes, rows, r.value.date) == Some(r.value.fetchedAt))
  }

  method PublishableFxSnapshot(codes: seq<string>, rows: seq<StoredRow>) returns (r: Option<Snapshot>)
    ensures IsPublishable(codes, rows, r)
  {
    var byDate := BucketByDate(codes, rows);
    var dates := SortDates(byDate.Keys);
    var i := |dates|;
    while i > 0
      invariant 0 <= i <= |dates|
      invariant forall k :: i <= k < |dates| ==> !Complete(codes, rows, dates[k])
    {
      i := i - 1;
      var d := dates[i];
      var b := byDate[d];
      forall c ensures c in b.rates <==> Quoted(codes, rows, d, c) {
        RatesOnAreLast(codes, rows, d, c);
      }
      if forall c :: c in codes ==> c in b.rates {
        forall e: nat | Complete(codes, rows, e) ensures e <= d {
          assert e in dates;
          var k :| 0 <= k < |dates| && dates[k] == e;
        }
        return Some(Snapshot(d, b.fetchedAt, b.rates));
      }
    }
    forall d: nat | d in dates ensures !Complete(codes, rows, d) {
      var k :| 0 <= k < |dates| && dates[k] == d;
    }
    r := None;
  }

  /** The selection is a function of the rows. */
  lemma PublishableIsUnique(codes: seq<string>, rows: seq<StoredRow>, a: Option<Snapshot>, b: Option<Snapshot>)
    requires IsPublishable(codes, rows, a) && IsPublishable(codes, rows, b)
    ensures a == b
  {
    if a.None? {
      assert b.None?;
    } else {
      assert Complete(codes, rows, a.value.date);
      assert b.Some?;
      assert Complete(codes, rows, b.value.date);
    }
  }

  // ---- The provider's payload ------------------------------------------------------------------------

  /** One entry of the list; None where the field has the wrong type or shape. */
  datatype PayloadRow = PayloadRow(base: string, quote: Option<string>, date: Option<nat>, rate: Option<real>)

  datatype Parsed = Parsed(date: nat, rates: map<string, real>)

  datatype PayloadError =
    | NotAList | NotAnObject | BaseNotUsd | BadQuote | BadDate | BadRate(code: string) | MixedDates
    | Missing(code: string)

  predicate QuoteShape(s: string) { |s| == 3 && forall i :: 0 <= i < 3 ==> 'A' <= s[i] <= 'Z' }

  function RowFault(row: Option<PayloadRow>): Option<PayloadError> {
    if row.None? then Some(NotAnObject)
    else if row.value.base != "USD" then Some(BaseNotUsd)
    else if row.value.quote.None? || !QuoteShape(row.value.quote.value) then Some(BadQuote)
    else if row.value.date.None? then Some(BadDate)
    else if row.value.rate.None? || row.value.rate.value <= 0.0 then Some(BadRate(row.value.quote.value))
    else None
  }

  function PayloadRates(rows: seq<Option<PayloadRow>>): map<string, real>
    requires forall row :: row in rows ==> RowFault(row).None?
  {
    if rows == [] then map[]
    else
      assert rows[|rows| - 1] in rows && RowFault(rows[|rows| - 1]).None?;
      var row := rows[|rows| - 1].value;
      PayloadRates(rows[..|rows| - 1])[row.quote.value := row.rate.value]
  }

  function DateOf(row: Option<PayloadRow>): Option<nat> { if row.Some? then row.value.date else None }

  /** Nothing wrong with any row, and one date for all of them. */
  predicate GoodRows(rows: seq<Option<PayloadRow>>) {
    (forall row :: row in rows ==> RowFault(row).None?) &&
    (forall row :: row in rows ==> row.Some? && row.value.date == DateOf(rows[0]))
  }

  predicate GoodPayload(codes: seq<string>, body: Option<seq<Option<PayloadRow>>>) {
    body.Some? && body.value != [] && GoodRows(body.value) && forall c :: c in codes ==> c in PayloadRates(body.value)
  }

  /** What is wrong with row `i`, when nothing is with the rows before it. */
  function FaultAt(rows: seq<Option<PayloadRow>>, i: nat): Option<PayloadError>
    requires i < |rows|
  {
    if RowFault(rows[i]).Some? then RowFault(rows[i])
    else if DateOf(rows[i]) != DateOf(rows[0]) then Some(MixedDates)
    else None
  }

  predicate FirstFaultAt(rows: seq<Option<PayloadRow>>, i: nat, e: PayloadError) {
    i < |rows| && FaultAt(rows, i) == Some(e) && forall k :: 0 <= k < i ==> FaultAt(rows, k).None?
  }

  lemma FirstFaultIs(rows: seq<Option<PayloadRow>>, i: nat, e: PayloadError)
    requires i < |rows| && FaultAt(rows, i) == Some(e) && GoodRows(rows[..i])
    ensures FirstFaultAt(rows, i, e)
  {
    forall k | 0 <= k < i ensures FaultAt(rows, k).None? {
      assert rows[..i][k] in rows[..i] && rows[..i][0] == rows[0];
    }
  }

  /** The reason for refusing a payload: no list, the first row at fault, or the first code nobody quotes. */
  ghost predicate IsFault(codes: seq<string>, body: Option<seq<Option<PayloadRow>>>, e: PayloadError) {
    if body.None? || body.value == [] then e == NotAList
    else
      (exists i :: 0 <= i < |body.value| && FirstFaultAt(body.value, i, e)) ||
      (GoodRows(body.value) &&
       exists k :: 0 <= k < |codes| && e == Missing(codes[k]) && codes[k] !in PayloadRates(body.value) &&
                   forall j :: 0 <= j < k ==> codes[j] in PayloadRates(body.value))
  }

  /** The position of the first code without a rate. */
  method FirstMissing(codes: seq<string>, rates: map<string, real>) returns (k: nat)
    ensures k <= |codes| && (forall j :: 0 <= j < k ==> codes[j] in rates) && (k < |codes| ==> codes[k] !in rates)
    ensures k == |codes| <==> forall c :: c in codes ==> c in rates
  {
    k := 0;
    while k < |codes| && codes[k] in rates
      invariant k <= |codes| && forall j :: 0 <= j < k ==> codes[j] in rates
    {
      k := k + 1;
    }
  }

  /**
   A payload is taken whole or not at all: accepted exactly when it is a non-empty
   list of well-formed dollar quotes of one date covering every code.
   */
  method ParseEcbRatesPayload(codes: seq<string>, body: Option<seq<Option<PayloadRow>>>)
    returns (r: Result<Parsed, PayloadError>)
    ensures r.Ok? <==> GoodPayload(codes, body)
    ensures r.Err? ==> IsFault(codes, body, r.error)
    ensures r.Ok? ==> Some(r.value.date) == DateOf(body.value[0]) && r.value.rates == PayloadRates(body.value)
  {
    if body.None? || body.value == [] {
      return Err(NotAList);
    }
    var rows := body.value;
    var date: Option<nat>, rates: map<string, real> := None, map[];
    for i := 0 to |rows|
      invariant GoodRows(rows[..i]) && rates == PayloadRates(rows[..i])
      invariant i == 0 <==> date.None?
      invariant i > 0 ==> date == DateOf(rows[0])
    {
      var fault := RowFault(rows[i]);
      if fault.Some? {
        assert rows[i] in rows;
        FirstFaultIs(rows, i, fault.value);
        return Err(fault.value);
      }
      var rec := rows[i].value;
      if date.None? {
        date := rec.date;
      } else if date != rec.date {
        assert rows[i] in rows;
        FirstFaultIs(rows, i, MixedDates);
        return Err(MixedDates);
      }
      rates := rates[rec.quote.value := rec.rate.value];
      assert rows[..i + 1][..i] == rows[..i];
      assert rows[..i + 1] == rows[..i] + [rows[i]];
    }
    assert rows[..|rows|] == rows;
    var missing := FirstMissing(codes, rates);
    if missing < |codes| {
      return Err(Missing(codes[missing]));
    }
    r := Ok(Parsed(date.value, rates));
  }

  /** Accepted rates are positive. */
  lemma {:induction false} PayloadRatesArePositive(rows: seq<Option<PayloadRow>>, c: string)
    requires forall row :: row in rows ==> RowFault(row).None?
    requires c in PayloadRates(rows)
    ensures PayloadRates(rows)[c] > 0.0
  {
    assert rows[|rows| - 1] in rows;
    if c != rows[|rows| - 1].value.quote.value {
      PayloadRatesArePositive(rows[..|rows| - 1], c);
    }
  }
}
