/** What the provider's list must look like, told field by field, and what is taken from it. */
module FxPayload {
  import opened Wrappers
  import opened FxSnapshot
  import opened FxService

  const CAPITALS := "ABCDEFGHIJKLMNOPQRSTUVWXYZ"

  /** A dollar quote: base dollar, three capitals, a date and a positive rate. */
  predicate DollarQuote(row: PayloadRow) {
    row.base == "USD" && row.quote.Some? && |row.quote.value| == 3 &&
    (forall c :: c in row.quote.value ==> c in CAPITALS) &&
    row.date.Some? && row.rate.Some? && row.rate.value > 0.0
  }

  lemma CapitalIff(c: char)
    ensures c in CAPITALS <==> 'A' <= c <= 'Z'
  {
    if 'A' <= c <= 'Z' {
      assert CAPITALS[c as int - 'A' as int] == c;
    }
  }

  lemma ShapeIff(s: string)
    ensures QuoteShape(s) <==> |s| == 3 && forall c :: c in s ==> c in CAPITALS
  {
    forall c ensures c in CAPITALS <==> 'A' <= c <= 'Z' {
      CapitalIff(c);
    }
    if QuoteShape(s) {
      forall c | c in s ensures c in CAPITALS {
        var i :| 0 <= i < |s| && s[i] == c;
      }
    }
    if |s| == 3 && forall c :: c in s ==> c in CAPITALS {
      forall i | 0 <= i < 3 ensures 'A' <= s[i] <= 'Z' {
        assert s[i] in s;
      }
    }
  }

  /** A row is well formed exactly when it is a dollar quote; otherwise its first bad field is reported. */
  lemma RowIsGoodIff(row: PayloadRow)
    ensures RowFault(Some(row)).None? <==> DollarQuote(row)
    ensures row.base != "USD" ==> RowFault(Some(row)) == Some(BaseNotUsd)
    ensures row.base == "USD" && (row.quote.None? || !QuoteShape(row.quote.value)) ==>
              RowFault(Some(row)) == Some(BadQuote)
    ensures row.base == "USD" && row.quote.Some? && QuoteShape(row.quote.value) && row.date.None? ==>
              RowFault(Some(row)) == Some(BadDate)
    ensures (row.base == "USD" && row.quote.Some? && QuoteShape(row.quote.value) && row.date.Some? &&
             !(row.rate.Some? && row.rate.value > 0.0)) ==> RowFault(Some(row)) == Some(BadRate(row.quote.value))
  {
    if row.quote.Some? {
      ShapeIff(row.quote.value);
    }
  }

  /** Row `i` is the last that quotes currency `c`. */
  predicate LastQuote(rows: seq<Option<PayloadRow>>, c: string, i: nat) {
    i < |rows| && rows[i].Some? && rows[i].value.quote == Some(c) &&
    forall k :: i < k < |rows| ==> rows[k].None? || rows[k].value.quote != Some(c)
  }

  /** Of each currency the last quote is taken. */
  lemma {:induction false} LastQuoteIsTaken(rows: seq<Option<PayloadRow>>, c: string, i: nat)
    requires (forall row :: row in rows ==> RowFault(row).None?) && LastQuote(rows, c, i)
    ensures c in PayloadRates(rows) && rows[i].value.rate == Some(PayloadRates(rows)[c])
  {
    assert rows[|rows| - 1] in rows && rows[i] in rows;
    if i < |rows| - 1 {
      assert rows[..|rows| - 1][i] == rows[i];
      LastQuoteIsTaken(rows[..|rows| - 1], c, i);
    }
  }

  lemma {:induction false} QuotedIsSomewhere(rows: seq<Option<PayloadRow>>, c: string)
    requires forall row :: row in rows ==> RowFault(row).None?
    ensures c in PayloadRates(rows) <==> exists i :: 0 <= i < |rows| && rows[i].Some? && rows[i].value.quote == Some(c)
  {
    if rows == [] {
    } else {
      var front, last := rows[..|rows| - 1], rows[|rows| - 1];
      assert last in rows;
      QuotedIsSomewhere(front, c);
      if i :| 0 <= i < |front| && front[i].Some? && front[i].value.quote == Some(c) {
        assert rows[i] == front[i];
      }
    }
  }

  /** A list of dollar quotes, all of one date, that quotes every code. */
  ghost predicate GoodList(codes: seq<string>, rows: seq<Option<PayloadRow>>) {
    rows != [] && (forall i :: 0 <= i < |rows| ==> rows[i].Some? && DollarQuote(rows[i].value)) &&
    (forall i, j :: 0 <= i < |rows| && 0 <= j < |rows| ==> rows[i].value.date == rows[j].value.date) &&
    forall c :: c in codes ==> exists i :: 0 <= i < |rows| && rows[i].value.quote == Some(c)
  }

  lemma WellFormedRowsIff(rows: seq<Option<PayloadRow>>)
    ensures (forall row :: row in rows ==> RowFault(row).None?) <==>
            forall i :: 0 <= i < |rows| ==> rows[i].Some? && DollarQuote(rows[i].value)
  {
    forall i | 0 <= i < |rows| && rows[i].Some? ensures RowFault(rows[i]).None? <==> DollarQuote(rows[i].value) {
      RowIsGoodIff(rows[i].value);
    }
    if forall row :: row in rows ==> RowFault(row).None? {
      forall i | 0 <= i < |rows| ensures rows[i].Some? && DollarQuote(rows[i].value) {
        assert rows[i] in rows;
      }
    }
  }

  /** A payload is taken exactly when it is such a list, and then with its date. */
  lemma GoodPayloadIff(codes: seq<string>, body: Option<seq<Option<PayloadRow>>>)
    ensures GoodPayload(codes, body) <==> body.Some? && GoodList(codes, body.value)
    ensures GoodPayload(codes, body) ==> body.value[0].value.date == Some(ParsedOf(codes, body).date)
  {
    if body.Some? && body.value != [] {
      var rows := body.value;
      WellFormedRowsIff(rows);
      if forall row :: row in rows ==> RowFault(row).None? {
        forall c ensures c in PayloadRates(rows) <==>
                         exists i :: 0 <= i < |rows| && rows[i].Some? && rows[i].value.quote == Some(c)
        {
          QuotedIsSomewhere(rows, c);
        }
        forall i | 0 <= i < |rows| ensures rows[i] in rows {}
        assert rows[0].Some?;
      }
    }
  }
}
