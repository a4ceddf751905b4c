/** The program's own price headers, and that the price-list round trip applies to them. */
module PriceTable {
  import opened Wrappers
  import opened CsvCells
  import opened PriceListCsv
  import opened PriceListPrint

  const PRICE_HEADER_TO_COLUMN: Columns := [
    ("loose-price", "loose_price_cents"),
    ("cib-price", "cib_price_cents"),
    ("new-price", "new_price_cents"),
    ("graded-price", "graded_price_cents"),
    ("box-only-price", "box_only_price_cents"),
    ("manual-only-price", "manual_only_price_cents"),
    ("bgs-10-price", "bgs_10_price_cents"),
    ("condition-9-price", "condition_9_price_cents"),
    ("condition-10-price", "condition_10_price_cents"),
    ("condition-13-price", "condition_13_price_cents"),
    ("condition-14-price", "condition_14_price_cents"),
    ("condition-15-price", "condition_15_price_cents"),
    ("condition-16-price", "condition_16_price_cents"),
    ("condition-17-price", "condition_17_price_cents"),
    ("condition-18-price", "condition_18_price_cents"),
    ("condition-19-price", "condition_19_price_cents"),
    ("condition-20-price", "condition_20_price_cents"),
    ("condition-21-price", "condition_21_price_cents"),
    ("condition-22-price", "condition_22_price_cents"),
    ("gamestop-price", "gamestop_price_cents"),
    ("gamestop-trade-price", "gamestop_trade_price_cents"),
    ("retail-loose-buy", "retail_loose_buy_cents"),
    ("retail-loose-sell", "retail_loose_sell_cents"),
    ("retail-cib-buy", "retail_cib_buy_cents"),
    ("retail-cib-sell", "retail_cib_sell_cents"),
    ("retail-new-buy", "retail_new_buy_cents"),
    ("retail-new-sell", "retail_new_sell_cents")]

  /** Small letters, digits and hyphens: nothing trimming, lowering, quoting or splitting would touch. */
  predicate PlainName(n: string) {
    n != [] && forall c :: c in n ==> 'a' <= c <= 'z' || '0' <= c <= '9' || c == '-'
  }

  lemma {:induction false} LowerKeepsPlain(n: string)
    requires forall c :: c in n ==> 'a' <= c <= 'z' || '0' <= c <= '9' || c == '-'
    ensures Lower(n) == n
  {
    if n == [] {
    } else {
      assert n[0] in n && forall c :: c in n[1..] ==> c in n;
      LowerKeepsPlain(n[1..]);
    }
  }

  lemma PlainIsHeaderName(n: string)
    requires PlainName(n)
    ensures HeaderName(n)
  {
    assert n[0] in n && n[|n| - 1] in n;
    TrimKeeps(n);
    LowerKeepsPlain(n);
  }

  lemma FixedArePlain()
    ensures forall i :: 0 <= i < 10 ==> PlainName(FixedNames()[i])
  {
  }

  lemma FirstArePlain()
    ensures forall i :: 0 <= i < 9 ==> PlainName(PRICE_HEADER_TO_COLUMN[i].0)
  {
  }

  lemma MiddleArePlain()
    ensures forall i :: 9 <= i < 18 ==> PlainName(PRICE_HEADER_TO_COLUMN[i].0)
  {
  }

  lemma LastArePlain()
    ensures forall i :: 18 <= i < 27 ==> PlainName(PRICE_HEADER_TO_COLUMN[i].0)
  {
  }

  lemma FixedAreDistinct()
    ensures forall i, j :: 0 <= i < j < 10 ==> FixedNames()[i] != FixedNames()[j]
  {
  }

  lemma PricesAreDistinct()
    ensures forall i, j :: 0 <= i < j < 27 ==> PRICE_HEADER_TO_COLUMN[i].0 != PRICE_HEADER_TO_COLUMN[j].0
  {
  }

  lemma FixedAreNotPrices()
    ensures forall i, j :: 0 <= i < 10 && 0 <= j < 27 ==> FixedNames()[i] != PRICE_HEADER_TO_COLUMN[j].0
  {
  }

  /** The program's file header is one the parser can tell apart and the delimiter detector cannot misread. */
  lemma ProgramHeaders()
    ensures |PRICE_HEADER_TO_COLUMN| == 27 && Headers(Names(PRICE_HEADER_TO_COLUMN))
  {
    var columns := PRICE_HEADER_TO_COLUMN;
    FixedArePlain();
    FirstArePlain();
    MiddleArePlain();
    LastArePlain();
    FixedAreDistinct();
    PricesAreDistinct();
    FixedAreNotPrices();
    HeadersOf(columns);
  }

  lemma HeadersOf(columns: Columns)
    requires forall i :: 0 <= i < 10 ==> PlainName(FixedNames()[i])
    requires forall i :: 0 <= i < |columns| ==> PlainName(columns[i].0)
    requires forall i, j :: 0 <= i < j < 10 ==> FixedNames()[i] != FixedNames()[j]
    requires forall i, j :: 0 <= i < j < |columns| ==> columns[i].0 != columns[j].0
    requires forall i, j :: 0 <= i < 10 && 0 <= j < |columns| ==> FixedNames()[i] != columns[j].0
    ensures Headers(Names(columns))
  {
    var names := Names(columns);
    forall i | 0 <= i < |names| ensures HeaderName(names[i]) {
      PlainIsHeaderName(names[i]);
    }
  }

  /** Files with the program's own header read back as they were printed. */
  lemma ProgramFilesComeBack(rows: seq<Row>, columns: Columns, d: char, bare: string -> bool,
                             other: string -> Option<real>)
    requires columns == PRICE_HEADER_TO_COLUMN && (d == ',' || d == '\t')
    requires DistinctIds(rows) && forall i :: 0 <= i < |rows| ==> Storable(rows[i], columns)
    ensures Parse(PrintFile(rows, columns, d, bare), columns, other) == Ok(Parsed(rows, 0, GenreCounts(rows)))
  {
    ProgramHeaders();
    ParseUndoesPrint(rows, columns, d, bare, other);
  }
}
