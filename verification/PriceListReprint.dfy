/** Every row the file parser produces can be printed and read back: parsing, printing and parsing again is parsing. */
module PriceListReprint {
  import opened Wrappers
  import opened CsvSplit
  import opened CsvCells
  import opened PriceListCsv
  import opened PriceListPrint

  // ---- Lines and fields hold no line breaks -----------------------------------------------------

  lemma {:induction false} UnixHasNoReturn(s: string)
    ensures '\r' !in UnixBreaks(s)
    decreases |s|
  {
    if s == [] {
    } else if s[0] == '\r' {
      UnixHasNoReturn(if |s| > 1 && s[1] == '\n' then s[2..] else s[1..]);
    } else {
      UnixHasNoReturn(s[1..]);
    }
  }

  lemma {:induction false} SplitLinesAreOneLine(s: string, cur: string)
    requires '\r' !in s && OneLine(cur)
    ensures forall l :: l in SplitLines(s, cur) ==> OneLine(l)
  {
    if s == [] {
    } else {
      assert s[0] in s && '\r' !in s[1..];
      SplitLinesAreOneLine(s[1..], if s[0] == '\n' then [] else cur + [s[0]]);
    }
  }

  lemma {:induction false} NonBlankAreLines(lines: seq<string>)
    ensures forall l :: l in NonBlank(lines) ==> l in lines
  {
    if lines == [] {
    } else {
      NonBlankAreLines(lines[1..]);
    }
  }

  lemma TextLinesAreOneLine(text: string)
    ensures forall l :: l in TextLines(text) ==> OneLine(l)
  {
    var s := UnixBreaks(DropBom(text));
    UnixHasNoReturn(DropBom(text));
    SplitLinesAreOneLine(s, []);
    NonBlankAreLines(SplitLines(s, []));
  }

  lemma {:induction false} FieldsAreOneLine(s: string, d: char, cur: string, q: bool)
    requires OneLine(s) && OneLine(cur)
    ensures forall f :: f in Split(s, d, cur, q) ==> OneLine(f)
    decreases |s|
  {
    if s == [] {
    } else {
      assert s[0] in s && OneLine(s[1..]);
      if q && s[0] == QUOTE && |s| > 1 && s[1] == QUOTE {
        FieldsAreOneLine(s[2..], d, cur + [QUOTE], true);
      } else if s[0] == QUOTE {
        FieldsAreOneLine(s[1..], d, cur, !q);
      } else if !q && s[0] == d {
        FieldsAreOneLine(s[1..], d, [], false);
      } else {
        FieldsAreOneLine(s[1..], d, cur + [s[0]], q);
      }
    }
  }

  // ---- Cells are clean ------------------------------------------------------------------------------

  lemma {:induction false} TrimEndStops(s: string)
    ensures TrimEnd(s) != [] ==> !IsSpace(TrimEnd(s)[|TrimEnd(s)| - 1]) && TrimEnd(s)[0] == s[0]
    ensures OneLine(s) ==> OneLine(TrimEnd(s))
    ensures |TrimEnd(s)| <= |s|
  {
    if s == [] {
    } else if IsSpace(s[|s| - 1]) {
      TrimEndStops(s[..|s| - 1]);
    }
  }

  lemma {:induction false} TrimStartStops(s: string)
    ensures TrimStart(s) != [] ==> !IsSpace(TrimStart(s)[0])
    ensures OneLine(s) ==> OneLine(TrimStart(s))
  {
    if s == [] {
    } else if IsSpace(s[0]) {
      assert OneLine(s) ==> OneLine(s[1..]);
      TrimStartStops(s[1..]);
    }
  }

  lemma TrimmedIsClean(s: string)
    requires OneLine(s)
    ensures CleanText(Trim(s))
  {
    TrimStartStops(s);
    TrimEndStops(TrimStart(s));
    if Trim(s) != [] {
      TrimKeeps(Trim(s));
    }
  }

  lemma BlankIsClean(s: string)
    requires OneLine(s)
    ensures CleanOption(BlankToNull(s))
  {
    TrimmedIsClean(s);
  }

  lemma {:induction false} PricesFit(cols: seq<string>, index: map<string, nat>, columns: Columns,
                                     other: string -> Option<real>)
    ensures forall c :: c in Prices(cols, index, columns, other) <==>
                        exists i :: 0 <= i < |columns| && columns[i].1 == c
    ensures forall c :: c in Prices(cols, index, columns, other) && Prices(cols, index, columns, other)[c].Some? ==>
              FitsPgInt(Prices(cols, index, columns, other)[c].value)
  {
    if columns == [] {
    } else {
      PricesFit(cols, index, columns[..|columns| - 1], other);
      assert columns == columns[..|columns| - 1] + [columns[|columns| - 1]];
    }
  }

  lemma PricesAreStorable(cols: seq<string>, index: map<string, nat>, columns: Columns, other: string -> Option<real>)
    ensures var prices := Prices(cols, index, columns, other);
            prices.Keys == (set i | 0 <= i < |columns| :: columns[i].1) &&
            forall i :: 0 <= i < |columns| ==>
              columns[i].1 in prices && (prices[columns[i].1].Some? ==> FitsPgInt(prices[columns[i].1].value))
  {
    PricesFit(cols, index, columns, other);
  }

  lemma CellsAreOneLine(line: string, d: char, index: map<string, nat>, header: string)
    requires OneLine(line)
    ensures OneLine(CellAt(Fields(line, d), index, header))
  {
    FieldsAreOneLine(line, d, [], false);
  }

  lemma TextsAreClean(line: string, d: char, index: map<string, nat>)
    requires OneLine(line)
    ensures var cols := Fields(line, d);
            CleanText(Trim(CellAt(cols, index, "console-name"))) &&
            CleanText(Trim(CellAt(cols, index, "product-name"))) &&
            CleanOption(BlankToNull(CellAt(cols, index, "upc"))) &&
            CleanOption(BlankToNull(CellAt(cols, index, "genre"))) &&
            CleanOption(BlankToNull(CellAt(cols, index, "tcg-id"))) &&
            CleanOption(BlankToNull(CellAt(cols, index, "asin"))) &&
            CleanOption(BlankToNull(CellAt(cols, index, "epid")))
  {
    var cols := Fields(line, d);
    forall header ensures OneLine(CellAt(cols, index, header)) {
      CellsAreOneLine(line, d, index, header);
    }
    TrimmedIsClean(CellAt(cols, index, "console-name"));
    TrimmedIsClean(CellAt(cols, index, "product-name"));
    BlankIsClean(CellAt(cols, index, "upc"));
    BlankIsClean(CellAt(cols, index, "genre"));
    BlankIsClean(CellAt(cols, index, "tcg-id"));
    BlankIsClean(CellAt(cols, index, "asin"));
    BlankIsClean(CellAt(cols, index, "epid"));
  }

  lemma ReadRowIsStorable(line: string, d: char, index: map<string, nat>, columns: Columns,
                          other: string -> Option<real>)
    requires OneLine(line) && ReadLine(line, d, index, columns, other).Some?
    ensures Storable(ReadLine(line, d, index, columns, other).value, columns)
  {
    TextsAreClean(line, d, index);
    PricesAreStorable(Fields(line, d), index, columns, other);
  }

  lemma {:induction false} ReadAllAreReadLines(lines: seq<string>, read: string -> Option<Row>)
    ensures forall r :: r in ReadAll(lines, read) ==> exists l :: l in lines && read(l) == Some(r)
  {
    if lines == [] {
    } else {
      ReadAllAreReadLines(lines[..|lines| - 1], read);
      assert lines == lines[..|lines| - 1] + [lines[|lines| - 1]];
    }
  }

  lemma WinnersWereRead(valid: seq<Row>)
    ensures forall r :: r in LastWins(valid) ==> r in valid
  {
    LastRowWins(valid);
    forall r | r in LastWins(valid) ensures r in valid {
      assert IsLastRow(valid, r);
    }
  }

  /** Whatever the file holds, the parsed rows have distinct ids and each can be stored on one line. */
  lemma ParsedRowsAreStorable(text: string, columns: Columns, other: string -> Option<real>)
    ensures Parse(text, columns, other).Ok? ==>
              var rows := Parse(text, columns, other).value.rows;
              DistinctIds(rows) && forall r :: r in rows ==> Storable(r, columns)
  {
    var lines := TextLines(text);
    TextLinesAreOneLine(text);
    if |lines| >= 2 {
      var d := Delimiter(lines[0]);
      var index := HeaderIndex(LowerAll(Fields(lines[0], d)));
      var read := Reader(d, index, columns, other);
      DataRowsAreStorable(lines[1..], d, index, columns, other);
      LastRowWins(ReadAll(lines[1..], read));
    }
  }

  lemma DataRowsAreStorable(lines: seq<string>, d: char, index: map<string, nat>, columns: Columns,
                            other: string -> Option<real>)
    requires forall l :: l in lines ==> OneLine(l)
    ensures forall r :: r in LastWins(ReadAll(lines, Reader(d, index, columns, other))) ==> Storable(r, columns)
  {
    var read := Reader(d, index, columns, other);
    var valid := ReadAll(lines, read);
    ReadAllAreReadLines(lines, read);
    WinnersWereRead(valid);
    forall r | r in LastWins(valid) ensures Storable(r, columns) {
      var l :| l in lines && read(l) == Some(r);
      ReadRowIsStorable(l, d, index, columns, other);
    }
  }

  /**
   Parsing loses nothing it could print: for any file the parser accepts, printing
   its rows with either delimiter, any cells quoted, and parsing that gives the same
   rows and genre counts, with nothing skipped.
   */
  lemma ReprintIsSame(text: string, columns: Columns, d: char, bare: string -> bool, other: string -> Option<real>)
    requires Headers(Names(columns)) && (d == ',' || d == '\t')
    ensures Parse(text, columns, other).Ok? ==>
              var parsed := Parse(text, columns, other).value;
              (forall i :: 0 <= i < |parsed.rows| ==> Storable(parsed.rows[i], columns)) &&
              Parse(PrintFile(parsed.rows, columns, d, bare), columns, other) == Ok(parsed.(skipped := 0))
  {
    ParsedRowsAreStorable(text, columns, other);
    GenresAreCounted(text, columns, other);
    if Parse(text, columns, other).Ok? {
      var rows := Parse(text, columns, other).value.rows;
      forall i | 0 <= i < |rows| ensures Storable(rows[i], columns) {
        assert rows[i] in rows;
      }
      ParseUndoesPrint(rows, columns, d, bare, other);
    }
  }

  lemma GenresAreCounted(text: string, columns: Columns, other: string -> Option<real>)
    ensures Parse(text, columns, other).Ok? ==>
              Parse(text, columns, other).value.genres == GenreCounts(Parse(text, columns, other).value.rows)
  {
  }
}
