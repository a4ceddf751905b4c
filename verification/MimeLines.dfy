/** Lines ended by CRLF, and base64 text cut into lines (section 6.8 of RFC 2045). */
module MimeLines {
  import CsvCells

  const CRLF := "\r\n"
  const LINE := 76

  predicate StartsWithCrlf(s: string) { |s| >= 2 && s[0] == '\r' && s[1] == '\n' }

  /** The lines of a text; every text has at least one. */
  function Split(s: string): (lines: seq<string>)
    ensures |lines| >= 1
  {
    if s == [] then [[]]
    else if StartsWithCrlf(s) then [[]] + Split(s[2..])
    else
      var rest := Split(s[1..]);
      [[s[0]] + rest[0]] + rest[1..]
  }

  function Join(lines: seq<string>): string {
    if lines == [] then []
    else if |lines| == 1 then lines[0]
    else lines[0] + CRLF + Join(lines[1..])
  }

  predicate SingleLine(s: string) {
    forall i :: 0 <= i < |s| - 1 ==> !(s[i] == '\r' && s[i + 1] == '\n')
  }

  lemma {:induction false} SingleLineIff(s: string)
    ensures SingleLine(s) <==> Split(s) == [s]
  {
    if s == [] {
    } else if StartsWithCrlf(s) {
      assert !SingleLine(s);
      assert |Split(s)| >= 2;
    } else {
      SingleLineIff(s[1..]);
      assert s == [s[0]] + s[1..];
      if SingleLine(s[1..]) {
        assert forall i :: 1 <= i < |s| - 1 ==> !(s[1..][i - 1] == '\r' && s[1..][i] == '\n');
      } else {
        assert Split(s[1..]) != [s[1..]];
        var i :| 0 <= i < |s[1..]| - 1 && s[1..][i] == '\r' && s[1..][i + 1] == '\n';
        assert s[i + 1] == '\r' && s[i + 1 + 1] == '\n';
        NotOneLine(s);
      }
    }
  }

  lemma NotOneLine(s: string)
    requires s != [] && !StartsWithCrlf(s) && Split(s[1..]) != [s[1..]]
    ensures Split(s) != [s]
  {
    var rest := Split(s[1..]);
    assert ([s[0]] + rest[0])[1..] == rest[0];
    assert |rest| == 1 ==> rest == [rest[0]];
  }

  /** A line break separates whatever stands on its two sides. */
  lemma {:induction false} SplitAtBreak(a: string, b: string)
    ensures Split(a + CRLF + b) == Split(a) + Split(b)
  {
    var s := a + CRLF + b;
    if a == [] {
      assert s[2..] == b;
    } else if StartsWithCrlf(a) {
      assert s[2..] == a[2..] + CRLF + b && StartsWithCrlf(s);
      SplitAtBreak(a[2..], b);
    } else {
      assert s[1..] == a[1..] + CRLF + b && !StartsWithCrlf(s);
      SplitAtBreak(a[1..], b);
    }
  }

  /** Splitting forgets nothing. */
  lemma {:induction false} JoinUndoesSplit(s: string)
    ensures Join(Split(s)) == s
  {
    if s == [] {
    } else if StartsWithCrlf(s) {
      JoinUndoesSplit(s[2..]);
      assert s == CRLF + s[2..];
      assert Split(s)[1..] == Split(s[2..]);
    } else {
      JoinUndoesSplit(s[1..]);
      JoinWithChar(s[0], Split(s[1..]));
      assert s == [s[0]] + s[1..];
    }
  }

  lemma JoinWithChar(c: char, lines: seq<string>)
    requires lines != []
    ensures Join([[c] + lines[0]] + lines[1..]) == [c] + Join(lines)
  {
    var longer := [[c] + lines[0]] + lines[1..];
    assert longer[1..] == lines[1..];
    if |lines| > 1 {
      PrependChar(c, lines[0], Join(lines[1..]));
    }
  }

  lemma PrependChar(c: char, first: string, rest: string)
    ensures [c] + first + CRLF + rest == [c] + (first + CRLF + rest)
  {
  }

  function SplitAll(texts: seq<string>): seq<string> {
    if texts == [] then [] else Split(texts[0]) + SplitAll(texts[1..])
  }

  lemma {:induction false} SplitJoined(texts: seq<string>)
    requires texts != []
    ensures Split(Join(texts)) == SplitAll(texts)
  {
    if |texts| == 1 {
      assert SplitAll(texts[1..]) == [];
    } else {
      SplitAtBreak(texts[0], Join(texts[1..]));
      SplitJoined(texts[1..]);
    }
  }

  lemma {:induction false} SplitAllOfSum(a: seq<string>, b: seq<string>)
    ensures SplitAll(a + b) == SplitAll(a) + SplitAll(b)
  {
    if a == [] {
      assert a + b == b;
    } else {
      SplitAllOfSum(a[1..], b);
      assert (a + b)[1..] == a[1..] + b;
    }
  }

  lemma {:induction false} SingleLinesStay(lines: seq<string>)
    requires forall l :: l in lines ==> SingleLine(l)
    ensures SplitAll(lines) == lines
  {
    if lines == [] {
    } else {
      assert lines[0] in lines;
      SingleLineIff(lines[0]);
      SingleLinesStay(lines[1..]);
    }
  }

  /** A text followed by a line break. */
  lemma BreakAfter(s: string)
    ensures Join(Split(s) + [[]]) == s + CRLF
  {
    SplitAtBreak(s, []);
    assert Split([]) == [[]];
    JoinUndoesSplit(s + CRLF + []);
    assert s + CRLF + [] == s + CRLF;
  }

  // ---- Base64 ------------------------------------------------------------------------------------

  predicate Base64Char(c: char) {
    'A' <= c <= 'Z' || 'a' <= c <= 'z' || '0' <= c <= '9' || c == '+' || c == '/' || c == '='
  }

  predicate Base64Text(s: string) { forall i :: 0 <= i < |s| ==> Base64Char(s[i]) }

  /** A break after every full line, the last one included. */
  function BreakEvery(s: string): string {
    if |s| < LINE then s else s[..LINE] + CRLF + BreakEvery(s[LINE..])
  }

  function ChunkBase64Lines(encoded: string): string { CsvCells.Trim(BreakEvery(encoded)) }

  function Chunks(s: string): (r: seq<string>)
    ensures |r| >= 1
  {
    if |s| <= LINE then [s] else [s[..LINE]] + Chunks(s[LINE..])
  }

  function Concat(lines: seq<string>): string { if lines == [] then [] else lines[0] + Concat(lines[1..]) }

  lemma {:induction false} TrimEndOfSum(x: string, y: string)
    ensures CsvCells.TrimEnd(y) != [] ==> CsvCells.TrimEnd(x + y) == x + CsvCells.TrimEnd(y)
    ensures CsvCells.TrimEnd(y) == [] ==> CsvCells.TrimEnd(x + y) == CsvCells.TrimEnd(x)
  {
    if y == [] {
      assert x + y == x;
    } else if CsvCells.IsSpace(y[|y| - 1]) {
      TrimEndOfSum(x, y[..|y| - 1]);
      assert (x + y)[..|x + y| - 1] == x + y[..|y| - 1];
    }
  }

  lemma {:induction false} TrimmedBreaks(s: string)
    requires Base64Text(s)
    ensures CsvCells.TrimEnd(BreakEvery(s)) == Join(Chunks(s))
    ensures s != [] ==> Join(Chunks(s)) != []
  {
    if |s| >= LINE {
      var head, tail := s[..LINE] + CRLF, s[LINE..];
      assert Base64Text(tail);
      TrimmedBreaks(tail);
      TrimEndOfSum(head, BreakEvery(tail));
      if |s| == LINE {
        assert head[..LINE + 1][..LINE] == s[..LINE] == s;
        assert CsvCells.TrimEnd(head) == CsvCells.TrimEnd(head[..LINE + 1]) == CsvCells.TrimEnd(s);
      } else {
        assert Chunks(s)[1..] == Chunks(tail);
      }
    }
  }

  lemma {:induction false} ChunksAreShort(s: string)
    requires Base64Text(s)
    ensures forall l :: l in Chunks(s) ==> |l| <= LINE && Base64Text(l)
    ensures Concat(Chunks(s)) == s
  {
    if |s| > LINE {
      ChunksAreShort(s[LINE..]);
      assert Chunks(s)[1..] == Chunks(s[LINE..]);
    } else {
      assert [s][1..] == [];
    }
  }

  /** Lines of at most 76 characters, none with a break in it; without the breaks they are the encoding. */
  lemma Base64LinesRestore(encoded: string)
    requires Base64Text(encoded)
    ensures ChunkBase64Lines(encoded) == Join(Chunks(encoded))
    ensures var lines := Split(ChunkBase64Lines(encoded));
            (forall l :: l in lines ==> |l| <= 76 && Base64Text(l)) && Concat(lines) == encoded
  {
    if encoded != [] {
      assert !CsvCells.IsSpace(BreakEvery(encoded)[0]);
    }
    TrimmedBreaks(encoded);
    ChunksAreShort(encoded);
    SplitJoined(Chunks(encoded));
    SingleLinesStay(Chunks(encoded));
  }
}
