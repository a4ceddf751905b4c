/**
 A reference reader for multipart messages, written from section 5.1.1 of RFC
 2046: a line that begins with two hyphens and the boundary delimits, two more
 hyphens close, and the line break before a delimiter belongs to it.
 */
module MimeReader {
  import opened Wrappers
  import opened MimeLines

  /** Header lines up to the first empty line, then the body's lines. */
  datatype Entity = Entity(headers: seq<string>, body: seq<string>)

  function ReadEntity(lines: seq<string>): Entity {
    if lines == [] then Entity([], [])
    else if lines[0] == [] then Entity([], lines[1..])
    else
      var rest := ReadEntity(lines[1..]);
      Entity([lines[0]] + rest.headers, rest.body)
  }

  function Text(e: Entity): string { Join(e.body) }

  predicate Delimits(line: string, boundary: string) { "--" + boundary <= line }

  predicate Closes(line: string, boundary: string) { "--" + boundary + "--" <= line }

  predicate Clear(lines: seq<string>, boundary: string) {
    forall l :: l in lines ==> !Delimits(l, boundary)
  }

  function FirstDelimiter(lines: seq<string>, boundary: string): (k: nat)
    ensures k <= |lines| && Clear(lines[..k], boundary)
    ensures k < |lines| ==> Delimits(lines[k], boundary)
  {
    if lines == [] || Delimits(lines[0], boundary) then 0
    else
      var k := 1 + FirstDelimiter(lines[1..], boundary);
      assert lines[..k] == [lines[0]] + lines[1..][..k - 1];
      k
  }

  /** The parts from just after a delimiter to the closing one; None when nothing closes them. */
  function Parts(lines: seq<string>, boundary: string): Option<seq<seq<string>>>
    decreases |lines|
  {
    var k := FirstDelimiter(lines, boundary);
    if k == |lines| then None
    else if Closes(lines[k], boundary) then Some([lines[..k]])
    else
      match Parts(lines[k + 1..], boundary)
      case None => None
      case Some(rest) => Some([lines[..k]] + rest)
  }

  function ReadEach(parts: seq<seq<string>>): seq<Entity> {
    if parts == [] then [] else [ReadEntity(parts[0])] + ReadEach(parts[1..])
  }

  function ReadMultipart(lines: seq<string>, boundary: string): Option<seq<Entity>> {
    var k := FirstDelimiter(lines, boundary);
    if k == |lines| || Closes(lines[k], boundary) then None
    else
      match Parts(lines[k + 1..], boundary)
      case None => None
      case Some(parts) => Some(ReadEach(parts))
  }

  // ---- The boundary named by a header -------------------------------------------------------------

  const MULTIPART := "Content-Type: multipart/"
  const ALTERNATIVE := MULTIPART + "alternative; boundary=\""
  const RELATED := MULTIPART + "related; boundary=\""

  function UpToQuote(s: string): string {
    if s == [] || s[0] == '"' then [] else [s[0]] + UpToQuote(s[1..])
  }

  function BoundaryIn(line: string): Option<string> {
    if ALTERNATIVE <= line then Some(UpToQuote(line[|ALTERNATIVE|..]))
    else if RELATED <= line then Some(UpToQuote(line[|RELATED|..]))
    else None
  }

  function BoundaryOf(headers: seq<string>): Option<string> {
    if headers == [] then None
    else if BoundaryIn(headers[0]).Some? then BoundaryIn(headers[0])
    else BoundaryOf(headers[1..])
  }

  /** The children of a multipart entity, by the boundary its headers name. */
  function Children(e: Entity): Option<seq<Entity>> {
    match BoundaryOf(e.headers)
    case None => None
    case Some(boundary) => ReadMultipart(e.body, boundary)
  }

  lemma {:induction false} UpToQuoteStops(s: string, rest: string)
    requires '"' !in s
    ensures UpToQuote(s + "\"" + rest) == s
  {
    if s == [] {
    } else {
      assert (s + "\"" + rest)[1..] == s[1..] + "\"" + rest;
      UpToQuoteStops(s[1..], rest);
    }
  }

  lemma {:induction false} HeadersEnd(headers: seq<string>, body: seq<string>)
    requires [] !in headers
    ensures ReadEntity(headers + [[]] + body) == Entity(headers, body)
  {
    var lines := headers + [[]] + body;
    if headers == [] {
      assert lines[1..] == body;
    } else {
      assert lines[1..] == headers[1..] + [[]] + body;
      HeadersEnd(headers[1..], body);
    }
  }

  lemma {:induction false} FirstDelimiterAfter(content: seq<string>, rest: seq<string>, boundary: string)
    requires Clear(content, boundary)
    ensures FirstDelimiter(content + rest, boundary) == |content| + FirstDelimiter(rest, boundary)
  {
    if content == [] {
      assert content + rest == rest;
    } else {
      assert content[0] in content;
      assert (content + rest)[1..] == content[1..] + rest;
      FirstDelimiterAfter(content[1..], rest, boundary);
    }
  }

  /** A clear run of lines before a delimiter is one part. */
  lemma OnePart(content: seq<string>, delimiter: string, rest: seq<string>, boundary: string)
    requires Clear(content, boundary) && Delimits(delimiter, boundary)
    ensures Parts(content + [delimiter] + rest, boundary) ==
            if Closes(delimiter, boundary) then Some([content])
            else match Parts(rest, boundary) case None => None case Some(parts) => Some([content] + parts)
  {
    var lines := content + [delimiter] + rest;
    assert lines == content + ([delimiter] + rest);
    FirstDelimiterAfter(content, [delimiter] + rest, boundary);
    assert lines[..|content|] == content && lines[|content| + 1..] == rest;
  }

  lemma {:induction false} FirstIsFirst(lines: seq<string>, i: nat, boundary: string)
    requires i < |lines| && Delimits(lines[i], boundary)
    ensures FirstDelimiter(lines, boundary) <= i
  {
    if i == 0 {
    } else {
      FirstIsFirst(lines[1..], i - 1, boundary);
    }
  }

  /** A delimiter inside intended content cuts the part short. */
  lemma CutShort(content: seq<string>, rest: seq<string>, boundary: string)
    requires !Clear(content, boundary)
    ensures var parts := Parts(content + rest, boundary);
            parts.Some? ==> |parts.value| > 0 && |parts.value[0]| < |content|
  {
    var i :| 0 <= i < |content| && Delimits(content[i], boundary);
    FirstIsFirst(content + rest, i, boundary);
  }

  /** A shorter run of lines never reads as the same entity, if that entity has a body. */
  lemma ShorterReadsDifferently(short: seq<string>, full: seq<string>)
    requires |short| < |full| && ReadEntity(full).body != [] && [] in full
    ensures ReadEntity(short) != ReadEntity(full)
  {
    EntitySize(short);
    EntitySize(full);
  }

  lemma {:induction false} EntitySize(lines: seq<string>)
    ensures var e := ReadEntity(lines);
            |e.headers| + |e.body| == (if [] in lines then |lines| - 1 else |lines|) && ([] !in lines ==> e.body == [])
  {
    if lines != [] && lines[0] != [] {
      EntitySize(lines[1..]);
      assert lines == [lines[0]] + lines[1..];
    }
  }
}
