/**
 The outgoing mail builder. An image's data is given by its base64 text; the two
 boundary stamps are the clock readings the builder takes.
 */
module MimeBuilder {
  import opened MimeLines
  import opened MimeReader

  datatype Image = Image(mimeType: string, filename: string, cid: string, encoded: string)

  datatype Mail = Mail(
    from: string, to: string, subject: string, plain: string, html: string, images: seq<Image>,
    prefix: string, altStamp: string, relStamp: string)

  const TEXT_PLAIN := "Content-Type: text/plain; charset=UTF-8"
  const TEXT_HTML := "Content-Type: text/html; charset=UTF-8"
  const EIGHT_BIT := "Content-Transfer-Encoding: 8bit"
  const BASE64 := "Content-Transfer-Encoding: base64"

  function AltBoundary(m: Mail): string { m.prefix + "_alt_" + m.altStamp }

  function RelBoundary(m: Mail): string { m.prefix + "_rel_" + m.relStamp }

  function TopHeaders(m: Mail): seq<string> {
    ["From: " + m.from, "To: " + m.to, "Subject: " + m.subject, "MIME-Version: 1.0"]
  }

  function AltParts(m: Mail): seq<string> {
    var dash := "--" + AltBoundary(m);
    [dash, TEXT_PLAIN, EIGHT_BIT, [], m.plain, [],
     dash, TEXT_HTML, EIGHT_BIT, [], m.html, [],
     dash + "--", []]
  }

  function ImageHeaders(img: Image): seq<string> {
    ["Content-Type: " + img.mimeType + "; name=\"" + img.filename + "\"",
     BASE64,
     "Content-ID: <" + img.cid + ">",
     "Content-Disposition: inline; filename=\"" + img.filename + "\"",
     "X-Attachment-Id: " + img.cid]
  }

  function ImageParts(images: seq<Image>, rel: string): seq<string> {
    if images == [] then []
    else
      ["--" + rel] + ImageHeaders(images[0]) + [[], ChunkBase64Lines(images[0].encoded), []] +
      ImageParts(images[1..], rel)
  }

  function AltHeader(m: Mail): string { ALTERNATIVE + AltBoundary(m) + "\"" }

  function RelHeader(m: Mail): string { RELATED + RelBoundary(m) + "\"" }

  function BuildMultipartRfc822(m: Mail): string {
    if m.images == [] then Join(TopHeaders(m) + [AltHeader(m), []] + AltParts(m))
    else
      Join(TopHeaders(m) + [RelHeader(m), [], "--" + RelBoundary(m), AltHeader(m), []] + AltParts(m) +
           ImageParts(m.images, RelBoundary(m)) + ["--" + RelBoundary(m) + "--", []])
  }

  // ---- What should be read back ---------------------------------------------------------------------

  function TextPart(kind: string, text: string): Entity { Entity([kind, EIGHT_BIT], Split(text) + [[]]) }

  function TextParts(m: Mail): seq<Entity> { [TextPart(TEXT_PLAIN, m.plain), TextPart(TEXT_HTML, m.html)] }

  function ImagePart(img: Image): Entity {
    Entity(ImageHeaders(img), Split(ChunkBase64Lines(img.encoded)) + [[]])
  }

  function ImageEntities(images: seq<Image>): seq<Entity> {
    if images == [] then [] else [ImagePart(images[0])] + ImageEntities(images[1..])
  }

  /** Header values are one line each, the boundary prefix has no quote, and image data is base64. */
  predicate Sendable(m: Mail) {
    SingleLine(m.from) && SingleLine(m.to) && SingleLine(m.subject) &&
    '\r' !in m.prefix && '\r' !in m.altStamp && '\r' !in m.relStamp &&
    '"' !in m.prefix && '"' !in m.altStamp && '"' !in m.relStamp &&
    forall img :: img in m.images ==> SendableImage(img)
  }

  predicate SendableImage(img: Image) {
    SingleLine(img.mimeType) && SingleLine(img.filename) && SingleLine(img.cid) && Base64Text(img.encoded)
  }

  // ---- The message as lines -------------------------------------------------------------------------

  lemma NoReturnIsSingle(s: string)
    requires '\r' !in s
    ensures SingleLine(s)
  {
  }

  lemma Wrapped(before: string, x: string, after: string)
    requires '\r' !in before && '\r' !in after && '\n' !in after && SingleLine(x)
    ensures SingleLine(before + x + after)
  {
    var s := before + x + after;
    forall i | 0 <= i < |s| - 1 ensures !(s[i] == '\r' && s[i + 1] == '\n') {
      if i < |before| {
        assert s[i] == before[i];
      } else if i < |before| + |x| {
        assert s[i] == x[i - |before|];
        if i + 1 < |before| + |x| {
          assert s[i + 1] == x[i + 1 - |before|];
        } else {
          assert s[i + 1] == after[0];
        }
      } else {
        assert s[i] == after[i - |before| - |x|];
      }
    }
  }

  lemma TopIsSingle(m: Mail)
    requires Sendable(m)
    ensures forall l :: l in TopHeaders(m) ==> SingleLine(l) && l != []
  {
    Wrapped("From: ", m.from, "");
    Wrapped("To: ", m.to, "");
    Wrapped("Subject: ", m.subject, "");
    assert "From: " + m.from + "" == "From: " + m.from && "To: " + m.to + "" == "To: " + m.to;
    assert "Subject: " + m.subject + "" == "Subject: " + m.subject;
    NoReturnIsSingle("MIME-Version: 1.0");
  }

  lemma BoundariesAreSingle(m: Mail)
    requires Sendable(m)
    ensures '\r' !in AltBoundary(m) && '\r' !in RelBoundary(m) && '"' !in AltBoundary(m) && '"' !in RelBoundary(m)
    ensures SingleLine("--" + AltBoundary(m)) && SingleLine("--" + AltBoundary(m) + "--")
    ensures SingleLine("--" + RelBoundary(m)) && SingleLine("--" + RelBoundary(m) + "--")
  {
    NoReturnIsSingle("--" + AltBoundary(m));
    NoReturnIsSingle("--" + AltBoundary(m) + "--");
    NoReturnIsSingle("--" + RelBoundary(m));
    NoReturnIsSingle("--" + RelBoundary(m) + "--");
  }

  lemma KindHeadersAreSingle(m: Mail)
    requires Sendable(m)
    ensures SingleLine(AltHeader(m)) && SingleLine(RelHeader(m))
  {
    BoundariesAreSingle(m);
    assert '\r' !in ALTERNATIVE && '\r' !in RELATED;
    NoReturnIsSingle(AltHeader(m));
    NoReturnIsSingle(RelHeader(m));
  }

  lemma TextHeadersAreSingle()
    ensures SingleLine(TEXT_PLAIN) && SingleLine(TEXT_HTML) && SingleLine(EIGHT_BIT) && SingleLine(BASE64)
  {
    NoReturnIsSingle(TEXT_PLAIN);
    NoReturnIsSingle(TEXT_HTML);
    NoReturnIsSingle(EIGHT_BIT);
    NoReturnIsSingle(BASE64);
  }

  lemma ImageHeadersAreSingle(img: Image)
    requires SendableImage(img)
    ensures forall l :: l in ImageHeaders(img) ==> SingleLine(l)
  {
    TextHeadersAreSingle();
    NameIsSingle(img);
    CidsAreSingle(img);
    DispositionIsSingle(img);
  }

  lemma CidsAreSingle(img: Image)
    requires SendableImage(img)
    ensures SingleLine("Content-ID: <" + img.cid + ">") && SingleLine("X-Attachment-Id: " + img.cid)
  {
    Wrapped("Content-ID: <", img.cid, ">");
    Wrapped("X-Attachment-Id: ", img.cid, "");
    assert "X-Attachment-Id: " + img.cid + "" == "X-Attachment-Id: " + img.cid;
  }

  lemma DispositionIsSingle(img: Image)
    requires SendableImage(img)
    ensures SingleLine("Content-Disposition: inline; filename=\"" + img.filename + "\"")
  {
    Wrapped("Content-Disposition: inline; filename=\"", img.filename, "\"");
  }

  lemma NameIsSingle(img: Image)
    requires SendableImage(img)
    ensures SingleLine("Content-Type: " + img.mimeType + "; name=\"" + img.filename + "\"")
  {
    Wrapped("; name=\"", img.filename, "\"");
    var tail := "; name=\"" + img.filename + "\"";
    Joined("Content-Type: " + img.mimeType, tail) by {
      Wrapped("Content-Type: ", img.mimeType, "");
      assert "Content-Type: " + img.mimeType + "" == "Content-Type: " + img.mimeType;
    }
    assert "Content-Type: " + img.mimeType + "; name=\"" + img.filename + "\"" ==
           "Content-Type: " + img.mimeType + tail;
  }

  lemma Joined(a: string, b: string)
    requires SingleLine(a) && SingleLine(b) && b != [] && b[0] != '\n'
    ensures SingleLine(a + b)
  {
    var s := a + b;
    forall i | 0 <= i < |s| - 1 ensures !(s[i] == '\r' && s[i + 1] == '\n') {
      if i + 1 < |a| {
        assert s[i] == a[i] && s[i + 1] == a[i + 1];
      } else if i >= |a| {
        assert s[i] == b[i - |a|] && s[i + 1] == b[i + 1 - |a|];
      } else {
        assert s[i + 1] == b[0];
      }
    }
  }

  /** The lines of one text part, between its delimiters. */
  function TextLines(kind: string, text: string): seq<string> { [kind, EIGHT_BIT] + [[]] + (Split(text) + [[]]) }

  function AltLines(m: Mail): seq<string> {
    var dash := "--" + AltBoundary(m);
    [dash] + (TextLines(TEXT_PLAIN, m.plain) + [dash] + (TextLines(TEXT_HTML, m.html) + [dash + "--"] + [[]]))
  }

  lemma TextSplits(kind: string, text: string)
    requires SingleLine(kind)
    ensures SplitAll([kind, EIGHT_BIT, [], text, []]) == TextLines(kind, text)
  {
    var head: seq<string> := [kind, EIGHT_BIT, []];
    assert SplitAll(head) == head by {
      TextHeadersAreSingle();
      SingleLinesStay(head);
    }
    SplitAllOfSum(head, [text, []]);
    assert [kind, EIGHT_BIT, []] + [text, []] == [kind, EIGHT_BIT, [], text, []];
    var last: seq<string> := [[]];
    assert SplitAll(last) == last + SplitAll(last[1..]) == last;
    assert [text, []][1..] == last;
  }

  lemma PartSplits(dash: string, kind: string, text: string, rest: seq<string>)
    requires SingleLine(dash) && SingleLine(kind)
    ensures SplitAll([dash] + ([kind, EIGHT_BIT, [], text, []] + rest)) ==
            [dash] + (TextLines(kind, text) + SplitAll(rest))
  {
    SplitAllOfSum([dash], [kind, EIGHT_BIT, [], text, []] + rest);
    SplitAllOfSum([kind, EIGHT_BIT, [], text, []], rest);
    TextSplits(kind, text);
    SingleLinesStay([dash]);
  }

  lemma AltSplits(m: Mail)
    requires Sendable(m)
    ensures SplitAll(AltParts(m)) == AltLines(m)
  {
    var dash := "--" + AltBoundary(m);
    var close: seq<string> := [dash + "--", []];
    BoundariesAreSingle(m);
    TextHeadersAreSingle();
    var html := [dash] + ([TEXT_HTML, EIGHT_BIT, [], m.html, []] + close);
    assert AltParts(m) == [dash] + ([TEXT_PLAIN, EIGHT_BIT, [], m.plain, []] + html);
    PartSplits(dash, TEXT_PLAIN, m.plain, html);
    PartSplits(dash, TEXT_HTML, m.html, close);
    assert SplitAll(close) == close by {
      SingleLinesStay(close);
    }
    assert close == [dash + "--"] + [[]];
    Regroup(TextLines(TEXT_PLAIN, m.plain), [dash], TextLines(TEXT_HTML, m.html), [dash + "--"], [[]]);
  }

  lemma Regroup(a: seq<string>, b: seq<string>, c: seq<string>, d: seq<string>, e: seq<string>)
    ensures a + (b + (c + (d + e))) == a + b + (c + d + e)
  {
  }
}
