/** What the outgoing mail builder writes is what a multipart reader reads. */
module MimeRoundTrip {
  import opened Wrappers
  import opened MimeLines
  import opened MimeReader
  import opened MimeBuilder

  lemma ReadsText(kind: string, text: string)
    requires kind != []
    ensures ReadEntity(TextLines(kind, text)) == TextPart(kind, text)
    ensures Text(TextPart(kind, text)) == text + CRLF
  {
    HeadersEnd([kind, EIGHT_BIT], Split(text) + [[]]);
    assert TextLines(kind, text) == [kind, EIGHT_BIT] + [[]] + (Split(text) + [[]]);
    BreakAfter(text);
  }

  lemma ClearTextIff(kind: string, text: string, boundary: string)
    requires kind != [] && kind[0] != '-'
    ensures Clear(TextLines(kind, text), boundary) <==> Clear(Split(text), boundary)
  {
    assert ("--" + boundary)[0] == '-';
    var lines := TextLines(kind, text);
    assert forall l :: l in lines <==> l == kind || l == EIGHT_BIT || l == [] || l in Split(text);
  }

  predicate HasBody(lines: seq<string>) { [] in lines && ReadEntity(lines).body != [] }

  /** The last part before a close. */
  lemma LastPartIff(content: seq<string>, boundary: string, epilogue: seq<string>)
    requires HasBody(content)
    ensures var parts := Parts(content + ["--" + boundary + "--"] + epilogue, boundary);
            (Clear(content, boundary) ==> parts == Some([content])) &&
            (!Clear(content, boundary) && parts.Some? ==>
               |parts.value| > 0 && ReadEntity(parts.value[0]) != ReadEntity(content))
  {
    var close := "--" + boundary + "--";
    NotClosing(boundary);
    if Clear(content, boundary) {
      OnePart(content, close, epilogue, boundary);
    } else {
      assert content + [close] + epilogue == content + ([close] + epilogue);
      CutShort(content, [close] + epilogue, boundary);
      FirstDiffers(content + [close] + epilogue, content, boundary);
    }
  }

  /** A part followed by others. */
  lemma NextPartIff(content: seq<string>, boundary: string, rest: seq<string>)
    requires HasBody(content)
    ensures var parts := Parts(content + ["--" + boundary] + rest, boundary);
            var others := Parts(rest, boundary);
            (Clear(content, boundary) ==> parts == if others.Some? then Some([content] + others.value) else None) &&
            (!Clear(content, boundary) && parts.Some? ==>
               |parts.value| > 0 && ReadEntity(parts.value[0]) != ReadEntity(content))
  {
    var dash := "--" + boundary;
    NotClosing(boundary);
    if Clear(content, boundary) {
      OnePart(content, dash, rest, boundary);
    } else {
      assert content + [dash] + rest == content + ([dash] + rest);
      CutShort(content, [dash] + rest, boundary);
      FirstDiffers(content + [dash] + rest, content, boundary);
    }
  }

  lemma OpensAtOnce(body: seq<string>, boundary: string)
    ensures ReadMultipart(["--" + boundary] + body, boundary) ==
            match Parts(body, boundary)
            case None => None
            case Some(parts) => Some(ReadEach(parts))
  {
    NotClosing(boundary);
    assert (["--" + boundary] + body)[1..] == body;
  }

  /** Two parts under one boundary read back exactly when neither holds a delimiter. */
  lemma TwoPartsIff(first: seq<string>, second: seq<string>, boundary: string, epilogue: seq<string>)
    requires HasBody(first) && HasBody(second)
    ensures var dash := "--" + boundary;
            ReadMultipart([dash] + (first + [dash] + (second + [dash + "--"] + epilogue)), boundary) ==
              Some([ReadEntity(first), ReadEntity(second)]) <==>
            Clear(first, boundary) && Clear(second, boundary)
  {
    var dash := "--" + boundary;
    var tail := second + [dash + "--"] + epilogue;
    OpensAtOnce(first + [dash] + tail, boundary);
    var parts := Parts(first + [dash] + tail, boundary);
    NextPartIff(first, boundary, tail);
    LastPartIff(second, boundary, epilogue);
    if Clear(first, boundary) && Clear(second, boundary) {
      assert parts == Some([first] + [second]);
      TwoEntities(first, second);
    } else if Clear(first, boundary) && parts.Some? {
      var others := Parts(tail, boundary).value;
      assert parts.value[0] == first && parts.value[1..] == others;
      assert ReadEach(parts.value)[1] == ReadEntity(others[0]);
    } else if parts.Some? {
      assert ReadEach(parts.value)[0] == ReadEntity(parts.value[0]);
    }
  }

  lemma TwoEntities(first: seq<string>, second: seq<string>)
    ensures ReadEach([first] + [second]) == [ReadEntity(first), ReadEntity(second)]
  {
    var none: seq<seq<string>> := [];
    assert ([first] + [second])[1..] == [second] && [second][1..] == none;
    assert ReadEach([second]) == [ReadEntity(second)] + ReadEach(none);
  }

  lemma NotClosing(boundary: string)
    ensures Delimits("--" + boundary, boundary) && !Closes("--" + boundary, boundary)
    ensures Delimits("--" + boundary + "--", boundary) && Closes("--" + boundary + "--", boundary)
  {
  }

  lemma FirstDiffers(lines: seq<string>, full: seq<string>, boundary: string)
    requires ReadEntity(full).body != [] && [] in full
    requires Parts(lines, boundary).Some? ==>
               |Parts(lines, boundary).value| > 0 && |Parts(lines, boundary).value[0]| < |full|
    ensures Parts(lines, boundary).Some? ==> ReadEntity(Parts(lines, boundary).value[0]) != ReadEntity(full)
  {
    if Parts(lines, boundary).Some? {
      ShorterReadsDifferently(Parts(lines, boundary).value[0], full);
    }
  }

  /** No line of the text begins with two hyphens and the boundary. */
  predicate Clean(text: string, boundary: string) { Clear(Split(text), boundary) }

  lemma AltBodyIff(m: Mail)
    ensures ReadMultipart(AltLines(m), AltBoundary(m)) == Some(TextParts(m)) <==>
            Clean(m.plain, AltBoundary(m)) && Clean(m.html, AltBoundary(m))
  {
    ReadsText(TEXT_PLAIN, m.plain);
    ReadsText(TEXT_HTML, m.html);
    ClearTextIff(TEXT_PLAIN, m.plain, AltBoundary(m));
    ClearTextIff(TEXT_HTML, m.html, AltBoundary(m));
    assert TextLines(TEXT_PLAIN, m.plain)[2] == [] && TextLines(TEXT_HTML, m.html)[2] == [];
    TwoPartsIff(TextLines(TEXT_PLAIN, m.plain), TextLines(TEXT_HTML, m.html), AltBoundary(m), [[]]);
  }

  /** The last header of either kind names its own boundary. */
  lemma NamesItsBoundary(m: Mail)
    requires Sendable(m)
    ensures BoundaryIn(AltHeader(m)) == Some(AltBoundary(m)) && BoundaryIn(RelHeader(m)) == Some(RelBoundary(m))
  {
    BoundariesAreSingle(m);
    UpToQuoteStops(AltBoundary(m), []);
    UpToQuoteStops(RelBoundary(m), []);
    assert AltBoundary(m) + "\"" + [] == AltBoundary(m) + "\"" && RelBoundary(m) + "\"" + [] == RelBoundary(m) + "\"";
    assert AltHeader(m)[|ALTERNATIVE|..] == AltBoundary(m) + "\"";
    assert RelHeader(m)[|RELATED|..] == RelBoundary(m) + "\"";
    assert ALTERNATIVE[|MULTIPART|] == 'a' && RelHeader(m)[|MULTIPART|] == 'r';
  }

  lemma TopNamesNoBoundary(m: Mail, last: string)
    ensures BoundaryOf(TopHeaders(m) + [last]) == BoundaryIn(last)
  {
    var h := TopHeaders(m) + [last];
    assert ALTERNATIVE[0] == 'C' && RELATED[0] == 'C';
    assert h[0][0] == 'F' && h[1][0] == 'T' && h[2][0] == 'S' && h[3][0] == 'M';
    assert h[1..][1..][1..][1..] == [last];
    assert h[1..][0] == h[1] && h[1..][1..][0] == h[2] && h[1..][1..][1..][0] == h[3];
    var none: seq<string> := [];
    assert [last][1..] == none;
    assert BoundaryOf([last]) == BoundaryIn(last);
    assert BoundaryOf(h[1..][1..][1..]) == BoundaryIn(last);
    assert BoundaryOf(h[1..][1..]) == BoundaryIn(last);
    assert BoundaryOf(h[1..]) == BoundaryIn(last);
  }

  /** A message with its top headers, one kind header and a body of lines. */
  lemma ReadsTop(m: Mail, last: string, body: seq<string>)
    requires Sendable(m) && SingleLine(last) && last != [] && body != []
    ensures Split(Join(TopHeaders(m) + [last, []] + body)) == TopHeaders(m) + [last, []] + SplitAll(body)
    ensures ReadEntity(TopHeaders(m) + [last, []] + SplitAll(body)) == Entity(TopHeaders(m) + [last], SplitAll(body))
  {
    TopStays(m, last);
    assert TopHeaders(m) + [last] + [[]] == TopHeaders(m) + [last, []];
    ReadsHeaders(TopHeaders(m) + [last], body);
  }

  lemma TopStays(m: Mail, last: string)
    requires Sendable(m) && SingleLine(last) && last != []
    ensures SplitAll(TopHeaders(m) + [last] + [[]]) == TopHeaders(m) + [last] + [[]] && [] !in TopHeaders(m) + [last]
  {
    TopIsSingle(m);
    SingleLinesStay(TopHeaders(m) + [last] + [[]]);
  }

  lemma ReadsHeaders(headers: seq<string>, body: seq<string>)
    requires SplitAll(headers + [[]]) == headers + [[]] && [] !in headers
    ensures Split(Join(headers + [[]] + body)) == headers + [[]] + SplitAll(body)
    ensures ReadEntity(headers + [[]] + SplitAll(body)) == Entity(headers, SplitAll(body))
  {
    SplitJoined(headers + [[]] + body);
    SplitAllOfSum(headers + [[]], body);
    HeadersEnd(headers, SplitAll(body));
  }

  /**
   Without images: the reader finds the headers, and exactly the plain and html
   parts in order, if and only if no line of either text looks like a delimiter.
   */
  lemma AlternativeRoundTrip(m: Mail)
    requires Sendable(m) && m.images == []
    ensures var read := ReadEntity(Split(BuildMultipartRfc822(m)));
            read.headers == TopHeaders(m) + [AltHeader(m)] &&
            (Children(read) == Some(TextParts(m)) <==> Clean(m.plain, AltBoundary(m)) && Clean(m.html, AltBoundary(m)))
  {
    KindHeadersAreSingle(m);
    ReadsTop(m, AltHeader(m), AltParts(m));
    AltSplits(m);
    TopNamesNoBoundary(m, AltHeader(m));
    NamesItsBoundary(m);
    AltBodyIff(m);
  }

  /** Each text part's content is the text and the one line break the builder adds. */
  lemma TextPartsHoldTheTexts(m: Mail)
    ensures Text(TextParts(m)[0]) == m.plain + CRLF && Text(TextParts(m)[1]) == m.html + CRLF
  {
    BreakAfter(m.plain);
    BreakAfter(m.html);
  }

  // ---- With inline images -------------------------------------------------------------------------------

  /** The lines of one image part, between its delimiters. */
  function ImageLines(img: Image): seq<string> {
    ImageHeaders(img) + [[]] + (Split(ChunkBase64Lines(img.encoded)) + [[]])
  }

  /** From the delimiter after the text part to the end. */
  function ImageTail(images: seq<Image>, rel: string): seq<string> {
    if images == [] then ["--" + rel + "--", []]
    else ["--" + rel] + (ImageLines(images[0]) + ImageTail(images[1..], rel))
  }

  lemma OneImageSplits(img: Image, dash: string, rest: seq<string>)
    requires SingleLine(dash) && SendableImage(img)
    ensures SplitAll([dash] + ImageHeaders(img) + [[], ChunkBase64Lines(img.encoded), []] + rest) ==
            [dash] + (ImageLines(img) + SplitAll(rest))
  {
    var headers, text := ImageHeaders(img), ChunkBase64Lines(img.encoded);
    assert SplitAll([dash] + headers + [[]]) == [dash] + headers + [[]] by {
      ImageHeadersAreSingle(img);
      SingleLinesStay([dash] + headers + [[]]);
    }
    PlainLinesThenText(dash, headers, text, rest);
  }

  lemma PlainLinesThenText(dash: string, headers: seq<string>, text: string, rest: seq<string>)
    requires SplitAll([dash] + headers + [[]]) == [dash] + headers + [[]]
    ensures SplitAll([dash] + headers + [[], text, []] + rest) ==
            [dash] + (headers + [[]] + (Split(text) + [[]]) + SplitAll(rest))
  {
    var head := [dash] + headers + [[]];
    TextThen(head, text, rest);
    Reassociate(dash, headers, [text, []], rest);
    Reassociate(dash, headers, Split(text) + [[]], SplitAll(rest));
    assert [[]] + [text, []] == [[], text, []];
  }

  lemma TextThen(head: seq<string>, text: string, rest: seq<string>)
    requires SplitAll(head) == head
    ensures SplitAll(head + ([text, []] + rest)) == head + (Split(text) + [[]] + SplitAll(rest))
  {
    SplitAllOfSum(head, [text, []] + rest);
    SplitAllOfSum([text, []], rest);
    TwoTexts(text);
  }

  lemma Reassociate(dash: string, headers: seq<string>, x: seq<string>, rest: seq<string>)
    ensures [dash] + headers + [[]] + (x + rest) == [dash] + (headers + [[]] + x + rest)
    ensures [dash] + headers + [[]] + (x + rest) == [dash] + headers + ([[]] + x) + rest
  {
  }

  lemma {:induction false} ImagesSplit(images: seq<Image>, rel: string)
    requires '\r' !in rel && forall img :: img in images ==> SendableImage(img)
    ensures SplitAll(ImageParts(images, rel) + ["--" + rel + "--", []]) == ImageTail(images, rel)
  {
    var close: seq<string> := ["--" + rel + "--", []];
    NoReturnIsSingle("--" + rel);
    NoReturnIsSingle("--" + rel + "--");
    if images == [] {
      assert ImageParts(images, rel) + close == close;
      SingleLinesStay(close);
    } else {
      assert images[0] in images;
      var head := ["--" + rel] + ImageHeaders(images[0]) + [[], ChunkBase64Lines(images[0].encoded), []];
      assert head + ImageParts(images[1..], rel) + close == head + (ImageParts(images[1..], rel) + close);
      ImagesSplit(images[1..], rel);
      OneImageSplits(images[0], "--" + rel, ImageParts(images[1..], rel) + close);
    }
  }

  lemma TwoTexts(text: string)
    ensures SplitAll([text, []]) == Split(text) + [[]]
  {
    var last: seq<string> := [[]];
    assert SplitAll(last) == last + SplitAll(last[1..]) == last;
    assert [text, []][1..] == last;
  }

  lemma ImageHeadersAreNotDelimiters(img: Image)
    ensures forall l :: l in ImageHeaders(img) ==> l != [] && l[0] != '-'
  {
    var h := ImageHeaders(img);
    assert h[0][0] == 'C' && h[1][0] == 'C' && h[2][0] == 'C' && h[3][0] == 'C' && h[4][0] == 'X';
  }

  lemma Undashed(lines: seq<string>, boundary: string)
    requires forall l :: l in lines ==> l == [] || l[0] != '-'
    ensures Clear(lines, boundary)
  {
    assert ("--" + boundary)[0] == '-';
  }

  lemma EncodedIsUndashed(encoded: string)
    requires Base64Text(encoded)
    ensures forall l :: l in Split(ChunkBase64Lines(encoded)) ==> l == [] || l[0] != '-'
  {
    Base64LinesRestore(encoded);
    forall l | l in Split(ChunkBase64Lines(encoded)) ensures l == [] || l[0] != '-' {
      assert Base64Text(l);
    }
  }

  lemma ImageIsClear(img: Image, boundary: string)
    requires SendableImage(img)
    ensures Clear(ImageLines(img), boundary) && ReadEntity(ImageLines(img)) == ImagePart(img)
  {
    var headers, text := ImageHeaders(img), Split(ChunkBase64Lines(img.encoded)) + [[]];
    ImageHeadersAreNotDelimiters(img);
    EncodedIsUndashed(img.encoded);
    Undashed(headers + [[]], boundary);
    Undashed(text, boundary);
    ClearSum(headers + [[]], text, boundary);
    HeadersEnd(headers, text);
  }

  function ImageRuns(images: seq<Image>): seq<seq<string>> {
    if images == [] then [] else [ImageLines(images[0])] + ImageRuns(images[1..])
  }

  lemma {:induction false} ImagePartsFollow(content: seq<string>, images: seq<Image>, rel: string)
    requires Clear(content, rel) && forall img :: img in images ==> SendableImage(img)
    ensures Parts(content + ImageTail(images, rel), rel) == Some([content] + ImageRuns(images))
    decreases |images|
  {
    NotClosing(rel);
    if images == [] {
      assert content + ImageTail(images, rel) == content + ["--" + rel + "--"] + [[]];
      OnePart(content, "--" + rel + "--", [[]], rel);
      assert [content] + ImageRuns(images) == [content];
    } else {
      assert images[0] in images;
      ImageIsClear(images[0], rel);
      ImagePartsFollow(ImageLines(images[0]), images[1..], rel);
      var rest := ImageLines(images[0]) + ImageTail(images[1..], rel);
      assert content + ImageTail(images, rel) == content + ["--" + rel] + rest;
      OnePart(content, "--" + rel, rest, rel);
    }
  }

  lemma {:induction false} ImageRunsRead(images: seq<Image>)
    requires forall img :: img in images ==> SendableImage(img)
    ensures ReadEach(ImageRuns(images)) == ImageEntities(images)
  {
    if images == [] {
    } else {
      assert images[0] in images;
      ImageIsClear(images[0], []);
      ImageRunsRead(images[1..]);
    }
  }

  /** The text part of a related message: itself a multipart. */
  function AltPart(m: Mail): Entity { Entity([AltHeader(m)], AltLines(m)) }

  lemma ClearSum(a: seq<string>, b: seq<string>, boundary: string)
    ensures Clear(a + b, boundary) <==> Clear(a, boundary) && Clear(b, boundary)
  {
    assert forall l :: l in a + b <==> l in a || l in b;
  }

  /** The alternative's delimiters are not the related message's: the two boundaries differ before their stamps. */
  lemma AltDelimitersAreClear(m: Mail, suffix: string)
    ensures !Delimits("--" + AltBoundary(m) + suffix, RelBoundary(m))
  {
    var line, dash := "--" + AltBoundary(m) + suffix, "--" + RelBoundary(m);
    var i := 2 + |m.prefix| + 1;
    assert line[i] == ("_alt_" + m.altStamp)[1] == 'a';
    assert dash[i] == ("_rel_" + m.relStamp)[1] == 'r';
  }

  lemma AltPartClearIff(m: Mail)
    ensures Clear([AltHeader(m)] + [[]] + AltLines(m), RelBoundary(m)) <==>
            Clean(m.plain, RelBoundary(m)) && Clean(m.html, RelBoundary(m))
  {
    var rel, dash := RelBoundary(m), "--" + AltBoundary(m);
    AltDelimitersAreClear(m, []);
    AltDelimitersAreClear(m, "--");
    assert dash + [] == dash;
    assert ("--" + rel)[0] == '-' && AltHeader(m)[0] == 'C';
    ClearTextIff(TEXT_PLAIN, m.plain, rel);
    ClearTextIff(TEXT_HTML, m.html, rel);
    var html := TextLines(TEXT_HTML, m.html) + [dash + "--"] + [[]];
    ClearSum([AltHeader(m)] + [[]], AltLines(m), rel);
    ClearSum([dash], TextLines(TEXT_PLAIN, m.plain) + [dash] + html, rel);
    ClearSum(TextLines(TEXT_PLAIN, m.plain) + [dash], html, rel);
    ClearSum(TextLines(TEXT_PLAIN, m.plain), [dash], rel);
    ClearSum(TextLines(TEXT_HTML, m.html) + [dash + "--"], [[]], rel);
    ClearSum(TextLines(TEXT_HTML, m.html), [dash + "--"], rel);
  }

  /** Between the first delimiter and the end. */
  function RelatedLines(m: Mail): seq<string> {
    [AltHeader(m)] + [[]] + AltLines(m) + ImageTail(m.images, RelBoundary(m))
  }

  lemma RelatedReads(m: Mail)
    requires Sendable(m) && Clear([AltHeader(m)] + [[]] + AltLines(m), RelBoundary(m))
    ensures ReadMultipart(["--" + RelBoundary(m)] + RelatedLines(m), RelBoundary(m)) ==
            Some([AltPart(m)] + ImageEntities(m.images))
  {
    var content, rel := [AltHeader(m)] + [[]] + AltLines(m), RelBoundary(m);
    OpensAtOnce(RelatedLines(m), rel);
    HeadersEnd([AltHeader(m)], AltLines(m));
    ImagePartsFollow(content, m.images, rel);
    ImageRunsRead(m.images);
    assert ([content] + ImageRuns(m.images))[1..] == ImageRuns(m.images);
  }

  lemma Misreads(content: seq<string>, rest: seq<string>, boundary: string, wanted: seq<Entity>)
    requires !Clear(content, boundary) && HasBody(content) && wanted != [] && wanted[0] == ReadEntity(content)
    ensures ReadMultipart(["--" + boundary] + (content + rest), boundary) != Some(wanted)
  {
    OpensAtOnce(content + rest, boundary);
    CutShort(content, rest, boundary);
    FirstDiffers(content + rest, content, boundary);
  }

  lemma RelatedMisreads(m: Mail)
    requires !Clear([AltHeader(m)] + [[]] + AltLines(m), RelBoundary(m))
    ensures ReadMultipart(["--" + RelBoundary(m)] + RelatedLines(m), RelBoundary(m)) !=
            Some([AltPart(m)] + ImageEntities(m.images))
  {
    var content := [AltHeader(m)] + [[]] + AltLines(m);
    HeadersEnd([AltHeader(m)], AltLines(m));
    assert content[1] == [];
    Misreads(content, ImageTail(m.images, RelBoundary(m)), RelBoundary(m), [AltPart(m)] + ImageEntities(m.images));
  }

  /** The related body reads as the text part and then the images, exactly when the texts are clean. */
  lemma RelatedBodyIff(m: Mail)
    requires Sendable(m)
    ensures ReadMultipart(["--" + RelBoundary(m)] + RelatedLines(m), RelBoundary(m)) ==
              Some([AltPart(m)] + ImageEntities(m.images)) <==>
            Clean(m.plain, RelBoundary(m)) && Clean(m.html, RelBoundary(m))
  {
    AltPartClearIff(m);
    if Clear([AltHeader(m)] + [[]] + AltLines(m), RelBoundary(m)) {
      RelatedReads(m);
    } else {
      RelatedMisreads(m);
    }
  }

  /**
   With images: the reader finds the text part and the images in order, and inside
   the text part the plain and html parts, if and only if no line of either text
   looks like a delimiter of the level it is read at.
   */
  lemma RelatedRoundTrip(m: Mail)
    requires Sendable(m) && m.images != []
    ensures var read := ReadEntity(Split(BuildMultipartRfc822(m)));
            read.headers == TopHeaders(m) + [RelHeader(m)] &&
            (Children(read) == Some([AltPart(m)] + ImageEntities(m.images)) <==>
               Clean(m.plain, RelBoundary(m)) && Clean(m.html, RelBoundary(m))) &&
            (Children(AltPart(m)) == Some(TextParts(m)) <==>
               Clean(m.plain, AltBoundary(m)) && Clean(m.html, AltBoundary(m)))
  {
    RelatedSplits(m);
    RelatedText(m);
    KindHeadersAreSingle(m);
    ReadsTop(m, RelHeader(m), RelatedBody(m));
    TopNamesNoBoundary(m, RelHeader(m));
    NamesItsBoundary(m);
    RelatedBodyIff(m);
    AltBodyIff(m);
    assert BoundaryOf([AltHeader(m)]) == BoundaryIn(AltHeader(m));
  }

  function RelatedBody(m: Mail): seq<string> {
    ["--" + RelBoundary(m), AltHeader(m), []] +
    (AltParts(m) + (ImageParts(m.images, RelBoundary(m)) + ["--" + RelBoundary(m) + "--", []]))
  }

  lemma SplitThree(head: seq<string>, parts: seq<string>, tail: seq<string>)
    requires SplitAll(head) == head
    ensures SplitAll(head + (parts + tail)) == head + SplitAll(parts) + SplitAll(tail)
  {
    SplitAllOfSum(head, parts + tail);
    SplitAllOfSum(parts, tail);
  }

  lemma RelatedSplits(m: Mail)
    requires Sendable(m)
    ensures SplitAll(RelatedBody(m)) == ["--" + RelBoundary(m)] + RelatedLines(m)
  {
    var rel := RelBoundary(m);
    var head: seq<string> := ["--" + rel, AltHeader(m), []];
    assert '\r' !in rel && SplitAll(head) == head by {
      BoundariesAreSingle(m);
      KindHeadersAreSingle(m);
      SingleLinesStay(head);
    }
    AltSplits(m);
    ImagesSplit(m.images, rel);
    Regrouped("--" + rel, AltHeader(m), AltParts(m), ImageParts(m.images, rel) + ["--" + rel + "--", []]);
  }

  lemma Regrouped(dash: string, alt: string, parts: seq<string>, tail: seq<string>)
    requires SplitAll([dash, alt, []]) == [dash, alt, []]
    ensures SplitAll([dash, alt, []] + (parts + tail)) == [dash] + ([alt] + [[]] + SplitAll(parts) + SplitAll(tail))
  {
    SplitThree([dash, alt, []], parts, tail);
  }

  lemma RelatedText(m: Mail)
    requires m.images != []
    ensures BuildMultipartRfc822(m) == Join(TopHeaders(m) + [RelHeader(m), []] + RelatedBody(m))
  {
    var rel := RelBoundary(m);
    var images, close := ImageParts(m.images, rel), ["--" + rel + "--", []];
    Interleave(TopHeaders(m), RelHeader(m), "--" + rel, AltHeader(m), AltParts(m), images, close);
  }

  lemma Interleave(
      top: seq<string>, last: string, dash: string, alt: string,
      parts: seq<string>, images: seq<string>, close: seq<string>)
    ensures top + [last, [], dash, alt, []] + parts + images + close ==
            top + [last, []] + ([dash, alt, []] + (parts + (images + close)))
  {
  }

  /** An image part's content is the encoding in lines of at most 76, and one line break. */
  lemma ImagePartHoldsItsData(img: Image)
    requires SendableImage(img)
    ensures Text(ImagePart(img)) == ChunkBase64Lines(img.encoded) + CRLF
    ensures (forall l :: l in ImagePart(img).body ==> |l| <= 76) && Concat(ImagePart(img).body) == img.encoded
  {
    BreakAfter(ChunkBase64Lines(img.encoded));
    Base64LinesRestore(img.encoded);
    ConcatOneEmpty(Split(ChunkBase64Lines(img.encoded)));
  }

  lemma {:induction false} ConcatOneEmpty(lines: seq<string>)
    ensures Concat(lines + [[]]) == Concat(lines)
  {
    var last: seq<string> := [[]];
    if lines == [] {
      assert lines + last == last && last[1..] == [];
    } else {
      ConcatOneEmpty(lines[1..]);
      assert (lines + [[]])[1..] == lines[1..] + [[]];
    }
  }
}
