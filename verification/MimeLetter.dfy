/**
 A whole message read back as the letter it was built from: addresses, subject, the
 two texts and the images, taken from the header fields (section 2.2 of RFC 5322;
 the content fields of RFC 2045 and RFC 2183) and the bodies.
 */
module MimeLetter {
  import opened Wrappers
  import opened MimeLines
  import opened MimeReader
  import opened MimeBuilder
  import opened MimeRoundTrip

  datatype Letter = Letter(from: string, to: string, subject: string, plain: string, html: string, images: seq<Image>)

  // ---- Reading ------------------------------------------------------------------------------------------

  /** The body of the first field of that name. */
  function Field(headers: seq<string>, name: string): Option<string> {
    if headers == [] then None
    else if name + ": " <= headers[0] then Some(headers[0][|name| + 2..])
    else Field(headers[1..], name)
  }

  function UpTo(s: string, c: char): string {
    if s == [] || s[0] == c then [] else [s[0]] + UpTo(s[1..], c)
  }

  /** What stands between `before` at the start of a text and the next `c`. */
  function Between(s: string, before: string, c: char): Option<string> {
    if before <= s && |UpTo(s[|before|..], c)| < |s| - |before| then Some(UpTo(s[|before|..], c)) else None
  }

  function TextOf(e: Entity, kind: string): Option<string> {
    if Field(e.headers, "Content-Type") == Some(kind + "; charset=UTF-8") &&
       Field(e.headers, "Content-Transfer-Encoding") == Some("8bit") && e.body != []
    then Some(Join(e.body[..|e.body| - 1]))
    else None
  }

  /** An inline image: its type, its name given twice, its id given twice, and its encoding without line breaks. */
  function ImageOf(e: Entity): Option<Image> {
    match (Field(e.headers, "Content-Type"), Field(e.headers, "Content-ID"), Field(e.headers, "Content-Disposition"))
    case (Some(t), Some(id), Some(d)) =>
      var mime := UpTo(t, ';');
      (match (Between(t, mime + "; name=\"", '"'), Between(id, "<", '>'), Between(d, "inline; filename=\"", '"'))
       case (Some(name), Some(cid), Some(file)) =>
         if name == file && Field(e.headers, "X-Attachment-Id") == Some(cid) &&
            Field(e.headers, "Content-Transfer-Encoding") == Some("base64")
         then Some(Image(mime, name, cid, Concat(e.body)))
         else None
       case _ => None)
    case _ => None
  }

  function ImagesOf(parts: seq<Entity>): Option<seq<Image>> {
    if parts == [] then Some([])
    else
      match (ImageOf(parts[0]), ImagesOf(parts[1..]))
      case (Some(img), Some(rest)) => Some([img] + rest)
      case _ => None
  }

  /** The texts of an alternative part, plain first. */
  function TextsOf(e: Entity): Option<(string, string)> {
    match Children(e)
    case Some(parts) =>
      if |parts| != 2 then None
      else
        (match (TextOf(parts[0], "text/plain"), TextOf(parts[1], "text/html"))
         case (Some(plain), Some(html)) => Some((plain, html))
         case _ => None)
    case None => None
  }

  /** The text part, and the images that come with it. */
  function BodyOf(e: Entity): Option<((string, string), seq<Image>)> {
    if exists l :: l in e.headers && RELATED <= l then
      match Children(e)
      case Some(parts) =>
        if parts == [] then None
        else
          (match (TextsOf(parts[0]), ImagesOf(parts[1..]))
           case (Some(texts), Some(images)) => Some((texts, images))
           case _ => None)
      case None => None
    else
      match TextsOf(e)
      case Some(texts) => Some((texts, []))
      case None => None
  }

  function ReadLetter(message: string): Option<Letter> {
    var e := ReadEntity(Split(message));
    match (Field(e.headers, "From"), Field(e.headers, "To"), Field(e.headers, "Subject"), BodyOf(e))
    case (Some(from), Some(to), Some(subject), Some((texts, images))) =>
      if Field(e.headers, "MIME-Version") == Some("1.0")
      then Some(Letter(from, to, subject, texts.0, texts.1, images))
      else None
    case _ => None
  }

  // ---- Fields -------------------------------------------------------------------------------------------

  lemma FieldHere(headers: seq<string>, name: string, value: string)
    requires headers != [] && headers[0] == name + ": " + value
    ensures Field(headers, name) == Some(value)
  {
    assert headers[0][|name| + 2..] == value;
  }

  /** A line is no field of a name it differs from somewhere. */
  lemma FieldLater(headers: seq<string>, name: string, i: nat)
    requires headers != [] && i < |name| + 2 && i < |headers[0]| && headers[0][i] != (name + ": ")[i]
    ensures Field(headers, name) == Field(headers[1..], name)
  {
  }

  lemma {:induction false} UpToStops(s: string, c: char, rest: string)
    requires c !in s
    ensures UpTo(s + [c] + rest, c) == s
  {
    if s == [] {
    } else {
      assert (s + [c] + rest)[1..] == s[1..] + [c] + rest;
      UpToStops(s[1..], c, rest);
    }
  }

  lemma BetweenIs(before: string, s: string, c: char)
    requires c !in s
    ensures Between(before + s + [c], before, c) == Some(s)
  {
    assert (before + s + [c])[|before|..] == s + [c] + [];
    UpToStops(s, c, []);
  }

  lemma TopFields(m: Mail, last: string)
    ensures var h := TopHeaders(m) + [last];
            Field(h, "From") == Some(m.from) && Field(h, "To") == Some(m.to) &&
            Field(h, "Subject") == Some(m.subject) &&
            Field(h, "MIME-Version") == Some("1.0")
  {
    var h := TopHeaders(m) + [last];
    FieldHere(h, "From", m.from);
    FieldLater(h, "To", 0);
    FieldHere(h[1..], "To", m.to);
    FieldLater(h, "Subject", 0);
    FieldLater(h[1..], "Subject", 0);
    FieldHere(h[1..][1..], "Subject", m.subject);
    FieldLater(h, "MIME-Version", 0);
    FieldLater(h[1..], "MIME-Version", 0);
    FieldLater(h[1..][1..], "MIME-Version", 0);
    FieldHere(h[1..][1..][1..], "MIME-Version", "1.0");
  }

  lemma TextComesBack(kind: string, header: string, text: string)
    requires header == "Content-Type: " + (kind + "; charset=UTF-8")
    ensures TextOf(TextPart(header, text), kind) == Some(text)
  {
    var e := TextPart(header, text);
    FieldHere(e.headers, "Content-Type", kind + "; charset=UTF-8");
    assert header[8] == 'T' && ("Content-Transfer-Encoding" + ": ")[9] == 'r' && header[9] == 'y';
    FieldLater(e.headers, "Content-Transfer-Encoding", 9);
    FieldHere(e.headers[1..], "Content-Transfer-Encoding", "8bit");
    assert e.body[..|e.body| - 1] == Split(text);
    JoinUndoesSplit(text);
  }

  // ---- Images -------------------------------------------------------------------------------------------

  /** Values that end where their field says: no semicolon in a type, no quote in a name, no angle bracket in an id. */
  predicate Delimited(img: Image) { ';' !in img.mimeType && '"' !in img.filename && '>' !in img.cid }

  /** The five fields of an image part. */
  lemma ImageFields(img: Image)
    ensures var h := ImageHeaders(img);
            Field(h, "Content-Type") == Some(img.mimeType + "; name=\"" + img.filename + "\"") &&
            Field(h, "Content-Transfer-Encoding") == Some("base64") &&
            Field(h, "Content-ID") == Some("<" + img.cid + ">") &&
            Field(h, "Content-Disposition") == Some("inline; filename=\"" + img.filename + "\"") &&
            Field(h, "X-Attachment-Id") == Some(img.cid)
  {
    TypeField(ImageHeaders(img), img);
    EncodingField(img);
    NamedFields(img);
    AttachmentField(img);
  }

  lemma EncodingField(img: Image)
    ensures Field(ImageHeaders(img), "Content-Transfer-Encoding") == Some("base64")
  {
    var h := ImageHeaders(img);
    assert h[0][9] == 'y';
    FieldLater(h, "Content-Transfer-Encoding", 9);
    FieldHere(h[1..], "Content-Transfer-Encoding", "base64");
  }

  /** The first two fields are neither the id nor the disposition. */
  lemma SkipTwo(img: Image, name: string)
    requires |name| > 8 && name[8] != 'T'
    ensures Field(ImageHeaders(img), name) == Field(ImageHeaders(img)[2..], name)
  {
    var h := ImageHeaders(img);
    assert h[0][8] == 'T' && h[1..][0] == h[1] && h[1][8] == 'T' && h[1..][1..] == h[2..];
    FieldLater(h, name, 8);
    FieldLater(h[1..], name, 8);
  }

  lemma NamedFields(img: Image)
    ensures Field(ImageHeaders(img), "Content-ID") == Some("<" + img.cid + ">")
    ensures Field(ImageHeaders(img), "Content-Disposition") == Some("inline; filename=\"" + img.filename + "\"")
  {
    var h := ImageHeaders(img)[2..];
    SkipTwo(img, "Content-ID");
    IdField(h, img);
    SkipTwo(img, "Content-Disposition");
    assert h[0] == ImageHeaders(img)[2] && h[0][8] == 'I';
    FieldLater(h, "Content-Disposition", 8);
    DispositionField(h[1..], img);
  }

  lemma AttachmentField(img: Image)
    ensures Field(ImageHeaders(img), "X-Attachment-Id") == Some(img.cid)
  {
    var h := ImageHeaders(img);
    SkipTwo(img, "X-Attachment-Id");
    assert h[2..][0] == h[2] && h[2][0] == 'C' && h[2..][1..] == h[3..];
    FieldLater(h[2..], "X-Attachment-Id", 0);
    assert h[3..][0] == h[3] && h[3][0] == 'C' && h[3..][1..] == h[4..];
    FieldLater(h[3..], "X-Attachment-Id", 0);
    FieldHere(h[4..], "X-Attachment-Id", img.cid);
  }

  lemma TypeField(h: seq<string>, img: Image)
    requires h != [] && h[0] == ImageHeaders(img)[0]
    ensures Field(h, "Content-Type") == Some(img.mimeType + "; name=\"" + img.filename + "\"")
  {
    var value := img.mimeType + "; name=\"" + img.filename + "\"";
    assert h[0] == "Content-Type" + ": " + value;
    FieldHere(h, "Content-Type", value);
  }

  lemma IdField(h: seq<string>, img: Image)
    requires h != [] && h[0] == ImageHeaders(img)[2]
    ensures Field(h, "Content-ID") == Some("<" + img.cid + ">")
  {
    assert h[0] == "Content-ID" + ": " + ("<" + img.cid + ">");
    FieldHere(h, "Content-ID", "<" + img.cid + ">");
  }

  lemma DispositionField(h: seq<string>, img: Image)
    requires h != [] && h[0] == ImageHeaders(img)[3]
    ensures Field(h, "Content-Disposition") == Some("inline; filename=\"" + img.filename + "\"")
  {
    var value := "inline; filename=\"" + img.filename + "\"";
    assert h[0] == "Content-Disposition" + ": " + value;
    FieldHere(h, "Content-Disposition", value);
  }

  /** Its values are cut out of the fields where they began and ended. */
  lemma ImageValues(img: Image)
    requires Delimited(img)
    ensures UpTo(img.mimeType + "; name=\"" + img.filename + "\"", ';') == img.mimeType
    ensures Between(img.mimeType + "; name=\"" + img.filename + "\"", img.mimeType + "; name=\"", '"') ==
            Some(img.filename)
    ensures Between("<" + img.cid + ">", "<", '>') == Some(img.cid)
    ensures Between("inline; filename=\"" + img.filename + "\"", "inline; filename=\"", '"') == Some(img.filename)
  {
    UpToStops(img.mimeType, ';', " name=\"" + img.filename + "\"");
    assert img.mimeType + [';'] +
           (" name=\"" + img.filename + "\"") == img.mimeType + "; name=\"" + img.filename + "\"";
    BetweenIs(img.mimeType + "; name=\"", img.filename, '"');
    BetweenIs("<", img.cid, '>');
    BetweenIs("inline; filename=\"", img.filename, '"');
  }

  lemma ImageComesBack(img: Image)
    requires SendableImage(img) && Delimited(img)
    ensures ImageOf(ImagePart(img)) == Some(img)
  {
    ImageFields(img);
    ImageValues(img);
    ImagePartHoldsItsData(img);
  }

  lemma {:induction false} ImagesComeBack(images: seq<Image>)
    requires forall img :: img in images ==> SendableImage(img) && Delimited(img)
    ensures ImagesOf(ImageEntities(images)) == Some(images)
  {
    if images == [] {
    } else {
      assert images[0] in images && images == [images[0]] + images[1..];
      ImageComesBack(images[0]);
      ImagesComeBack(images[1..]);
    }
  }

  // ---- The letter ---------------------------------------------------------------------------------------

  /** No line of a text looks like a delimiter of a level it is read at. */
  predicate AllClean(m: Mail) {
    Clean(m.plain, AltBoundary(m)) && Clean(m.html, AltBoundary(m)) &&
    (m.images != [] ==> Clean(m.plain, RelBoundary(m)) && Clean(m.html, RelBoundary(m)))
  }

  lemma KindsAreNamed()
    ensures TEXT_PLAIN == "Content-Type: " + ("text/plain" + "; charset=UTF-8")
    ensures TEXT_HTML == "Content-Type: " + ("text/html" + "; charset=UTF-8")
  {
  }

  lemma BothTexts(m: Mail)
    ensures TextOf(TextParts(m)[0], "text/plain") == Some(m.plain)
    ensures TextOf(TextParts(m)[1], "text/html") == Some(m.html)
  {
    KindsAreNamed();
    TextComesBack("text/plain", TEXT_PLAIN, m.plain);
    TextComesBack("text/html", TEXT_HTML, m.html);
  }

  lemma TextsComeBack(e: Entity, m: Mail)
    requires Children(e) == Some(TextParts(m))
    ensures TextsOf(e) == Some((m.plain, m.html))
  {
    BothTexts(m);
    assert |TextParts(m)| == 2;
  }

  lemma NotRelated(m: Mail)
    ensures forall l :: l in TopHeaders(m) + [AltHeader(m)] ==> !(RELATED <= l)
  {
    var h := TopHeaders(m);
    assert RELATED[0] == 'C' && h[0][0] == 'F' && h[1][0] == 'T' && h[2][0] == 'S' && h[3][0] == 'M';
    assert RELATED[|MULTIPART|] == 'r' && AltHeader(m)[|MULTIPART|] == 'a';
  }

  lemma PlainBody(m: Mail)
    requires Sendable(m) && AllClean(m) && m.images == []
    ensures BodyOf(ReadEntity(Split(BuildMultipartRfc822(m)))) == Some(((m.plain, m.html), []))
  {
    AlternativeRoundTrip(m);
    NotRelated(m);
    TextsComeBack(ReadEntity(Split(BuildMultipartRfc822(m))), m);
  }

  lemma IsRelated(m: Mail)
    ensures RelHeader(m) in TopHeaders(m) + [RelHeader(m)] && RELATED <= RelHeader(m)
  {
  }

  lemma RelatedParts(m: Mail)
    requires Sendable(m) && AllClean(m) && forall img :: img in m.images ==> Delimited(img)
    requires Children(AltPart(m)) == Some(TextParts(m))
    ensures var parts := [AltPart(m)] + ImageEntities(m.images);
            TextsOf(parts[0]) == Some((m.plain, m.html)) && ImagesOf(parts[1..]) == Some(m.images)
  {
    TextsComeBack(AltPart(m), m);
    ImagesComeBack(m.images);
    assert ([AltPart(m)] + ImageEntities(m.images))[1..] == ImageEntities(m.images);
  }

  lemma ImageBody(m: Mail)
    requires Sendable(m) && AllClean(m) && m.images != [] && forall img :: img in m.images ==> Delimited(img)
    ensures BodyOf(ReadEntity(Split(BuildMultipartRfc822(m)))) == Some(((m.plain, m.html), m.images))
  {
    RelatedRoundTrip(m);
    IsRelated(m);
    RelatedParts(m);
    var e := ReadEntity(Split(BuildMultipartRfc822(m)));
    BodyOfParts(e, [AltPart(m)] + ImageEntities(m.images), RelHeader(m));
  }

  lemma BodyOfParts(e: Entity, parts: seq<Entity>, header: string)
    requires Children(e) == Some(parts) && parts != [] && header in e.headers && RELATED <= header
    requires TextsOf(parts[0]).Some? && ImagesOf(parts[1..]).Some?
    ensures BodyOf(e) == Some((TextsOf(parts[0]).value, ImagesOf(parts[1..]).value))
  {
  }

  /** The whole letter comes back: who, to whom, about what, both texts exactly, and every image with its names. */
  lemma LetterRoundTrip(m: Mail)
    requires Sendable(m) && AllClean(m) && forall img :: img in m.images ==> Delimited(img)
    ensures ReadLetter(BuildMultipartRfc822(m)) ==
            Some(Letter(m.from, m.to, m.subject, m.plain, m.html, m.images))
  {
    var e := ReadEntity(Split(BuildMultipartRfc822(m)));
    if m.images == [] {
      AlternativeRoundTrip(m);
      TopFields(m, AltHeader(m));
      PlainBody(m);
    } else {
      RelatedRoundTrip(m);
      TopFields(m, RelHeader(m));
      ImageBody(m);
    }
  }
}
