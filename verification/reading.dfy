/** The reading page handler: decode the `r` payload back into the reading
    record, answer 400 when it is missing or unusable, otherwise 200 with
    either the PDF page or the HTML page. The pages themselves are not
    modelled; what is modelled is the reading text each page embeds, after
    its rewrites. */
module Reading {
  import opened Common
  import opened Records
  import opened Text

  datatype Request = Request(r: Option<string>, format: Option<string>)

  datatype Page =
    | ErrorPage(title: string, message: string)
    | PdfPage(data: ReadingData, text: string)
    | HtmlPage(data: ReadingData, text: string, r: string)

  datatype Reply = Reply(status: int, page: Page)

  const TitleOpen := "###TITLE###"
  const TitleClose := "###ENDTITLE###"
  const LineMarker := "###NEWLINE###"
  const HeadingOpen := "<div class=\"st\">"
  const HeadingClose := "</div>"
  const ParagraphBreak := "</p><p>"
  const LineBreak := "<br>"

  /** `decodeReading`. */
  function DecodeReading(codec: Codec<ReadingData>, r: string): (d: Option<ReadingData>)
    ensures |r| % 4 == 1 ==> d == None
  {
    DecodePayload(codec, r)
  }

  /** The reading text of the PDF page: headings marked, newlines replaced
      by a marker the page script splits on. */
  function PdfText(s: string): string {
    ReplaceAll(ReplaceHeadings(s, TitleOpen, TitleClose), "\n", LineMarker)
  }

  /** `D.rd.split('###NEWLINE###')`: the lines the PDF script lays out. */
  function PdfLines(s: string): (lines: seq<string>)
    ensures |lines| >= 1
  {
    Split(PdfText(s), LineMarker)
  }

  /** The reading text of the HTML page: headings as divs, blank lines as
      paragraph breaks, remaining newlines as line breaks, in that order. */
  function HtmlText(s: string): string {
    ReplaceAll(ReplaceAll(ReplaceHeadings(s, HeadingOpen, HeadingClose), "\n\n", ParagraphBreak), "\n", LineBreak)
  }

  function Handle(codec: Codec<ReadingData>, req: Request): (reply: Reply)
    ensures reply.status == OK || reply.status == BAD_REQUEST
    ensures !Truthy(req.r) ==> reply == Reply(BAD_REQUEST, ErrorPage("No Reading", "No reading data found."))
    ensures Truthy(req.r) ==>
      var d := DecodeReading(codec, req.r.value);
      (reply.status == BAD_REQUEST <==> d.None? || !Truthy(d.value.reading))
    ensures reply.status == OK ==>
      var d := DecodeReading(codec, req.r.value).value;
      if req.format == Some("pdf") then reply.page == PdfPage(d, PdfText(d.reading.value))
      else reply.page == HtmlPage(d, HtmlText(d.reading.value), req.r.value)
  {
    if !Truthy(req.r) then Reply(BAD_REQUEST, ErrorPage("No Reading", "No reading data found."))
    else
      var r := req.r.value;
      match DecodeReading(codec, r)
      case None => Reply(BAD_REQUEST, ErrorPage("Invalid Data", "Could not decode reading."))
      case Some(d) =>
        if !Truthy(d.reading) then Reply(BAD_REQUEST, ErrorPage("Invalid Data", "Could not decode reading."))
        else if req.format == Some("pdf") then Reply(OK, PdfPage(d, PdfText(d.reading.value)))
        else Reply(OK, HtmlPage(d, HtmlText(d.reading.value), r))
  }

  // ---- end to end -----------------------------------------------------

  /** A link built by the payment handler opens: the page shows the record
      that was encoded, whatever the format. */
  lemma EncodedReadingOpens(codec: Codec<ReadingData>, d: ReadingData, format: Option<string>)
    requires Faithful(codec)
    requires codec.stringify(d) != ""
    requires Truthy(d.reading)
    ensures var r := EncodePayload(codec, d);
      var reply := Handle(codec, Request(Some(r), format));
      reply.status == OK && reply.page.data == d
  {
    var r := EncodePayload(codec, d);
    PayloadRoundTrip(codec, d);
    EncodedNonEmpty(codec, d);
  }

  lemma EncodedNonEmpty(codec: Codec<ReadingData>, d: ReadingData)
    requires codec.stringify(d) != ""
    ensures EncodePayload(codec, d) != ""
  {
    var bytes := Utf8.Encode(codec.stringify(d));
    assert |bytes| >= 1;
    assert |Base64.UrlEncode(bytes)| == (4 * |bytes| + 2) / 3;
  }

  // ---- the HTML rewrite -----------------------------------------------

  /** No newline survives the HTML rewrite. */
  lemma HtmlHasNoNewline(s: string)
    ensures '\n' !in HtmlText(s)
  {
    ReplaceRemovesChar(ReplaceAll(ReplaceHeadings(s, HeadingOpen, HeadingClose), "\n\n", ParagraphBreak), '\n', LineBreak);
    assert [('\n')] == "\n";
  }

  /** Without headings, the HTML text is the paragraphs (split at blank
      lines) joined by paragraph breaks, each with its single newlines
      turned into line breaks. */
  lemma HtmlParagraphs(s: string)
    requires StarFree(s)
    ensures HtmlText(s) == Join(ReplaceEach(Split(s, "\n\n"), '\n', LineBreak), ParagraphBreak)
  {
    HeadingsIdentity(s, HeadingOpen, HeadingClose);
    ReplaceIsSplitJoin(s, "\n\n", ParagraphBreak);
    assert '\n' !in ParagraphBreak;
    ReplaceCharJoin(Split(s, "\n\n"), ParagraphBreak, '\n', LineBreak);
    assert [('\n')] == "\n";
  }

  /** A heading line `**x**` followed by plain text becomes a heading div. */
  lemma HtmlHeading(x: string, rest: string)
    requires |x| > 0 && StarFree(x) && StarFree(rest)
    requires '\n' !in x && '\n' !in rest
    ensures HtmlText("**" + x + "**" + rest) == HeadingOpen + x + HeadingClose + rest
  {
    HeadingRewritten(x, rest, HeadingOpen, HeadingClose);
    HeadingsIdentity(rest, HeadingOpen, HeadingClose);
    var t := HeadingOpen + x + HeadingClose + rest;
    assert '\n' !in HeadingOpen && '\n' !in HeadingClose;
    assert '\n' !in t;
    ReplaceAbsent(t, "\n\n", ParagraphBreak);
    ReplaceAbsent(t, "\n", LineBreak);
  }

  // ---- the PDF rewrite ------------------------------------------------

  /** No newline survives the PDF rewrite. */
  lemma PdfHasNoNewline(s: string)
    ensures '\n' !in PdfText(s)
  {
    ReplaceRemovesChar(ReplaceHeadings(s, TitleOpen, TitleClose), '\n', LineMarker);
    assert [('\n')] == "\n";
  }

  /** For text with neither `#` nor `*`, the PDF script gets one part per
      line of the reading. */
  lemma PdfLinesPlain(s: string)
    requires '#' !in s && StarFree(s)
    ensures PdfLines(s) == Split(s, "\n")
  {
    HeadingsIdentity(s, TitleOpen, TitleClose);
    ReplaceIsSplitJoin(s, "\n", LineMarker);
    SplitKeepsAbsent(s, "\n", '#');
    SplitJoin(Split(s, "\n"), LineMarker);
  }

  /** Without the `#` premise the one-part-per-line property fails even for
      text that does not contain the marker: the one-line reading
      `**NEWLINE**` becomes `###TITLE###NEWLINE###ENDTITLE###`, which the
      script splits into two parts. */
  lemma PdfMarkerCollision(s: string)
    requires s == "**NEWLINE**"
    ensures Split(s, "\n") == [s]
    ensures PdfLines(s) == ["###TITLE", "ENDTITLE###"]
  {
    CollisionOneLine(s);
    CollisionTwoParts(s);
  }

  lemma CollisionOneLine(s: string)
    requires s == "**NEWLINE**"
    ensures Split(s, "\n") == [s]
  {
    assert '\n' !in s;
    SplitNoChar(s, "\n");
  }

  lemma CollisionTwoParts(s: string)
    requires s == "**NEWLINE**"
    ensures PdfLines(s) == ["###TITLE", "ENDTITLE###"]
  {
    var x, a, b := "NEWLINE", "###TITLE", "ENDTITLE###";
    assert s == "**" + x + "**" + "";
    CollisionText(s, x);
    MarkerPieces(TitleOpen, TitleClose, LineMarker, a, b);
    Regroup("###", "TITLE", x, "ENDTITLE");
    CollisionSplit(a, b);
  }

  /** The markers cut into their `###` and word pieces. */
  lemma MarkerPieces(open: string, close: string, marker: string, a: string, b: string)
    requires open == TitleOpen && close == TitleClose && marker == LineMarker
    requires a == "###TITLE" && b == "ENDTITLE###"
    ensures open == "###" + "TITLE" + "###"
    ensures close == "###" + "ENDTITLE" + "###"
    ensures marker == "###" + "NEWLINE" + "###"
    ensures a == "###" + "TITLE" && b == "ENDTITLE" + "###"
  {
    OpenPieces(open);
    ClosePieces(close);
    MarkerWordPieces(marker);
    TitleHalfPieces(a, b);
  }

  lemma OpenPieces(open: string)
    requires open == TitleOpen
    ensures open == "###" + "TITLE" + "###"
  {
  }

  lemma ClosePieces(close: string)
    requires close == TitleClose
    ensures close == "###" + "ENDTITLE" + "###"
  {
  }

  lemma MarkerWordPieces(marker: string)
    requires marker == LineMarker
    ensures marker == "###" + "NEWLINE" + "###"
  {
  }

  lemma TitleHalfPieces(a: string, b: string)
    requires a == "###TITLE" && b == "ENDTITLE###"
    ensures a == "###" + "TITLE" && b == "ENDTITLE" + "###"
  {
  }

  lemma Regroup(h: string, t: string, x: string, e: string)
    ensures (h + t + h) + x + (h + e + h) == (h + t) + (h + x + h) + (e + h)
  {
  }

  lemma CollisionText(s: string, x: string)
    requires |x| > 0 && StarFree(x) && '\n' !in x && s == "**" + x + "**" + ""
    ensures PdfText(s) == TitleOpen + x + TitleClose
  {
    HeadingRewritten(x, "", TitleOpen, TitleClose);
    HeadingsIdentity("", TitleOpen, TitleClose);
    var t := TitleOpen + x + TitleClose + "";
    assert '\n' !in TitleOpen && '\n' !in TitleClose;
    assert '\n' !in t;
    ReplaceAbsent(t, "\n", LineMarker);
    assert t == TitleOpen + x + TitleClose;
  }

  lemma CollisionSplit(a: string, b: string)
    requires a == "###TITLE" && b == "ENDTITLE###"
    ensures Split(a + LineMarker + b, LineMarker) == [a, b]
  {
    var t := a + LineMarker + b;
    forall i | 0 <= i < 8
      ensures !StartsWith(t[i..], LineMarker)
    {
      NoMarkerInTitle(t, i);
    }
    assert t[8..][..13] == LineMarker;
    SplitAtFirst(t, LineMarker, 8);
    assert t[21..] == b;
    SplitShort(b, LineMarker);
    assert t[..8] == a;
  }

  lemma NoMarkerInTitle(t: string, i: nat)
    requires t == "###TITLE" + LineMarker + "ENDTITLE###" && i < 8
    ensures !StartsWith(t[i..], LineMarker)
  {
    var j := if i < 3 then 3 else 0;
    assert t[i..][..13][j] != LineMarker[j];
  }

  /** A string without the separator's first character is one part. */
  lemma SplitNoChar(s: string, sep: string)
    requires |sep| > 0 && sep[0] !in s
    ensures Split(s, sep) == [s]
  {
    SplitFreePrefix(s, "", sep);
    assert s + "" == s;
  }
}
