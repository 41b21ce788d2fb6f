/** The body an upload to Drive is sent in, and the parser that takes it apart:
    a printer and a reader of multipart/related, section 5.1.1 of RFC 2046. The
    bytes are characters here. */
module Multipart {
  import opened GoStrings

  const CRLF: string := "\r\n"
  const BLANK: string := "\r\n\r\n"
  const DASHES: string := "\r\n--"

  const BOUNDARY: string := "gdrive-boundary" + "-7e9d4c2a"
  const JSON: string := "Content-Type: " + "application/json" + "; charset=UTF-8"
  const STREAM: string := "Content-Type: " + "application/" + "octet-stream"

  /** A line that starts with two dashes, and what stands on the next one. */
  function DashLine(x: string, y: string): string {
    DASHES + x + CRLF + y
  }

  /** What comes between two parts, and after the last one. */
  function Opening(boundary: string, header: string): string {
    DashLine(boundary, header)
  }

  function Ending(boundary: string): string {
    DashLine(boundary + "--", "")
  }

  function Print(boundary: string, header1: string, header2: string, meta: string, data: string): string {
    Opening(boundary, header1)[2..] + BLANK
    + (meta + Opening(boundary, header2) + BLANK
    + (data + Ending(boundary)))
  }

  /** The body of an upload. */
  function UploadBody(meta: string, data: string): string {
    Print(BOUNDARY, JSON, STREAM, meta, data)
  }

  /** The body as it is sent: a dash line with the boundary, a header and a blank
      line before either part, and the closing dash line. */
  lemma BodyAsSent(meta: string, data: string)
    ensures UploadBody(meta, data) ==
      "--" + BOUNDARY + "\r\n" + JSON + "\r\n\r\n" + meta
      + "\r\n--" + BOUNDARY + "\r\n" + STREAM + "\r\n\r\n" + data
      + "\r\n--" + BOUNDARY + "--" + "\r\n"
  {
    hide BOUNDARY, JSON, STREAM;
    assert Opening(BOUNDARY, JSON)[2..] == "--" + BOUNDARY + "\r\n" + JSON;
    assert Ending(BOUNDARY) == "\r\n--" + BOUNDARY + "--" + "\r\n";
  }

  /** The fixed texts in it. */
  lemma FixedTexts()
    ensures BOUNDARY == "gdrive-boundary" + "-7e9d4c2a"
    ensures JSON == "Content-Type: " + "application/json" + "; charset=UTF-8"
    ensures STREAM == "Content-Type: " + "application/" + "octet-stream"
  {
  }

  /** All before the last line that starts with two dashes. */
  function CutAtDashes(part: string): (r: string)
    ensures r <= part
  {
    var i := LastIndex(part, DASHES);
    if i >= 0 then part[..i] else part
  }

  function SplitMultipart(body: string): (string, string) {
    var sections := Split(body, BLANK);
    if |sections| < 3 then ("", "")
    else (CutAtDashes(sections[1]), CutAtDashes(sections[2]))
  }

  /** No blank line inside, and none made by the line break that follows. */
  ghost predicate Plain(s: string) {
    !Contains(s, BLANK) && !HasSuffix(s, CRLF)
  }

  predicate NoBreak(s: string) {
    forall i :: 0 <= i < |s| ==> s[i] != '\r' && s[i] != '\n'
  }

  /** A boundary or a header: one line, with something on it, not dashes. */
  predicate Line(s: string) {
    s != "" && s[0] != '-' && NoBreak(s)
  }

  // ------------------------------------------------------- finding the cuts

  /** A blank line starts with CR LF CR. */
  lemma BlankAt(s: string, i: int)
    ensures OccursAt(s, BLANK, i) <==> 0 <= i && i + 4 <= |s| && s[i] == '\r' && s[i + 1] == '\n'
                                       && s[i + 2] == '\r' && s[i + 3] == '\n'
  {
    if 0 <= i && i + 4 <= |s| {
      assert s[i..i + 4] == [s[i], s[i + 1], s[i + 2], s[i + 3]];
    }
  }

  lemma DashesAt(s: string, i: int)
    ensures OccursAt(s, DASHES, i) <==> 0 <= i && i + 4 <= |s| && s[i] == '\r' && s[i + 1] == '\n'
                                        && s[i + 2] == '-' && s[i + 3] == '-'
  {
    if 0 <= i && i + 4 <= |s| {
      assert s[i..i + 4] == [s[i], s[i + 1], s[i + 2], s[i + 3]];
    }
  }

  lemma SuffixAt(s: string)
    ensures HasSuffix(s, CRLF) <==> |s| >= 2 && s[|s| - 2] == '\r' && s[|s| - 1] == '\n'
  {
    if |s| >= 2 {
      assert s[|s| - 2..|s| - 2 + 2] == [s[|s| - 2], s[|s| - 1]];
    }
  }

  /** Plain text is cut off by the blank line after it and no earlier. */
  lemma PlainIsCut(a: string, rest: string)
    requires Plain(a)
    ensures Split(a + BLANK + rest, BLANK) == [a] + Split(rest, BLANK)
  {
    var s := a + BLANK + rest;
    forall j | 0 <= j < |a|
      ensures !OccursAt(s, BLANK, j)
    {
      BlankAt(s, j);
      BlankAt(a, j);
      SuffixAt(a);
      assert j + 4 <= |a| ==> !OccursAt(a, BLANK, j);
    }
    assert OccursAt(s, BLANK, |a|);
    assert s[..|a|] == a && s[|a| + 4..] == rest;
  }

  /** Anything else is cut short by the line break that follows. */
  lemma OthersAreCutShort(a: string, rest: string)
    requires !Plain(a)
    ensures Split(a + CRLF + rest, BLANK)[0] <= a
    ensures |Split(a + CRLF + rest, BLANK)[0]| < |a|
  {
    var s := a + CRLF + rest;
    SuffixAt(a);
    var j := if HasSuffix(a, CRLF) then |a| - 2 else Index(a, BLANK);
    BlankAt(a, j);
    BlankAt(s, j);
    assert OccursAt(s, BLANK, j);
    assert s[..Index(s, BLANK)] == a[..Index(s, BLANK)];
  }

  /** Line breaks in a dash line are where it starts and where it ends. */
  lemma DashLineBreaks(x: string, y: string, k: nat)
    requires NoBreak(x) && NoBreak(y)
    requires k < |DashLine(x, y)|
    ensures DashLine(x, y)[k] == '\r' <==> k == 0 || k == 4 + |x|
    ensures DashLine(x, y)[k] == '\n' <==> k == 1 || k == 5 + |x|
  {
    var t := DashLine(x, y);
    if 4 <= k < 4 + |x| {
      assert t[k] == x[k - 4];
    } else if 6 + |x| <= k {
      assert t[k] == y[k - 6 - |x|];
    }
  }

  /** Plain text followed by a dash line is plain again. */
  lemma DashLineKeepsPlain(a: string, x: string, y: string)
    requires Plain(a) && x != ""
    requires NoBreak(x) && NoBreak(y)
    ensures !Contains(a + DashLine(x, y), BLANK)
    ensures y != "" ==> Plain(a + DashLine(x, y))
  {
    var t := DashLine(x, y);
    var s := a + t;
    forall j | 0 <= j <= |s|
      ensures !OccursAt(s, BLANK, j)
    {
      BlankAt(s, j);
      BlankAt(a, j);
      SuffixAt(a);
      assert j + 4 <= |a| ==> !OccursAt(a, BLANK, j);
      if |a| <= j && j + 4 <= |s| {
        DashLineBreaks(x, y, j - |a|);
        DashLineBreaks(x, y, j - |a| + 2);
      }
    }
    if y != "" {
      SuffixAt(s);
      DashLineBreaks(x, y, |t| - 1);
    }
  }

  /** The last dash line is where the cut is made, whatever comes before it. */
  lemma DashLineIsCut(a: string, x: string, y: string)
    requires x != "" && NoBreak(x) && NoBreak(y)
    requires y == "" || y[0] != '-'
    ensures CutAtDashes(a + DashLine(x, y)) == a
  {
    var t := DashLine(x, y);
    var s := a + t;
    DashesAt(s, |a|);
    forall j | |a| < j
      ensures !OccursAt(s, DASHES, j)
    {
      DashesAt(s, j);
      if j + 4 <= |s| {
        DashLineBreaks(x, y, j - |a|);
        assert j - |a| == 4 + |x| ==> s[j + 2] == y[0];
      }
    }
    assert OccursAt(s, DASHES, |a|);
    assert s[..|a|] == a;
  }

  // ------------------------------------------------------------ round trip

  lemma LastPiece(s: string)
    requires !Contains(s, BLANK)
    ensures Split(s, BLANK) == [s]
  {
    var i := Index(s, BLANK);
    assert i >= 0 ==> OccursAt(s, BLANK, i);
  }

  /** With plain metadata the parser finds it again, and a prefix of the data:
      all of it exactly when the data is plain too. */
  lemma PlainMeta(b: string, h1: string, h2: string, meta: string, data: string)
    requires Line(b) && Line(h1) && Line(h2) && Plain(meta)
    ensures SplitMultipart(Print(b, h1, h2, meta, data)).0 == meta
    ensures SplitMultipart(Print(b, h1, h2, meta, data)).1 <= data
    ensures SplitMultipart(Print(b, h1, h2, meta, data)).1 == data <==> Plain(data)
  {
    var tail := data + Ending(b);
    Sections(b, h1, h2, meta, tail);
    DashLineIsCut(meta, b, h2);
    if Plain(data) {
      DashLineKeepsPlain(data, b + "--", "");
      LastPiece(tail);
      DashLineIsCut(data, b + "--", "");
    } else {
      EndsWithBreak(data, b);
      OthersAreCutShort(data, Ending(b)[2..]);
    }
  }

  lemma EndsWithBreak(a: string, b: string)
    ensures a + Ending(b) == a + CRLF + Ending(b)[2..]
  {
  }

  /** Three sections, the second one opened by the metadata. */
  lemma Sections(b: string, h1: string, h2: string, meta: string, tail: string)
    requires Line(b) && Line(h1) && Line(h2) && Plain(meta)
    ensures Split(Opening(b, h1)[2..] + BLANK + (meta + Opening(b, h2) + BLANK + tail), BLANK)
         == [Opening(b, h1)[2..], meta + Opening(b, h2)] + Split(tail, BLANK)
  {
    FirstSection(b, h1);
    DashLineKeepsPlain(meta, b, h2);
    PlainIsCut(meta + Opening(b, h2), tail);
    PlainIsCut(Opening(b, h1)[2..], meta + Opening(b, h2) + BLANK + tail);
  }

  lemma FirstSection(b: string, h: string)
    requires Line(b) && Line(h)
    ensures Plain(Opening(b, h)[2..])
  {
    var t := Opening(b, h);
    var s := t[2..];
    forall j | 0 <= j <= |s|
      ensures !OccursAt(s, BLANK, j)
    {
      BlankAt(s, j);
      if j + 4 <= |s| {
        DashLineBreaks(b, h, j + 2);
        DashLineBreaks(b, h, j + 4);
      }
    }
    SuffixAt(s);
    DashLineBreaks(b, h, |t| - 1);
  }

  /** Metadata that is not plain is never found again. */
  lemma OtherMeta(b: string, h1: string, h2: string, meta: string, data: string)
    requires Line(b) && Line(h1) && Line(h2) && !Plain(meta)
    ensures SplitMultipart(Print(b, h1, h2, meta, data)).0 != meta
  {
    var tail := BLANK + (data + Ending(b));
    FirstSection(b, h1);
    PlainIsCut(Opening(b, h1)[2..], meta + Opening(b, h2) + tail);
    StartsWithBreak(meta, b, h2, tail);
    assert Print(b, h1, h2, meta, data) == Opening(b, h1)[2..] + BLANK + (meta + Opening(b, h2) + tail);
    hide DashLine, Print, Split;
    OthersAreCutShort(meta, Opening(b, h2)[2..] + tail);
  }

  lemma StartsWithBreak(a: string, x: string, y: string, rest: string)
    ensures a + DashLine(x, y) + rest == a + CRLF + (DashLine(x, y)[2..] + rest)
  {
  }

  lemma Constants()
    ensures Line(BOUNDARY) && Line(JSON) && Line(STREAM)
  {
    assert NoBreak("gdrive-boundary") && NoBreak("-7e9d4c2a");
    assert NoBreak("Content-Type: ") && NoBreak("application/json") && NoBreak("; charset=UTF-8");
    assert NoBreak("application/") && NoBreak("octet-stream");
    assert NoBreak(BOUNDARY) && NoBreak(JSON) && NoBreak(STREAM);
  }

  /** The parser recovers what was printed exactly when neither part holds a
      blank line or ends in a line break. */
  lemma RoundTrip(meta: string, data: string)
    ensures SplitMultipart(UploadBody(meta, data)) == (meta, data) <==> Plain(meta) && Plain(data)
    ensures Plain(meta) ==> SplitMultipart(UploadBody(meta, data)).0 == meta
    ensures Plain(meta) ==> SplitMultipart(UploadBody(meta, data)).1 <= data
  {
    Constants();
    hide Print, SplitMultipart;
    if Plain(meta) {
      PlainMeta(BOUNDARY, JSON, STREAM, meta, data);
    } else {
      OtherMeta(BOUNDARY, JSON, STREAM, meta, data);
    }
  }

  /** Metadata without line breaks is plain: what JSON encoding guarantees. */
  lemma OneLineIsPlain(meta: string)
    requires '\r' !in meta
    ensures Plain(meta)
  {
    forall j | 0 <= j <= |meta|
      ensures !OccursAt(meta, BLANK, j)
    {
      BlankAt(meta, j);
    }
    SuffixAt(meta);
  }
}
