/** The two ways an image goes to the terminal: plain Kitty graphics escapes,
    and the same escapes inside tmux passthrough. The readers on the other end
    are defined on their own. */
module Kitty {
  import opened GoStrings
  import opened Octets
  import opened Options
  import Base64

  const ESC: char := 27 as char
  const CHUNK_SIZE: nat := 4096

  // ----------------------------------------------------------- the printers

  const DCS: string := [ESC] + "Ptmux;"
  const ST: string := [ESC, '\\']

  /** strings.ReplaceAll of ESC by ESC ESC. */
  function Doubled(s: string): string {
    if s == "" then "" else (if s[0] == ESC then [ESC, ESC] else [s[0]]) + Doubled(s[1..])
  }

  function WrapTmux(s: string): string {
    DCS + Doubled(s) + ST
  }

  /** One graphics escape. `more` is the m key: absent, "1" or "0". */
  datatype Chunk = Chunk(first: bool, more: Option<string>, payload: string)

  const HEAD: string := "a=T,f=100,t=d,q=2"

  function Keys(c: Chunk): string {
    (if c.first then HEAD + (if c.more.Some? then ",m=" + c.more.value else "")
     else if c.more.Some? then "m=" + c.more.value else "")
  }

  function Printed(c: Chunk): string {
    [ESC] + "_G" + Keys(c) + ";" + c.payload + ST
  }

  /** The chunks of an encoding from position `i` on. */
  function ChunksFrom(encoded: string, i: nat): seq<Chunk>
    decreases |encoded| - i
  {
    if i >= |encoded| then []
    else
      var end := if i + CHUNK_SIZE > |encoded| then |encoded| else i + CHUNK_SIZE;
      [Chunk(i == 0, Some(if end == |encoded| then "0" else "1"), encoded[i..end])] + ChunksFrom(encoded, i + CHUNK_SIZE)
  }

  function Chunks(encoded: string): seq<Chunk> {
    if |encoded| <= CHUNK_SIZE then [Chunk(true, None, encoded)] else ChunksFrom(encoded, 0)
  }

  function PrintedAll(cs: seq<Chunk>): (r: seq<string>)
    ensures |r| == |cs|
    ensures forall i :: 0 <= i < |cs| ==> r[i] == Printed(cs[i])
  {
    seq(|cs|, i requires 0 <= i < |cs| => Printed(cs[i]))
  }

  method KittyChunks(data: Bytes) returns (out: seq<string>)
    ensures out == PrintedAll(Chunks(Base64.Encode(data)))
  {
    var encoded := Base64.Encode(data);
    if |encoded| <= CHUNK_SIZE {
      SingleIs(encoded);
      return [[ESC] + "_Ga=T,f=100,t=d,q=2;" + encoded + ST];
    }
    out := [];
    var i := 0;
    ghost var done: seq<Chunk> := [];
    while i < |encoded|
      invariant 0 <= i && out == PrintedAll(done)
      invariant Chunks(encoded) == done + ChunksFrom(encoded, i)
      decreases |encoded| - i
    {
      var end := i + CHUNK_SIZE;
      if end > |encoded| {
        end := |encoded|;
      }
      var more := "1";
      if end == |encoded| {
        more := "0";
      }
      ghost var c := NextChunk(encoded, i, done);
      hide Printed, PrintedAll, Chunks, ChunksFrom;
      if i == 0 {
        out := out + [[ESC] + "_Ga=T,f=100,t=d,q=2,m=" + more + ";" + encoded[i..end] + ST];
      } else {
        out := out + [[ESC] + "_Gm=" + more + ";" + encoded[i..end] + ST];
      }
      done := done + [c];
      i := i + CHUNK_SIZE;
    }
    assert Chunks(encoded) == done;
  }

  /** The chunk at position `i`, and how it is printed. */
  lemma NextChunk(encoded: string, i: nat, done: seq<Chunk>) returns (c: Chunk)
    requires i < |encoded|
    ensures var end := if i + CHUNK_SIZE > |encoded| then |encoded| else i + CHUNK_SIZE;
      c == Chunk(i == 0, Some(if end == |encoded| then "0" else "1"), encoded[i..end])
    ensures done + ChunksFrom(encoded, i) == done + [c] + ChunksFrom(encoded, i + CHUNK_SIZE)
    ensures PrintedAll(done + [c]) == PrintedAll(done) + [Part(c)]
  {
    var end := if i + CHUNK_SIZE > |encoded| then |encoded| else i + CHUNK_SIZE;
    c := Chunk(i == 0, Some(if end == |encoded| then "0" else "1"), encoded[i..end]);
    var rest := ChunksFrom(encoded, i + CHUNK_SIZE);
    assert ChunksFrom(encoded, i) == [c] + rest;
    hide ChunksFrom, Printed, PrintedAll, Part;
    KeysAre(c);
    PrintedMore(done, c);
    Regroup(done, [c], rest);
  }

  lemma Regroup<T>(a: seq<T>, b: seq<T>, c: seq<T>)
    ensures a + (b + c) == a + b + c
  {
  }

  /** An escape with its m key, spelled out. */
  function Part(c: Chunk): string
    requires c.more.Some?
  {
    [ESC] + (if c.first then "_Ga=T,f=100,t=d,q=2,m=" else "_Gm=") + c.more.value + ";" + c.payload + ST
  }

  lemma PrintedMore(cs: seq<Chunk>, c: Chunk)
    ensures PrintedAll(cs + [c]) == PrintedAll(cs) + [Printed(c)]
  {
    hide Printed;
  }

  lemma SingleIs(encoded: string)
    ensures PrintedAll([Chunk(true, None, encoded)]) == [[ESC] + "_Ga=T,f=100,t=d,q=2;" + encoded + ST]
  {
    var c := Chunk(true, None, encoded);
    HeadText();
    assert Keys(c) == HEAD;
    hide Keys, HEAD;
    assert Printed(c) == [ESC] + ("_G" + HEAD + ";") + encoded + ST;
    assert PrintedAll([c]) == [Printed(c)];
  }

  lemma KeysAre(c: Chunk)
    requires c.more.Some?
    ensures Printed(c) == Part(c)
  {
    HeadText();
    hide HEAD;
    if c.first {
      assert Printed(c) == [ESC] + ("_G" + HEAD + ",m=") + c.more.value + ";" + c.payload + ST;
    } else {
      assert Printed(c) == [ESC] + ("_G" + "m=") + c.more.value + ";" + c.payload + ST;
    }
  }

  /** The fixed text at the start of an image. */
  lemma HeadText()
    ensures "_G" + HEAD + ";" == "_Ga=T,f=100,t=d,q=2;"
    ensures "_G" + HEAD + ",m=" == "_Ga=T,f=100,t=d,q=2,m="
    ensures "_G" + "m=" == "_Gm="
  {
  }

  /** The escapes byte by byte: a graphics escape, and a passthrough block. */
  lemma EscapeBytes(c: Chunk, s: string)
    ensures c.more.Some? ==>
      Printed(c) == [27 as char] + (if c.first then "_Ga=T,f=100,t=d,q=2,m=" else "_Gm=")
        + c.more.value + ";" + c.payload + [27 as char, '\\']
    ensures c.first && c.more.None? ==> Printed(c) == [27 as char] + "_Ga=T,f=100,t=d,q=2;" + c.payload + [27 as char, '\\']
    ensures WrapTmux(s) == [27 as char, 'P', 't', 'm', 'u', 'x', ';'] + Doubled(s) + [27 as char, '\\']
  {
    if c.more.Some? {
      KeysAre(c);
    } else if c.first {
      HeadText();
      hide HEAD;
      assert Printed(c) == [ESC] + ("_G" + HEAD + ";") + c.payload + ST;
    }
  }

  /** Doubling doubles each ESC and nothing else. */
  lemma {:induction false} DoubledAt(a: string, b: string)
    requires 27 as char !in a
    ensures Doubled(a) == a
    ensures Doubled(a + [27 as char] + b) == a + [27 as char, 27 as char] + Doubled(b)
    decreases |a|
  {
    var s := a + [27 as char] + b;
    if a == "" {
      assert s[1..] == b;
    } else {
      DoubledAt(a[1..], b);
      assert s[1..] == a[1..] + [27 as char] + b;
      assert a == [a[0]] + a[1..];
    }
  }

  method EncodeKitty(data: Bytes) returns (s: string)
    ensures s == Plain(data)
  {
    var chunks := KittyChunks(data);
    s := Join(chunks, "") + "\n";
  }

  method EncodeKittyTmux(data: Bytes) returns (s: string)
    ensures s == Tmux(data)
    ensures var cs := Chunks(Base64.Encode(data));
      s == Join(seq(|cs|, i requires 0 <= i < |cs| => WrapTmux(Printed(cs[i]))), "") + "\n"
  {
    var chunks := KittyChunks(data);
    ghost var cs := Chunks(Base64.Encode(data));
    var i := 0;
    while i < |chunks|
      invariant 0 <= i <= |chunks| == |cs|
      invariant forall k :: 0 <= k < i ==> chunks[k] == WrapTmux(Printed(cs[k]))
      invariant forall k :: i <= k < |chunks| ==> chunks[k] == Printed(cs[k])
    {
      chunks := chunks[i := WrapTmux(chunks[i])];
      i := i + 1;
    }
    assert chunks == Wrapped(PrintedAll(cs));
    assert chunks == seq(|cs|, i requires 0 <= i < |cs| => WrapTmux(Printed(cs[i])));
    s := Join(chunks, "") + "\n";
  }

  function Wrapped(ss: seq<string>): seq<string> {
    seq(|ss|, i requires 0 <= i < |ss| => WrapTmux(ss[i]))
  }

  function Plain(data: Bytes): string {
    Join(PrintedAll(Chunks(Base64.Encode(data))), "") + "\n"
  }

  function Tmux(data: Bytes): string {
    Join(Wrapped(PrintedAll(Chunks(Base64.Encode(data)))), "") + "\n"
  }

  // ------------------------------------------------------------ the readers

  function Prepend(a: string, r: Option<string>): Option<string> {
    match r case Some(s) => Some(a + s) case None => None
  }

  /** tmux outside a passthrough block: everything goes through unchanged. */
  function Strip(s: string): Option<string>
    decreases |s|
  {
    if s == "" then Some("")
    else if DCS <= s then StripInside(s[|DCS|..])
    else Prepend([s[0]], Strip(s[1..]))
  }

  /** tmux inside a block: ESC ESC is one ESC, ESC \ ends the block. */
  function StripInside(s: string): Option<string>
    decreases |s|
  {
    if |s| < 2 then None
    else if s[0] != ESC then Prepend([s[0]], StripInside(s[1..]))
    else if s[1] == ESC then Prepend([ESC], StripInside(s[2..]))
    else if s[1] == '\\' then Strip(s[2..])
    else None
  }

  datatype Command = Command(keys: string, payload: string, rest: string)

  /** The next graphics escape: keys up to ';', payload up to ESC \. */
  function NextCommand(s: string): Option<Command> {
    if !([ESC] + "_G" <= s) then None
    else
      var body := s[3..];
      var i := Index(body, ";");
      if i < 0 then None
      else
        var tail := body[i + 1..];
        var j := Index(tail, [ESC]);
        if j < 0 || j + 1 >= |tail| || tail[j + 1] != '\\' then None
        else Some(Command(body[..i], tail[..j], tail[j + 2..]))
  }

  /** The value of a key in a list like "a=T,m=1". */
  function Lookup(pieces: seq<string>, key: char): Option<string> {
    if pieces == [] then None
    else if [key, '='] <= pieces[0] then Some(pieces[0][2..])
    else Lookup(pieces[1..], key)
  }

  function KeyValue(keys: string, key: char): Option<string> {
    Lookup(Split(keys, ","), key)
  }

  /** The rest of a chunked transmission: m=1 for more to come, m=0 for the end. */
  function ReadMore(acc: string, s: string): Option<string>
    decreases |s|
  {
    match NextCommand(s)
    case None => None
    case Some(c) =>
      NextShrinks(s);
      match KeyValue(c.keys, 'm')
      case Some(m) =>
        if m == "1" then ReadMore(acc + c.payload, c.rest)
        else if m == "0" && c.rest == "\n" then Some(acc + c.payload)
        else None
      case None => None
  }

  lemma NextShrinks(s: string)
    ensures NextCommand(s).Some? ==> |NextCommand(s).value.rest| < |s|
  {
  }

  /** A terminal that is to show one PNG: a transmission with a=T and f=100,
      in one piece without m or in several with it, and a line break. */
  function ReadImage(s: string): Option<Bytes> {
    match NextCommand(s)
    case None => None
    case Some(c) =>
      if KeyValue(c.keys, 'a') != Some("T") || KeyValue(c.keys, 'f') != Some("100") then None
      else
        var text := match KeyValue(c.keys, 'm')
          case None => if c.rest == "\n" then Some(c.payload) else None
          case Some(m) =>
            if m == "1" then ReadMore(c.payload, c.rest)
            else if m == "0" && c.rest == "\n" then Some(c.payload)
            else None;
        match text case Some(t) => Base64.Decode(t) case None => None
  }

  // ------------------------------------------------------ what they promise

  /** One wrapped escape comes out of tmux as it went in, whatever it holds. */
  lemma {:induction false} StripDoubled(c: string, rest: string)
    ensures StripInside(Doubled(c) + ST + rest) == Prepend(c, Strip(rest))
    decreases |c|
  {
    var s := Doubled(c) + ST + rest;
    if c == "" {
      assert s == ST + rest && s[2..] == rest;
      if Strip(rest).Some? {
        assert "" + Strip(rest).value == Strip(rest).value;
      }
    } else {
      StripDoubled(c[1..], rest);
      var t := Doubled(c[1..]) + ST + rest;
      var head := if c[0] == ESC then [ESC, ESC] else [c[0]];
      assert s == head + t && s[|head|..] == t;
      assert c == [c[0]] + c[1..];
      if Strip(rest).Some? {
        assert [c[0]] + (c[1..] + Strip(rest).value) == c + Strip(rest).value;
      }
    }
  }

  lemma StripWrapped(c: string, rest: string)
    ensures Strip(WrapTmux(c) + rest) == Prepend(c, Strip(rest))
  {
    hide StripInside, Doubled;
    StripDoubled(c, rest);
    var s := WrapTmux(c) + rest;
    assert s == DCS + (Doubled(c) + ST + rest);
    assert s[|DCS|..] == Doubled(c) + ST + rest;
    assert DCS <= s;
  }

  lemma JoinPlain(ss: seq<string>, s: string)
    ensures Join([s] + ss, "") == s + Join(ss, "")
  {
    assert ([s] + ss)[1..] == ss;
    assert s + "" == s;
  }

  lemma {:induction false} StripAll(ss: seq<string>, rest: string)
    ensures Strip(Join(Wrapped(ss), "") + rest) == Prepend(Join(ss, ""), Strip(rest))
    decreases |ss|
  {
    if ss == [] {
      assert Join(Wrapped(ss), "") + rest == rest;
      if Strip(rest).Some? {
        assert "" + Strip(rest).value == Strip(rest).value;
      }
    } else {
      var c, tail := ss[0], ss[1..];
      assert ss == [c] + tail && Wrapped(ss) == [WrapTmux(c)] + Wrapped(tail);
      hide Wrapped, WrapTmux, Join, Strip;
      JoinPlain(tail, c);
      JoinPlain(Wrapped(tail), WrapTmux(c));
      StripAll(tail, rest);
      Regroup(WrapTmux(c), Join(Wrapped(tail), ""), rest);
      StripWrapped(c, Join(Wrapped(tail), "") + rest);
      if Strip(rest).Some? {
        Regroup(c, Join(tail, ""), Strip(rest).value);
      }
    }
  }

  /** What tmux passes on of the wrapped form is exactly the plain form. */
  lemma TmuxIsTransparent(data: Bytes)
    ensures Strip(Tmux(data)) == Some(Plain(data))
  {
    var ss := PrintedAll(Chunks(Base64.Encode(data)));
    LineBreak();
    StripAll(ss, "\n");
  }

  lemma LineBreak()
    ensures Strip("\n") == Some("\n")
  {
    var s := "\n";
    assert |s| < |DCS|;
    assert s[1..] == "" && Strip("") == Some("");
    assert [s[0]] + "" == s;
  }

  predicate Clear(s: string) {
    ESC !in s && ';' !in s && ',' !in s
  }

  /** A printed escape is read back as its keys and payload. */
  lemma NextOfPrinted(c: Chunk, rest: string)
    requires Clear(c.payload) && ';' !in Keys(c)
    ensures NextCommand(Printed(c) + rest) == Some(Command(Keys(c), c.payload, rest))
  {
    hide Keys, Index;
    var s, tail := Printed(c) + rest, c.payload + ST + rest;
    var body := Keys(c) + ";" + tail;
    assert s == [ESC] + "_G" + body && s[..3] == [ESC] + "_G" && s[3..] == body;
    assert ";" == [';'];
    IndexAfter(Keys(c), ';', tail);
    assert body[..|Keys(c)|] == Keys(c) && body[|Keys(c)| + 1..] == tail;
    PayloadEnds(c.payload, rest);
  }

  lemma PayloadEnds(payload: string, rest: string)
    requires ESC !in payload
    ensures var tail := payload + ST + rest;
      && Index(tail, [ESC]) == |payload| && tail[..|payload|] == payload
      && tail[|payload| + 1] == '\\' && tail[|payload| + 2..] == rest
  {
    hide Index;
    assert payload + ST + rest == payload + [ESC] + ("\\" + rest);
    IndexAfter(payload, ESC, "\\" + rest);
  }

  /** The pieces of a first escape's keys. */
  lemma HeadPieces()
    ensures Split(HEAD, ",") == ["a=T", "f=100", "t=d", "q=2"] && ';' !in HEAD
  {
    hide Split;
    SplitOne("a=T", ',');
    SplitAppend("a=T", "f=100", ',');
    SplitAppend("a=T,f=100", "t=d", ',');
    SplitAppend("a=T,f=100,t=d", "q=2", ',');
    assert "a=T" + "," + "f=100" == "a=T,f=100";
    assert "a=T,f=100" + "," + "t=d" == "a=T,f=100,t=d";
    assert "a=T,f=100,t=d" + "," + "q=2" == HEAD;
  }

  lemma LookupNone(key: char)
    ensures Lookup([], key) == None
  {
  }

  lemma LookupMiss(pieces: seq<string>, p: string, key: char)
    requires p != "" && p[0] != key
    ensures Lookup([p] + pieces, key) == Lookup(pieces, key)
  {
    assert ([p] + pieces)[1..] == pieces;
  }

  lemma LookupHit(pieces: seq<string>, key: char, v: string)
    ensures Lookup([[key, '='] + v] + pieces, key) == Some(v)
  {
    assert ([key, '='] + v)[2..] == v;
  }

  /** The keys of a first escape: a PNG to be shown, and m if it is there. */
  lemma FirstKeys(more: Option<string>)
    requires more.Some? ==> ',' !in more.value && ';' !in more.value
    ensures var keys := Keys(Chunk(true, more, ""));
      && KeyValue(keys, 'a') == Some("T") && KeyValue(keys, 'f') == Some("100")
      && KeyValue(keys, 'm') == more && ';' !in keys
  {
    hide Split, Lookup;
    var keys := Keys(Chunk(true, more, ""));
    HeadPieces();
    LookupNone('m');
    var tail: seq<string> := if more.Some? then ["m=" + more.value] else [];
    if more.Some? {
      SplitAppend(HEAD, "m=" + more.value, ',');
      assert keys == HEAD + "," + ("m=" + more.value);
      LookupHit([], 'm', more.value);
      assert ["m=" + more.value] + [] == tail;
    } else {
      assert keys == HEAD;
    }
    var p2, p3, p4 := ["q=2"] + tail, ["t=d"] + (["q=2"] + tail), ["f=100"] + (["t=d"] + (["q=2"] + tail));
    assert Split(keys, ",") == ["a=T"] + p4;
    LookupHit(p4, 'a', "T");
    LookupMiss(p4, "a=T", 'f');
    LookupHit(p3, 'f', "100");
    assert ['f', '='] + "100" == "f=100" && ['a', '='] + "T" == "a=T";
    LookupMiss(p4, "a=T", 'm');
    LookupMiss(p3, "f=100", 'm');
    LookupMiss(p2, "t=d", 'm');
    LookupMiss(tail, "q=2", 'm');
  }

  lemma LaterKeys(more: string)
    requires ',' !in more && ';' !in more
    ensures var keys := Keys(Chunk(false, Some(more), "")); KeyValue(keys, 'm') == Some(more) && ';' !in keys
  {
    SplitOne("m=" + more, ',');
    LookupHit([], 'm', more);
    assert ["m=" + more] + [] == ["m=" + more];
    assert ['m', '='] + more == "m=" + more;
  }

  /** The chunking: the payloads put together are the encoding; every chunk but
      the last has 4096 characters and m=1; the last alone has m=0, or, when it
      is the only one, no m at all; only the first opens a transmission. */
  lemma ChunkFacts(encoded: string)
    ensures var cs := Chunks(encoded);
      && cs != [] && Payloads(cs) == encoded
      && (forall i :: 0 <= i < |cs| ==> cs[i].first == (i == 0) && |cs[i].payload| <= 4096)
      && (forall i :: 0 <= i < |cs| - 1 ==> cs[i].more == Some("1") && |cs[i].payload| == 4096)
      && cs[|cs| - 1].more == (if |encoded| <= 4096 then None else Some("0"))
      && (|cs| == 1 <==> |encoded| <= 4096)
  {
    if |encoded| > CHUNK_SIZE {
      ChunkFactsFrom(encoded, 0);
      ChunkFactsFrom(encoded, CHUNK_SIZE);
      assert encoded[0..] == encoded;
    } else {
      assert Payloads(Chunks(encoded)) == encoded + Payloads([]);
    }
  }

  function Payloads(cs: seq<Chunk>): string {
    if cs == [] then "" else cs[0].payload + Payloads(cs[1..])
  }

  lemma {:induction false} ChunkFactsFrom(encoded: string, i: nat)
    requires i < |encoded|
    ensures var cs := ChunksFrom(encoded, i);
      && cs != [] && Payloads(cs) == encoded[i..]
      && (forall k :: 0 <= k < |cs| ==> cs[k].first == (i == 0 && k == 0) && |cs[k].payload| <= CHUNK_SIZE)
      && (forall k :: 0 <= k < |cs| - 1 ==> cs[k].more == Some("1") && |cs[k].payload| == CHUNK_SIZE)
      && cs[|cs| - 1].more == Some("0")
    decreases |encoded| - i
  {
    var cs := ChunksFrom(encoded, i);
    var rest := ChunksFrom(encoded, i + CHUNK_SIZE);
    assert cs == [cs[0]] + rest;
    assert cs[1..] == rest;
    if i + CHUNK_SIZE < |encoded| {
      ChunkFactsFrom(encoded, i + CHUNK_SIZE);
      assert encoded[i..] == encoded[i..i + CHUNK_SIZE] + encoded[i + CHUNK_SIZE..];
      assert forall k :: 1 <= k < |cs| ==> cs[k] == rest[k - 1];
    } else {
      assert encoded[i..] == encoded[i..|encoded|];
      assert cs[0].payload + "" == cs[0].payload;
    }
  }

  /** Continuation chunks are read to their end. */
  lemma {:induction false} ReadsRest(encoded: string, i: nat, acc: string)
    requires 0 < i < |encoded| && Clear(encoded)
    ensures ReadMore(acc, Join(PrintedAll(ChunksFrom(encoded, i)), "") + "\n") == Some(acc + encoded[i..])
    decreases |encoded| - i
  {
    hide Keys, KeyValue, NextCommand, Printed;
    var end := if i + CHUNK_SIZE > |encoded| then |encoded| else i + CHUNK_SIZE;
    var c := Chunk(false, Some(if end == |encoded| then "0" else "1"), encoded[i..end]);
    var rest := ChunksFrom(encoded, i + CHUNK_SIZE);
    var tail := Join(PrintedAll(rest), "") + "\n";
    assert PrintedAll(ChunksFrom(encoded, i)) == [Printed(c)] + PrintedAll(rest);
    JoinPlain(PrintedAll(rest), Printed(c));
    assert Printed(c) + Join(PrintedAll(rest), "") + "\n" == Printed(c) + tail;
    LaterKeys(c.more.value);
    KeysOnly(c);
    NextOfPrinted(c, tail);
    if end == |encoded| {
      assert tail == "\n";
      assert encoded[i..end] == encoded[i..];
    } else {
      ReadsRest(encoded, end, acc + c.payload);
      assert acc + c.payload + encoded[end..] == acc + encoded[i..];
    }
  }

  lemma KeysOnly(c: Chunk)
    ensures Keys(c) == Keys(Chunk(c.first, c.more, ""))
  {
  }

  /** A terminal reading the plain form gets the image's bytes back, however
      many chunks they took. */
  lemma TerminalSeesImage(data: Bytes)
    ensures ReadImage(Plain(data)) == Some(data)
  {
    hide Keys, KeyValue, NextCommand, Printed, Base64.Encode, Base64.Decode;
    var encoded := Base64.Encode(data);
    EncodedIsClear(data);
    Base64.RoundTrip(data);
    if |encoded| <= CHUNK_SIZE {
      var c := Chunk(true, None, encoded);
      assert PrintedAll(Chunks(encoded)) == [Printed(c)] + [];
      JoinPlain([], Printed(c));
      assert Plain(data) == Printed(c) + "\n";
      FirstKeys(None);
      KeysOnly(c);
      NextOfPrinted(c, "\n");
    } else {
      var c := Chunk(true, Some("1"), encoded[0..CHUNK_SIZE]);
      var rest := ChunksFrom(encoded, CHUNK_SIZE);
      var tail := Join(PrintedAll(rest), "") + "\n";
      assert PrintedAll(Chunks(encoded)) == [Printed(c)] + PrintedAll(rest);
      JoinPlain(PrintedAll(rest), Printed(c));
      assert Plain(data) == Printed(c) + tail;
      FirstKeys(Some("1"));
      KeysOnly(c);
      NextOfPrinted(c, tail);
      ReadsRest(encoded, CHUNK_SIZE, c.payload);
      assert c.payload + encoded[CHUNK_SIZE..] == encoded;
    }
  }

  lemma EncodedIsClear(data: Bytes)
    ensures Clear(Base64.Encode(data))
  {
    Base64.EncodedText(data);
    assert Base64.Value(ESC).None? && Base64.Value(';').None? && Base64.Value(',').None?;
  }

  /** Through tmux or not, the terminal ends up with the same image. */
  lemma BothFormsShowTheImage(data: Bytes)
    ensures match Strip(Tmux(data)) case Some(s) => ReadImage(s) == Some(data) case None => false
  {
    TmuxIsTransparent(data);
    TerminalSeesImage(data);
  }
}
