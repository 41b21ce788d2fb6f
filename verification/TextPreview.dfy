/** The text preview: the first bytes of a file, cut back to valid UTF-8. */
module TextPreview {
  import opened GoStrings
  import opened Octets

  const TEXT_PREVIEW_BYTES: nat := 4 * 1024
  const BOM: Bytes := [0xEF, 0xBB, 0xBF]

  datatype Result<+T> = Ok(value: T) | Err

  predicate Tail(b: Byte) {
    0x80 <= b <= 0xBF
  }

  /** The length of the character at the head, by the syntax of section 4 of
      RFC 3629; 0 if there is none. */
  function CharLen(s: Bytes): (n: nat)
    ensures n <= 4 && n <= |s|
  {
    if s == [] then 0
    else if s[0] <= 0x7F then 1
    else if |s| < 2 || !Tail(s[1]) then 0
    else if 0xC2 <= s[0] <= 0xDF then 2
    else if |s| < 3 || !Tail(s[2]) then 0
    else if (s[0] == 0xE0 && 0xA0 <= s[1]) || 0xE1 <= s[0] <= 0xEC || (s[0] == 0xED && s[1] <= 0x9F) || 0xEE <= s[0] <= 0xEF then 3
    else if |s| < 4 || !Tail(s[3]) then 0
    else if (s[0] == 0xF0 && 0x90 <= s[1]) || 0xF1 <= s[0] <= 0xF3 || (s[0] == 0xF4 && s[1] <= 0x8F) then 4
    else 0
  }

  /** utf8.Valid. */
  predicate Valid(s: Bytes)
    decreases |s|
  {
    s == [] || (CharLen(s) > 0 && Valid(s[CharLen(s)..]))
  }

  /** The loop of loadText: drop bytes from the end until what is left is valid. */
  method TrimToValid(buf0: Bytes) returns (buf: Bytes)
    ensures buf <= buf0 && Valid(buf)
    ensures forall k :: |buf| < k <= |buf0| ==> !Valid(buf0[..k])
  {
    buf := buf0;
    assert buf0[..|buf0|] == buf0;
    while |buf| > 0 && !Valid(buf)
      invariant buf <= buf0 && buf == buf0[..|buf|]
      invariant forall k :: |buf| < k <= |buf0| ==> !Valid(buf0[..k])
    {
      assert buf[..|buf| - 1] == buf0[..|buf| - 1];
      buf := buf[..|buf| - 1];
    }
  }

  /** loadText of a file whose reading may fail; `kept` is how far its first bytes
      are valid. */
  method LoadText(file: Bytes, readFails: bool) returns (r: Result<Bytes>, ghost kept: nat)
    ensures r.Err? <==> readFails
    ensures r.Ok? ==> Valid(r.value)
    ensures r.Ok? ==> kept <= |file| && kept <= 4096 && Valid(file[..kept])
    ensures r.Ok? ==> forall j :: kept < j <= |file| && j <= 4096 ==> !Valid(file[..j])
    ensures r.Ok? ==>
      r.value == if kept >= 3 && file[0] == 0xEF && file[1] == 0xBB && file[2] == 0xBF then file[3..kept] else file[..kept]
    ensures r.Ok? && Valid(file) ==> if |file| <= 4096 then kept == |file| else kept >= 4093
  {
    kept := 0;
    if readFails {
      return Err, kept;
    }
    var n := if |file| < TEXT_PREVIEW_BYTES then |file| else TEXT_PREVIEW_BYTES;
    var buf := file[..n];
    var cut := TrimToValid(buf);
    kept := |cut|;
    KeptIsLongest(file, n, cut);
    ValidAfterBom(cut);
    BomFirst(cut);
    return Ok(TrimPrefix(cut, BOM)), kept;
  }

  lemma KeptIsLongest(file: Bytes, n: nat, cut: Bytes)
    requires n <= |file| && cut <= file[..n] && forall k :: |cut| < k <= n ==> !Valid(file[..n][..k])
    ensures cut == file[..|cut|]
    ensures forall j :: |cut| < j <= n ==> !Valid(file[..j])
    ensures Valid(file) ==> |cut| >= n - 3 && (n == |file| ==> |cut| == n)
  {
    hide Valid;
    FirstOfFirst(file, n);
    assert cut == file[..n][..|cut|];
    if Valid(file) {
      CutLosesLittle(file, n);
      assert file[..|file|] == file;
    }
  }

  lemma FirstOfFirst(file: Bytes, n: nat)
    requires n <= |file|
    ensures forall j :: 0 <= j <= n ==> file[..n][..j] == file[..j]
  {
  }

  /** What stripping the byte order mark comes to. */
  lemma BomFirst(s: Bytes)
    ensures TrimPrefix(s, BOM) == if |s| >= 3 && s[0] == 0xEF && s[1] == 0xBB && s[2] == 0xBF then s[3..] else s
  {
    assert BOM <= s ==> s[0] == BOM[0] && s[1] == BOM[1] && s[2] == BOM[2];
    if |s| >= 3 && s[0] == 0xEF && s[1] == 0xBB && s[2] == 0xBF {
      assert s[..3] == BOM;
    }
  }

  /** A byte order mark is one character: without it the text is still valid. */
  lemma ValidAfterBom(s: Bytes)
    requires Valid(s)
    ensures Valid(TrimPrefix(s, BOM))
  {
    if BOM <= s {
      assert s[0] == BOM[0] && s[1] == BOM[1] && s[2] == BOM[2];
      assert CharLen(s) == 3;
    }
  }

  lemma CharLenPrefix(s: Bytes, k: nat)
    requires CharLen(s) <= k <= |s|
    ensures CharLen(s) > 0 ==> CharLen(s[..k]) == CharLen(s)
  {
  }

  /** Wherever valid text is cut, at most three bytes less make it valid again. */
  lemma {:induction false} CutLosesLittle(s: Bytes, n: nat)
    requires Valid(s) && n <= |s|
    ensures exists k :: n - 3 <= k <= n && 0 <= k && Valid(s[..k])
    decreases |s|
  {
    var c := CharLen(s);
    if n == 0 || n < c {
      assert s[..0] == [];
    } else {
      CutLosesLittle(s[c..], n - c);
      var k :| n - c - 3 <= k <= n - c && 0 <= k && Valid(s[c..][..k]);
      CharLenPrefix(s, k + c);
      assert s[..k + c][c..] == s[c..][..k];
      assert Valid(s[..k + c]);
    }
  }

  // ------------------------------------- what valid means: section 3's encoding

  /** A Unicode scalar value: a code point that is no surrogate. */
  type Scalar = c: int | 0 <= c <= 0xD7FF || 0xE000 <= c <= 0x10FFFF

  function EncodeChar(c: Scalar): Bytes {
    if c < 0x80 then [c]
    else if c < 0x800 then [0xC0 + c / 64, 0x80 + c % 64]
    else if c < 0x10000 then [0xE0 + c / 4096, 0x80 + c / 64 % 64, 0x80 + c % 64]
    else [0xF0 + c / 262144, 0x80 + c / 4096 % 64, 0x80 + c / 64 % 64, 0x80 + c % 64]
  }

  function EncodeText(cs: seq<Scalar>): Bytes {
    if cs == [] then [] else EncodeChar(cs[0]) + EncodeText(cs[1..])
  }

  lemma EncodedCharLen(c: Scalar, rest: Bytes)
    ensures CharLen(EncodeChar(c) + rest) == |EncodeChar(c)|
  {
  }

  /** A number put together from base-64 digits, taken apart again. */
  lemma Digits(a: nat, b: nat, c: nat, d: nat)
    requires b < 64 && c < 64 && d < 64
    ensures (a * 64 + b) / 64 == a && (a * 64 + b) % 64 == b
    ensures var n := a * 4096 + b * 64 + c; n / 4096 == a && n / 64 % 64 == b && n % 64 == c
    ensures var n := a * 262144 + b * 4096 + c * 64 + d;
      n / 262144 == a && n / 4096 % 64 == b && n / 64 % 64 == c && n % 64 == d
  {
    assert (a * 4096 + b * 64 + c) / 64 == a * 64 + b;
    assert (a * 262144 + b * 4096 + c * 64 + d) / 64 == a * 4096 + b * 64 + c;
    assert (a * 262144 + b * 4096 + c * 64 + d) / 4096 == a * 64 + b;
  }

  lemma ThreeBytes(a: nat, b: nat, c: nat) returns (r: Scalar)
    requires a < 16 && b < 64 && c < 64 && (a == 0 ==> b >= 32) && (a == 13 ==> b < 32)
    ensures EncodeChar(r) == [0xE0 + a, 0x80 + b, 0x80 + c]
  {
    Digits(a, b, c, 0);
    r := a * 4096 + b * 64 + c;
  }

  lemma FourBytes(a: nat, b: nat, c: nat, d: nat) returns (r: Scalar)
    requires a < 5 && b < 64 && c < 64 && d < 64 && (a == 0 ==> b >= 16) && (a == 4 ==> b < 16)
    ensures EncodeChar(r) == [0xF0 + a, 0x80 + b, 0x80 + c, 0x80 + d]
  {
    Digits(a, b, c, d);
    r := a * 262144 + b * 4096 + c * 64 + d;
  }

  /** The character the syntax accepts at the head is the encoding of one
      scalar value. */
  lemma CharAtHead(s: Bytes) returns (c: Scalar)
    requires CharLen(s) > 0
    ensures EncodeChar(c) == s[..CharLen(s)]
  {
    var n := CharLen(s);
    var x: int := s[0];
    if n == 1 {
      c := x;
    } else if n == 2 {
      var y: int := s[1];
      Digits(x - 0xC0, y - 0x80, 0, 0);
      c := (x - 0xC0) * 64 + (y - 0x80);
    } else if n == 3 {
      hide EncodeChar;
      var y: int, z: int := s[1], s[2];
      c := ThreeBytes(x - 0xE0, y - 0x80, z - 0x80);
      assert s[..3] == [s[0], s[1], s[2]];
    } else {
      hide EncodeChar;
      var y: int, z: int, w: int := s[1], s[2], s[3];
      c := FourBytes(x - 0xF0, y - 0x80, z - 0x80, w - 0x80);
      assert s[..4] == [s[0], s[1], s[2], s[3]];
    }
  }

  lemma {:induction false} EncodingIsValid(cs: seq<Scalar>)
    ensures Valid(EncodeText(cs))
    decreases |cs|
  {
    if cs != [] {
      EncodingIsValid(cs[1..]);
      EncodedCharLen(cs[0], EncodeText(cs[1..]));
      assert EncodeText(cs)[|EncodeChar(cs[0])|..] == EncodeText(cs[1..]);
    }
  }

  lemma EncodeNothing()
    ensures EncodeText([]) == []
  {
  }

  lemma EncodeCons(c: Scalar, rest: seq<Scalar>)
    ensures EncodeText([c] + rest) == EncodeChar(c) + EncodeText(rest)
  {
    hide EncodeChar;
    assert ([c] + rest)[1..] == rest;
  }

  lemma {:induction false} ValidIsEncoding(s: Bytes) returns (cs: seq<Scalar>)
    requires Valid(s)
    ensures EncodeText(cs) == s
    decreases |s|
  {
    hide CharLen, EncodeChar, EncodeText;
    if s == [] {
      cs := [];
      EncodeNothing();
    } else {
      var c := CharAtHead(s);
      var rest := ValidIsEncoding(s[CharLen(s)..]);
      EncodeCons(c, rest);
      cs := [c] + rest;
      assert s == s[..CharLen(s)] + s[CharLen(s)..];
    }
  }

  /** Bytes are valid exactly when they encode some sequence of scalar values. */
  lemma ValidExactly(s: Bytes)
    ensures Valid(s) <==> exists cs :: EncodeText(cs) == s
  {
    if Valid(s) {
      var cs := ValidIsEncoding(s);
    }
    forall cs | EncodeText(cs) == s
      ensures Valid(s)
    {
      EncodingIsValid(cs);
    }
  }
}
