/** The standard base64 alphabet with padding, section 4 of RFC 4648. */
module Base64 {
  import opened Octets
  import opened Options

  type Sextet = n: int | 0 <= n < 64

  function Digit(v: Sextet): char {
    if v < 26 then ('A' as int + v) as char
    else if v < 52 then ('a' as int + v - 26) as char
    else if v < 62 then ('0' as int + v - 52) as char
    else if v == 62 then '+' else '/'
  }

  function Value(c: char): Option<Sextet> {
    if 'A' <= c <= 'Z' then Some(c as int - 'A' as int)
    else if 'a' <= c <= 'z' then Some(c as int - 'a' as int + 26)
    else if '0' <= c <= '9' then Some(c as int - '0' as int + 52)
    else if c == '+' then Some(62)
    else if c == '/' then Some(63)
    else None
  }

  function Encode(data: Bytes): string {
    if data == [] then ""
    else if |data| == 1 then
      [Digit(data[0] / 4), Digit(data[0] % 4 * 16), '=', '=']
    else if |data| == 2 then
      [Digit(data[0] / 4), Digit(data[0] % 4 * 16 + data[1] / 16), Digit(data[1] % 16 * 4), '=']
    else
      [Digit(data[0] / 4), Digit(data[0] % 4 * 16 + data[1] / 16),
       Digit(data[1] % 16 * 4 + data[2] / 64), Digit(data[2] % 64)] + Encode(data[3..])
  }

  /** The three bytes that four digits stand for. */
  function ThreeBytes(a: Sextet, b: Sextet, c: Sextet, d: Sextet): (r: Bytes)
    ensures |r| == 3
  {
    [a * 4 + b / 16, b % 16 * 16 + c / 4, c % 4 * 64 + d]
  }

  /** The strict decoder: groups of four, padding only at the end, and no bits
      left over. */
  function Decode(s: string): Option<Bytes> {
    if s == "" then Some([])
    else if |s| < 4 then None
    else match (Value(s[0]), Value(s[1]))
      case (Some(a), Some(b)) =>
        if s[2..] == "==" then
          (if b % 16 == 0 then Some([a * 4 + b / 16]) else None)
        else (match Value(s[2])
          case None => None
          case Some(c) =>
            if s[3..] == "=" then
              (if c % 4 == 0 then Some([a * 4 + b / 16, b % 16 * 16 + c / 4]) else None)
            else (match (Value(s[3]), Decode(s[4..]))
              case (Some(d), Some(rest)) => Some(ThreeBytes(a, b, c, d) + rest)
              case _ => None))
      case _ => None
  }

  lemma DigitValue(v: Sextet)
    ensures Value(Digit(v)) == Some(v) && Digit(v) != '='
  {
  }

  lemma ValueDigit(c: char)
    requires Value(c).Some?
    ensures Digit(Value(c).value) == c && c != '='
  {
  }

  /** The alphabet of section 4: the digits follow on one another within their four
      runs, which start and end so. */
  lemma Alphabet(v: Sextet)
    ensures Digit(0) == 'A' && Digit(25) == 'Z' && Digit(26) == 'a' && Digit(51) == 'z'
    ensures Digit(52) == '0' && Digit(61) == '9' && Digit(62) == '+' && Digit(63) == '/'
    ensures v !in {25, 51, 61, 62, 63} ==> Digit(v + 1) as int == Digit(v) as int + 1
  {
  }

  /** A group of three bytes is one number of 24 bits, most significant first, and
      so are its four digits; what is missing counts as zero bits, and its digits
      are padding. */
  lemma GroupNumber(data: Bytes)
    requires |data| >= 1
    ensures var s := Encode(data);
      var x: int, y: int, z: int := data[0], if |data| >= 2 then data[1] else 0, if |data| >= 3 then data[2] else 0;
      && |s| >= 4 && Value(s[0]).Some? && Value(s[1]).Some?
      && (if |data| >= 2 then Value(s[2]).Some? else s[2] == '=')
      && (if |data| >= 3 then Value(s[3]).Some? && s[4..] == Encode(data[3..]) else s[3] == '=' && |s| == 4)
      && 65536 * x + 256 * y + z
         == 262144 * Value(s[0]).value + 4096 * Value(s[1]).value
            + (if |data| >= 2 then 64 * Value(s[2]).value else 0) + (if |data| >= 3 then Value(s[3]).value else 0)
  {
    hide Digit, Value;
    forall v: Sextet
      ensures Value(Digit(v)) == Some(v)
    {
      DigitValue(v);
    }
  }

  /** What four sextets say of three bytes, and back. */
  lemma Bits(x: Byte, y: Byte, z: Byte)
    ensures x / 4 * 4 + (x % 4 * 16 + y / 16) / 16 == x
    ensures (x % 4 * 16 + y / 16) % 16 * 16 + (y % 16 * 4 + z / 64) / 4 == y
    ensures (y % 16 * 4 + z / 64) % 4 * 64 + z % 64 == z
    ensures x / 4 * 4 + (x % 4 * 16) / 16 == x && x % 4 * 16 % 16 == 0
    ensures (x % 4 * 16 + y / 16) % 16 * 16 + (y % 16 * 4) / 4 == y && y % 16 * 4 % 4 == 0
  {
  }

  lemma BitsBack(a: Sextet, b: Sextet, c: Sextet, d: Sextet)
    ensures var x, y, z := a * 4 + b / 16, b % 16 * 16 + c / 4, c % 4 * 64 + d;
      x / 4 == a && x % 4 * 16 + y / 16 == b && y % 16 * 4 + z / 64 == c && z % 64 == d
      && (b % 16 == 0 ==> x % 4 * 16 == b) && (c % 4 == 0 ==> y % 16 * 4 == c)
  {
  }

  /** Decoding undoes encoding, on all data. */
  lemma {:induction false} RoundTrip(data: Bytes)
    ensures Decode(Encode(data)) == Some(data)
    decreases |data|
  {
    hide Digit, Value;
    if |data| >= 3 {
      GroupRoundTrip(data[0], data[1], data[2], Encode(data[3..]));
      RoundTrip(data[3..]);
      assert data == [data[0], data[1], data[2]] + data[3..];
    } else if |data| == 2 {
      TwoBytesRoundTrip(data[0], data[1]);
      assert data == [data[0], data[1]];
    } else if |data| == 1 {
      OneByteRoundTrip(data[0]);
      assert data == [data[0]];
    }
  }

  lemma OneByteRoundTrip(x: Byte)
    ensures Decode(Encode([x])) == Some([x])
  {
    hide Digit, Value;
    Bits(x, 0, 0);
    DigitValue(x / 4);
    DigitValue(x % 4 * 16);
    var s := Encode([x]);
    assert s[2..] == "==";
  }

  lemma TwoBytesRoundTrip(x: Byte, y: Byte)
    ensures Decode(Encode([x, y])) == Some([x, y])
  {
    hide Digit, Value;
    Bits(x, y, 0);
    DigitValue(x / 4);
    DigitValue(x % 4 * 16 + y / 16);
    DigitValue(y % 16 * 4);
    var s := Encode([x, y]);
    assert s[2..][0] == s[2] && s[3..] == "=";
  }

  lemma GroupRoundTrip(x: Byte, y: Byte, z: Byte, rest: string)
    ensures var s := [Digit(x / 4), Digit(x % 4 * 16 + y / 16), Digit(y % 16 * 4 + z / 64), Digit(z % 64)] + rest;
      Decode(s) == match Decode(rest) case Some(d) => Some([x, y, z] + d) case None => None
  {
    hide Digit, Value;
    DigitValue(x / 4);
    DigitValue(x % 4 * 16 + y / 16);
    DigitValue(y % 16 * 4 + z / 64);
    DigitValue(z % 64);
    Bits(x, y, z);
    var s := [Digit(x / 4), Digit(x % 4 * 16 + y / 16), Digit(y % 16 * 4 + z / 64), Digit(z % 64)] + rest;
    assert s[4..] == rest;
    assert s[2..][0] == s[2] && s[3..][0] == s[3];
  }

  /** Encoding undoes decoding: the decoder accepts nothing but encodings. */
  lemma {:induction false} DecodeOnlyEncodings(s: string)
    requires Decode(s).Some?
    ensures Encode(Decode(s).value) == s
    decreases |s|
  {
    if s != "" {
      if s[2..] == "==" {
        OneByteBack(s);
      } else if s[3..] == "=" {
        TwoBytesBack(s);
      } else {
        GroupSplits(s);
        DecodeOnlyEncodings(s[4..]);
        GroupBack(s, Decode(s[4..]).value);
      }
    }
  }

  lemma OneByteBack(s: string)
    requires Decode(s).Some? && s != "" && s[2..] == "=="
    ensures Encode(Decode(s).value) == s
  {
    hide Digit, Value;
    ValueDigit(s[0]);
    ValueDigit(s[1]);
    BitsBack(Value(s[0]).value, Value(s[1]).value, 0, 0);
    assert s == [s[0], s[1]] + s[2..];
  }

  lemma TwoBytesBack(s: string)
    requires Decode(s).Some? && s != "" && s[2..] != "==" && s[3..] == "="
    ensures Encode(Decode(s).value) == s
  {
    hide Digit, Value;
    ValueDigit(s[0]);
    ValueDigit(s[1]);
    ValueDigit(s[2]);
    BitsBack(Value(s[0]).value, Value(s[1]).value, Value(s[2]).value, 0);
    assert s == [s[0], s[1], s[2]] + s[3..];
  }

  /** A group without padding: four digits, and the rest decodes by itself. */
  lemma GroupSplits(s: string)
    requires Decode(s).Some? && s != "" && s[2..] != "==" && s[3..] != "="
    ensures Value(s[0]).Some? && Value(s[1]).Some? && Value(s[2]).Some? && Value(s[3]).Some? && Decode(s[4..]).Some?
    ensures Decode(s).value
         == ThreeBytes(Value(s[0]).value, Value(s[1]).value, Value(s[2]).value, Value(s[3]).value) + Decode(s[4..]).value
  {
    hide Digit, Value, ThreeBytes;
  }

  lemma GroupBack(s: string, rest: Bytes)
    requires |s| >= 4 && Value(s[0]).Some? && Value(s[1]).Some? && Value(s[2]).Some? && Value(s[3]).Some?
    requires Encode(rest) == s[4..]
    ensures Encode(ThreeBytes(Value(s[0]).value, Value(s[1]).value, Value(s[2]).value, Value(s[3]).value) + rest) == s
  {
    hide Digit, Value, Encode;
    ValueDigit(s[0]);
    ValueDigit(s[1]);
    ValueDigit(s[2]);
    ValueDigit(s[3]);
    var a, b, c, d := Value(s[0]).value, Value(s[1]).value, Value(s[2]).value, Value(s[3]).value;
    BitsBack(a, b, c, d);
    var three := ThreeBytes(a, b, c, d);
    assert three == [three[0], three[1], three[2]];
    EncodeGroup(three + rest, rest);
    assert s == [s[0], s[1], s[2], s[3]] + s[4..];
  }

  lemma EncodeGroup(d: Bytes, rest: Bytes)
    requires |d| >= 3 && d == [d[0], d[1], d[2]] + rest
    ensures Encode(d) == [Digit(d[0] / 4), Digit(d[0] % 4 * 16 + d[1] / 16),
                          Digit(d[1] % 16 * 4 + d[2] / 64), Digit(d[2] % 64)] + Encode(rest)
  {
    assert d[3..] == rest;
  }

  /** Encoded text holds digits and padding only, four characters for every
      three bytes or part of it. */
  lemma {:induction false} EncodedText(data: Bytes)
    ensures forall c <- Encode(data) :: Value(c).Some? || c == '='
    ensures |Encode(data)| == (|data| + 2) / 3 * 4
    decreases |data|
  {
    hide Digit, Value;
    if |data| >= 3 {
      EncodedText(data[3..]);
    }
    if data != [] {
      DigitValue(data[0] / 4);
      if |data| == 1 {
        DigitValue(data[0] % 4 * 16);
      } else {
        DigitValue(data[0] % 4 * 16 + data[1] / 16);
        if |data| == 2 {
          DigitValue(data[1] % 16 * 4);
        } else {
          DigitValue(data[1] % 16 * 4 + data[2] / 64);
          DigitValue(data[2] % 64);
        }
      }
    }
  }
}
