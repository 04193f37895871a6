/** The browser's `btoa` and `atob`: Base64 as defined in section 4 of
    RFC 4648 (with `=` padding) for encoding, and the lenient
    "forgiving-base64 decode" of the WHATWG Infra standard for decoding. */
module Base64 {
  import opened JsText

  type Byte = x: int | 0 <= x < 256
  type Sextet = x: int | 0 <= x < 64

  /** The DOMException both functions throw on bad input. */
  datatype DomError = InvalidCharacterError

  datatype Result<+T> = Ok(value: T) | Err(error: DomError)

  const Pad: CodeUnit := '=' as int

  /** A string `btoa` accepts: every code unit is at most 0xFF. */
  predicate IsLatin1(s: JsString)
  {
    forall i | 0 <= i < |s| :: s[i] < 256
  }

  /** The 64-character alphabet of RFC 4648, section 4, table 1. */
  function SextetChar(v: Sextet): CodeUnit
  {
    if v < 26 then 'A' as int + v
    else if v < 52 then 'a' as int + (v - 26)
    else if v < 62 then '0' as int + (v - 52)
    else if v == 62 then '+' as int
    else '/' as int
  }

  predicate IsAlphabetChar(c: CodeUnit)
  {
    'A' as int <= c <= 'Z' as int || 'a' as int <= c <= 'z' as int ||
    '0' as int <= c <= '9' as int || c == '+' as int || c == '/' as int
  }

  /** The inverse of `SextetChar`. */
  function SextetValue(c: CodeUnit): (v: Sextet)
    requires IsAlphabetChar(c)
    ensures SextetChar(v) == c
  {
    if 'A' as int <= c <= 'Z' as int then c - 'A' as int
    else if 'a' as int <= c <= 'z' as int then c - 'a' as int + 26
    else if '0' as int <= c <= '9' as int then c - '0' as int + 52
    else if c == '+' as int then 62
    else 63
  }

  lemma SextetRoundTrip(v: Sextet)
    ensures IsAlphabetChar(SextetChar(v)) && SextetValue(SextetChar(v)) == v
  {
  }

  // ----- Encoding (btoa) -----

  /** A full 24-bit group of three bytes as four characters. */
  function EncodeGroup(b0: Byte, b1: Byte, b2: Byte): (r: JsString)
    ensures |r| == 4 && forall i | 0 <= i < 4 :: IsAlphabetChar(r[i])
  {
    SextetRoundTrip(b0 / 4);
    SextetRoundTrip(b0 % 4 * 16 + b1 / 16);
    SextetRoundTrip(b1 % 16 * 4 + b2 / 64);
    SextetRoundTrip(b2 % 64);
    [SextetChar(b0 / 4), SextetChar(b0 % 4 * 16 + b1 / 16),
     SextetChar(b1 % 16 * 4 + b2 / 64), SextetChar(b2 % 64)]
  }

  /** A final group of two bytes as three characters (before padding). */
  function EncodeTwo(b0: Byte, b1: Byte): (r: JsString)
    ensures |r| == 3 && forall i | 0 <= i < 3 :: IsAlphabetChar(r[i])
  {
    SextetRoundTrip(b0 / 4);
    SextetRoundTrip(b0 % 4 * 16 + b1 / 16);
    SextetRoundTrip(b1 % 16 * 4);
    [SextetChar(b0 / 4), SextetChar(b0 % 4 * 16 + b1 / 16), SextetChar(b1 % 16 * 4)]
  }

  /** A final single byte as two characters (before padding). */
  function EncodeOne(b0: Byte): (r: JsString)
    ensures |r| == 2 && forall i | 0 <= i < 2 :: IsAlphabetChar(r[i])
  {
    SextetRoundTrip(b0 / 4);
    SextetRoundTrip(b0 % 4 * 16);
    [SextetChar(b0 / 4), SextetChar(b0 % 4 * 16)]
  }

  /** The alphabet characters of the encoding, without the padding: a full
      24-bit group becomes four characters, a final group of one or two
      bytes becomes two or three. */
  function EncodeDigits(b: seq<Byte>): (r: JsString)
    ensures |r| == 4 * (|b| / 3) + (if |b| % 3 == 0 then 0 else |b| % 3 + 1)
    ensures forall i | 0 <= i < |r| :: IsAlphabetChar(r[i])
  {
    if |b| == 0 then []
    else if |b| == 1 then EncodeOne(b[0])
    else if |b| == 2 then EncodeTwo(b[0], b[1])
    else EncodeGroup(b[0], b[1], b[2]) + EncodeDigits(b[3..])
  }

  /** The `=` characters that complete the final quantum to four characters. */
  function Padding(n: nat): JsString
  {
    if n % 3 == 1 then [Pad, Pad] else if n % 3 == 2 then [Pad] else []
  }

  /** Base64 encoding of a byte string, section 4 of RFC 4648. */
  function Encode(b: seq<Byte>): (r: JsString)
    ensures |r| == 4 * ((|b| + 2) / 3)
  {
    EncodeDigits(b) + Padding(|b|)
  }

  /** `btoa(s)`: throws unless every code unit of `s` is Latin-1. */
  function Btoa(s: JsString): (r: Result<JsString>)
    ensures r.Err? <==> !IsLatin1(s)
    ensures r.Ok? ==> |r.value| == 4 * ((|s| + 2) / 3)
  {
    if IsLatin1(s) then Ok(Encode(s)) else Err(InvalidCharacterError)
  }

  // ----- Decoding (atob) -----

  /** ASCII whitespace in the sense of the WHATWG Infra standard. */
  predicate IsAsciiWhitespace(c: CodeUnit)
  {
    c == 0x09 || c == 0x0A || c == 0x0C || c == 0x0D || c == 0x20
  }

  function RemoveAsciiWhitespace(s: JsString): (r: JsString)
    ensures |r| <= |s|
    ensures forall i | 0 <= i < |r| :: !IsAsciiWhitespace(r[i])
    ensures (forall i | 0 <= i < |s| :: !IsAsciiWhitespace(s[i])) ==> r == s
  {
    if s == [] then []
    else if IsAsciiWhitespace(s[0]) then RemoveAsciiWhitespace(s[1..])
    else [s[0]] + RemoveAsciiWhitespace(s[1..])
  }

  /** When the length is a multiple of four, one or two trailing `=` are dropped. */
  function StripPadding(s: JsString): JsString
  {
    if |s| % 4 == 0 && |s| >= 2 && s[|s| - 2] == Pad && s[|s| - 1] == Pad then s[..|s| - 2]
    else if |s| % 4 == 0 && |s| >= 1 && s[|s| - 1] == Pad then s[..|s| - 1]
    else s
  }

  /** The first byte carried by the characters `c0 c1`. */
  function FirstByte(c0: CodeUnit, c1: CodeUnit): Byte
    requires IsAlphabetChar(c0) && IsAlphabetChar(c1)
  {
    SextetValue(c0) * 4 + SextetValue(c1) / 16
  }

  /** The second byte carried by the characters `c1 c2`. */
  function SecondByte(c1: CodeUnit, c2: CodeUnit): Byte
    requires IsAlphabetChar(c1) && IsAlphabetChar(c2)
  {
    SextetValue(c1) % 16 * 16 + SextetValue(c2) / 4
  }

  /** The third byte carried by the characters `c2 c3`. */
  function ThirdByte(c2: CodeUnit, c3: CodeUnit): Byte
    requires IsAlphabetChar(c2) && IsAlphabetChar(c3)
  {
    SextetValue(c2) % 4 * 64 + SextetValue(c3)
  }

  /** Bytes of a run of alphabet characters; the bits left over by a final
      group of two or three characters are discarded. */
  function DecodeDigits(s: JsString): (r: seq<Byte>)
    requires forall i | 0 <= i < |s| :: IsAlphabetChar(s[i])
  {
    if |s| <= 1 then []
    else if |s| == 2 then [FirstByte(s[0], s[1])]
    else if |s| == 3 then [FirstByte(s[0], s[1]), SecondByte(s[1], s[2])]
    else [FirstByte(s[0], s[1]), SecondByte(s[1], s[2]), ThirdByte(s[2], s[3])] + DecodeDigits(s[4..])
  }

  /** Forgiving-base64 decode: `None` is the failure that makes `atob` throw. */
  function Decode(s: JsString): (r: Option<seq<Byte>>)
    ensures r.Some? <==>
      var d := StripPadding(RemoveAsciiWhitespace(s));
      |d| % 4 != 1 && forall i | 0 <= i < |d| :: IsAlphabetChar(d[i])
  {
    var d := StripPadding(RemoveAsciiWhitespace(s));
    if |d| % 4 == 1 then None
    else if exists i | 0 <= i < |d| :: !IsAlphabetChar(d[i]) then None
    else Some(DecodeDigits(d))
  }

  /** `atob(s)`: the decoded bytes as a string of code units below 256. */
  function Atob(s: JsString): (r: Result<JsString>)
    ensures r.Ok? ==> IsLatin1(r.value)
    ensures r.Err? <==> Decode(s).None?
  {
    match Decode(s)
    case None => Err(InvalidCharacterError)
    case Some(b) => Ok(b)
  }

  // ----- Round trip -----

  /** The bit arithmetic of one group: the sextets reassemble into the bytes. */
  lemma GroupArithmetic(b0: Byte, b1: Byte, b2: Byte)
    ensures var s0, s1, s2, s3 := b0 / 4, b0 % 4 * 16 + b1 / 16, b1 % 16 * 4 + b2 / 64, b2 % 64;
      s0 * 4 + s1 / 16 == b0 && s1 % 16 * 16 + s2 / 4 == b1 && s2 % 4 * 64 + s3 == b2
  {
  }

  /** One full group: the three bytes come back from their four characters. */
  lemma GroupRoundTrip(b0: Byte, b1: Byte, b2: Byte)
    ensures var g := EncodeGroup(b0, b1, b2);
      FirstByte(g[0], g[1]) == b0 && SecondByte(g[1], g[2]) == b1 && ThirdByte(g[2], g[3]) == b2
  {
    var s0: Sextet, s1: Sextet, s2: Sextet, s3: Sextet := b0 / 4, b0 % 4 * 16 + b1 / 16, b1 % 16 * 4 + b2 / 64, b2 % 64;
    SextetRoundTrip(s0);
    SextetRoundTrip(s1);
    SextetRoundTrip(s2);
    SextetRoundTrip(s3);
    GroupArithmetic(b0, b1, b2);
    var g := EncodeGroup(b0, b1, b2);
    assert g == [SextetChar(s0), SextetChar(s1), SextetChar(s2), SextetChar(s3)];
    assert FirstByte(g[0], g[1]) == s0 * 4 + s1 / 16;
    assert SecondByte(g[1], g[2]) == s1 % 16 * 16 + s2 / 4;
    assert ThirdByte(g[2], g[3]) == s2 % 4 * 64 + s3;
  }

  lemma TwoRoundTrip(b0: Byte, b1: Byte)
    ensures var g := EncodeTwo(b0, b1);
      FirstByte(g[0], g[1]) == b0 && SecondByte(g[1], g[2]) == b1
  {
    SextetRoundTrip(b0 / 4);
    SextetRoundTrip(b0 % 4 * 16 + b1 / 16);
    SextetRoundTrip(b1 % 16 * 4);
  }

  lemma OneRoundTrip(b0: Byte)
    ensures var g := EncodeOne(b0); FirstByte(g[0], g[1]) == b0
  {
    SextetRoundTrip(b0 / 4);
    SextetRoundTrip(b0 % 4 * 16);
  }

  /** The digits of an encoding never leave a single digit in the last group. */
  lemma DigitsLength(n: nat)
    ensures (4 * (n / 3) + (if n % 3 == 0 then 0 else n % 3 + 1)) % 4 != 1
  {
    var q, m := n / 3, n % 3;
    assert 4 * q % 4 == 0;
  }

  /** One full group decodes back, given that the rest does. */
  lemma GroupStep(b: seq<Byte>)
    requires |b| >= 3
    requires DecodeDigits(EncodeDigits(b[3..])) == b[3..]
    ensures DecodeDigits(EncodeDigits(b)) == b
  {
    var rest := EncodeDigits(b[3..]);
    assert EncodeDigits(b) == EncodeGroup(b[0], b[1], b[2]) + rest;
    GroupDecode(b[0], b[1], b[2], rest);
    HeadThree(b);
  }

  /** Decoding reads a leading group of four characters on its own, and
      gets the group's three bytes back from it. */
  lemma GroupDecode(b0: Byte, b1: Byte, b2: Byte, rest: JsString)
    requires forall i | 0 <= i < |rest| :: IsAlphabetChar(rest[i])
    ensures DecodeDigits(EncodeGroup(b0, b1, b2) + rest) == [b0, b1, b2] + DecodeDigits(rest)
  {
    var g := EncodeGroup(b0, b1, b2);
    GroupRoundTrip(b0, b1, b2);
    var e := g + rest;
    assert e[4..] == rest;
    assert e[0] == g[0] && e[1] == g[1] && e[2] == g[2] && e[3] == g[3];
  }

  /** A sequence of three or more is its first three elements and the rest. */
  lemma HeadThree<T>(s: seq<T>)
    requires |s| >= 3
    ensures s == [s[0], s[1], s[2]] + s[3..]
  {
  }

  lemma {:induction false} DigitsRoundTrip(b: seq<Byte>)
    ensures DecodeDigits(EncodeDigits(b)) == b
  {
    if |b| == 1 {
      OneRoundTrip(b[0]);
    } else if |b| == 2 {
      TwoRoundTrip(b[0], b[1]);
    } else if |b| >= 3 {
      DigitsRoundTrip(b[3..]);
      GroupStep(b);
    }
  }

  /** An encoding consists of alphabet characters and `=` only. */
  lemma EncodeHasNoWhitespace(b: seq<Byte>)
    ensures RemoveAsciiWhitespace(Encode(b)) == Encode(b)
  {
    var digits, e := EncodeDigits(b), Encode(b);
    forall i | 0 <= i < |e| ensures !IsAsciiWhitespace(e[i]) {
      if i < |digits| {
        assert e[i] == digits[i] && IsAlphabetChar(digits[i]);
      } else {
        assert e[i] == Padding(|b|)[i - |digits|] == Pad;
      }
    }
  }

  /** Dropping the trailing `=` of an encoding leaves exactly its digits. */
  lemma StripPaddingOfEncode(b: seq<Byte>)
    ensures StripPadding(Encode(b)) == EncodeDigits(b)
  {
    var digits, e := EncodeDigits(b), Encode(b);
    assert e == digits + Padding(|b|);
    var n := |digits|;
    if |b| % 3 == 0 {
      assert n % 4 == 0;
      assert e == digits;
      if n >= 1 { assert IsAlphabetChar(digits[n - 1]); }
    } else if |b| % 3 == 2 {
      assert n % 4 == 3;
      assert e == digits + [Pad];
      StripOne(digits);
    } else {
      assert n % 4 == 2;
      assert e == digits + [Pad, Pad];
      StripTwo(digits);
    }
  }

  lemma StripOne(d: JsString)
    requires |d| % 4 == 3 && forall i | 0 <= i < |d| :: IsAlphabetChar(d[i])
    ensures StripPadding(d + [Pad]) == d
  {
    var e := d + [Pad];
    assert |e| % 4 == 0;
    assert e[|e| - 2] == d[|d| - 1];
    assert IsAlphabetChar(d[|d| - 1]);
    assert e[..|e| - 1] == d;
  }

  lemma StripTwo(d: JsString)
    requires |d| % 4 == 2
    ensures StripPadding(d + [Pad, Pad]) == d
  {
    var e := d + [Pad, Pad];
    assert |e| % 4 == 0;
    assert e[..|e| - 2] == d;
  }

  /** `atob(btoa(s)) == s` for every string `btoa` accepts. */
  lemma DecodeEncode(b: seq<Byte>)
    ensures Decode(Encode(b)) == Some(b)
  {
    var d := EncodeDigits(b);
    EncodeHasNoWhitespace(b);
    StripPaddingOfEncode(b);
    assert StripPadding(RemoveAsciiWhitespace(Encode(b))) == d;
    DigitsLength(|b|);
    assert |d| % 4 != 1;
    DigitsRoundTrip(b);
  }

  lemma AtobBtoa(s: JsString)
    requires IsLatin1(s)
    ensures Btoa(s).Ok? && Atob(Btoa(s).value) == Ok(s)
  {
    DecodeEncode(s);
  }
}
