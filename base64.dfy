/** `btoa`: base64 encoding as section 4 of RFC 4648 defines it, applied to
    the Latin-1 code units of a string, with the matching decoder (`atob`)
    as its inverse. */
module Base64 {
  import opened Wrappers
  import opened Validation

  /** Every code point fits in one byte: what `btoa` accepts. */
  predicate IsLatin1(s: string)
  {
    forall k :: 0 <= k < |s| ==> s[k] as int < 256
  }

  /** The character for a 6-bit value, by the alphabet of Table 1 of RFC 4648:
      `A`-`Z`, `a`-`z`, `0`-`9`, `+`, `/`. */
  function SextetChar(v: int): (c: char)
    requires 0 <= v < 64
  {
    if v < 26 then ('A' as int + v) as char
    else if v < 52 then ('a' as int + v - 26) as char
    else if v < 62 then ('0' as int + v - 52) as char
    else if v == 62 then '+'
    else '/'
  }

  /** The 6-bit value of an alphabet character, or none (the pad `=` included). */
  function SextetValue(c: char): (v: Option<int>)
    ensures v.Some? ==> 0 <= v.value < 64
  {
    if 'A' <= c <= 'Z' then Some(c as int - 'A' as int)
    else if 'a' <= c <= 'z' then Some(c as int - 'a' as int + 26)
    else if '0' <= c <= '9' then Some(c as int - '0' as int + 52)
    else if c == '+' then Some(62)
    else if c == '/' then Some(63)
    else None
  }

  lemma SextetRoundTrip(v: int)
    requires 0 <= v < 64
    ensures SextetValue(SextetChar(v)) == Some(v)
  {
  }

  /** Base64 of a byte sequence: each group of three bytes becomes four
      characters; a final group of one or two bytes is padded with `=`. */
  function Encode(bytes: seq<byte>): (r: string)
    ensures |r| == 4 * ((|bytes| + 2) / 3)
  {
    if |bytes| == 0 then []
    else if |bytes| == 1 then
      [SextetChar(bytes[0] / 4), SextetChar(bytes[0] % 4 * 16), '=', '=']
    else if |bytes| == 2 then
      [SextetChar(bytes[0] / 4), SextetChar(bytes[0] % 4 * 16 + bytes[1] / 16),
       SextetChar(bytes[1] % 16 * 4), '=']
    else
      [SextetChar(bytes[0] / 4), SextetChar(bytes[0] % 4 * 16 + bytes[1] / 16),
       SextetChar(bytes[1] % 16 * 4 + bytes[2] / 64), SextetChar(bytes[2] % 64)]
      + Encode(bytes[3..])
  }

  /** Every character of the encoding is from the alphabet or the pad `=`. */
  lemma {:induction false} EncodeAlphabet(bytes: seq<byte>)
    ensures forall k :: 0 <= k < |Encode(bytes)| ==> SextetValue(Encode(bytes)[k]).Some? || Encode(bytes)[k] == '='
  {
    if |bytes| >= 3 {
      var head := Encode(bytes)[..4];
      EncodeAlphabet(bytes[3..]);
      assert Encode(bytes) == head + Encode(bytes[3..]);
      forall v | 0 <= v < 64
        ensures SextetValue(SextetChar(v)).Some?
      {
        SextetRoundTrip(v);
      }
    } else if |bytes| > 0 {
      forall v | 0 <= v < 64
        ensures SextetValue(SextetChar(v)).Some?
      {
        SextetRoundTrip(v);
      }
    }
  }

  /** Decodes one four-character group into one, two or three bytes. */
  function DecodeGroup(c0: char, c1: char, c2: char, c3: char, last: bool): Option<seq<byte>>
  {
    match (SextetValue(c0), SextetValue(c1), SextetValue(c2), SextetValue(c3))
    case (Some(v0), Some(v1), Some(v2), Some(v3)) =>
      Some([v0 * 4 + v1 / 16, v1 % 16 * 16 + v2 / 4, v2 % 4 * 64 + v3])
    case (Some(v0), Some(v1), Some(v2), None) =>
      if last && c3 == '=' then Some([v0 * 4 + v1 / 16, v1 % 16 * 16 + v2 / 4]) else None
    case (Some(v0), Some(v1), None, None) =>
      if last && c2 == '=' && c3 == '=' then Some([v0 * 4 + v1 / 16]) else None
    case _ => None
  }

  /** Base64 decoding, the inverse of `Encode`. */
  function Decode(s: string): (r: Option<seq<byte>>)
    ensures r.Some? ==> |s| % 4 == 0
  {
    if s == [] then Some([])
    else if |s| < 4 then None
    else match (DecodeGroup(s[0], s[1], s[2], s[3], |s| == 4), Decode(s[4..]))
      case (Some(group), Some(rest)) => Some(group + rest)
      case _ => None
  }

  lemma DecodeOneByteGroup(b0: byte)
    ensures DecodeGroup(SextetChar(b0 / 4), SextetChar(b0 % 4 * 16), '=', '=', true) == Some([b0])
  {
    SextetRoundTrip(b0 / 4);
    SextetRoundTrip(b0 % 4 * 16);
  }

  lemma DecodeTwoByteGroup(b0: byte, b1: byte)
    ensures DecodeGroup(SextetChar(b0 / 4), SextetChar(b0 % 4 * 16 + b1 / 16),
                        SextetChar(b1 % 16 * 4), '=', true) == Some([b0, b1])
  {
    var v1, v2 := b0 % 4 * 16 + b1 / 16, b1 % 16 * 4;
    SextetRoundTrip(b0 / 4);
    SextetRoundTrip(v1);
    SextetRoundTrip(v2);
    assert v1 / 16 == b0 % 4 && v1 % 16 == b1 / 16;
    assert v2 / 4 == b1 % 16;
  }

  lemma DecodeThreeByteGroup(b0: byte, b1: byte, b2: byte, last: bool)
    ensures DecodeGroup(SextetChar(b0 / 4), SextetChar(b0 % 4 * 16 + b1 / 16),
                        SextetChar(b1 % 16 * 4 + b2 / 64), SextetChar(b2 % 64), last) == Some([b0, b1, b2])
  {
    var v1, v2 := b0 % 4 * 16 + b1 / 16, b1 % 16 * 4 + b2 / 64;
    SextetRoundTrip(b0 / 4);
    SextetRoundTrip(v1);
    SextetRoundTrip(v2);
    SextetRoundTrip(b2 % 64);
    assert v1 / 16 == b0 % 4 && v1 % 16 == b1 / 16;
    assert v2 / 4 == b1 % 16 && v2 % 4 == b2 / 64;
  }

  /** Decoding a leading group and then the rest. */
  lemma DecodeCons(g: string, rest: string, group: seq<byte>, tail: seq<byte>)
    requires |g| == 4
    requires DecodeGroup(g[0], g[1], g[2], g[3], rest == []) == Some(group)
    requires Decode(rest) == Some(tail)
    ensures Decode(g + rest) == Some(group + tail)
  {
    var s := g + rest;
    assert s[0] == g[0] && s[1] == g[1] && s[2] == g[2] && s[3] == g[3];
    assert s[4..] == rest;
  }

  /** Decoding undoes encoding: base64 is injective. */
  lemma {:induction false} DecodeEncode(bytes: seq<byte>)
    ensures Decode(Encode(bytes)) == Some(bytes)
  {
    if |bytes| == 1 {
      var b0 := bytes[0];
      EncodeOne(bytes);
      DecodeOneByteGroup(b0);
      DecodeCons([SextetChar(b0 / 4), SextetChar(b0 % 4 * 16), '=', '='], [], [b0], []);
      SplitBytes(bytes, 1);
    } else if |bytes| == 2 {
      var b0, b1 := bytes[0], bytes[1];
      EncodeTwo(bytes);
      DecodeTwoByteGroup(b0, b1);
      DecodeCons([SextetChar(b0 / 4), SextetChar(b0 % 4 * 16 + b1 / 16), SextetChar(b1 % 16 * 4), '='],
                 [], [b0, b1], []);
      SplitBytes(bytes, 2);
    } else if |bytes| >= 3 {
      var b0, b1, b2 := bytes[0], bytes[1], bytes[2];
      var rest := Encode(bytes[3..]);
      DecodeEncode(bytes[3..]);
      EncodeThree(bytes);
      DecodeThreeByteGroup(b0, b1, b2, rest == []);
      DecodeCons(Quad(b0, b1, b2), rest, [b0, b1, b2], bytes[3..]);
      SplitBytes(bytes, 3);
    }
  }

  lemma SplitBytes(bytes: seq<byte>, n: nat)
    requires 1 <= n <= 3 && n <= |bytes|
    ensures n == 1 ==> bytes == [bytes[0]] + bytes[1..]
    ensures n == 2 ==> bytes == [bytes[0], bytes[1]] + bytes[2..]
    ensures n == 3 ==> bytes == [bytes[0], bytes[1], bytes[2]] + bytes[3..]
  {
  }

  lemma EncodeOne(bytes: seq<byte>)
    requires |bytes| == 1
    ensures Encode(bytes) == [SextetChar(bytes[0] / 4), SextetChar(bytes[0] % 4 * 16), '=', '='] + []
  {
  }

  lemma EncodeTwo(bytes: seq<byte>)
    requires |bytes| == 2
    ensures Encode(bytes) == [SextetChar(bytes[0] / 4), SextetChar(bytes[0] % 4 * 16 + bytes[1] / 16),
                              SextetChar(bytes[1] % 16 * 4), '='] + []
  {
  }

  /** The first group of a sequence of at least three bytes. */
  function Quad(b0: byte, b1: byte, b2: byte): string
  {
    [SextetChar(b0 / 4), SextetChar(b0 % 4 * 16 + b1 / 16),
     SextetChar(b1 % 16 * 4 + b2 / 64), SextetChar(b2 % 64)]
  }

  lemma EncodeThree(bytes: seq<byte>)
    requires |bytes| >= 3
    ensures Encode(bytes) == Quad(bytes[0], bytes[1], bytes[2]) + Encode(bytes[3..])
  {
  }

  /** The Latin-1 code units of a string, as bytes. */
  function CodeUnits(s: string): (r: seq<byte>)
    requires IsLatin1(s)
    ensures |r| == |s|
    ensures forall k :: 0 <= k < |s| ==> r[k] == s[k] as int
  {
    if s == [] then [] else [s[0] as int] + CodeUnits(s[1..])
  }

  /** The string whose code points are the given bytes. */
  function FromCodeUnits(bytes: seq<byte>): (s: string)
    ensures IsLatin1(s)
    ensures |s| == |bytes|
    ensures forall k :: 0 <= k < |s| ==> s[k] as int == bytes[k]
  {
    if bytes == [] then [] else [bytes[0] as char] + FromCodeUnits(bytes[1..])
  }

  /** `btoa(s)`: none (an `InvalidCharacterError` is thrown) when a code point
      is above 255, otherwise the base64 of the code units. */
  function Btoa(s: string): (r: Option<string>)
    ensures r.Some? <==> IsLatin1(s)
  {
    if IsLatin1(s) then Some(Encode(CodeUnits(s))) else None
  }

  /** Strict base64 decoding to a Latin-1 string: the inverse of `btoa`.
      Unlike the browser's `atob`, it rejects input without padding or with
      whitespace; it is only ever applied to what `Btoa` produced. */
  function Atob(s: string): (r: Option<string>)
    ensures r.Some? ==> IsLatin1(r.value) && |s| % 4 == 0
  {
    match Decode(s)
    case Some(bytes) => Some(FromCodeUnits(bytes))
    case None => None
  }

  /** `atob` undoes `btoa`, so two strings with the same `btoa` are equal. */
  lemma AtobBtoa(s: string)
    requires IsLatin1(s)
    ensures Atob(Btoa(s).value) == Some(s)
  {
    DecodeEncode(CodeUnits(s));
    assert FromCodeUnits(CodeUnits(s)) == s;
  }

  lemma BtoaInjective(s: string, t: string)
    requires Btoa(s).Some? && Btoa(s) == Btoa(t)
    ensures s == t
  {
    AtobBtoa(s);
    AtobBtoa(t);
  }
}
