/** Phone-number validation and formatting, and the hex step of the IP hash
    (src/utils/validation.ts). */
module Validation {
  import opened Wrappers
  import opened Text

  type byte = x: int | 0 <= x < 256

  predicate IsDigit(c: char)
  {
    '0' <= c <= '9'
  }

  predicate AllDigits(s: string)
  {
    forall k :: 0 <= k < |s| ==> IsDigit(s[k])
  }

  /** `number.replace(/\D/g, '')`: the ASCII digits of `number`, in order. */
  function Digits(number: string): (cleaned: string)
    ensures AllDigits(cleaned)
    ensures |cleaned| <= |number|
  {
    if number == [] then []
    else (if IsDigit(number[0]) then [number[0]] else []) + Digits(number[1..])
  }

  lemma {:induction false} DigitsAppend(a: string, b: string)
    ensures Digits(a + b) == Digits(a) + Digits(b)
  {
    if a == [] {
      assert a + b == b;
    } else {
      var head := if IsDigit(a[0]) then [a[0]] else [];
      assert (a + b)[0] == a[0];
      assert (a + b)[1..] == a[1..] + b;
      assert Digits(a + b) == head + Digits(a[1..] + b);
      assert Digits(a) == head + Digits(a[1..]);
      DigitsAppend(a[1..], b);
      assert head + (Digits(a[1..]) + Digits(b)) == (head + Digits(a[1..])) + Digits(b);
    }
  }

  lemma {:induction false} DigitsOfDigits(s: string)
    requires AllDigits(s)
    ensures Digits(s) == s
  {
    if s != [] {
      DigitsOfDigits(s[1..]);
    }
  }

  /** Every digit keeps its multiplicity and every non-digit is removed, so
      together with DigitsAppend this pins down `replace(/\D/g, '')`. */
  lemma {:induction false} DigitsCounts(s: string, c: char)
    ensures multiset(Digits(s))[c] == if IsDigit(c) then multiset(s)[c] else 0
  {
    if s != [] {
      DigitsCounts(s[1..], c);
      assert s == [s[0]] + s[1..];
      assert multiset(s) == multiset([s[0]]) + multiset(s[1..]);
    }
  }

  /** `/^[6-9]\d{9}$/.test(cleaned)`: an Indian mobile number without country code. */
  predicate MatchesIndianMobile(cleaned: string)
    ensures MatchesIndianMobile(cleaned) <==> |cleaned| == 10 && AllDigits(cleaned) && cleaned[0] >= '6'
  {
    |cleaned| == 10 && '6' <= cleaned[0] <= '9' && AllDigits(cleaned[1..])
  }

  /** `validateWhatsAppNumber`. */
  predicate ValidateWhatsAppNumber(number: string)
    ensures ValidateWhatsAppNumber(number) ==> 10 <= |Digits(number)| <= 15
    ensures |Digits(number)| == 10 ==> (ValidateWhatsAppNumber(number) <==> '6' <= Digits(number)[0] <= '9')
  {
    var cleaned := Digits(number);
    if |cleaned| == 10 then MatchesIndianMobile(cleaned)
    else 10 <= |cleaned| && |cleaned| <= 15
  }

  /** Validation looks only at the digits: exactly 10 digits are accepted iff
      the first is 6-9, and any other count is accepted iff it is 11 to 15;
      so 8 and 9 digits are rejected. */
  lemma ValidateCharacterization(number: string)
    ensures ValidateWhatsAppNumber(number) <==>
              || (|Digits(number)| == 10 && '6' <= Digits(number)[0] <= '9')
              || (11 <= |Digits(number)| <= 15)
    ensures |Digits(number)| < 10 || |Digits(number)| > 15 ==> !ValidateWhatsAppNumber(number)
  {
  }

  /** `formatWhatsAppNumber`: the first matching rule wins. */
  function FormatWhatsAppNumber(number: string): (formatted: string)
    ensures |formatted| > 0 && formatted[0] == '+'
  {
    var cleaned := Digits(number);
    if |cleaned| == 10 && MatchesIndianMobile(cleaned) then "+91" + cleaned
    else if |cleaned| == 12 && StartsWith(cleaned, "91") then "+" + cleaned
    else if StartsWith(number, "+") then number
    else "+91" + cleaned
  }

  /** Each formatting rule, stated about the digits of the input. */
  lemma FormatRules(number: string)
    ensures var d := Digits(number);
      && (|d| == 10 && '6' <= d[0] <= '9' ==> FormatWhatsAppNumber(number) == "+91" + d)
      && (|d| == 12 && d[..2] == "91" ==> FormatWhatsAppNumber(number) == "+" + d)
      && (!(|d| == 10 && '6' <= d[0] <= '9') && !(|d| == 12 && d[..2] == "91") ==>
            FormatWhatsAppNumber(number) == if number != [] && number[0] == '+' then number else "+91" + d)
  {
  }

  /** A `+` followed by digits only is reformatted by the first rule or kept. */
  lemma FormatPlusDigits(e: string)
    requires AllDigits(e)
    ensures FormatWhatsAppNumber("+" + e) == if |e| == 10 && MatchesIndianMobile(e) then "+91" + e else "+" + e
  {
    assert Digits("+" + e) == e by {
      DigitsAppend("+", e);
      assert Digits("+") == "";
      DigitsOfDigits(e);
    }
    assert StartsWith("+" + e, "+");
  }

  /** `91` followed by digits is all digits, and so is everything after its `9`. */
  lemma CountryCodeDigits(d: string)
    requires AllDigits(d)
    ensures AllDigits("91" + d) && ("91" + d)[0] == '9' && AllDigits(("91" + d)[1..])
  {
    var e := "91" + d;
    forall k | 0 <= k < |e|
      ensures IsDigit(e[k])
    {
      if k >= 2 {
        assert e[k] == d[k - 2];
      }
    }
    forall k | 0 <= k < |e| - 1
      ensures IsDigit(e[1..][k])
    {
      assert e[1..][k] == e[k + 1];
    }
  }

  /** Formatting is idempotent except on the inputs that have exactly 8 digits
      and no leading `+`: those become `+91` and 8 digits, whose 10 digits start
      with 9 and so get a second `+91`. */
  lemma FormatIdempotentIff(number: string)
    ensures FormatWhatsAppNumber(FormatWhatsAppNumber(number)) == FormatWhatsAppNumber(number)
        <==> !(|Digits(number)| == 8 && !StartsWith(number, "+"))
  {
    var d := Digits(number);
    var f := FormatWhatsAppNumber(number);
    assert "+91" + d == "+" + ("91" + d);
    if |d| == 10 && MatchesIndianMobile(d) {
      assert f == "+" + ("91" + d);
      CountryCodeDigits(d);
      FormatPlusDigits("91" + d);
    } else if |d| == 12 && StartsWith(d, "91") {
      assert f == "+" + d;
      FormatPlusDigits(d);
    } else if StartsWith(number, "+") {
      assert f == number;
    } else {
      assert f == "+" + ("91" + d);
      CountryCodeDigits(d);
      FormatPlusDigits("91" + d);
      if |d| == 8 {
        assert |FormatWhatsAppNumber(f)| == |f| + 2;
      }
    }
  }

  /** On every number the form accepts, formatting is idempotent. */
  lemma FormatIdempotentOnValid(number: string)
    requires ValidateWhatsAppNumber(number)
    ensures FormatWhatsAppNumber(FormatWhatsAppNumber(number)) == FormatWhatsAppNumber(number)
  {
    FormatIdempotentIff(number);
  }

  /** A leading `+` is kept as typed only when neither digit rule fires:
      `+` and a 10-digit Indian mobile gains `+91`, so `+9876543210` becomes `+919876543210`. */
  lemma PlusPrefixNotAlwaysKept(d: string)
    requires AllDigits(d) && |d| == 10 && '6' <= d[0] <= '9'
    ensures FormatWhatsAppNumber("+" + d) == "+91" + d
  {
    DigitsOfDigits(d);
    DigitsAppend("+", d);
    assert Digits("+") == "";
  }

  /** The fallback rule puts `+91` before international numbers typed without
      `+`: an accepted 14- or 15-digit number becomes 16 or 17 digits, which
      validation then rejects. */
  lemma FallbackCanInvalidate(d: string)
    requires AllDigits(d) && 14 <= |d| <= 15
    ensures ValidateWhatsAppNumber(d)
    ensures FormatWhatsAppNumber(d) == "+91" + d
    ensures !ValidateWhatsAppNumber(FormatWhatsAppNumber(d))
  {
    DigitsOfDigits(d);
    DigitsAppend("+91", d);
    assert Digits("+91") == "91";
    assert !StartsWith(d, "+");
  }

  const HexChars: string := "0123456789abcdef"

  /** A value below 16 as one lower-case hex digit. */
  function HexDigit(v: int): (c: char)
    requires 0 <= v < 16
    ensures IsLowerHexDigit(c)
    ensures c as int == if v < 10 then '0' as int + v else 'a' as int + v - 10
  {
    HexChars[v]
  }

  /** `b.toString(16)` for one byte: one or two lower-case hex digits, no padding. */
  function ByteToString16(b: byte): string
  {
    if b < 16 then [HexDigit(b)] else [HexDigit(b / 16), HexDigit(b % 16)]
  }

  /** `s.padStart(n, c)` with a one-character pad. */
  function PadStart(s: string, n: nat, c: char): string
  {
    if |s| >= n then s else seq(n - |s|, _ => c) + s
  }

  /** `toString(16)` writes one or two lower-case hex digits, one only below
      16, and no leading zero except for zero itself. */
  lemma ByteToString16Digits(b: byte)
    ensures 1 <= |ByteToString16(b)| <= 2 && (|ByteToString16(b)| == 1 <==> b < 16)
    ensures forall k :: 0 <= k < |ByteToString16(b)| ==> IsLowerHexDigit(ByteToString16(b)[k])
    ensures ByteToString16(b)[0] == '0' ==> b == 0
  {
  }

  /** `padStart` reaches length `n` when shorter, by putting copies of `c`
      in front and keeping `s` at the end. */
  lemma PadStartPads(s: string, n: nat, c: char)
    ensures |PadStart(s, n, c)| == if |s| >= n then |s| else n
    ensures forall k :: 0 <= k < |PadStart(s, n, c)| ==>
              PadStart(s, n, c)[k] == if k < |PadStart(s, n, c)| - |s| then c else s[k - (|PadStart(s, n, c)| - |s|)]
  {
  }

  /** `b.toString(16).padStart(2, '0')`: always two hex digits, high nibble first. */
  function ByteToHex(b: byte): (r: string)
    ensures r == [HexDigit(b / 16), HexDigit(b % 16)]
  {
    PadStart(ByteToString16(b), 2, '0')
  }

  predicate IsLowerHexDigit(c: char)
  {
    '0' <= c <= '9' || 'a' <= c <= 'f'
  }

  /** The last step of `generateIPHash`: `hashArray.map(ByteToHex).join('')`. */
  function HexEncode(bytes: seq<byte>): (hex: string)
    ensures |hex| == 2 * |bytes|
    ensures forall k :: 0 <= k < |hex| ==> IsLowerHexDigit(hex[k])
  {
    if bytes == [] then [] else ByteToHex(bytes[0]) + HexEncode(bytes[1..])
  }

  /** Byte `k` is written at positions `2k` and `2k + 1`. */
  lemma {:induction false} HexEncodeAt(bytes: seq<byte>, k: int)
    requires 0 <= k < |bytes|
    ensures HexEncode(bytes)[2 * k] == HexDigit(bytes[k] / 16)
    ensures HexEncode(bytes)[2 * k + 1] == HexDigit(bytes[k] % 16)
  {
    var hex := HexEncode(bytes);
    var rest := HexEncode(bytes[1..]);
    assert hex == ByteToHex(bytes[0]) + rest;
    if k > 0 {
      HexEncodeAt(bytes[1..], k - 1);
      assert hex[2 * k] == rest[2 * (k - 1)];
      assert hex[2 * k + 1] == rest[2 * (k - 1) + 1];
    }
  }

  /** The value of a lower-case hex digit, or none. */
  function HexValue(c: char): (v: Option<int>)
    ensures v.Some? ==> 0 <= v.value < 16 && HexDigit(v.value) == c
  {
    if '0' <= c <= '9' then Some(c as int - '0' as int)
    else if 'a' <= c <= 'f' then Some(c as int - 'a' as int + 10)
    else None
  }

  /** Reads a string of lower-case hex digit pairs back into bytes. */
  function HexDecode(hex: string): Option<seq<byte>>
  {
    if hex == [] then Some([])
    else if |hex| == 1 then None
    else match (HexValue(hex[0]), HexValue(hex[1]), HexDecode(hex[2..]))
      case (Some(hi), Some(lo), Some(rest)) => Some([hi * 16 + lo] + rest)
      case _ => None
  }

  lemma HexValueOfDigit(v: int)
    requires 0 <= v < 16
    ensures HexValue(HexDigit(v)) == Some(v)
  {
  }

  /** The hex step loses nothing: distinct digests give distinct IP hashes. */
  lemma {:induction false} HexRoundTrip(bytes: seq<byte>)
    ensures HexDecode(HexEncode(bytes)) == Some(bytes)
  {
    if bytes != [] {
      var b := bytes[0];
      var hex := HexEncode(bytes);
      assert hex == ByteToHex(b) + HexEncode(bytes[1..]);
      assert hex[2..] == HexEncode(bytes[1..]);
      HexValueOfDigit(b / 16);
      HexValueOfDigit(b % 16);
      HexRoundTrip(bytes[1..]);
      assert bytes == [b] + bytes[1..];
    }
  }

  /** `generateIPHash`, given the SHA-256 digest of the salted address. */
  function GenerateIPHash(digest: seq<byte>): (iphash: string)
    ensures |iphash| == 2 * |digest|
    ensures forall k :: 0 <= k < |iphash| ==> IsLowerHexDigit(iphash[k])
  {
    HexEncode(digest)
  }
}
