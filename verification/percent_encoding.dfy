/** The byte-level encoding behind the Prometheus graph links of
    macros/src/lib.rs: a string is written as UTF-8 and every byte that is
    not an ASCII letter or digit (the `NON_ALPHANUMERIC` set) becomes `%XX`
    with two upper-case hexadecimal digits. The decoders here are reference
    inverses used to state what the encoding preserves. */
module PercentEncoding {
  import opened Wrappers
  import opened Text

  type Byte = b: int | 0 <= b < 256

  // ---------------------------------------------------------------------
  // UTF-8

  predicate IsContinuation(b: Byte) {
    0x80 <= b < 0xC0
  }

  /** The UTF-8 bytes of one Unicode scalar value. */
  function EncodeChar(c: char): (r: seq<Byte>)
    ensures 1 <= |r| <= 4
    ensures (|r| == 1) == (c as int < 0x80)
    ensures forall i :: 1 <= i < |r| ==> IsContinuation(r[i])
  {
    var n := c as int;
    if n < 0x80 then [n]
    else if n < 0x800 then [0xC0 + n / 64, 0x80 + n % 64]
    else if n < 0x10000 then [0xE0 + n / 4096, 0x80 + n / 64 % 64, 0x80 + n % 64]
    else [0xF0 + n / 262144, 0x80 + n / 4096 % 64, 0x80 + n / 64 % 64, 0x80 + n % 64]
  }

  /** The UTF-8 encoding of a string, character by character. */
  function Utf8Encode(s: string): seq<Byte> {
    if s == [] then [] else EncodeChar(s[0]) + Utf8Encode(s[1..])
  }

  predicate IsScalar(n: int) {
    (0 <= n < 0xD800) || (0xE000 <= n < 0x110000)
  }

  /** The numeric value a UTF-8 sequence of `k` bytes starting at the front
      of `bs` spells out, when the lead byte announces `k` bytes and the
      following ones are continuation bytes. */
  function SequenceValue(bs: seq<Byte>): (r: Option<(int, nat)>)
    requires bs != []
    ensures r.Some? ==> 1 <= r.value.1 <= |bs|
  {
    var b0: int := bs[0];
    if b0 < 0x80 then Some((b0, 1))
    else if 0xC0 <= b0 < 0xE0 && 2 <= |bs| && IsContinuation(bs[1]) then
      Some(((b0 - 0xC0) * 64 + (bs[1] as int - 0x80), 2))
    else if 0xE0 <= b0 < 0xF0 && 3 <= |bs| && IsContinuation(bs[1]) && IsContinuation(bs[2]) then
      Some(((b0 - 0xE0) * 4096 + (bs[1] as int - 0x80) * 64 + (bs[2] as int - 0x80), 3))
    else if 0xF0 <= b0 < 0xF8 && 4 <= |bs| && IsContinuation(bs[1]) && IsContinuation(bs[2]) && IsContinuation(bs[3]) then
      Some(((b0 - 0xF0) * 262144 + (bs[1] as int - 0x80) * 4096 + (bs[2] as int - 0x80) * 64 + (bs[3] as int - 0x80), 4))
    else None
  }

  /** Reads one character off the front of `bs`: the character and the
      number of bytes it took, or None when the front is not UTF-8. */
  function DecodeChar(bs: seq<Byte>): (r: Option<(char, nat)>)
    requires bs != []
    ensures r.Some? ==> 1 <= r.value.1 <= |bs|
  {
    var n := SequenceValue(bs);
    if n.Some? && IsScalar(n.value.0) then Some((n.value.0 as char, n.value.1)) else None
  }

  /** Reference UTF-8 decoder. */
  function Utf8Decode(bs: seq<Byte>): Option<string>
    decreases |bs|
  {
    if bs == [] then Some("")
    else
      match DecodeChar(bs)
      case None => None
      case Some((c, k)) =>
        match Utf8Decode(bs[k..])
        case None => None
        case Some(rest) => Some([c] + rest)
  }

  /** The bytes of one character are read back as that character,
      whatever follows them. */
  lemma DecodeEncodedChar(c: char, rest: seq<Byte>)
    ensures DecodeChar(EncodeChar(c) + rest) == Some((c, |EncodeChar(c)|))
  {
    var n := c as int;
    var e := EncodeChar(c);
    if n < 0x80 {
      assert SequenceValue(e + rest) == Some((n, 1));
    } else if n < 0x800 {
      TwoByteValue(n, e + rest);
    } else if n < 0x10000 {
      ThreeByteValue(n, e + rest);
    } else {
      FourByteValue(n, e + rest);
    }
  }

  lemma TwoByteValue(n: int, bs: seq<Byte>)
    requires 0x80 <= n < 0x800 && 2 <= |bs|
    requires bs[0] == 0xC0 + n / 64 && bs[1] == 0x80 + n % 64
    ensures SequenceValue(bs) == Some((n, 2))
  {
    assert (n / 64) * 64 + n % 64 == n;
  }

  lemma ThreeByteValue(n: int, bs: seq<Byte>)
    requires 0x800 <= n < 0x10000 && 3 <= |bs|
    requires bs[0] == 0xE0 + n / 4096 && bs[1] == 0x80 + n / 64 % 64 && bs[2] == 0x80 + n % 64
    ensures SequenceValue(bs) == Some((n, 3))
  {
    var q := n / 64;
    assert q % 64 + (q / 64) * 64 == q;
    assert q / 64 == n / 4096;
    assert q * 64 + n % 64 == n;
  }

  lemma FourByteValue(n: int, bs: seq<Byte>)
    requires 0x10000 <= n < 0x110000 && 4 <= |bs|
    requires bs[0] == 0xF0 + n / 262144 && bs[1] == 0x80 + n / 4096 % 64
    requires bs[2] == 0x80 + n / 64 % 64 && bs[3] == 0x80 + n % 64
    ensures SequenceValue(bs) == Some((n, 4))
  {
    var q := n / 64;
    var p := q / 64;
    assert q * 64 + n % 64 == n;
    assert p * 64 + q % 64 == q;
    assert p == n / 4096;
    assert (p / 64) * 64 + p % 64 == p;
    assert p / 64 == n / 262144;
  }

  /** Decoding the UTF-8 encoding of a string gives the string back. */
  lemma {:induction false} Utf8RoundTrip(s: string)
    ensures Utf8Decode(Utf8Encode(s)) == Some(s)
  {
    if s != [] {
      var e := EncodeChar(s[0]);
      var tail := Utf8Encode(s[1..]);
      DecodeEncodedChar(s[0], tail);
      assert (e + tail)[|e|..] == tail;
      Utf8RoundTrip(s[1..]);
      assert [s[0]] + s[1..] == s;
    }
  }

  // ---------------------------------------------------------------------
  // Percent-encoding with the NON_ALPHANUMERIC set

  /** A byte is left as it is exactly when it is an ASCII letter or digit. */
  predicate IsAlphanumericByte(b: Byte) {
    (0x30 <= b <= 0x39) || (0x41 <= b <= 0x5A) || (0x61 <= b <= 0x7A)
  }

  predicate IsUpperHexDigit(c: char) {
    ('0' <= c <= '9') || ('A' <= c <= 'F')
  }

  function HexDigit(d: nat): (c: char)
    requires d < 16
    ensures IsUpperHexDigit(c)
  {
    if d < 10 then ('0' as int + d) as char else ('A' as int + d - 10) as char
  }

  function HexValue(c: char): (d: nat)
    requires IsUpperHexDigit(c)
    ensures d < 16
  {
    if c <= '9' then c as int - '0' as int else c as int - 'A' as int + 10
  }

  /** One byte, percent-encoded. */
  function EncodeByte(b: Byte): (r: string)
    ensures |r| == 1 || |r| == 3
    ensures |r| == 1 <==> IsAlphanumericByte(b)
  {
    if IsAlphanumericByte(b) then [b as char] else ['%', HexDigit(b / 16), HexDigit(b % 16)]
  }

  /** `percent_encode(bytes, NON_ALPHANUMERIC)`. */
  function PercentEncode(bs: seq<Byte>): string {
    if bs == [] then "" else EncodeByte(bs[0]) + PercentEncode(bs[1..])
  }

  /** `utf8_percent_encode(s, NON_ALPHANUMERIC).to_string()`. */
  function PercentEncodeText(s: string): string {
    PercentEncode(Utf8Encode(s))
  }

  /** Reference decoder: `%XX` gives the byte XX, an ASCII letter or digit
      gives itself, anything else is not produced by the encoder. */
  function PercentDecode(s: string): Option<seq<Byte>>
    decreases |s|
  {
    if s == [] then Some([])
    else if s[0] == '%' then
      if 3 <= |s| && IsUpperHexDigit(s[1]) && IsUpperHexDigit(s[2]) then
        match PercentDecode(s[3..])
        case None => None
        case Some(rest) => Some([HexValue(s[1]) * 16 + HexValue(s[2])] + rest)
      else None
    else if IsAsciiAlphanumeric(s[0]) then
      match PercentDecode(s[1..])
      case None => None
      case Some(rest) => Some([s[0] as int] + rest)
    else None
  }

  /** Reading back the encoding of one byte, whatever follows it. */
  lemma DecodeEncodedByte(b: Byte, rest: string)
    ensures PercentDecode(EncodeByte(b) + rest) ==
      if PercentDecode(rest).Some? then Some([b] + PercentDecode(rest).value) else None
  {
    if IsAlphanumericByte(b) {
      DecodeLiteralByte(b, rest);
    } else {
      DecodeEscapedByte(b, rest);
    }
  }

  lemma DecodeLiteralByte(b: Byte, rest: string)
    requires IsAlphanumericByte(b)
    ensures PercentDecode([b as char] + rest) ==
      if PercentDecode(rest).Some? then Some([b] + PercentDecode(rest).value) else None
  {
    var s := [b as char] + rest;
    assert s[0] == b as char && s[1..] == rest;
    assert s[0] != '%' && IsAsciiAlphanumeric(s[0]);
  }

  lemma DecodeEscapedByte(b: Byte, rest: string)
    requires !IsAlphanumericByte(b)
    ensures PercentDecode(['%', HexDigit(b / 16), HexDigit(b % 16)] + rest) ==
      if PercentDecode(rest).Some? then Some([b] + PercentDecode(rest).value) else None
  {
    var s := ['%', HexDigit(b / 16), HexDigit(b % 16)] + rest;
    assert s[0] == '%' && s[1] == HexDigit(b / 16) && s[2] == HexDigit(b % 16) && s[3..] == rest;
    assert HexValue(s[1]) == b / 16 && HexValue(s[2]) == b % 16;
    assert (b / 16) * 16 + b % 16 == b;
  }

  /** Decoding a percent-encoded byte string gives the bytes back. */
  lemma {:induction false} PercentRoundTrip(bs: seq<Byte>)
    ensures PercentDecode(PercentEncode(bs)) == Some(bs)
  {
    if bs != [] {
      DecodeEncodedByte(bs[0], PercentEncode(bs[1..]));
      PercentRoundTrip(bs[1..]);
      assert [bs[0]] + bs[1..] == bs;
    }
  }

  /** Text made of ASCII letters and digits and `%XX` triplets. */
  predicate WellEncoded(e: string) {
    forall i :: 0 <= i < |e| ==> (IsAsciiAlphanumeric(e[i]) || e[i] == '%') && (e[i] == '%' ==> HexPairAfter(e, i))
  }

  /** Two hexadecimal digits follow position `i`. */
  predicate HexPairAfter(e: string, i: nat) {
    i + 2 < |e| && IsUpperHexDigit(e[i + 1]) && IsUpperHexDigit(e[i + 2])
  }

  lemma WellEncodedAppend(a: string, b: string)
    requires WellEncoded(a) && WellEncoded(b)
    requires a != [] ==> a[|a| - 1] != '%' && (|a| >= 2 ==> a[|a| - 2] != '%')
    ensures WellEncoded(a + b)
  {
    var s := a + b;
    forall i | 0 <= i < |s|
      ensures (IsAsciiAlphanumeric(s[i]) || s[i] == '%') && (s[i] == '%' ==> HexPairAfter(s, i))
    {
      if i < |a| {
        assert s[i] == a[i];
        if s[i] == '%' {
          assert HexPairAfter(a, i);
          assert s[i + 1] == a[i + 1] && s[i + 2] == a[i + 2];
        }
      } else {
        var j := i - |a|;
        assert s[i] == b[j];
        if b[j] == '%' {
          assert HexPairAfter(b, j);
          assert s[i + 1] == b[j + 1] && s[i + 2] == b[j + 2];
        }
      }
    }
  }

  /** The encoded text consists of ASCII letters and digits only, apart
      from '%' signs, and each '%' starts a triplet with two hexadecimal
      digits. */
  lemma {:induction false} PercentEncodeAlphabet(bs: seq<Byte>)
    ensures WellEncoded(PercentEncode(bs))
  {
    if bs != [] {
      PercentEncodeAlphabet(bs[1..]);
      var e := EncodeByte(bs[0]);
      assert WellEncoded(e);
      WellEncodedAppend(e, PercentEncode(bs[1..]));
    }
  }

  /** The text behind a percent-encoded link parameter is recovered
      exactly. */
  lemma PercentEncodeTextRoundTrip(s: string)
    ensures match PercentDecode(PercentEncodeText(s))
      case Some(bs) => Utf8Decode(bs) == Some(s)
      case None => false
  {
    PercentRoundTrip(Utf8Encode(s));
    Utf8RoundTrip(s);
  }
}
