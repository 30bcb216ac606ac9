/**
 * Byte-level text handling used when a redirect target arrives in a `Location`
 * header: UTF-8 (RFC 3629) encoding and decoding, the Latin-1 fallback for
 * header bytes that are not valid UTF-8, and percent-encoding of non-ASCII
 * characters (section 2.1 of RFC 3986).
 */
module Encoding {

  import opened Wrappers

  type byte = x: int | 0 <= x < 256

  /** The character sets a header value can be decoded with. */
  datatype Charset = Utf8 | Latin1

  // ---------------------------------------------------------------------------
  // UTF-8
  // ---------------------------------------------------------------------------

  /** The UTF-8 encoding of one character (section 3 of RFC 3629). */
  function EncodeChar(c: char): (r: seq<byte>)
    ensures 1 <= |r| <= 4
    ensures (|r| == 1) == (c as int < 0x80)
    ensures r[0] < 0x80 || 0xC2 <= r[0] < 0xF5
    ensures forall i :: 1 <= i < |r| ==> IsContinuation(r[i])
  {
    var cp := c as int;
    if cp < 0x80 then [cp]
    else if cp < 0x800 then [0xC0 + cp / 64, 0x80 + cp % 64]
    else if cp < 0x10000 then [0xE0 + cp / 4096, 0x80 + (cp / 64) % 64, 0x80 + cp % 64]
    else [0xF0 + cp / 262144, 0x80 + (cp / 4096) % 64, 0x80 + (cp / 64) % 64, 0x80 + cp % 64]
  }

  /** The UTF-8 encoding of a string, character after character. */
  function EncodeString(s: string): seq<byte>
  {
    if s == [] then [] else EncodeChar(s[0]) + EncodeString(s[1..])
  }

  predicate IsContinuation(b: byte)
  {
    0x80 <= b < 0xC0
  }

  /**
   * Decodes the character at the start of `b`: the character and the number of
   * bytes it occupies, or None when the bytes there are not a well-formed UTF-8
   * sequence (bad lead byte, missing continuation, overlong form, surrogate or
   * a code point above U+10FFFF).
   */
  function DecodeFirst(b: seq<byte>): (r: Option<(char, nat)>)
    requires |b| > 0
    ensures r.Some? ==> 1 <= r.value.1 <= |b| && EncodeChar(r.value.0) == b[..r.value.1]
  {
    var b0: int := b[0];
    if b0 < 0x80 then
      Some((b0 as char, 1))
    else if 0xC0 <= b0 < 0xE0 then
      if |b| >= 2 && IsContinuation(b[1]) then
        var cp := (b0 - 0xC0) * 64 + (b[1] as int - 0x80);
        if cp >= 0x80 then
          assert cp / 64 == b0 - 0xC0 && cp % 64 == b[1] as int - 0x80;
          Some((cp as char, 2))
        else None
      else None
    else if 0xE0 <= b0 < 0xF0 then
      if |b| >= 3 && IsContinuation(b[1]) && IsContinuation(b[2]) then
        var cp := (b0 - 0xE0) * 4096 + (b[1] as int - 0x80) * 64 + (b[2] as int - 0x80);
        if cp >= 0x800 && !(0xD800 <= cp < 0xE000) then
          Div3(cp, b0 - 0xE0, b[1] as int - 0x80, b[2] as int - 0x80);
          Some((cp as char, 3))
        else None
      else None
    else if 0xF0 <= b0 < 0xF8 then
      if |b| >= 4 && IsContinuation(b[1]) && IsContinuation(b[2]) && IsContinuation(b[3]) then
        var cp := (b0 - 0xF0) * 262144 + (b[1] as int - 0x80) * 4096 + (b[2] as int - 0x80) * 64 + (b[3] as int - 0x80);
        if 0x10000 <= cp < 0x110000 then
          Div4(cp, b0 - 0xF0, b[1] as int - 0x80, b[2] as int - 0x80, b[3] as int - 0x80);
          Some((cp as char, 4))
        else None
      else None
    else None
  }

  lemma Div3(cp: int, x: int, y: int, z: int)
    requires 0 <= x && 0 <= y < 64 && 0 <= z < 64
    requires cp == x * 4096 + y * 64 + z
    ensures cp / 4096 == x && (cp / 64) % 64 == y && cp % 64 == z
  {
    assert cp == (x * 64 + y) * 64 + z;
    assert cp / 64 == x * 64 + y;
  }

  lemma Div4(cp: int, w: int, x: int, y: int, z: int)
    requires 0 <= w && 0 <= x < 64 && 0 <= y < 64 && 0 <= z < 64
    requires cp == w * 262144 + x * 4096 + y * 64 + z
    ensures cp / 262144 == w && (cp / 4096) % 64 == x && (cp / 64) % 64 == y && cp % 64 == z
  {
    assert cp == ((w * 64 + x) * 64 + y) * 64 + z;
    assert cp / 64 == (w * 64 + x) * 64 + y;
    assert cp / 4096 == w * 64 + x;
  }

  /**
   * Strict UTF-8 decoding. Whatever it accepts re-encodes to exactly the bytes
   * it was given.
   */
  function DecodeUtf8(b: seq<byte>): (r: Option<string>)
    ensures r.Some? ==> EncodeString(r.value) == b
    decreases |b|
  {
    if b == [] then Some("")
    else
      match DecodeFirst(b)
      case None => None
      case Some((c, n)) =>
        match DecodeUtf8(b[n..])
        case None => None
        case Some(rest) =>
          assert b == b[..n] + b[n..];
          Some([c] + rest)
  }

  /** Decoding the first character of an encoded character followed by anything finds that character. */
  lemma DecodeFirstOfEncoded(c: char, rest: seq<byte>)
    ensures DecodeFirst(EncodeChar(c) + rest) == Some((c, |EncodeChar(c)|))
  {
    var cp := c as int;
    if cp < 0x80 {
    } else if cp < 0x800 {
      DecodeTwo(EncodeChar(c) + rest, cp / 64, cp % 64);
    } else if cp < 0x10000 {
      SplitThree(cp);
      DecodeThree(EncodeChar(c) + rest, cp / 4096, (cp / 64) % 64, cp % 64);
    } else {
      SplitFour(cp);
      DecodeFour(EncodeChar(c) + rest, cp / 262144, (cp / 4096) % 64, (cp / 64) % 64, cp % 64);
    }
  }

  lemma SplitThree(cp: int)
    requires 0 <= cp
    ensures cp == (cp / 4096) * 4096 + ((cp / 64) % 64) * 64 + cp % 64
  {
    var q := cp / 64;
    assert cp == q * 64 + cp % 64;
    assert q == (q / 64) * 64 + q % 64;
    assert q / 64 == cp / 4096;
  }

  lemma SplitFour(cp: int)
    requires 0 <= cp
    ensures cp == (cp / 262144) * 262144 + ((cp / 4096) % 64) * 4096 + ((cp / 64) % 64) * 64 + cp % 64
  {
    var q := cp / 64;
    var r := q / 64;
    assert cp == q * 64 + cp % 64;
    assert q == r * 64 + q % 64;
    assert r == (r / 64) * 64 + r % 64;
    assert r == cp / 4096;
    assert r / 64 == cp / 262144;
  }

  lemma DecodeTwo(b: seq<byte>, x: int, y: int)
    requires 2 <= x < 32 && 0 <= y < 64
    requires |b| >= 2 && b[0] == 0xC0 + x && b[1] == 0x80 + y
    ensures DecodeFirst(b) == Some(((x * 64 + y) as char, 2))
  {
  }

  lemma DecodeThree(b: seq<byte>, x: int, y: int, z: int)
    requires 0 <= x < 16 && 0 <= y < 64 && 0 <= z < 64
    requires var cp := x * 4096 + y * 64 + z; cp >= 0x800 && !(0xD800 <= cp < 0xE000)
    requires |b| >= 3 && b[0] == 0xE0 + x && b[1] == 0x80 + y && b[2] == 0x80 + z
    ensures DecodeFirst(b) == Some(((x * 4096 + y * 64 + z) as char, 3))
  {
  }

  lemma DecodeFour(b: seq<byte>, w: int, x: int, y: int, z: int)
    requires 0 <= w < 8 && 0 <= x < 64 && 0 <= y < 64 && 0 <= z < 64
    requires 0x10000 <= w * 262144 + x * 4096 + y * 64 + z < 0x110000
    requires |b| >= 4 && b[0] == 0xF0 + w && b[1] == 0x80 + x && b[2] == 0x80 + y && b[3] == 0x80 + z
    ensures DecodeFirst(b) == Some(((w * 262144 + x * 4096 + y * 64 + z) as char, 4))
  {
  }

  /** Round trip: decoding the UTF-8 encoding of any string gives the string back. */
  lemma {:induction false} DecodeEncodeUtf8(s: string)
    ensures DecodeUtf8(EncodeString(s)) == Some(s)
  {
    if s != [] {
      var e := EncodeChar(s[0]);
      var rest := EncodeString(s[1..]);
      DecodeFirstOfEncoded(s[0], rest);
      assert (e + rest)[|e|..] == rest;
      DecodeEncodeUtf8(s[1..]);
      assert [s[0]] + s[1..] == s;
    }
  }

  // ---------------------------------------------------------------------------
  // Latin-1
  // ---------------------------------------------------------------------------

  /** Latin-1 decoding: every byte is the character with the same code. */
  function Latin1Decode(b: seq<byte>): (s: string)
    ensures |s| == |b| && forall i :: 0 <= i < |b| ==> s[i] as int == b[i]
  {
    seq(|b|, i requires 0 <= i < |b| => b[i] as char)
  }

  /** The bytes of a character in a charset; Latin-1 keeps the low eight bits. */
  function CharBytes(cs: Charset, c: char): seq<byte>
  {
    match cs
    case Utf8 => EncodeChar(c)
    case Latin1 => [(c as int) % 256]
  }

  function EncodeIn(cs: Charset, s: string): seq<byte>
  {
    if s == [] then [] else CharBytes(cs, s[0]) + EncodeIn(cs, s[1..])
  }

  /** Round trip: Latin-1 decoded text encodes back to the original bytes. */
  lemma {:induction false} Latin1RoundTrip(b: seq<byte>)
    ensures EncodeIn(Latin1, Latin1Decode(b)) == b
  {
    if b != [] {
      Latin1RoundTrip(b[1..]);
      assert Latin1Decode(b)[1..] == Latin1Decode(b[1..]);
    }
  }

  lemma {:induction false} EncodeInUtf8(s: string)
    ensures EncodeIn(Utf8, s) == EncodeString(s)
  {
    if s != [] {
      EncodeInUtf8(s[1..]);
    }
  }

  // ---------------------------------------------------------------------------
  // Percent-encoding
  // ---------------------------------------------------------------------------

  const HexDigits: string := "0123456789ABCDEF"

  /** `%XX` with upper-case hexadecimal digits. */
  function PercentTriplet(x: byte): (s: string)
    ensures |s| == 3 && s[0] == '%'
  {
    ['%', HexDigits[x / 16], HexDigits[x % 16]]
  }

  predicate IsAscii(s: string)
  {
    forall i :: 0 <= i < |s| ==> s[i] as int < 0x80
  }

  /** Every byte outside ASCII becomes a `%XX` triplet; ASCII bytes stay as characters. */
  function PercentEncodeBytes(b: seq<byte>): (s: string)
    ensures IsAscii(s)
    ensures |s| >= |b|
  {
    if b == [] then ""
    else (if b[0] < 0x80 then [b[0] as char] else PercentTriplet(b[0])) + PercentEncodeBytes(b[1..])
  }

  /**
   * Text made into a URL string: ASCII characters are kept, every other
   * character is replaced by the percent-encoding of its bytes in `cs`.
   */
  function PercentEncodeIn(cs: Charset, s: string): string
  {
    if s == [] then ""
    else (if s[0] as int < 0x80 then [s[0]] else PercentEncodeBytes(CharBytes(cs, s[0]))) + PercentEncodeIn(cs, s[1..])
  }

  /** Percent-encoding of text with UTF-8 (section 2.5 of RFC 3986), as URLs given as text are treated. */
  function PercentEncode(s: string): string
  {
    PercentEncodeIn(Utf8, s)
  }

  lemma {:induction false} PercentEncodeBytesAppend(a: seq<byte>, b: seq<byte>)
    ensures PercentEncodeBytes(a + b) == PercentEncodeBytes(a) + PercentEncodeBytes(b)
  {
    if a != [] {
      assert (a + b)[1..] == a[1..] + b;
      PercentEncodeBytesAppend(a[1..], b);
    } else {
      assert a + b == b;
    }
  }

  /** Percent-encoding text character by character is percent-encoding its encoded bytes. */
  lemma {:induction false} PercentEncodeInIsBytewise(cs: Charset, s: string)
    ensures PercentEncodeIn(cs, s) == PercentEncodeBytes(EncodeIn(cs, s))
  {
    if s != [] {
      PercentEncodeInIsBytewise(cs, s[1..]);
      PercentEncodeBytesAppend(CharBytes(cs, s[0]), EncodeIn(cs, s[1..]));
      if s[0] as int < 0x80 {
        assert CharBytes(cs, s[0]) == [s[0] as int];
      }
    }
  }

  /** An ASCII string is left as it is by percent-encoding. */
  lemma {:induction false} PercentEncodeAscii(s: string)
    requires IsAscii(s)
    ensures PercentEncode(s) == s
  {
    if s != [] {
      assert IsAscii(s[1..]);
      PercentEncodeAscii(s[1..]);
    }
  }

  /** Percent-encoding is idempotent: applying it again, as a new request does with its URL, changes nothing. */
  lemma PercentEncodeIdempotent(s: string)
    ensures PercentEncode(PercentEncode(s)) == PercentEncode(s)
  {
    PercentEncodeInIsBytewise(Utf8, s);
    PercentEncodeAscii(PercentEncode(s));
  }

  // ---------------------------------------------------------------------------
  // Location header values
  // ---------------------------------------------------------------------------

  /** Header bytes as text: UTF-8 when they are valid UTF-8, Latin-1 otherwise. */
  function DecodeHeader(b: seq<byte>): (r: (Charset, string))
    ensures r.0 == Utf8 <==> DecodeUtf8(b).Some?
    ensures EncodeIn(r.0, r.1) == b
  {
    match DecodeUtf8(b)
    case Some(s) =>
      EncodeInUtf8(s);
      (Utf8, s)
    case None =>
      Latin1RoundTrip(b);
      (Latin1, Latin1Decode(b))
  }

  /** A `Location` header value made into a URL string: decoded, then percent-encoded in the charset it was decoded with. */
  function SafeLocation(b: seq<byte>): string
  {
    var (cs, text) := DecodeHeader(b);
    PercentEncodeIn(cs, text)
  }

  /**
   * Whichever charset decodes the header, the URL string is the raw bytes with
   * every non-ASCII byte written as `%XX`: decoding and re-encoding in the same
   * charset is the identity on the bytes.
   */
  lemma SafeLocationIsBytewise(b: seq<byte>)
    ensures SafeLocation(b) == PercentEncodeBytes(b)
    ensures IsAscii(SafeLocation(b))
  {
    var (cs, text) := DecodeHeader(b);
    PercentEncodeInIsBytewise(cs, text);
  }

  /** An ASCII header value is used as it is. */
  lemma {:induction false} AsciiBytesUnchanged(s: string)
    requires IsAscii(s)
    ensures SafeLocation(EncodeString(s)) == s
  {
    SafeLocationIsBytewise(EncodeString(s));
    AsciiPercentEncodeBytes(s);
  }

  lemma {:induction false} AsciiPercentEncodeBytes(s: string)
    requires IsAscii(s)
    ensures PercentEncodeBytes(EncodeString(s)) == s
  {
    if s != [] {
      assert IsAscii(s[1..]);
      AsciiPercentEncodeBytes(s[1..]);
      PercentEncodeBytesAppend(EncodeChar(s[0]), EncodeString(s[1..]));
    }
  }

  /** The UTF-8 bytes of an ASCII string are its character codes, one byte per character. */
  lemma {:induction false} AsciiEncodeString(s: string)
    requires IsAscii(s)
    ensures |EncodeString(s)| == |s|
    ensures forall i :: 0 <= i < |s| ==> EncodeString(s)[i] == s[i] as int
  {
    if s != [] {
      assert IsAscii(s[1..]);
      AsciiEncodeString(s[1..]);
      assert EncodeString(s) == [s[0] as int] + EncodeString(s[1..]);
    }
  }
}
