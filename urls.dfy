/**
 * Percent-encoding as Python's urllib.parse applies it to the records URL:
 * `quote(s, safe="")` for the table name in the path and `quote_plus` (via
 * `urlencode`) for the offset in the query. A string is first encoded as
 * UTF-8; each byte that is an unreserved character in the sense of section
 * 2.3 of RFC 3986 stays as it is, every other byte becomes `%XX` with two
 * upper-case hex digits (section 2.1 of RFC 3986). With `safe=""` nothing
 * else is spared, not even `/`.
 */
module Urls {
  import opened Wrappers

  type Byte = b: int | 0 <= b < 256

  /** The UTF-8 encoding of one Unicode scalar value (section 3 of RFC 3629). */
  function Utf8(c: char): (bs: seq<Byte>)
    ensures 1 <= |bs| <= 4
    ensures c as int < 0x80 ==> bs == [c as int]
    ensures c as int >= 0x80 ==> forall i :: 0 <= i < |bs| ==> bs[i] >= 0x80
  {
    var n := c as int;
    if n < 0x80 then [n]
    else if n < 0x800 then [0xC0 + n / 0x40, 0x80 + n % 0x40]
    else if n < 0x10000 then [0xE0 + n / 0x40 / 0x40, 0x80 + n / 0x40 % 0x40, 0x80 + n % 0x40]
    else [0xF0 + n / 0x40 / 0x40 / 0x40, 0x80 + n / 0x40 / 0x40 % 0x40, 0x80 + n / 0x40 % 0x40, 0x80 + n % 0x40]
  }

  /** A byte that continues a multi-byte sequence: `10xxxxxx`. */
  predicate Continues(b: Byte)
  {
    0x80 <= b < 0xC0
  }

  /**
   * The first character of a UTF-8 byte sequence and the number of bytes it
   * takes; None on a malformed, overlong or surrogate sequence.
   */
  function DecodeChar(bs: seq<Byte>): (r: Option<(char, nat)>)
    ensures r.Some? ==> 1 <= r.value.1 <= |bs|
  {
    if bs == [] then None
    else if bs[0] < 0x80 then Some((bs[0] as char, 1))
    else if 0xC0 <= bs[0] < 0xE0 then
      if |bs| < 2 || !Continues(bs[1]) then None
      else
        var n: int := ((bs[0] as int) - 0xC0) * 0x40 + ((bs[1] as int) - 0x80);
        if n < 0x80 then None else Some((n as char, 2))
    else if 0xE0 <= bs[0] < 0xF0 then
      if |bs| < 3 || !Continues(bs[1]) || !Continues(bs[2]) then None
      else
        var n: int := (((bs[0] as int) - 0xE0) * 0x40 + ((bs[1] as int) - 0x80)) * 0x40 + ((bs[2] as int) - 0x80);
        if n < 0x800 || 0xD800 <= n < 0xE000 then None else Some((n as char, 3))
    else if 0xF0 <= bs[0] < 0xF8 then
      if |bs| < 4 || !Continues(bs[1]) || !Continues(bs[2]) || !Continues(bs[3]) then None
      else
        var n: int := ((((bs[0] as int) - 0xF0) * 0x40 + ((bs[1] as int) - 0x80)) * 0x40 + ((bs[2] as int) - 0x80)) * 0x40 + ((bs[3] as int) - 0x80);
        if n < 0x10000 || n > 0x10FFFF then None else Some((n as char, 4))
    else None
  }

  /** `bs.decode("utf-8")`; None on bytes that are not UTF-8. */
  function DecodeUtf8(bs: seq<Byte>): Option<string>
    decreases |bs|
  {
    if bs == [] then Some([])
    else
      match DecodeChar(bs)
      case None => None
      case Some((c, k)) =>
        match DecodeUtf8(bs[k..])
        case None => None
        case Some(rest) => Some([c] + rest)
  }

  /** The bytes of one character, in front of any bytes, decode to that character. */
  lemma DecodeCharUtf8(c: char, rest: seq<Byte>)
    ensures DecodeChar(Utf8(c) + rest) == Some((c, |Utf8(c)|))
  {
    var n := c as int;
    var bs := Utf8(c) + rest;
    if n >= 0x80 {
      var q1, r0 := n / 0x40, n % 0x40;
      assert n == q1 * 0x40 + r0;
      if n < 0x800 {
        assert bs[0] == 0xC0 + q1 && bs[1] == 0x80 + r0;
      } else {
        var q2, r1 := q1 / 0x40, q1 % 0x40;
        assert q1 == q2 * 0x40 + r1;
        if n < 0x10000 {
          assert bs[0] == 0xE0 + q2 && bs[1] == 0x80 + r1 && bs[2] == 0x80 + r0;
        } else {
          var q3, r2 := q2 / 0x40, q2 % 0x40;
          assert q2 == q3 * 0x40 + r2;
          assert bs[0] == 0xF0 + q3 && bs[1] == 0x80 + r2 && bs[2] == 0x80 + r1 && bs[3] == 0x80 + r0;
        }
      }
    }
  }

  /** UTF-8 encoding loses nothing: decoding the bytes of a string gives the string back. */
  lemma {:induction false} DecodeEncodeUtf8(s: string)
    ensures DecodeUtf8(EncodeUtf8(s)) == Some(s)
  {
    if s != [] {
      var tail := EncodeUtf8(s[1..]);
      DecodeCharUtf8(s[0], tail);
      assert (Utf8(s[0]) + tail)[|Utf8(s[0])|..] == tail;
      DecodeEncodeUtf8(s[1..]);
      assert [s[0]] + s[1..] == s;
    }
  }

  /** `s.encode("utf-8")`. */
  function EncodeUtf8(s: string): seq<Byte>
  {
    if s == [] then [] else Utf8(s[0]) + EncodeUtf8(s[1..])
  }

  /** Python's always-safe characters: letters, digits and `_.-~`. */
  predicate Unreserved(c: char)
  {
    ('A' <= c <= 'Z') || ('a' <= c <= 'z') || ('0' <= c <= '9') || c == '_' || c == '.' || c == '-' || c == '~'
  }

  function HexDigit(n: int): (c: char)
    requires 0 <= n < 16
    ensures Unreserved(c)
  {
    "0123456789ABCDEF"[n]
  }

  /** The value of a hex digit of either case. */
  function HexValue(c: char): Option<int>
  {
    if '0' <= c <= '9' then Some(c as int - '0' as int)
    else if 'A' <= c <= 'F' then Some(c as int - 'A' as int + 10)
    else if 'a' <= c <= 'f' then Some(c as int - 'a' as int + 10)
    else None
  }

  /** One byte as `quote` (plus == false) or `quote_plus` (plus == true) writes it. */
  function QuoteByte(b: Byte, plus: bool): string
  {
    if plus && b == 0x20 then "+"
    else if Unreserved(b as char) then [b as char]
    else ['%', HexDigit(b / 16), HexDigit(b % 16)]
  }

  function QuoteBytes(bs: seq<Byte>, plus: bool): string
  {
    if bs == [] then [] else QuoteByte(bs[0], plus) + QuoteBytes(bs[1..], plus)
  }

  /** `quote(s, safe="")`. */
  function Quote(s: string): string
  {
    QuoteBytes(EncodeUtf8(s), false)
  }

  /** `quote_plus(s, safe="")`, which `urlencode` applies to each key and value. */
  function QuotePlus(s: string): string
  {
    QuoteBytes(EncodeUtf8(s), true)
  }

  /** Percent-decoding back to bytes; None on text no encoder of this module writes. */
  function Unquote(s: string, plus: bool): Option<seq<Byte>>
  {
    if s == [] then Some([])
    else if s[0] == '%' then
      if |s| >= 3 && HexValue(s[1]).Some? && HexValue(s[2]).Some? then
        match Unquote(s[3..], plus)
        case Some(rest) => Some([HexValue(s[1]).value * 16 + HexValue(s[2]).value] + rest)
        case None => None
      else None
    else if plus && s[0] == '+' then
      match Unquote(s[1..], plus)
      case Some(rest) => Some([0x20] + rest)
      case None => None
    else if Unreserved(s[0]) then
      match Unquote(s[1..], plus)
      case Some(rest) => Some([s[0] as int] + rest)
      case None => None
    else None
  }

  lemma HexDigitValue(n: int)
    requires 0 <= n < 16
    ensures HexValue(HexDigit(n)) == Some(n)
  {
    assert "0123456789ABCDEF"[n] == ['0','1','2','3','4','5','6','7','8','9','A','B','C','D','E','F'][n];
  }

  /** Decoding one encoded byte in front of decodable text gives that byte in front of its decoding. */
  lemma UnquoteByte(b: Byte, plus: bool, rest: string, tail: seq<Byte>)
    requires Unquote(rest, plus) == Some(tail)
    ensures Unquote(QuoteByte(b, plus) + rest, plus) == Some([b] + tail)
  {
    var s := QuoteByte(b, plus) + rest;
    if plus && b == 0x20 {
      assert s[0] == '+' && s[1..] == rest;
    } else if Unreserved(b as char) {
      assert s[0] == b as char && s[1..] == rest;
      assert s[0] != '%' && s[0] != '+' && s[0] as int == b;
    } else {
      UnquotePercent(b, plus, rest, tail);
    }
  }

  /** A byte written as `%XX` decodes back to itself. */
  lemma UnquotePercent(b: Byte, plus: bool, rest: string, tail: seq<Byte>)
    requires Unquote(rest, plus) == Some(tail)
    requires !(plus && b == 0x20) && !Unreserved(b as char)
    ensures Unquote(['%', HexDigit(b / 16), HexDigit(b % 16)] + rest, plus) == Some([b] + tail)
  {
    var hi, lo := b / 16, b % 16;
    HexDigitValue(hi);
    HexDigitValue(lo);
    var s := ['%', HexDigit(hi), HexDigit(lo)] + rest;
    assert s[0] == '%' && s[1] == HexDigit(hi) && s[2] == HexDigit(lo) && s[3..] == rest;
    assert hi * 16 + lo == b;
  }

  /** Percent-encoding loses nothing: decoding what was encoded gives back the bytes. */
  lemma {:induction false} UnquoteQuote(bs: seq<Byte>, plus: bool)
    ensures Unquote(QuoteBytes(bs, plus), plus) == Some(bs)
  {
    if bs != [] {
      UnquoteQuote(bs[1..], plus);
      UnquoteByte(bs[0], plus, QuoteBytes(bs[1..], plus), bs[1..]);
      assert [bs[0]] + bs[1..] == bs;
    }
  }

  /**
   * The table name and the offset reach the server intact: percent-decoding
   * what `quote` and `quote_plus` write, then decoding the bytes as UTF-8,
   * gives back the original string.
   */
  lemma QuoteRoundTrip(s: string)
    ensures Unquote(Quote(s), false) == Some(EncodeUtf8(s)) && DecodeUtf8(EncodeUtf8(s)) == Some(s)
    ensures Unquote(QuotePlus(s), true) == Some(EncodeUtf8(s))
  {
    UnquoteQuote(EncodeUtf8(s), false);
    UnquoteQuote(EncodeUtf8(s), true);
    DecodeEncodeUtf8(s);
  }

  /** What `quote` writes is built only from unreserved characters and `%`. */
  lemma {:induction false} QuotedChars(bs: seq<Byte>, plus: bool)
    ensures forall i :: 0 <= i < |QuoteBytes(bs, plus)| ==>
              var c := QuoteBytes(bs, plus)[i]; Unreserved(c) || c == '%' || (plus && c == '+')
  {
    if bs != [] {
      QuotedChars(bs[1..], plus);
    }
  }

  /**
   * The encoded table name is one path segment: it holds no `/`, `?` or `#`,
   * so no table name can change the shape of the records URL.
   */
  lemma QuoteIsOneSegment(s: string)
    ensures '/' !in Quote(s) && '?' !in Quote(s) && '#' !in Quote(s)
  {
    QuotedChars(EncodeUtf8(s), false);
  }

  /** The encoded offset cannot end the query parameter: it holds no `&`, `=` or `#`. */
  lemma QuotePlusIsOneValue(s: string)
    ensures '&' !in QuotePlus(s) && '=' !in QuotePlus(s) && '#' !in QuotePlus(s)
  {
    QuotedChars(EncodeUtf8(s), true);
  }

  /** A name made only of unreserved ASCII characters is left as it is. */
  lemma {:induction false} QuoteUnreserved(s: string)
    requires forall i :: 0 <= i < |s| ==> Unreserved(s[i])
    ensures Quote(s) == s
  {
    if s != [] {
      QuoteUnreserved(s[1..]);
      assert EncodeUtf8(s) == [s[0] as int] + EncodeUtf8(s[1..]);
    }
  }

  /** Every non-ASCII character is percent-encoded, byte by byte: it never appears as itself. */
  lemma {:induction false} QuoteAscii(s: string)
    ensures forall i :: 0 <= i < |Quote(s)| ==> Quote(s)[i] as int < 0x80
  {
    QuotedChars(EncodeUtf8(s), false);
  }
}
