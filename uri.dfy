/**
 * `encodeURIComponent` and `decodeURIComponent` of ECMA-262 (section 19.2.6),
 * which percent-encode a string as UTF-8 bytes written `%XY` (section 2.1 of RFC 3986).
 */
module Uri {
  import opened Wrappers

  type Byte = b: int | 0 <= b < 256

  /** The characters `encodeURIComponent` leaves alone: ASCII letters and digits and `- _ . ! ~ * ' ( )`. */
  predicate IsUnreserved(c: char) {
    || ('a' <= c <= 'z') || ('A' <= c <= 'Z') || ('0' <= c <= '9')
    || c == '-' || c == '_' || c == '.' || c == '!' || c == '~' || c == '*' || c == '\'' || c == '(' || c == ')'
  }

  /** Upper-case hexadecimal digit, as `encodeURIComponent` writes them. */
  function HexDigit(n: int): (c: char)
    requires 0 <= n < 16
    ensures IsUnreserved(c)
  {
    if n < 10 then (48 + n) as char else (55 + n) as char
  }

  /** Value of a hexadecimal digit of either case. */
  function HexValue(c: char): (r: Option<int>)
    ensures r.Some? ==> 0 <= r.value < 16
  {
    if '0' <= c <= '9' then Some(c as int - 48)
    else if 'A' <= c <= 'F' then Some(c as int - 55)
    else if 'a' <= c <= 'f' then Some(c as int - 87)
    else None
  }

  /** `%XY` for one byte. */
  function Escape(b: Byte): (r: string)
    ensures |r| == 3 && r[0] == '%' && IsUnreserved(r[1]) && IsUnreserved(r[2])
  {
    ['%', HexDigit(b / 16), HexDigit(b % 16)]
  }

  function EscapeAll(bs: seq<Byte>): (r: string)
    ensures |r| == 3 * |bs|
    ensures forall i :: 0 <= i < |r| ==> IsUnreserved(r[i]) || r[i] == '%'
  {
    if bs == [] then [] else Escape(bs[0]) + EscapeAll(bs[1..])
  }

  /** The UTF-8 encoding of a Unicode scalar value (section 3 of RFC 3629). */
  function Utf8(c: char): (bs: seq<Byte>)
    ensures 1 <= |bs| <= 4
  {
    var n := c as int;
    if n < 0x80 then [n]
    else if n < 0x800 then [0xC0 + n / 64, 0x80 + n % 64]
    else if n < 0x10000 then [0xE0 + n / 4096, 0x80 + n / 64 % 64, 0x80 + n % 64]
    else [0xF0 + n / 262144, 0x80 + n / 4096 % 64, 0x80 + n / 64 % 64, 0x80 + n % 64]
  }

  function EncodeChar(c: char): (r: string)
    ensures |r| >= 1
    ensures forall i :: 0 <= i < |r| ==> IsUnreserved(r[i]) || r[i] == '%'
  {
    if IsUnreserved(c) then [c] else EscapeAll(Utf8(c))
  }

  /** `encodeURIComponent`: the result is at least as long as the input and uses only unreserved characters and `%`. */
  function EncodeURIComponent(s: string): (r: string)
    ensures |r| >= |s|
    ensures forall i :: 0 <= i < |r| ==> IsUnreserved(r[i]) || r[i] == '%'
  {
    if s == [] then [] else EncodeChar(s[0]) + EncodeURIComponent(s[1..])
  }

  /** The byte written `%XY` at position k, if there is one. */
  function ReadEscape(s: string, k: nat): (r: Option<Byte>) {
    if k + 3 <= |s| && s[k] == '%' && HexValue(s[k + 1]).Some? && HexValue(s[k + 2]).Some?
    then Some(HexValue(s[k + 1]).value * 16 + HexValue(s[k + 2]).value)
    else None
  }

  /** n consecutive escapes at the start of s. */
  function ReadEscapes(s: string, n: nat): (r: Option<seq<Byte>>)
    ensures r.Some? ==> |r.value| == n && 3 * n <= |s|
  {
    if n == 0 then Some([])
    else match ReadEscape(s, 0)
      case None => None
      case Some(b) =>
        match ReadEscapes(s[3..], n - 1)
        case None => None
        case Some(bs) => Some([b] + bs)
  }

  /** How many bytes a UTF-8 sequence that starts with b has; 0 when b cannot start one. */
  function SequenceLength(b: Byte): nat {
    if b < 0x80 then 1
    else if b < 0xC0 then 0
    else if b < 0xE0 then 2
    else if b < 0xF0 then 3
    else if b < 0xF8 then 4
    else 0
  }

  predicate IsContinuation(b: Byte) {
    0x80 <= b < 0xC0
  }

  /** The code point the payload bits of a 1- to 4-byte sequence spell. */
  function CodePoint(bs: seq<Byte>): int
    requires 1 <= |bs| <= 4
  {
    var b := seq(|bs|, i requires 0 <= i < |bs| => bs[i] as int);
    if |bs| == 1 then b[0]
    else if |bs| == 2 then (b[0] - 0xC0) * 64 + (b[1] - 0x80)
    else if |bs| == 3 then (b[0] - 0xE0) * 4096 + (b[1] - 0x80) * 64 + (b[2] - 0x80)
    else (b[0] - 0xF0) * 262144 + (b[1] - 0x80) * 4096 + (b[2] - 0x80) * 64 + (b[3] - 0x80)
  }

  /** A shortest-form encoding of a scalar value: not overlong, not a surrogate, at most U+10FFFF. */
  predicate IsShortestForm(cp: int, n: nat) {
    || (n == 1 && 0 <= cp < 0x80)
    || (n == 2 && 0x80 <= cp < 0x800)
    || (n == 3 && 0x800 <= cp < 0x10000 && !(0xD800 <= cp < 0xE000))
    || (n == 4 && 0x10000 <= cp < 0x110000)
  }

  /**
   * The character escaped at the start of s and the number of code units it spans,
   * or None where `decodeURIComponent` throws a URIError.
   */
  function DecodeEscape(s: string): (r: Option<(char, nat)>)
    ensures r.Some? ==> 3 <= r.value.1 <= |s|
  {
    match ReadEscape(s, 0)
    case None => None
    case Some(b0) =>
      var n := SequenceLength(b0);
      if n == 0 then None
      else match ReadEscapes(s, n)
        case None => None
        case Some(bs) =>
          if (forall i :: 1 <= i < n ==> IsContinuation(bs[i])) && IsShortestForm(CodePoint(bs), n)
          then Some((CodePoint(bs) as char, 3 * n))
          else None
  }

  /** `decodeURIComponent`; None stands for the URIError it throws on a malformed escape. */
  function DecodeURIComponent(s: string): (r: Option<string>)
    ensures r.Some? ==> |r.value| <= |s|
    ensures r.Some? ==> (r.value == [] <==> s == [])
    decreases |s|
  {
    if s == [] then Some([])
    else if s[0] != '%' then
      match DecodeURIComponent(s[1..])
      case None => None
      case Some(t) => Some([s[0]] + t)
    else
      match DecodeEscape(s)
      case None => None
      case Some((c, k)) =>
        match DecodeURIComponent(s[k..])
        case None => None
        case Some(t) => Some([c] + t)
  }

  lemma HexDigitValue(n: int)
    requires 0 <= n < 16
    ensures HexValue(HexDigit(n)) == Some(n)
  {
  }

  lemma {:induction false} ReadEscapedBytes(bs: seq<Byte>, rest: string)
    ensures ReadEscapes(EscapeAll(bs) + rest, |bs|) == Some(bs)
  {
    if bs != [] {
      var s := EscapeAll(bs) + rest;
      var b := bs[0];
      HexDigitValue(b / 16);
      HexDigitValue(b % 16);
      assert s == Escape(b) + (EscapeAll(bs[1..]) + rest);
      assert ReadEscape(s, 0) == Some(b);
      assert s[3..] == EscapeAll(bs[1..]) + rest;
      ReadEscapedBytes(bs[1..], rest);
      assert [b] + bs[1..] == bs;
    }
  }

  /** The payload bits of a three-byte sequence spell the code point again. */
  lemma ThreeByteDigits(n: int)
    requires 0x800 <= n < 0x10000
    ensures 0 <= n / 4096 < 16
    ensures (n / 4096) * 4096 + (n / 64 % 64) * 64 + n % 64 == n
  {
    assert n / 64 == (n / 4096) * 64 + n / 64 % 64;
    assert n == (n / 64) * 64 + n % 64;
  }

  /** The payload bits of a four-byte sequence spell the code point again. */
  lemma FourByteDigits(n: int)
    requires 0x10000 <= n < 0x110000
    ensures 0 <= n / 262144 < 8
    ensures (n / 262144) * 262144 + (n / 4096 % 64) * 4096 + (n / 64 % 64) * 64 + n % 64 == n
  {
    assert n / 4096 == (n / 262144) * 64 + n / 4096 % 64;
    assert n / 64 == (n / 4096) * 64 + n / 64 % 64;
    assert n == (n / 64) * 64 + n % 64;
  }

  lemma Utf8WellFormed(c: char)
    ensures SequenceLength(Utf8(c)[0]) == |Utf8(c)|
    ensures forall i :: 1 <= i < |Utf8(c)| ==> IsContinuation(Utf8(c)[i])
    ensures CodePoint(Utf8(c)) == c as int
    ensures IsShortestForm(c as int, |Utf8(c)|)
  {
    var n := c as int;
    if n < 0x80 {
    } else if n < 0x800 {
      assert n == (n / 64) * 64 + n % 64;
    } else if n < 0x10000 {
      ThreeByteDigits(n);
    } else {
      FourByteDigits(n);
    }
  }


  lemma DecodeEscapeOfEncoded(c: char, rest: string)
    requires !IsUnreserved(c)
    ensures DecodeEscape(EncodeChar(c) + rest) == Some((c, |EncodeChar(c)|))
  {
    var bs := Utf8(c);
    var s := EncodeChar(c) + rest;
    ReadEscapedBytes(bs, rest);
    ReadEscapedBytes([bs[0]], EscapeAll(bs[1..]) + rest);
    assert EscapeAll(bs) == Escape(bs[0]) + EscapeAll(bs[1..]);
    assert ReadEscape(s, 0) == Some(bs[0]);
    Utf8WellFormed(c);
  }

  /** Decoding an encoded character followed by anything yields that character followed by the rest's decoding. */
  lemma DecodeEncodedChar(c: char, rest: string)
    ensures DecodeURIComponent(EncodeChar(c) + rest) ==
      match DecodeURIComponent(rest)
      case None => None
      case Some(t) => Some([c] + t)
  {
    var s := EncodeChar(c) + rest;
    if IsUnreserved(c) {
      assert s[1..] == rest;
    } else {
      DecodeEscapeOfEncoded(c, rest);
      assert s[0] == '%';
      assert s[|EncodeChar(c)|..] == rest;
    }
  }

  /** Round trip: `decodeURIComponent(encodeURIComponent(s)) === s` for every well-formed string. */
  lemma {:induction false} DecodeEncode(s: string)
    ensures DecodeURIComponent(EncodeURIComponent(s)) == Some(s)
  {
    if s != [] {
      DecodeEncode(s[1..]);
      DecodeEncodedChar(s[0], EncodeURIComponent(s[1..]));
      assert [s[0]] + s[1..] == s;
    }
  }

  /** A string with no `%` decodes to itself. */
  lemma {:induction false} DecodeWithoutPercent(s: string)
    requires forall i :: 0 <= i < |s| ==> s[i] != '%'
    ensures DecodeURIComponent(s) == Some(s)
  {
    if s != [] {
      DecodeWithoutPercent(s[1..]);
      assert [s[0]] + s[1..] == s;
    }
  }

  /** A `%` with no two hexadecimal digits after it is malformed: a string ending in one fails to decode. */
  lemma {:induction false} TrailingPercentFails(s: string)
    requires forall i :: 0 <= i < |s| ==> s[i] != '%'
    ensures DecodeURIComponent(s + "%") == None
  {
    if s == [] {
      assert ReadEscape("%", 0).None?;
    } else {
      TrailingPercentFails(s[1..]);
      assert (s + "%")[1..] == s[1..] + "%";
    }
  }

  /** A string of unreserved characters is its own encoding. */
  lemma {:induction false} EncodeUnreserved(s: string)
    requires forall i :: 0 <= i < |s| ==> IsUnreserved(s[i])
    ensures EncodeURIComponent(s) == s
  {
    if s != [] {
      EncodeUnreserved(s[1..]);
      assert [s[0]] + s[1..] == s;
    }
  }
}
