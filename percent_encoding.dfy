/** `Uri.EscapeDataString` as the OAuth session uses it: every character is
    encoded as UTF-8 and each byte outside the unreserved set of RFC 3986
    section 2.3 (A-Z a-z 0-9 - . _ ~) becomes "%" followed by two upper-case
    hexadecimal digits. `Unescape` is its inverse, used to state round trips. */
module PercentEncoding {
  import opened Wrappers

  type byte = x: int | 0 <= x < 256

  /** The unreserved characters of RFC 3986 section 2.3. */
  predicate IsUnreserved(c: char)
  {
    ('A' <= c <= 'Z') || ('a' <= c <= 'z') || ('0' <= c <= '9') || c == '-' || c == '.' || c == '_' || c == '~'
  }

  /** A byte that stands for itself in an escaped string. */
  predicate IsUnreservedByte(b: byte)
  {
    b < 128 && IsUnreserved(b as char)
  }

  /** Every character of `s` is unreserved. */
  predicate AllUnreserved(s: string)
  {
    forall i :: 0 <= i < |s| ==> IsUnreserved(s[i])
  }

  /** The characters an escaped string is made of. */
  predicate IsEscapedAlphabet(s: string)
  {
    forall i :: 0 <= i < |s| ==> IsUnreserved(s[i]) || s[i] == '%'
  }

  function HexDigit(d: int): (c: char)
    requires 0 <= d < 16
    ensures IsUnreserved(c) && c != '%'
  {
    if d < 10 then ('0' as int + d) as char else ('A' as int + d - 10) as char
  }

  predicate IsHexDigit(c: char)
  {
    ('0' <= c <= '9') || ('A' <= c <= 'F') || ('a' <= c <= 'f')
  }

  function HexValue(c: char): (d: int)
    requires IsHexDigit(c)
    ensures 0 <= d < 16
  {
    if '0' <= c <= '9' then c as int - '0' as int
    else if 'A' <= c <= 'F' then c as int - 'A' as int + 10
    else c as int - 'a' as int + 10
  }

  /** The UTF-8 encoding of one Unicode scalar value. */
  function Utf8(c: char): (bs: seq<byte>)
    ensures 1 <= |bs| <= 4
    ensures |bs| == 1 <==> c as int < 0x80
    ensures |bs| == 1 ==> bs[0] == c as int
    ensures forall i :: 0 <= i < |bs| && |bs| > 1 ==> bs[i] >= 0x80
  {
    var n := c as int;
    if n < 0x80 then [n]
    else if n < 0x800 then [0xC0 + n / 64, 0x80 + n % 64]
    else if n < 0x10000 then [0xE0 + n / 4096, 0x80 + (n / 64) % 64, 0x80 + n % 64]
    else [0xF0 + n / 262144, 0x80 + (n / 4096) % 64, 0x80 + (n / 64) % 64, 0x80 + n % 64]
  }

  function Utf8Encode(s: string): seq<byte>
  {
    if s == [] then [] else Utf8(s[0]) + Utf8Encode(s[1..])
  }

  /** How one byte is written in an escaped string. */
  function EscapeByte(b: byte): (t: string)
    ensures IsEscapedAlphabet(t)
  {
    if IsUnreservedByte(b) then [b as char] else ['%', HexDigit(b / 16), HexDigit(b % 16)]
  }

  function EscapeBytes(bs: seq<byte>): (t: string)
    ensures IsEscapedAlphabet(t)
  {
    if bs == [] then [] else EscapeByte(bs[0]) + EscapeBytes(bs[1..])
  }

  /** `Uri.EscapeDataString(s)`. */
  function Escape(s: string): string
  {
    EscapeBytes(Utf8Encode(s))
  }

  /** The leading byte's announcement of a UTF-8 sequence length (0: not a leading byte). */
  function Utf8SequenceLength(b: byte): nat
  {
    if b < 0x80 then 1
    else if 0xC0 <= b < 0xE0 then 2
    else if 0xE0 <= b < 0xF0 then 3
    else if 0xF0 <= b < 0xF8 then 4
    else 0
  }

  predicate IsContinuation(b: byte)
  {
    0x80 <= b < 0xC0
  }

  predicate IsScalarValue(n: int)
  {
    (0 <= n < 0xD800) || (0xE000 <= n < 0x110000)
  }

  /** The scalar value that a complete UTF-8 sequence stands for. */
  function DecodeSequence(bs: seq<byte>): Option<char>
    requires 1 <= |bs| <= 4 && Utf8SequenceLength(bs[0]) == |bs|
  {
    if exists i :: 1 <= i < |bs| && !IsContinuation(bs[i]) then None
    else
      var n := SequenceValue(bs);
      if IsScalarValue(n) then Some(n as char) else None
  }

  /** The number a leading byte and its continuation bytes spell out. */
  function SequenceValue(bs: seq<byte>): int
    requires 1 <= |bs| <= 4
  {
    var b0: int := bs[0];
    if |bs| == 1 then b0
    else if |bs| == 2 then (b0 - 0xC0) * 64 + ContinuationValue(bs[1])
    else if |bs| == 3 then (b0 - 0xE0) * 4096 + ContinuationValue(bs[1]) * 64 + ContinuationValue(bs[2])
    else (b0 - 0xF0) * 262144 + ContinuationValue(bs[1]) * 4096 + ContinuationValue(bs[2]) * 64 + ContinuationValue(bs[3])
  }

  function ContinuationValue(b: byte): int
  {
    b as int - 0x80
  }

  function Utf8Decode(bs: seq<byte>): Option<string>
    decreases |bs|
  {
    if bs == [] then Some([])
    else
      var n := Utf8SequenceLength(bs[0]);
      if n == 0 || |bs| < n then None
      else match DecodeSequence(bs[..n])
        case None => None
        case Some(c) =>
          match Utf8Decode(bs[n..])
          case None => None
          case Some(rest) => Some([c] + rest)
  }

  /** The bytes an escaped string stands for; None if it is not one. */
  function UnescapeBytes(t: string): Option<seq<byte>>
  {
    if t == [] then Some([])
    else if t[0] == '%' then
      if |t| >= 3 && IsHexDigit(t[1]) && IsHexDigit(t[2]) then
        match UnescapeBytes(t[3..])
        case None => None
        case Some(rest) => Some([HexValue(t[1]) * 16 + HexValue(t[2])] + rest)
      else None
    else if IsUnreserved(t[0]) then
      match UnescapeBytes(t[1..])
      case None => None
      case Some(rest) => Some([t[0] as int] + rest)
    else None
  }

  /** Decodes an escaped string back to the text it escapes. */
  function Unescape(t: string): Option<string>
  {
    match UnescapeBytes(t)
    case None => None
    case Some(bs) => Utf8Decode(bs)
  }

  // ---------------------------------------------------------------------------
  // Properties

  /** An escaped string uses only unreserved characters and '%': in particular it
      never contains the delimiters '&', '=', ',', '"' or ' ' that the session
      writes around escaped values. */
  lemma EscapeAlphabet(s: string)
    ensures IsEscapedAlphabet(Escape(s))
    ensures '&' !in Escape(s) && '=' !in Escape(s) && ',' !in Escape(s) && '"' !in Escape(s) && ' ' !in Escape(s)
  {
    var t := Escape(s);
    assert forall i :: 0 <= i < |t| ==> IsUnreserved(t[i]) || t[i] == '%';
  }

  lemma {:induction false} EscapeBytesAppend(a: seq<byte>, b: seq<byte>)
    ensures EscapeBytes(a + b) == EscapeBytes(a) + EscapeBytes(b)
  {
    if a != [] {
      EscapeBytesAppend(a[1..], b);
      assert (a + b)[1..] == a[1..] + b;
    } else {
      assert a + b == b;
    }
  }

  lemma {:induction false} Utf8EncodeAppend(s: string, t: string)
    ensures Utf8Encode(s + t) == Utf8Encode(s) + Utf8Encode(t)
  {
    if s != [] {
      Utf8EncodeAppend(s[1..], t);
      assert (s + t)[1..] == s[1..] + t;
    } else {
      assert s + t == t;
    }
  }

  /** Escaping works character by character. */
  lemma EscapeAppend(s: string, t: string)
    ensures Escape(s + t) == Escape(s) + Escape(t)
  {
    Utf8EncodeAppend(s, t);
    EscapeBytesAppend(Utf8Encode(s), Utf8Encode(t));
  }

  lemma EscapeCons(c: char, s: string)
    ensures Escape([c] + s) == EscapeBytes(Utf8(c)) + Escape(s)
  {
    assert ([c] + s)[1..] == s;
    EscapeBytesAppend(Utf8(c), Utf8Encode(s));
  }

  /** One character escapes to itself exactly when it is unreserved, and otherwise to
      at least three characters. */
  lemma EscapeOneChar(c: char)
    ensures IsUnreserved(c) ==> EscapeBytes(Utf8(c)) == [c]
    ensures !IsUnreserved(c) ==> |EscapeBytes(Utf8(c))| >= 3
  {
    var bs := Utf8(c);
    if c as int < 0x80 {
      assert bs == [c as int];
      assert EscapeBytes(bs) == EscapeByte(c as int) + EscapeBytes([]);
      assert (c as int) as char == c;
    } else {
      assert bs[0] >= 0x80;
      assert EscapeBytes(bs) == EscapeByte(bs[0]) + EscapeBytes(bs[1..]);
      assert !IsUnreserved(c);
    }
  }

  /** Escaping leaves a string unchanged if and only if all its characters are unreserved. */
  lemma {:induction false} EscapeIdentityIff(s: string)
    ensures Escape(s) == s <==> AllUnreserved(s)
    ensures |Escape(s)| >= |s|
  {
    if s != [] {
      EscapeIdentityIff(s[1..]);
      EscapeCons(s[0], s[1..]);
      EscapeOneChar(s[0]);
      assert [s[0]] + s[1..] == s;
      if AllUnreserved(s) {
        assert AllUnreserved(s[1..]);
      } else if !IsUnreserved(s[0]) {
        assert |Escape(s)| > |s|;
      }
    }
  }

  lemma HexRoundTrip(b: byte)
    ensures IsHexDigit(HexDigit(b / 16)) && IsHexDigit(HexDigit(b % 16))
    ensures HexValue(HexDigit(b / 16)) * 16 + HexValue(HexDigit(b % 16)) == b
  {
  }

  lemma {:induction false} UnescapeEscapeBytes(bs: seq<byte>)
    ensures UnescapeBytes(EscapeBytes(bs)) == Some(bs)
  {
    if bs != [] {
      var b := bs[0];
      UnescapeEscapeBytes(bs[1..]);
      var t := EscapeBytes(bs);
      assert t == EscapeByte(b) + EscapeBytes(bs[1..]);
      if IsUnreservedByte(b) {
        assert t[0] == b as char && t[1..] == EscapeBytes(bs[1..]);
      } else {
        HexRoundTrip(b);
        assert t[0] == '%' && t[1] == HexDigit(b / 16) && t[2] == HexDigit(b % 16);
        assert t[3..] == EscapeBytes(bs[1..]);
      }
      assert [b] + bs[1..] == bs;
    }
  }

  lemma DecodeTwo(n: int)
    requires 0x80 <= n < 0x800
    ensures (0xC0 + n / 64 - 0xC0) * 64 + (0x80 + n % 64 - 0x80) == n
  {
  }

  lemma DecodeThree(n: int)
    requires 0x800 <= n < 0x10000
    ensures (n / 4096) * 4096 + ((n / 64) % 64) * 64 + n % 64 == n
  {
    assert n == (n / 64) * 64 + n % 64;
    assert n / 64 == (n / 4096) * 64 + (n / 64) % 64;
  }

  lemma DecodeFour(n: int)
    requires 0x10000 <= n < 0x110000
    ensures (n / 262144) * 262144 + ((n / 4096) % 64) * 4096 + ((n / 64) % 64) * 64 + n % 64 == n
  {
    assert n == (n / 64) * 64 + n % 64;
    assert n / 64 == (n / 4096) * 64 + (n / 64) % 64;
    assert n / 4096 == (n / 262144) * 64 + (n / 4096) % 64;
  }

  /** Decoding the UTF-8 encoding of one character gives it back. */
  lemma DecodeUtf8(c: char)
    ensures Utf8SequenceLength(Utf8(c)[0]) == |Utf8(c)|
    ensures DecodeSequence(Utf8(c)) == Some(c)
  {
    var n := c as int;
    var bs := Utf8(c);
    if n < 0x80 {
    } else if n < 0x800 {
      DecodeTwo(n);
      assert SequenceValue(bs) == n;
    } else if n < 0x10000 {
      DecodeThree(n);
      assert SequenceValue(bs) == n;
    } else {
      DecodeFour(n);
      assert SequenceValue(bs) == n;
    }
  }

  lemma {:induction false} Utf8DecodeEncode(s: string)
    ensures Utf8Decode(Utf8Encode(s)) == Some(s)
  {
    if s != [] {
      var bs := Utf8Encode(s);
      var k := |Utf8(s[0])|;
      DecodeUtf8(s[0]);
      Utf8DecodeEncode(s[1..]);
      assert bs[..k] == Utf8(s[0]);
      assert bs[k..] == Utf8Encode(s[1..]);
      assert [s[0]] + s[1..] == s;
    }
  }

  /** Round trip: unescaping an escaped string gives back the original text. */
  lemma UnescapeEscape(s: string)
    ensures Unescape(Escape(s)) == Some(s)
  {
    UnescapeEscapeBytes(Utf8Encode(s));
    Utf8DecodeEncode(s);
  }

  /** Escaping is injective: different texts never escape to the same string. */
  lemma EscapeInjective(s: string, t: string)
    requires Escape(s) == Escape(t)
    ensures s == t
  {
    UnescapeEscape(s);
    UnescapeEscape(t);
  }
}
