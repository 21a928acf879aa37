/**
 * `encodeURIComponent` (ECMA-262, section 19.2.6.5) on strings of Unicode scalar values:
 * every character outside the unreserved set is written as the percent-escapes (section 2.1
 * of RFC 3986, upper-case hexadecimal) of its UTF-8 encoding (section 3 of RFC 3629). Its
 * partner is the percent-decoder `decodeURIComponent`, and the two round-trip.
 */
module UriCodec {
  import opened Wrappers
  import JsText

  type Byte = b: int | 0 <= b < 256

  /** The characters `encodeURIComponent` leaves alone. */
  predicate IsUnreserved(c: char) {
    JsText.IsAsciiAlnum(c) || c == '-' || c == '_' || c == '.' || c == '!' || c == '~' ||
    c == '*' || c == '\'' || c == '(' || c == ')'
  }

  // ---------------------------------------------------------------------------------------
  // UTF-8
  // ---------------------------------------------------------------------------------------

  /** The UTF-8 encoding of one scalar value: a lead byte announcing the length, then
      continuation bytes carrying six bits each. */
  function Utf8(c: char): (bs: seq<Byte>)
    ensures 1 <= |bs| <= 4
    ensures |bs| == 1 <==> c as int < 0x80
  {
    var cp := c as int;
    if cp < 0x80 then [cp]
    else if cp < 0x800 then [0xC0 + cp / 64, 0x80 + cp % 64]
    else if cp < 0x10000 then [0xE0 + cp / 4096, 0x80 + (cp / 64) % 64, 0x80 + cp % 64]
    else [0xF0 + cp / 262144, 0x80 + (cp / 4096) % 64, 0x80 + (cp / 64) % 64, 0x80 + cp % 64]
  }

  /** The sequence length announced by a lead byte; 0 for a byte that cannot start one. */
  function SequenceLength(b: Byte): nat {
    if b < 0x80 then 1
    else if 0xC2 <= b <= 0xDF then 2
    else if 0xE0 <= b <= 0xEF then 3
    else if 0xF0 <= b <= 0xF4 then 4
    else 0
  }

  predicate IsContinuation(b: Byte) { 0x80 <= b <= 0xBF }

  /** Decodes one complete UTF-8 sequence; `None` for a malformed, overlong or surrogate
      sequence, or one beyond U+10FFFF (the cases `decodeURIComponent` rejects). */
  function Utf8Decode(bs: seq<Byte>): (r: Option<char>)
    requires 1 <= |bs| <= 4
    ensures r.Some? ==> Utf8(r.value) == bs
  {
    if SequenceLength(bs[0]) != |bs| then None
    else if exists k :: 1 <= k < |bs| && !IsContinuation(bs[k]) then None
    else
      var cp := Assemble(bs);
      var least := if |bs| == 1 then 0 else if |bs| == 2 then 0x80 else if |bs| == 3 then 0x800 else 0x10000;
      if cp < least || cp > 0x10FFFF || (0xD800 <= cp <= 0xDFFF) then None
      else
        Utf8Inverse(bs, cp);
        Some(cp as char)
  }

  /** The payload bits of a sequence: the lead byte's bits below its length marker, then
      six bits from each continuation byte. */
  function Assemble(bs: seq<Byte>): int
    requires 1 <= |bs| <= 4
  {
    var b := seq(|bs|, i requires 0 <= i < |bs| => bs[i] as int);
    if |b| == 1 then b[0]
    else if |b| == 2 then (b[0] - 0xC0) * 64 + (b[1] - 0x80)
    else if |b| == 3 then ((b[0] - 0xE0) * 64 + (b[1] - 0x80)) * 64 + (b[2] - 0x80)
    else (((b[0] - 0xF0) * 64 + (b[1] - 0x80)) * 64 + (b[2] - 0x80)) * 64 + (b[3] - 0x80)
  }

  /** A well-formed sequence's value encodes back to the sequence. */
  lemma {:induction false} Utf8Inverse(bs: seq<Byte>, cp: int)
    requires 1 <= |bs| <= 4 && SequenceLength(bs[0]) == |bs|
    requires forall k :: 1 <= k < |bs| ==> IsContinuation(bs[k])
    requires cp == Assemble(bs)
    requires |bs| == 2 ==> cp >= 0x80
    requires |bs| == 3 ==> cp >= 0x800
    requires |bs| == 4 ==> cp >= 0x10000
    requires 0 <= cp <= 0x10FFFF && !(0xD800 <= cp <= 0xDFFF)
    ensures Utf8(cp as char) == bs
  {
    var b := seq(|bs|, i requires 0 <= i < |bs| => bs[i] as int);
    if |bs| == 2 {
      SplitSix(b[0] - 0xC0, b[1] - 0x80);
      assert Utf8(cp as char) == [0xC0 + cp / 64, 0x80 + cp % 64];
    } else if |bs| == 3 {
      ThreeBytes(b[0], b[1], b[2], cp);
      assert Utf8(cp as char) == [0xE0 + cp / 4096, 0x80 + (cp / 64) % 64, 0x80 + cp % 64];
    } else if |bs| == 4 {
      FourBytes(b[0], b[1], b[2], b[3], cp);
      assert Utf8(cp as char) ==
        [0xF0 + cp / 262144, 0x80 + (cp / 4096) % 64, 0x80 + (cp / 64) % 64, 0x80 + cp % 64];
    }
  }

  /** The three payload fields of a three-byte sequence are its value's bit groups. */
  lemma {:induction false} ThreeBytes(b0: int, b1: int, b2: int, cp: int)
    requires 0xE0 <= b0 <= 0xEF && 0x80 <= b1 <= 0xBF && 0x80 <= b2 <= 0xBF
    requires cp == ((b0 - 0xE0) * 64 + (b1 - 0x80)) * 64 + (b2 - 0x80)
    ensures cp / 4096 == b0 - 0xE0 && (cp / 64) % 64 == b1 - 0x80 && cp % 64 == b2 - 0x80
  {
    var hi := (b0 - 0xE0) * 64 + (b1 - 0x80);
    SplitSix(hi, b2 - 0x80);
    SplitSix(b0 - 0xE0, b1 - 0x80);
    DivDiv(cp);
  }

  /** The four payload fields of a four-byte sequence are its value's bit groups. */
  lemma {:induction false} FourBytes(b0: int, b1: int, b2: int, b3: int, cp: int)
    requires 0xF0 <= b0 <= 0xF4 && 0x80 <= b1 <= 0xBF && 0x80 <= b2 <= 0xBF && 0x80 <= b3 <= 0xBF
    requires cp == (((b0 - 0xF0) * 64 + (b1 - 0x80)) * 64 + (b2 - 0x80)) * 64 + (b3 - 0x80)
    ensures cp / 262144 == b0 - 0xF0 && (cp / 4096) % 64 == b1 - 0x80
    ensures (cp / 64) % 64 == b2 - 0x80 && cp % 64 == b3 - 0x80
  {
    var hi := (b0 - 0xF0) * 64 + (b1 - 0x80);
    var mid := hi * 64 + (b2 - 0x80);
    SplitSix(mid, b3 - 0x80);
    SplitSix(hi, b2 - 0x80);
    SplitSix(b0 - 0xF0, b1 - 0x80);
    DivDiv(cp);
    DivDiv(cp / 64);
  }

  /** Six low bits and the rest: `(q * 64 + r) / 64 == q` and `% 64 == r`. */
  lemma {:induction false} SplitSix(q: int, r: int)
    requires q >= 0 && 0 <= r < 64
    ensures (q * 64 + r) / 64 == q && (q * 64 + r) % 64 == r
  {
  }

  lemma {:induction false} DivDiv(n: int)
    requires n >= 0
    ensures n / 4096 == (n / 64) / 64 && n / 262144 == (n / 4096) / 64
  {
  }

  /** The lead byte of an encoding announces its length. */
  lemma {:induction false} Utf8LeadLength(c: char)
    ensures SequenceLength(Utf8(c)[0]) == |Utf8(c)|
  {
  }

  /** Decoding the encoding of a scalar value gives it back. */
  lemma {:induction false} Utf8RoundTrip(c: char)
    ensures Utf8Decode(Utf8(c)) == Some(c)
  {
    var bs := Utf8(c);
    var cp := c as int;
    if |bs| == 3 {
      DivDiv(cp);
    } else if |bs| == 4 {
      DivDiv(cp);
      DivDiv(cp / 64);
    }
    assert Assemble(bs) == cp;
    assert Utf8Decode(bs).Some?;
  }

  // ---------------------------------------------------------------------------------------
  // Percent-escapes
  // ---------------------------------------------------------------------------------------

  /** Upper-case hexadecimal digit. */
  function HexDigit(d: int): (c: char)
    requires 0 <= d < 16
    ensures JsText.IsAsciiDigit(c) || ('A' <= c <= 'F')
  {
    if d < 10 then ('0' as int + d) as char else ('A' as int + d - 10) as char
  }

  /** The value of a hexadecimal digit of either case. */
  function HexValue(c: char): (r: Option<int>)
    ensures r.Some? ==> 0 <= r.value < 16
    ensures forall d :: 0 <= d < 16 ==> (c == HexDigit(d) ==> r == Some(d))
  {
    if '0' <= c <= '9' then Some(c as int - '0' as int)
    else if 'A' <= c <= 'F' then Some(c as int - 'A' as int + 10)
    else if 'a' <= c <= 'f' then Some(c as int - 'a' as int + 10)
    else None
  }

  function EscapeByte(b: Byte): (r: string)
    ensures |r| == 3 && r[0] == '%'
  {
    ['%', HexDigit(b / 16), HexDigit(b % 16)]
  }

  function EscapeBytes(bs: seq<Byte>): (r: string)
    ensures |r| == 3 * |bs|
  {
    if bs == [] then [] else EscapeByte(bs[0]) + EscapeBytes(bs[1..])
  }

  /** The byte written by the escape at the start of `s`, if there is one. */
  function ReadByte(s: string): (r: Option<Byte>)
  {
    if |s| < 3 || s[0] != '%' then None
    else match (HexValue(s[1]), HexValue(s[2]))
      case (Some(hi), Some(lo)) => Some(hi * 16 + lo)
      case _ => None
  }

  /** The `k` bytes written by `k` consecutive escapes at the start of `s`. */
  function ReadBytes(s: string, k: nat): (r: Option<seq<Byte>>)
    ensures r.Some? ==> |r.value| == k && 3 * k <= |s|
  {
    if k == 0 then Some([])
    else match ReadByte(s)
      case None => None
      case Some(b) =>
        match ReadBytes(s[3..], k - 1)
        case None => None
        case Some(rest) => Some([b] + rest)
  }

  lemma {:induction false} ReadBytesOfEscapes(bs: seq<Byte>, rest: string)
    ensures ReadBytes(EscapeBytes(bs) + rest, |bs|) == Some(bs)
  {
    if bs != [] {
      var b := bs[0];
      var t := EscapeBytes(bs[1..]) + rest;
      var s := EscapeBytes(bs) + rest;
      assert s == EscapeByte(b) + t;
      ReadEscapeByte(b, t);
      ReadBytesOfEscapes(bs[1..], rest);
      assert [b] + bs[1..] == bs;
    }
  }

  /** The escape of a byte reads back as the byte, whatever follows it. */
  lemma {:induction false} ReadEscapeByte(b: Byte, t: string)
    ensures ReadByte(EscapeByte(b) + t) == Some(b)
    ensures (EscapeByte(b) + t)[3..] == t
  {
    var s := EscapeByte(b) + t;
    assert s[0] == '%' && s[1] == HexDigit(b / 16) && s[2] == HexDigit(b % 16);
    assert HexValue(s[1]) == Some(b / 16) && HexValue(s[2]) == Some(b % 16);
  }

  // ---------------------------------------------------------------------------------------
  // encodeURIComponent / decodeURIComponent
  // ---------------------------------------------------------------------------------------

  function EncodeChar(c: char): (r: string)
    ensures r != []
  {
    if IsUnreserved(c) then [c] else EscapeBytes(Utf8(c))
  }

  /** `encodeURIComponent(s)`. */
  function EncodeUriComponent(s: string): string {
    if s == [] then [] else EncodeChar(s[0]) + EncodeUriComponent(s[1..])
  }

  /** Only unreserved characters and '%' appear in an encoding, which is between one and
      twelve times as long as the input. */
  lemma {:induction false} EncodedAlphabet(s: string)
    ensures IsEncoded(EncodeUriComponent(s))
    ensures |s| <= |EncodeUriComponent(s)| <= 12 * |s|
  {
    if s != [] {
      EncodedAlphabet(s[1..]);
      var head := EncodeChar(s[0]);
      var tail := EncodeUriComponent(s[1..]);
      EncodeCharAlphabet(s[0]);
      EncodedConcat(head, tail);
    }
  }

  predicate IsEncoded(r: string) {
    forall i :: 0 <= i < |r| ==> IsUnreserved(r[i]) || r[i] == '%'
  }

  lemma {:induction false} EncodedConcat(a: string, b: string)
    requires IsEncoded(a) && IsEncoded(b)
    ensures IsEncoded(a + b)
  {
    forall i | 0 <= i < |a + b| ensures IsUnreserved((a + b)[i]) || (a + b)[i] == '%' {
      if i >= |a| {
        assert (a + b)[i] == b[i - |a|];
      }
    }
  }

  /** One encoded character is an unreserved character or up to four escapes. */
  lemma {:induction false} EncodeCharAlphabet(c: char)
    ensures IsEncoded(EncodeChar(c)) && 1 <= |EncodeChar(c)| <= 12
  {
    if !IsUnreserved(c) {
      EscapesAreUnreservedOrPercent(Utf8(c));
    }
  }

  lemma {:induction false} EscapesAreUnreservedOrPercent(bs: seq<Byte>)
    ensures IsEncoded(EscapeBytes(bs))
  {
    if bs != [] {
      EscapesAreUnreservedOrPercent(bs[1..]);
      var e := EscapeByte(bs[0]);
      assert IsEncoded(e) by {
        assert e[0] == '%';
        assert JsText.IsAsciiAlnum(e[1]) && JsText.IsAsciiAlnum(e[2]);
      }
      EncodedConcat(e, EscapeBytes(bs[1..]));
    }
  }

  /** Decodes the escaped UTF-8 sequence at the start of `s`: the character and the number
      of input characters it took. */
  function DecodeEscape(s: string): (r: Option<(char, nat)>)
    ensures r.Some? ==> 3 <= r.value.1 <= |s|
  {
    match ReadByte(s)
    case None => None
    case Some(b0) =>
      var n := SequenceLength(b0);
      if n == 0 then None
      else match ReadBytes(s, n)
        case None => None
        case Some(bs) =>
          match Utf8Decode(bs)
          case None => None
          case Some(c) => Some((c, 3 * n))
  }

  /** `decodeURIComponent(s)`: `None` where it throws a URIError. */
  function DecodeUriComponent(s: string): (r: Option<string>)
    decreases |s|
  {
    if s == [] then Some([])
    else if s[0] != '%' then
      match DecodeUriComponent(s[1..])
      case None => None
      case Some(t) => Some([s[0]] + t)
    else
      match DecodeEscape(s)
      case None => None
      case Some((c, n)) =>
        match DecodeUriComponent(s[n..])
        case None => None
        case Some(t) => Some([c] + t)
  }

  lemma {:induction false} DecodeEscapeOfChar(c: char, rest: string)
    ensures DecodeEscape(EscapeBytes(Utf8(c)) + rest) == Some((c, 3 * |Utf8(c)|))
  {
    var bs := Utf8(c);
    var s := EscapeBytes(bs) + rest;
    ReadBytesOfEscapes(bs, rest);
    assert s == EscapeByte(bs[0]) + (EscapeBytes(bs[1..]) + rest);
    ReadEscapeByte(bs[0], EscapeBytes(bs[1..]) + rest);
    Utf8LeadLength(c);
    Utf8RoundTrip(c);
  }

  /** Percent-decoding undoes `encodeURIComponent` on every string. */
  lemma {:induction false} DecodeEncode(s: string)
    ensures DecodeUriComponent(EncodeUriComponent(s)) == Some(s)
  {
    if s != [] {
      var c := s[0];
      var tail := EncodeUriComponent(s[1..]);
      var e := EncodeUriComponent(s);
      assert e == EncodeChar(c) + tail;
      DecodeEncode(s[1..]);
      if IsUnreserved(c) {
        assert e[0] == c && e[1..] == tail;
      } else {
        DecodeEscapeOfChar(c, tail);
        assert e[3 * |Utf8(c)|..] == tail;
      }
      assert s == [c] + s[1..];
    }
  }

  /** Different strings encode differently. */
  lemma {:induction false} EncodeInjective(s: string, t: string)
    requires EncodeUriComponent(s) == EncodeUriComponent(t)
    ensures s == t
  {
    DecodeEncode(s);
    DecodeEncode(t);
  }

  /** ASCII letters and digits are kept and every other character becomes escapes, so an
      encoded value never contains a query separator. */
  lemma {:induction false} EncodedHasNoSeparator(s: string)
    ensures !JsText.HasChar(EncodeUriComponent(s), '&')
    ensures !JsText.HasChar(EncodeUriComponent(s), '=')
  {
    EncodedAlphabet(s);
  }
}
