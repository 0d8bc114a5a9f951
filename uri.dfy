/**
 * `encodeURIComponent`: every character outside its unreserved set is written as the
 * UTF-8 bytes of its code point, each as `%` and two upper-case hexadecimal digits
 * (percent-encoding, section 2.1 of RFC 3986). `PercentDecode` reads such text back
 * into bytes.
 */
module Uri {
  import opened Options
  import opened Seqs

  type Byte = b: int | 0 <= b < 256

  /** The characters `encodeURIComponent` leaves as they are. */
  predicate IsUnreserved(c: char) {
    || ('A' <= c <= 'Z') || ('a' <= c <= 'z') || ('0' <= c <= '9')
    || c == '-' || c == '_' || c == '.' || c == '!' || c == '~' || c == '*' || c == '\'' || c == '(' || c == ')'
  }

  /** A character that can appear in the output of `encodeURIComponent`. */
  predicate IsEncodedChar(c: char) {
    IsUnreserved(c) || c == '%'
  }

  /** The UTF-8 encoding of one code point (Dafny characters are Unicode scalar values). */
  function Utf8(c: char): (bytes: seq<Byte>)
    ensures 1 <= |bytes| <= 4
    ensures |bytes| == 1 <==> (c as int) < 0x80
    ensures |bytes| == 1 ==> bytes[0] == c as int
  {
    var n := c as int;
    if n < 0x80 then [n]
    else if n < 0x800 then [0xC0 + n / 0x40, 0x80 + n % 0x40]
    else if n < 0x1_0000 then [0xE0 + n / 0x1000, 0x80 + (n / 0x40) % 0x40, 0x80 + n % 0x40]
    else [0xF0 + n / 0x4_0000, 0x80 + (n / 0x1000) % 0x40, 0x80 + (n / 0x40) % 0x40, 0x80 + n % 0x40]
  }

  /** The UTF-8 encoding of a string. */
  function Utf8String(s: string): seq<Byte> {
    FlatMap(s, Utf8)
  }

  /** An upper-case hexadecimal digit. */
  function HexDigit(d: nat): (c: char)
    requires d < 16
    ensures IsUnreserved(c)
  {
    if d < 10 then ('0' as int + d) as char else ('A' as int + d - 10) as char
  }

  predicate IsHex(c: char) {
    ('0' <= c <= '9') || ('a' <= c <= 'f') || ('A' <= c <= 'F')
  }

  function HexValue(c: char): (d: nat)
    requires IsHex(c)
    ensures d < 16
  {
    if '0' <= c <= '9' then c as int - '0' as int
    else if 'a' <= c <= 'f' then c as int - 'a' as int + 10
    else c as int - 'A' as int + 10
  }

  lemma HexRoundTrip(d: nat)
    requires d < 16
    ensures IsHex(HexDigit(d)) && HexValue(HexDigit(d)) == d
  {
  }

  /** `%XY` for one byte. */
  function PercentByte(b: Byte): string {
    ['%', HexDigit(b / 16), HexDigit(b % 16)]
  }

  function PercentBytes(bs: seq<Byte>): string {
    FlatMap(bs, PercentByte)
  }

  /** `encodeURIComponent(c)` for one character. */
  function EncodeChar(c: char): string {
    if IsUnreserved(c) then [c] else PercentBytes(Utf8(c))
  }

  /** `encodeURIComponent(s)`. */
  function EncodeUriComponent(s: string): string {
    FlatMap(s, EncodeChar)
  }

  lemma {:induction false} PercentBytesSafe(bs: seq<Byte>)
    ensures forall i :: 0 <= i < |PercentBytes(bs)| ==> IsEncodedChar(PercentBytes(bs)[i])
  {
    if bs != [] {
      PercentBytesSafe(bs[1..]);
      var r := PercentBytes(bs[1..]);
      assert PercentBytes(bs) == PercentByte(bs[0]) + r;
    }
  }

  /** The output of `encodeURIComponent` holds only unreserved characters and `%`. */
  lemma {:induction false} EncodeSafe(s: string)
    ensures forall i :: 0 <= i < |EncodeUriComponent(s)| ==> IsEncodedChar(EncodeUriComponent(s)[i])
  {
    if s != [] {
      EncodeSafe(s[1..]);
      if !IsUnreserved(s[0]) {
        PercentBytesSafe(Utf8(s[0]));
      }
      var r := EncodeUriComponent(s[1..]);
      assert EncodeUriComponent(s) == EncodeChar(s[0]) + r;
    }
  }

  /** Reads percent-encoded text into the bytes it stands for; `None` on a stray character or a broken `%XY`. */
  function PercentDecode(s: string): Option<seq<Byte>>
    decreases |s|
  {
    if s == [] then Some([])
    else if s[0] == '%' then
      if |s| >= 3 && IsHex(s[1]) && IsHex(s[2]) then
        match PercentDecode(s[3..])
        case Some(rest) => Some([HexValue(s[1]) * 16 + HexValue(s[2])] + rest)
        case None => None
      else None
    else if IsUnreserved(s[0]) then
      match PercentDecode(s[1..])
      case Some(rest) => Some([s[0] as int] + rest)
      case None => None
    else None
  }

  /** Decoding `%XY` followed by more text yields the byte, then what the rest decodes to. */
  lemma DecodePercentByte(b: Byte, rest: string)
    ensures PercentDecode(PercentByte(b) + rest) ==
            match PercentDecode(rest)
            case Some(r) => Some([b] + r)
            case None => None
  {
    var s := PercentByte(b) + rest;
    HexRoundTrip(b / 16);
    HexRoundTrip(b % 16);
    assert s[3..] == rest;
  }

  /** Decoding percent-encoded bytes followed by more text yields the bytes, then the rest. */
  lemma {:induction false} DecodePercentBytes(bs: seq<Byte>, rest: string)
    ensures PercentDecode(PercentBytes(bs) + rest) ==
            match PercentDecode(rest)
            case Some(r) => Some(bs + r)
            case None => None
  {
    if bs != [] {
      calc {
        PercentDecode(PercentBytes(bs) + rest);
        { assert PercentBytes(bs) + rest == PercentByte(bs[0]) + (PercentBytes(bs[1..]) + rest); }
        PercentDecode(PercentByte(bs[0]) + (PercentBytes(bs[1..]) + rest));
        { DecodePercentByte(bs[0], PercentBytes(bs[1..]) + rest);
          DecodePercentBytes(bs[1..], rest); }
        match PercentDecode(rest)
        case Some(r) => Some([bs[0]] + (bs[1..] + r))
        case None => None;
        { assert forall r: seq<Byte> :: [bs[0]] + (bs[1..] + r) == bs + r; }
        match PercentDecode(rest)
        case Some(r) => Some(bs + r)
        case None => None;
      }
    } else {
      assert PercentBytes(bs) + rest == rest;
      match PercentDecode(rest)
      case Some(r) => assert bs + r == r;
      case None =>
    }
  }

  /** Decoding one encoded character followed by more text yields its UTF-8 bytes, then the rest. */
  lemma DecodeEncodeChar(c: char, rest: string)
    ensures PercentDecode(EncodeChar(c) + rest) ==
            match PercentDecode(rest)
            case Some(r) => Some(Utf8(c) + r)
            case None => None
  {
    if IsUnreserved(c) {
      assert ([c] + rest)[1..] == rest;
    } else {
      DecodePercentBytes(Utf8(c), rest);
    }
  }

  /** `decodeURIComponent(encodeURIComponent(s))` recovers the UTF-8 bytes of `s`. */
  lemma {:induction false} DecodeEncode(s: string)
    ensures PercentDecode(EncodeUriComponent(s)) == Some(Utf8String(s))
  {
    if s != [] {
      calc {
        PercentDecode(EncodeUriComponent(s));
        PercentDecode(EncodeChar(s[0]) + EncodeUriComponent(s[1..]));
        { DecodeEncodeChar(s[0], EncodeUriComponent(s[1..]));
          DecodeEncode(s[1..]); }
        Some(Utf8(s[0]) + Utf8String(s[1..]));
      }
    }
  }

  /** Encoding distributes over concatenation. */
  lemma EncodeAppend(a: string, b: string)
    ensures EncodeUriComponent(a + b) == EncodeUriComponent(a) + EncodeUriComponent(b)
  {
    FlatMapAppend(a, b, EncodeChar);
  }
}
