/**
 * encodeURIComponent (ECMA-262 5.1, section 15.1.3.4), the function the script applies to the
 * trimmed manual address, and its inverse decodeURIComponent (section 15.1.3.2), against
 * which the encoding is proved to round-trip.
 *
 * The characters of uriUnreserved (A-Z a-z 0-9 - _ . ! ~ * ' ( )) are copied; every other
 * character is written as the UTF-8 octets of its code point (RFC 3629), each as `%HH` with
 * upper-case hexadecimal digits (section 2.1 of RFC 3986).
 *
 * A Dafny `char` is a Unicode scalar value, so the lone surrogates for which the ECMAScript
 * algorithm throws URIError cannot occur in the input.
 */
module UriComponent {
  import opened Wrappers

  newtype byte = b: int | 0 <= b < 256

  /** The characters encodeURIComponent leaves unescaped. */
  predicate IsUnreserved(c: char) {
    || ('A' <= c <= 'Z')
    || ('a' <= c <= 'z')
    || ('0' <= c <= '9')
    || c == '-' || c == '_' || c == '.' || c == '!' || c == '~'
    || c == '*' || c == '\'' || c == '(' || c == ')'
  }

  /** An upper-case hexadecimal digit, as encodeURIComponent writes them. */
  predicate IsUpperHexDigit(c: char) {
    ('0' <= c <= '9') || ('A' <= c <= 'F')
  }

  /** The upper-case hexadecimal digit for `d`. */
  function HexDigit(d: nat): (c: char)
    requires d < 16
    ensures IsUpperHexDigit(c)
  {
    if d < 10 then ('0' as int + d) as char else ('A' as int + d - 10) as char
  }

  /** The value of a hexadecimal digit of either case, as decodeURIComponent reads them. */
  function HexValue(c: char): (r: Option<nat>)
    ensures r.Some? ==> r.value < 16
  {
    if '0' <= c <= '9' then Some(c as int - '0' as int)
    else if 'A' <= c <= 'F' then Some(c as int - 'A' as int + 10)
    else if 'a' <= c <= 'f' then Some(c as int - 'a' as int + 10)
    else None
  }

  /**
   * The UTF-8 octets of the code point of `c`: one octet below U+0080, two below U+0800,
   * three below U+10000 and four otherwise, the payload split into 6-bit groups.
   */
  function Utf8(c: char): (bs: seq<byte>)
    ensures 1 <= |bs| <= 4
  {
    var cp := c as int;
    var q1, r0 := cp / 64, cp % 64;
    var q2, r1 := q1 / 64, q1 % 64;
    var q3, r2 := q2 / 64, q2 % 64;
    if cp < 0x80 then
      [cp as byte]
    else if cp < 0x800 then
      [(0xC0 + q1) as byte, (0x80 + r0) as byte]
    else if cp < 0x1_0000 then
      [(0xE0 + q2) as byte, (0x80 + r1) as byte, (0x80 + r0) as byte]
    else
      [(0xF0 + q3) as byte, (0x80 + r2) as byte, (0x80 + r1) as byte, (0x80 + r0) as byte]
  }

  /** One octet written as `%HH`. */
  function Escape(b: byte): (e: string)
    ensures |e| == 3 && e[0] == '%' && IsUpperHexDigit(e[1]) && IsUpperHexDigit(e[2])
  {
    ['%', HexDigit(b as int / 16), HexDigit(b as int % 16)]
  }

  /** Octets written one after the other as `%HH`. */
  function EscapeOctets(bs: seq<byte>): (e: string)
    ensures |e| == 3 * |bs|
  {
    if bs == [] then [] else Escape(bs[0]) + EscapeOctets(bs[1..])
  }

  /** What encodeURIComponent writes for one character. */
  function EncodeChar(c: char): string
  {
    if IsUnreserved(c) then [c] else EscapeOctets(Utf8(c))
  }

  /** encodeURIComponent, character by character. */
  function EncodeURIComponent(s: string): (r: string)
    ensures r == [] <==> s == []
    ensures |r| >= |s|
  {
    if s == [] then [] else EncodeChar(s[0]) + EncodeURIComponent(s[1..])
  }

  /** Encoding works character by character, so it distributes over concatenation. */
  lemma {:induction false} EncodeConcat(s: string, t: string)
    ensures EncodeURIComponent(s + t) == EncodeURIComponent(s) + EncodeURIComponent(t)
  {
    if s != [] {
      var e := EncodeChar(s[0]);
      assert (s + t)[0] == s[0] && (s + t)[1..] == s[1..] + t;
      assert EncodeURIComponent(s + t) == e + EncodeURIComponent(s[1..] + t);
      EncodeConcat(s[1..], t);
      assert EncodeURIComponent(s) == e + EncodeURIComponent(s[1..]);
    } else {
      assert s + t == t;
    }
  }

  /** A string of unreserved characters is its own encoding. */
  lemma {:induction false} EncodeUnreserved(s: string)
    requires forall k :: 0 <= k < |s| ==> IsUnreserved(s[k])
    ensures EncodeURIComponent(s) == s
  {
    if s != [] {
      EncodeUnreserved(s[1..]);
    }
  }

  /** A space is written as `%20`. */
  lemma EncodeSpace()
    ensures EncodeURIComponent(" ") == "%20"
  {
    assert Utf8(' ') == [0x20];
    assert EncodeChar(' ') == Escape(0x20);
  }

  // ----- decodeURIComponent -----

  /** The octet written as `%HH` at the front of `s`, if there is one. */
  function ReadOctet(s: string): Option<byte>
  {
    if |s| >= 3 && s[0] == '%' && HexValue(s[1]).Some? && HexValue(s[2]).Some? then
      Some((16 * HexValue(s[1]).value + HexValue(s[2]).value) as byte)
    else
      None
  }

  /** `n` octets written as `%HH` one after the other at the front of `s`, if they are there. */
  function ReadOctets(s: string, n: nat): (r: Option<seq<byte>>)
    ensures r.Some? ==> |r.value| == n && |s| >= 3 * n
  {
    if n == 0 then Some([])
    else match ReadOctet(s)
      case None => None
      case Some(b) =>
        match ReadOctets(s[3..], n - 1)
        case None => None
        case Some(rest) => Some([b] + rest)
  }

  /** The length of the UTF-8 sequence a lead octet announces; 0 for an octet that cannot lead one. */
  function SequenceLength(b: byte): nat
  {
    if b < 0x80 then 1
    else if 0xC0 <= b < 0xE0 then 2
    else if 0xE0 <= b < 0xF0 then 3
    else if 0xF0 <= b < 0xF8 then 4
    else 0
  }

  predicate IsContinuation(b: byte) {
    0x80 <= b < 0xC0
  }

  /**
   * The character whose UTF-8 encoding is exactly `bs`; None for overlong forms, surrogate
   * code points, code points above U+10FFFF and malformed sequences.
   */
  function Utf8Decode(bs: seq<byte>): Option<char>
  {
    if |bs| == 1 && bs[0] < 0x80 then
      Some(bs[0] as int as char)
    else if |bs| == 2 && 0xC0 <= bs[0] < 0xE0 && IsContinuation(bs[1]) then
      var cp := (bs[0] as int - 0xC0) * 64 + (bs[1] as int - 0x80);
      if cp < 0x80 then None else Some(cp as char)
    else if |bs| == 3 && 0xE0 <= bs[0] < 0xF0 && IsContinuation(bs[1]) && IsContinuation(bs[2]) then
      var cp := ((bs[0] as int - 0xE0) * 64 + (bs[1] as int - 0x80)) * 64 + (bs[2] as int - 0x80);
      if cp < 0x800 || (0xD800 <= cp < 0xE000) then None else Some(cp as char)
    else if |bs| == 4 && 0xF0 <= bs[0] < 0xF8 && IsContinuation(bs[1]) && IsContinuation(bs[2]) && IsContinuation(bs[3]) then
      var cp := (((bs[0] as int - 0xF0) * 64 + (bs[1] as int - 0x80)) * 64 + (bs[2] as int - 0x80)) * 64 + (bs[3] as int - 0x80);
      if cp < 0x1_0000 || cp >= 0x11_0000 then None else Some(cp as char)
    else
      None
  }

  /** The first character decodeURIComponent produces from `s` and how many characters of `s` it used. */
  function DecodeFirst(s: string): (r: Option<(char, nat)>)
    requires s != []
    ensures r.Some? ==> 1 <= r.value.1 <= |s|
  {
    if s[0] != '%' then Some((s[0], 1))
    else match ReadOctet(s)
      case None => None
      case Some(b) =>
        var n := SequenceLength(b);
        if n == 0 then None
        else match ReadOctets(s, n)
          case None => None
          case Some(bs) =>
            match Utf8Decode(bs)
            case None => None
            case Some(c) => Some((c, 3 * n))
  }

  /** decodeURIComponent; None where it throws URIError. */
  function DecodeURIComponent(s: string): Option<string>
    decreases |s|
  {
    if s == [] then Some([])
    else match DecodeFirst(s)
      case None => None
      case Some((c, used)) =>
        match DecodeURIComponent(s[used..])
        case None => None
        case Some(rest) => Some([c] + rest)
  }

  // ----- what encodeURIComponent promises -----

  lemma {:induction false} EscapeOctetsChars(bs: seq<byte>)
    ensures forall k :: 0 <= k < |EscapeOctets(bs)| ==>
      EscapeOctets(bs)[k] == '%' || IsUpperHexDigit(EscapeOctets(bs)[k])
  {
    if bs != [] {
      EscapeOctetsChars(bs[1..]);
      var e, rest := Escape(bs[0]), EscapeOctets(bs[1..]);
      assert EscapeOctets(bs) == e + rest;
      assert forall k :: 3 <= k < |e + rest| ==> (e + rest)[k] == rest[k - 3];
    }
  }

  /**
   * The output consists of unreserved characters, `%` and upper-case hexadecimal digits only:
   * no space, `&`, `#`, `=` or `?` can end up in the query value.
   */
  lemma {:induction false} EncodedCharsOnly(s: string)
    ensures forall k :: 0 <= k < |EncodeURIComponent(s)| ==>
      IsUnreserved(EncodeURIComponent(s)[k]) || EncodeURIComponent(s)[k] == '%' || IsUpperHexDigit(EncodeURIComponent(s)[k])
  {
    if s != [] {
      EncodedCharsOnly(s[1..]);
      EscapeOctetsChars(Utf8(s[0]));
      var e, rest := EncodeChar(s[0]), EncodeURIComponent(s[1..]);
      assert EncodeURIComponent(s) == e + rest;
      assert forall k :: |e| <= k < |e + rest| ==> (e + rest)[k] == rest[k - |e|];
    }
  }

  /** Upper-case hexadecimal digits are read back as the value they were written for. */
  lemma HexRoundTrip(d: nat)
    requires d < 16
    ensures HexValue(HexDigit(d)) == Some(d)
  {
  }

  lemma EscapeRoundTrip(b: byte, t: string)
    ensures ReadOctet(Escape(b) + t) == Some(b)
  {
    HexRoundTrip(b as int / 16);
    HexRoundTrip(b as int % 16);
  }

  /** Reading octets takes the one at the front of `e + rest`, then the rest from `rest`. */
  lemma ReadOctetsFront(e: string, rest: string, b: byte, bs: seq<byte>)
    requires |e| == 3 && ReadOctet(e + rest) == Some(b) && ReadOctets(rest, |bs|) == Some(bs)
    ensures ReadOctets(e + rest, |bs| + 1) == Some([b] + bs)
  {
    assert (e + rest)[3..] == rest;
  }

  lemma {:induction false} EscapeOctetsRoundTrip(bs: seq<byte>, t: string)
    ensures ReadOctets(EscapeOctets(bs) + t, |bs|) == Some(bs)
  {
    if bs != [] {
      var rest := EscapeOctets(bs[1..]) + t;
      var s := EscapeOctets(bs) + t;
      assert s == Escape(bs[0]) + rest;
      EscapeRoundTrip(bs[0], rest);
      EscapeOctetsRoundTrip(bs[1..], t);
      ReadOctetsFront(Escape(bs[0]), rest, bs[0], bs[1..]);
      assert [bs[0]] + bs[1..] == bs;
    }
  }

  /** UTF-8 decoding undoes UTF-8 encoding, and the lead octet announces the right length. */
  lemma Utf8RoundTrip(c: char)
    ensures SequenceLength(Utf8(c)[0]) == |Utf8(c)|
    ensures Utf8Decode(Utf8(c)) == Some(c)
  {
    var cp := c as int;
    var q1, r0 := cp / 64, cp % 64;
    var q2, r1 := q1 / 64, q1 % 64;
    var q3, r2 := q2 / 64, q2 % 64;
    assert cp == q1 * 64 + r0;
    assert q1 == q2 * 64 + r1;
    assert q2 == q3 * 64 + r2;
    if cp < 0x80 {
    } else if cp < 0x800 {
      assert q1 < 32;
    } else if cp < 0x1_0000 {
      assert q2 < 16;
      assert (q2 * 64 + r1) * 64 + r0 == cp;
    } else {
      assert q3 < 8;
      assert ((q3 * 64 + r2) * 64 + r1) * 64 + r0 == cp;
    }
  }

  /** The escapes of a non-empty octet sequence read back as its first octet and as the whole sequence. */
  lemma {:induction false} EscapesReadBack(bs: seq<byte>, t: string)
    requires bs != []
    ensures var s := EscapeOctets(bs) + t;
      s != [] && s[0] == '%' && ReadOctet(s) == Some(bs[0]) && ReadOctets(s, |bs|) == Some(bs)
  {
    var rest := EscapeOctets(bs[1..]) + t;
    assert EscapeOctets(bs) == Escape(bs[0]) + EscapeOctets(bs[1..]);
    assert EscapeOctets(bs) + t == Escape(bs[0]) + rest;
    EscapeRoundTrip(bs[0], rest);
    EscapeOctetsRoundTrip(bs, t);
  }

  /** decodeURIComponent reads the escape of one character back as that character. */
  lemma EncodeCharRoundTrip(c: char, t: string)
    ensures DecodeFirst(EncodeChar(c) + t) == Some((c, |EncodeChar(c)|))
  {
    if !IsUnreserved(c) {
      var bs := Utf8(c);
      Utf8RoundTrip(c);
      EscapesReadBack(bs, t);
    }
  }

  /** Decoding reads the first character from the front of `e + rest`, then decodes `rest`. */
  lemma DecodeFront(c: char, e: string, rest: string, tail: string)
    requires e != [] && DecodeFirst(e + rest) == Some((c, |e|)) && DecodeURIComponent(rest) == Some(tail)
    ensures DecodeURIComponent(e + rest) == Some([c] + tail)
  {
    assert (e + rest)[|e|..] == rest;
  }

  /** Round trip: decodeURIComponent(encodeURIComponent(s)) == s, and it never throws on it. */
  lemma {:induction false} DecodeEncode(s: string)
    ensures DecodeURIComponent(EncodeURIComponent(s)) == Some(s)
    decreases |s|
  {
    if s != [] {
      var e, rest := EncodeChar(s[0]), EncodeURIComponent(s[1..]);
      assert EncodeURIComponent(s) == e + rest;
      EncodeCharRoundTrip(s[0], rest);
      DecodeEncode(s[1..]);
      DecodeFront(s[0], e, rest, s[1..]);
      assert [s[0]] + s[1..] == s;
    }
  }
}
