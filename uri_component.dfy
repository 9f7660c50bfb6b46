/**
 * JavaScript's `encodeURIComponent`, as the contact forms use it to build
 * their `mailto:` links, together with a decoder in the manner of
 * `decodeURIComponent` that serves as its partner.
 *
 * A character is first encoded in UTF-8; every byte of a character outside
 * the unescaped set is written as `%` followed by two upper-case hex digits
 * (section 2.1 of RFC 3986). The unescaped set is the unreserved set of
 * section 2.3 of RFC 3986 (letters, digits, `-`, `.`, `_`, `~`) together with
 * `!`, `*`, `'`, `(` and `)`.
 */
module UriComponent {
  import opened Wrappers

  type Byte = x: int | 0 <= x < 256
  type Nibble = x: int | 0 <= x < 16

  /** The characters `encodeURIComponent` leaves as they are. */
  predicate IsUnescaped(c: char) {
    || ('A' <= c <= 'Z')
    || ('a' <= c <= 'z')
    || ('0' <= c <= '9')
    || c == '-' || c == '_' || c == '.' || c == '~'
    || c == '!' || c == '*' || c == '\'' || c == '(' || c == ')'
  }

  /** What an encoded component is made of: unescaped characters and `%`. */
  predicate IsEncodedChar(c: char) {
    IsUnescaped(c) || c == '%'
  }

  // ---------------------------------------------------------------------
  // UTF-8
  // ---------------------------------------------------------------------

  /** The UTF-8 encoding of one Unicode scalar value. */
  function Utf8(c: char): (bs: seq<Byte>)
    ensures 1 <= |bs| <= 4
    ensures (c as int < 0x80) <==> |bs| == 1
    ensures |bs| == 1 ==> bs[0] == c as int
    ensures |bs| > 1 ==> 0xC2 <= bs[0] < 0xF5
    ensures forall k :: 1 <= k < |bs| ==> 0x80 <= bs[k] < 0xC0
  {
    var n := c as int;
    if n < 0x80 then [n]
    else if n < 0x800 then [0xC0 + n / 64, 0x80 + n % 64]
    else if n < 0x10000 then [0xE0 + n / 4096, 0x80 + (n / 64) % 64, 0x80 + n % 64]
    else [0xF0 + n / 262144, 0x80 + (n / 4096) % 64, 0x80 + (n / 64) % 64, 0x80 + n % 64]
  }

  // ---------------------------------------------------------------------
  // Percent-encoding
  // ---------------------------------------------------------------------

  /** An upper-case hexadecimal digit, as `encodeURIComponent` writes them. */
  function HexDigit(d: Nibble): (c: char)
    ensures ('0' <= c <= '9') || ('A' <= c <= 'F')
  {
    if d < 10 then ('0' as int + d) as char else ('A' as int + d - 10) as char
  }

  /** The value of a hexadecimal digit of either case, if `c` is one. */
  function HexValue(c: char): (v: Option<Nibble>)
    ensures v.Some? <==> ('0' <= c <= '9') || ('A' <= c <= 'F') || ('a' <= c <= 'f')
  {
    if '0' <= c <= '9' then Some(c as int - '0' as int)
    else if 'A' <= c <= 'F' then Some(c as int - 'A' as int + 10)
    else if 'a' <= c <= 'f' then Some(c as int - 'a' as int + 10)
    else None
  }

  lemma HexValueOfDigit(d: Nibble)
    ensures HexValue(HexDigit(d)) == Some(d)
  {
  }

  /** One escaped byte: `%` and two hex digits. */
  function PercentByte(b: Byte): (e: string)
    ensures |e| == 3 && e[0] == '%'
    ensures IsUnescaped(e[1]) && IsUnescaped(e[2])
  {
    ['%', HexDigit(b / 16), HexDigit(b % 16)]
  }

  function PercentBytes(bs: seq<Byte>): (e: string)
    ensures |e| == 3 * |bs|
    ensures forall ch :: ch in e ==> IsEncodedChar(ch)
  {
    if |bs| == 0 then [] else PercentByte(bs[0]) + PercentBytes(bs[1..])
  }

  /** The encoding of one character. */
  function EncodeChar(c: char): (e: string)
    ensures forall ch :: ch in e ==> IsEncodedChar(ch)
  {
    if IsUnescaped(c) then [c] else PercentBytes(Utf8(c))
  }

  /** `encodeURIComponent(s)`. */
  function Encode(s: string): (e: string)
    ensures |s| <= |e| <= 12 * |s|
    ensures forall ch :: ch in e ==> IsEncodedChar(ch)
  {
    if |s| == 0 then [] else EncodeChar(s[0]) + Encode(s[1..])
  }

  /** Exactly the unescaped characters are copied unchanged. */
  lemma EncodeCharCases(c: char)
    ensures IsUnescaped(c) ==> EncodeChar(c) == [c]
    ensures !IsUnescaped(c) ==> EncodeChar(c)[0] == '%' && |EncodeChar(c)| == 3 * |Utf8(c)|
    ensures !IsUnescaped(c) ==> forall k :: 0 <= k < |Utf8(c)| ==>
      EncodeChar(c)[3 * k..3 * k + 3] == ['%', HexDigit(Utf8(c)[k] / 16), HexDigit(Utf8(c)[k] % 16)]
  {
    if !IsUnescaped(c) {
      var bs := Utf8(c);
      assert PercentBytes(bs) == PercentByte(bs[0]) + PercentBytes(bs[1..]);
      forall k | 0 <= k < |bs|
        ensures PercentBytes(bs)[3 * k..3 * k + 3] == PercentByte(bs[k])
      {
        PercentBytesAt(bs, k);
      }
    }
  }

  /** The `k`-th byte's escape sits at offset `3 * k` of the escaped bytes. */
  lemma {:induction false} PercentBytesAt(bs: seq<Byte>, k: nat)
    requires k < |bs|
    ensures PercentBytes(bs)[3 * k..3 * k + 3] == PercentByte(bs[k])
  {
    var rest := PercentBytes(bs[1..]);
    assert PercentBytes(bs) == PercentByte(bs[0]) + rest;
    if k > 0 {
      PercentBytesAt(bs[1..], k - 1);
      assert bs[1..][k - 1] == bs[k];
      assert PercentBytes(bs)[3 * k..3 * k + 3] == rest[3 * (k - 1)..3 * (k - 1) + 3];
    }
  }

  /** A component made only of unescaped characters is its own encoding. */
  lemma {:induction false} EncodeUnescaped(s: string)
    requires forall ch :: ch in s ==> IsUnescaped(ch)
    ensures Encode(s) == s
  {
    if |s| > 0 {
      assert s[0] in s;
      assert forall ch :: ch in s[1..] ==> ch in s;
      EncodeUnescaped(s[1..]);
      assert s == [s[0]] + s[1..];
    }
  }

  /** Encoding distributes over concatenation. */
  lemma {:induction false} EncodeAppend(a: string, b: string)
    ensures Encode(a + b) == Encode(a) + Encode(b)
  {
    if |a| > 0 {
      assert (a + b)[0] == a[0];
      assert (a + b)[1..] == a[1..] + b;
      EncodeAppend(a[1..], b);
    } else {
      assert a + b == b;
    }
  }

  /**
   * None of the delimiters of a `mailto:` URI (`?`, `&`, `=`, `#`) survives
   * encoding, so an encoded component never splits a header field.
   */
  lemma NoDelimiters(s: string)
    ensures '?' !in Encode(s) && '&' !in Encode(s) && '=' !in Encode(s) && '#' !in Encode(s)
  {
    assert !IsEncodedChar('?') && !IsEncodedChar('&') && !IsEncodedChar('=') && !IsEncodedChar('#');
  }

  // ---------------------------------------------------------------------
  // Decoding
  // ---------------------------------------------------------------------

  /** Reads `%XY` at the start of `s`. */
  function ReadByte(s: string): (b: Option<Byte>)
    ensures b.Some? ==> |s| >= 3 && s[0] == '%'
  {
    if |s| >= 3 && s[0] == '%' then
      match (HexValue(s[1]), HexValue(s[2]))
      case (Some(h), Some(l)) => var b: Byte := 16 * (h as int) + (l as int); Some(b)
      case _ => None
    else None
  }

  /** Reads a UTF-8 continuation byte written as `%XY` at offset `i`; gives its low six bits. */
  function ReadContinuation(s: string, i: nat): (x: Option<int>)
    ensures x.Some? ==> 0 <= x.value < 64 && i + 3 <= |s|
  {
    if |s| < i then None
    else match ReadByte(s[i..])
      case Some(b) => if 0x80 <= b < 0xC0 then Some(b - 0x80) else None
      case None => None
  }

  /**
   * Decodes one escaped character at the start of `s`, which begins with
   * `%`: one to four escaped bytes forming the shortest UTF-8 encoding of a
   * Unicode scalar value. Gives the character and the number of characters
   * of `s` it took.
   */
  function DecodeEscape(s: string): (r: Option<(char, nat)>)
    ensures r.Some? ==> 3 <= r.value.1 <= |s|
  {
    match ReadByte(s)
    case None => None
    case Some(b0) =>
      if b0 < 0x80 then Some((b0 as char, 3))
      else if 0xC2 <= b0 < 0xE0 then
        match ReadContinuation(s, 3)
        case None => None
        case Some(x1) => Some((((b0 - 0xC0) * 64 + x1) as char, 6))
      else if 0xE0 <= b0 < 0xF0 then
        match (ReadContinuation(s, 3), ReadContinuation(s, 6))
        case (Some(x1), Some(x2)) =>
          var cp := (b0 - 0xE0) * 4096 + x1 * 64 + x2;
          if cp < 0x800 || (0xD800 <= cp < 0xE000) then None else Some((cp as char, 9))
        case _ => None
      else if 0xF0 <= b0 < 0xF5 then
        match (ReadContinuation(s, 3), ReadContinuation(s, 6), ReadContinuation(s, 9))
        case (Some(x1), Some(x2), Some(x3)) =>
          var cp := (b0 - 0xF0) * 262144 + x1 * 4096 + x2 * 64 + x3;
          if cp < 0x10000 || 0x110000 <= cp then None else Some((cp as char, 12))
        case _ => None
      else None
  }

  /** `decodeURIComponent(s)`; `None` where that would throw `URIError`. */
  function Decode(s: string): (r: Option<string>)
    decreases |s|
  {
    if |s| == 0 then Some([])
    else if s[0] != '%' then Cons(s[0], Decode(s[1..]))
    else match DecodeEscape(s)
      case None => None
      case Some((c, n)) => Cons(c, Decode(s[n..]))
  }

  // ---------------------------------------------------------------------
  // Round trip
  // ---------------------------------------------------------------------

  lemma ReadPercentByte(b: Byte, rest: string)
    ensures ReadByte(PercentByte(b) + rest) == Some(b)
  {
    HexValueOfDigit(b / 16);
    HexValueOfDigit(b % 16);
  }

  lemma ReadPercentContinuation(pre: string, b: Byte, rest: string)
    requires 0x80 <= b < 0xC0
    ensures ReadContinuation(pre + PercentByte(b) + rest, |pre|) == Some(b - 0x80)
  {
    assert (pre + PercentByte(b) + rest)[|pre|..] == PercentByte(b) + rest;
    ReadPercentByte(b, rest);
  }

  /** The escaped UTF-8 bytes of a character decode back to that character. */
  lemma DecodeEscapeUtf8(c: char, t: string)
    requires c as int >= 0x80 || !IsUnescaped(c)
    ensures DecodeEscape(PercentBytes(Utf8(c)) + t) == Some((c, 3 * |Utf8(c)|))
  {
    var n := c as int;
    if n < 0x80 {
      DecodeEscape1(c, t);
    } else if n < 0x800 {
      DecodeEscape2(c, t);
    } else if n < 0x10000 {
      DecodeEscape3(c, t);
    } else {
      DecodeEscape4(c, t);
    }
  }

  lemma DecodeEscape1(c: char, t: string)
    requires c as int < 0x80
    ensures DecodeEscape(PercentBytes(Utf8(c)) + t) == Some((c, 3 * |Utf8(c)|))
  {
    var bs := Utf8(c);
    assert PercentBytes(bs) == PercentByte(bs[0]);
    ReadPercentByte(bs[0], t);
  }

  lemma DecodeEscape2(c: char, t: string)
    requires 0x80 <= c as int < 0x800
    ensures DecodeEscape(PercentBytes(Utf8(c)) + t) == Some((c, 3 * |Utf8(c)|))
  {
    var n := c as int;
    var bs := Utf8(c);
    var p0, p1 := PercentByte(bs[0]), PercentByte(bs[1]);
    assert PercentBytes(bs) == p0 + p1 by {
      assert PercentBytes(bs) == p0 + PercentBytes(bs[1..]);
      assert PercentBytes(bs[1..]) == p1 + PercentBytes(bs[2..]);
    }
    var s := p0 + p1 + t;
    assert s == p0 + (p1 + t);
    ReadPercentByte(bs[0], p1 + t);
    ReadPercentContinuation(p0, bs[1], t);
    assert n == (n / 64) * 64 + n % 64;
  }

  /** What `DecodeEscape` gives for a three-byte sequence whose bytes read as given. */
  lemma DecodeThree(s: string, c: char, b0: Byte, x1: int, x2: int)
    requires ReadByte(s) == Some(b0) && 0xE0 <= b0 < 0xF0
    requires ReadContinuation(s, 3) == Some(x1) && ReadContinuation(s, 6) == Some(x2)
    requires c as int == (b0 - 0xE0) * 4096 + x1 * 64 + x2 && 0x800 <= c as int
    ensures DecodeEscape(s) == Some((c, 9))
  {
  }

  /** What `DecodeEscape` gives for a four-byte sequence whose bytes read as given. */
  lemma DecodeFour(s: string, c: char, b0: Byte, x1: int, x2: int, x3: int)
    requires ReadByte(s) == Some(b0) && 0xF0 <= b0 < 0xF5
    requires ReadContinuation(s, 3) == Some(x1) && ReadContinuation(s, 6) == Some(x2)
    requires ReadContinuation(s, 9) == Some(x3)
    requires c as int == (b0 - 0xF0) * 262144 + x1 * 4096 + x2 * 64 + x3 && 0x10000 <= c as int
    ensures DecodeEscape(s) == Some((c, 12))
  {
  }

  /** The first of a run of escaped bytes reads back. */
  lemma ReadLead(bs: seq<Byte>, t: string)
    requires |bs| > 0
    ensures ReadByte(PercentBytes(bs) + t) == Some(bs[0])
  {
    assert PercentBytes(bs) + t == PercentByte(bs[0]) + (PercentBytes(bs[1..]) + t);
    ReadPercentByte(bs[0], PercentBytes(bs[1..]) + t);
  }

  /** The `k`-th of a run of escaped bytes, a continuation byte, reads back at offset `3 * k`. */
  lemma {:induction false} ReadCont(bs: seq<Byte>, t: string, k: nat)
    requires k < |bs| && 0x80 <= bs[k] < 0xC0
    ensures ReadContinuation(PercentBytes(bs) + t, 3 * k) == Some(bs[k] - 0x80)
  {
    var p0, u := PercentByte(bs[0]), PercentBytes(bs[1..]) + t;
    assert PercentBytes(bs) + t == p0 + u;
    if k == 0 {
      assert (p0 + u)[0..] == p0 + u;
      ReadPercentByte(bs[0], u);
    } else {
      assert bs[1..][k - 1] == bs[k];
      ReadCont(bs[1..], t, k - 1);
      ContinuationShift(p0, u, 3 * (k - 1));
      assert 3 * (k - 1) + 3 == 3 * k;
    }
  }

  /** Reading at offset `i` after a prefix of three characters. */
  lemma ContinuationShift(p: string, u: string, i: nat)
    requires |p| == 3
    ensures ReadContinuation(p + u, i + 3) == ReadContinuation(u, i)
  {
    if i <= |u| {
      assert (p + u)[i + 3..] == u[i..];
    }
  }

  lemma DecodeEscape3(c: char, t: string)
    requires 0x800 <= c as int < 0x10000
    ensures DecodeEscape(PercentBytes(Utf8(c)) + t) == Some((c, 3 * |Utf8(c)|))
  {
    var bs := Utf8(c);
    var a, b, d := Utf8Three(c);
    ReadLead(bs, t);
    ReadCont(bs, t, 1);
    ReadCont(bs, t, 2);
    DecodeThree(PercentBytes(bs) + t, c, 0xE0 + a, b, d);
  }

  lemma DecodeEscape4(c: char, t: string)
    requires 0x10000 <= c as int
    ensures DecodeEscape(PercentBytes(Utf8(c)) + t) == Some((c, 3 * |Utf8(c)|))
  {
    var bs := Utf8(c);
    var a, b, d, e := Utf8Four(c);
    ReadLead(bs, t);
    ReadCont(bs, t, 1);
    ReadCont(bs, t, 2);
    ReadCont(bs, t, 3);
    DecodeFour(PercentBytes(bs) + t, c, 0xF0 + a, b, d, e);
  }

  /** A three-byte encoding: the lead byte carries the top four bits, each continuation six. */
  lemma Utf8Three(c: char) returns (a: int, b: int, d: int)
    requires 0x800 <= c as int < 0x10000
    ensures 0 <= a < 16 && 0 <= b < 64 && 0 <= d < 64
    ensures Utf8(c) == [0xE0 + a, 0x80 + b, 0x80 + d]
    ensures c as int == a * 4096 + b * 64 + d
  {
    var n := c as int;
    a, b, d := n / 4096, (n / 64) % 64, n % 64;
    Split3(n);
  }

  /** A four-byte encoding: the lead byte carries the top three bits, each continuation six. */
  lemma Utf8Four(c: char) returns (a: int, b: int, d: int, e: int)
    requires 0x10000 <= c as int
    ensures 0 <= a < 5 && 0 <= b < 64 && 0 <= d < 64 && 0 <= e < 64
    ensures Utf8(c) == [0xF0 + a, 0x80 + b, 0x80 + d, 0x80 + e]
    ensures c as int == a * 262144 + b * 4096 + d * 64 + e
  {
    var n := c as int;
    a, b, d, e := n / 262144, (n / 4096) % 64, (n / 64) % 64, n % 64;
    Split4(n);
  }

  lemma Split3(n: int)
    requires 0x800 <= n < 0x10000
    ensures n == (n / 4096) * 4096 + ((n / 64) % 64) * 64 + n % 64
  {
    var q := n / 64;
    assert n == q * 64 + n % 64;
    assert q == (q / 64) * 64 + q % 64;
    assert n / 4096 == q / 64;
  }

  lemma Split4(n: int)
    requires 0x10000 <= n < 0x110000
    ensures n == (n / 262144) * 262144 + ((n / 4096) % 64) * 4096 + ((n / 64) % 64) * 64 + n % 64
  {
    var q := n / 64;
    var q2 := q / 64;
    assert n == q * 64 + n % 64;
    assert q == q2 * 64 + q % 64;
    assert q2 == (q2 / 64) * 64 + q2 % 64;
    assert n / 4096 == q2;
    assert n / 262144 == q2 / 64;
  }

  lemma DecodeEncodeChar(c: char, t: string)
    ensures Decode(EncodeChar(c) + t) == Cons(c, Decode(t))
  {
    var s := EncodeChar(c) + t;
    if IsUnescaped(c) {
      assert s[0] == c && s[1..] == t;
    } else {
      var bs := Utf8(c);
      assert PercentBytes(bs) == PercentByte(bs[0]) + PercentBytes(bs[1..]);
      DecodeEscapeUtf8(c, t);
      assert s[3 * |bs|..] == t;
    }
  }

  /** Decoding undoes encoding: `decodeURIComponent(encodeURIComponent(s)) == s`. */
  lemma {:induction false} DecodeEncode(s: string)
    ensures Decode(Encode(s)) == Some(s)
  {
    if |s| > 0 {
      DecodeEncodeChar(s[0], Encode(s[1..]));
      DecodeEncode(s[1..]);
      assert s == [s[0]] + s[1..];
    }
  }

  /** Encoding is injective: distinct components have distinct encodings. */
  lemma EncodeInjective(s: string, t: string)
    requires Encode(s) == Encode(t)
    ensures s == t
  {
    DecodeEncode(s);
    DecodeEncode(t);
  }

  /** Sample encodings: a space, `&`, and a two-byte character, whose two UTF-8 bytes are both escaped. */
  lemma EncodeCharExamples()
    ensures EncodeChar(' ') == "%20" && EncodeChar('&') == "%26"
    ensures EncodeChar('é') == "%C3%A9"
  {
    assert Utf8('é') == [0xC3, 0xA9];
    assert PercentBytes([0xC3, 0xA9]) == "%C3%A9";
  }
}
