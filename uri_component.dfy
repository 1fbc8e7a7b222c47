/**
 * `encodeURIComponent` of ECMA-262 (section 19.2.6.5): every character outside the unreserved
 * set becomes the percent-escapes of its UTF-8 bytes, written with upper-case hex digits.
 */
module UriComponent {
  import opened FormUrlencoded

  newtype Byte = x: int | 0 <= x < 256

  /** The characters the encoder keeps: ASCII letters, digits and `-_.!~*'()`. */
  predicate IsUnreserved(c: char) {
    'A' <= c <= 'Z' || 'a' <= c <= 'z' || '0' <= c <= '9' || c in "-_.!~*'()"
  }

  predicate IsAscii(s: string) {
    forall c | c in s :: c as int < 0x80
  }

  /** A UTF-8 continuation byte, `10xxxxxx`, carrying six bits. */
  predicate IsContinuation(b: Byte) {
    0x80 <= b < 0xC0
  }

  /**
   * The UTF-8 encoding of one Unicode scalar value (RFC 3629, section 3): the shortest form,
   * a lead byte marking the length, continuation bytes after it, and the payload bits of all
   * bytes, read most significant first, spelling the code point.
   */
  function Utf8(c: char): (bs: seq<Byte>)
    ensures 1 <= |bs| <= 4
    ensures c as int < 0x80 ==> bs == [c as int as Byte]
    ensures 0x80 <= c as int < 0x800 ==>
      |bs| == 2 && 0xC0 <= bs[0] < 0xE0 && IsContinuation(bs[1]) &&
      (bs[0] as int - 0xC0) * 0x40 + (bs[1] as int - 0x80) == c as int
    ensures 0x800 <= c as int < 0x1_0000 ==>
      |bs| == 3 && 0xE0 <= bs[0] < 0xF0 && IsContinuation(bs[1]) && IsContinuation(bs[2]) &&
      ((bs[0] as int - 0xE0) * 0x40 + (bs[1] as int - 0x80)) * 0x40 + (bs[2] as int - 0x80) == c as int
    ensures 0x1_0000 <= c as int ==>
      |bs| == 4 && 0xF0 <= bs[0] < 0xF8 &&
      IsContinuation(bs[1]) && IsContinuation(bs[2]) && IsContinuation(bs[3]) &&
      (((bs[0] as int - 0xF0) * 0x40 + (bs[1] as int - 0x80)) * 0x40 + (bs[2] as int - 0x80)) * 0x40
        + (bs[3] as int - 0x80) == c as int
    ensures c as int >= 0x80 ==> forall i :: 0 <= i < |bs| ==> bs[i] >= 0x80
  {
    var n := c as int;
    if n < 0x80 then [n as Byte]
    else if n < 0x800 then Utf8Two(n)
    else if n < 0x1_0000 then Utf8Three(n)
    else Utf8Four(n)
  }

  /** `110xxxxx 10xxxxxx` for a code point of 8 to 11 bits. */
  function Utf8Two(n: int): (bs: seq<Byte>)
    requires 0x80 <= n < 0x800
    ensures |bs| == 2 && 0xC0 <= bs[0] < 0xE0 && IsContinuation(bs[1])
    ensures (bs[0] as int - 0xC0) * 0x40 + (bs[1] as int - 0x80) == n
  {
    var hi, lo := n / 0x40, n % 0x40;
    [(0xC0 + hi) as Byte, (0x80 + lo) as Byte]
  }

  /** `1110xxxx 10xxxxxx 10xxxxxx` for a code point of 12 to 16 bits. */
  function Utf8Three(n: int): (bs: seq<Byte>)
    requires 0x800 <= n < 0x1_0000
    ensures |bs| == 3 && 0xE0 <= bs[0] < 0xF0 && IsContinuation(bs[1]) && IsContinuation(bs[2])
    ensures ((bs[0] as int - 0xE0) * 0x40 + (bs[1] as int - 0x80)) * 0x40 + (bs[2] as int - 0x80) == n
  {
    var hi, mid, lo := n / 0x1000, n / 0x40 % 0x40, n % 0x40;
    assert n / 0x40 == hi * 0x40 + mid;
    [(0xE0 + hi) as Byte, (0x80 + mid) as Byte, (0x80 + lo) as Byte]
  }

  /** `11110xxx` and three continuation bytes for a code point of 17 to 21 bits. */
  function Utf8Four(n: int): (bs: seq<Byte>)
    requires 0x1_0000 <= n < 0x11_0000
    ensures |bs| == 4 && 0xF0 <= bs[0] < 0xF8
    ensures IsContinuation(bs[1]) && IsContinuation(bs[2]) && IsContinuation(bs[3])
    ensures (((bs[0] as int - 0xF0) * 0x40 + (bs[1] as int - 0x80)) * 0x40 + (bs[2] as int - 0x80)) * 0x40
        + (bs[3] as int - 0x80) == n
  {
    var b0, b1, b2, b3 := n / 0x4_0000, n / 0x1000 % 0x40, n / 0x40 % 0x40, n % 0x40;
    assert n / 0x1000 == b0 * 0x40 + b1;
    assert n / 0x40 == (n / 0x1000) * 0x40 + b2;
    [(0xF0 + b0) as Byte, (0x80 + b1) as Byte, (0x80 + b2) as Byte, (0x80 + b3) as Byte]
  }

  /** The upper-case hex digit of a value below 16. */
  function HexDigit(n: nat): (c: char)
    requires n < 16
    ensures IsHexDigit(c) && HexValue(c) == n && IsUnreserved(c)
    ensures n < 10 ==> '0' <= c <= '9'
    ensures n >= 10 ==> 'A' <= c <= 'F'
  {
    if n < 10 then ('0' as int + n) as char else ('A' as int + n - 10) as char
  }

  /** Byte `i` is written at `3 * i` as `%` and two upper-case hex digits of its value. */
  predicate EscapedAt(r: string, bs: seq<Byte>, i: int)
    requires 0 <= i < |bs| && |r| == 3 * |bs|
  {
    r[3 * i] == '%' && IsHexDigit(r[3 * i + 1]) && IsHexDigit(r[3 * i + 2]) &&
    HexValue(r[3 * i + 1]) * 16 + HexValue(r[3 * i + 2]) == bs[i] as int
  }

  /** `%HH` for each byte, in order, with upper-case hex digits. */
  function EscapeBytes(bs: seq<Byte>): (r: string)
    ensures |r| == 3 * |bs|
    ensures forall i :: 0 <= i < |bs| ==> EscapedAt(r, bs, i)
    ensures forall i :: 0 <= i < |r| ==> r[i] == '%' || '0' <= r[i] <= '9' || 'A' <= r[i] <= 'F'
    ensures forall i :: 0 <= i < |r| ==> r[i] == '%' || IsUnreserved(r[i])
    decreases |bs|
  {
    if |bs| == 0 then ""
    else
      var b := bs[0] as int;
      var head := ['%', HexDigit(b / 16), HexDigit(b % 16)];
      var rest := EscapeBytes(bs[1..]);
      EscapeCons(head, rest, bs);
      head + rest
  }

  /** Escaping the first byte in front of the escapes of the others escapes them all. */
  lemma EscapeCons(head: string, rest: string, bs: seq<Byte>)
    requires |bs| >= 1 && |head| == 3 && |rest| == 3 * (|bs| - 1)
    requires head[0] == '%' && IsHexDigit(head[1]) && IsHexDigit(head[2])
    requires HexValue(head[1]) * 16 + HexValue(head[2]) == bs[0] as int
    requires forall i :: 0 <= i < |bs| - 1 ==> EscapedAt(rest, bs[1..], i)
    ensures forall i :: 0 <= i < |bs| ==> EscapedAt(head + rest, bs, i)
  {
    var r := head + rest;
    forall i | 0 <= i < |bs| ensures EscapedAt(r, bs, i) {
      if i > 0 {
        assert EscapedAt(rest, bs[1..], i - 1);
        assert r[3 * i] == rest[3 * (i - 1)];
        assert r[3 * i + 1] == rest[3 * (i - 1) + 1];
        assert r[3 * i + 2] == rest[3 * (i - 1) + 2];
      }
    }
  }

  /** One character: kept when unreserved, otherwise the escapes of its UTF-8 bytes. */
  function EncodeChar(c: char): (r: string)
    ensures IsUnreserved(c) ==> r == [c]
    ensures !IsUnreserved(c) ==> |r| == 3 * |Utf8(c)| && forall i :: 0 <= i < |Utf8(c)| ==> EscapedAt(r, Utf8(c), i)
    ensures !IsUnreserved(c) ==> forall i :: 0 <= i < |r| ==> r[i] == '%' || '0' <= r[i] <= '9' || 'A' <= r[i] <= 'F'
    ensures forall i :: 0 <= i < |r| ==> r[i] == '%' || IsUnreserved(r[i])
  {
    if IsUnreserved(c) then [c] else EscapeBytes(Utf8(c))
  }

  /**
   * `encodeURIComponent(s)`: the result consists of unreserved characters and `%` only, so it
   * holds no `&`, `=`, `+`, `#` or space, and unreserved text is kept as it is.
   */
  function Encode(s: string): (r: string)
    ensures forall i :: 0 <= i < |r| ==> r[i] == '%' || IsUnreserved(r[i])
    ensures (forall i :: 0 <= i < |s| ==> IsUnreserved(s[i])) ==> r == s
    decreases |s|
  {
    if |s| == 0 then ""
    else
      var r := EncodeChar(s[0]) + Encode(s[1..]);
      assert forall i :: 0 <= i < |r| ==> r[i] == '%' || IsUnreserved(r[i]) by {
        var h := EncodeChar(s[0]);
        forall i | 0 <= i < |r| ensures r[i] == '%' || IsUnreserved(r[i]) {
          if i >= |h| { assert r[i] == Encode(s[1..])[i - |h|]; }
        }
      }
      assert s == [s[0]] + s[1..];
      r
  }

  /** A one-character string is encoded as that character. */
  lemma EncodeSingle(c: char)
    ensures Encode([c]) == EncodeChar(c)
  {
    assert [c][1..] == "";
  }

  /** The encoding works character by character: encoding a concatenation concatenates. */
  lemma {:induction false} EncodeAppend(a: string, b: string)
    ensures Encode(a + b) == Encode(a) + Encode(b)
    decreases |a|
  {
    if |a| > 0 {
      assert (a + b)[0] == a[0] && (a + b)[1..] == a[1..] + b;
      EncodeAppend(a[1..], b);
    } else {
      assert a + b == b;
    }
  }

  /** Decoding the encoding of one ASCII character gives the character back. */
  lemma DecodeEncodeChar(c: char, rest: string)
    requires c as int < 0x80
    ensures Decode(EncodeChar(c) + rest) == [c] + Decode(rest)
  {
    var s := EncodeChar(c) + rest;
    if IsUnreserved(c) {
      assert s[0] == c && s[1..] == rest;
    } else {
      DecodeEscapedAscii(c, rest);
    }
  }

  lemma DecodeEscapedAscii(c: char, rest: string)
    requires c as int < 0x80 && !IsUnreserved(c)
    ensures Decode(EncodeChar(c) + rest) == [c] + Decode(rest)
  {
    var b := c as int as Byte;
    var e := ['%', HexDigit(b as int / 16), HexDigit(b as int % 16)];
    assert EncodeChar(c) == e by {
      assert Utf8(c) == [b];
      assert EscapeBytes([b]) == e;
    }
    var s := e + rest;
    assert StartsWithAsciiEscape(s);
    assert s[3..] == rest;
  }

  /** The form decoder undoes `encodeURIComponent` on ASCII text. */
  lemma {:induction false} DecodeEncode(s: string)
    requires IsAscii(s)
    ensures Decode(Encode(s)) == s
    decreases |s|
  {
    if |s| > 0 {
      assert s[0] in s;
      assert forall c | c in s[1..] :: c in s;
      DecodeEncode(s[1..]);
      DecodeEncodeChar(s[0], Encode(s[1..]));
      assert s == [s[0]] + s[1..];
    }
  }
}
