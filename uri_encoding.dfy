/**
 * `encodeURIComponent` as ECMA-262 defines it (the URI handling functions of
 * the global object): characters outside the unreserved set are written as the
 * `%XY` escapes of their UTF-8 bytes, with upper-case hexadecimal digits.
 * A `char` here is a Unicode scalar value, so the lone-surrogate error of the
 * standard cannot arise.
 */
module UriEncoding {
  import opened Wrappers

  type Byte = x: int | 0 <= x < 256

  /** The characters `encodeURIComponent` copies unescaped. */
  predicate Unreserved(c: char)
  {
    || 'A' <= c <= 'Z' || 'a' <= c <= 'z' || '0' <= c <= '9'
    || c == '-' || c == '_' || c == '.' || c == '!' || c == '~' || c == '*'
    || c == '\'' || c == '(' || c == ')'
  }

  /** The upper-case hexadecimal digit of `d`. */
  function HexDigit(d: int): (c: char)
    requires 0 <= d < 16
    ensures '0' <= c <= '9' || 'A' <= c <= 'F'
  {
    if d < 10 then ('0' as int + d) as char else ('A' as int + d - 10) as char
  }

  /** The value of a hexadecimal digit of either case. */
  function HexValue(c: char): Option<int>
  {
    if '0' <= c <= '9' then Some(c as int - '0' as int)
    else if 'A' <= c <= 'F' then Some(c as int - 'A' as int + 10)
    else if 'a' <= c <= 'f' then Some(c as int - 'a' as int + 10)
    else None
  }

  /** The UTF-8 bytes of one scalar value, shortest form. */
  function Utf8(c: char): (bytes: seq<Byte>)
    ensures 1 <= |bytes| <= 4
    ensures |bytes| == 1 <==> c as int < 0x80
  {
    var cp := c as int;
    if cp < 0x80 then [cp]
    else if cp < 0x800 then [0xC0 + cp / 64, 0x80 + cp % 64]
    else if cp < 0x10000 then [0xE0 + cp / 4096, 0x80 + (cp / 64) % 64, 0x80 + cp % 64]
    else [0xF0 + cp / 262144, 0x80 + (cp / 4096) % 64, 0x80 + (cp / 64) % 64, 0x80 + cp % 64]
  }

  /** The UTF-8 bytes of a string. */
  function Utf8String(s: string): seq<Byte>
  {
    if s == [] then [] else Utf8(s[0]) + Utf8String(s[1..])
  }

  /** `%XY` for each byte. */
  function PercentBytes(bytes: seq<Byte>): (r: string)
    ensures |r| == 3 * |bytes|
  {
    if bytes == [] then []
    else ['%', HexDigit(bytes[0] / 16), HexDigit(bytes[0] % 16)] + PercentBytes(bytes[1..])
  }

  function EncodeChar(c: char): (r: string)
    ensures 1 <= |r|
    ensures |r| == 1 <==> Unreserved(c)
  {
    if Unreserved(c) then [c] else PercentBytes(Utf8(c))
  }

  /** `encodeURIComponent(s)`: never shorter than its input, and longer exactly when something is escaped. */
  function Encode(s: string): (r: string)
    ensures |r| >= |s|
    ensures |r| == |s| <==> forall i :: 0 <= i < |s| ==> Unreserved(s[i])
  {
    if s == [] then [] else EncodeChar(s[0]) + Encode(s[1..])
  }

  // ---------------------------------------------------------------------------
  // The inverse, in two layers: escapes to bytes, then UTF-8 to characters.

  function Prepend<T>(xs: seq<T>, r: Option<seq<T>>): Option<seq<T>>
  {
    match r
    case None => None
    case Some(ys) => Some(xs + ys)
  }

  /** The bytes a percent-encoded string stands for; `None` for a malformed escape or a non-ASCII character. */
  function PercentDecode(s: string): Option<seq<Byte>>
    decreases |s|
  {
    if s == [] then Some([])
    else if s[0] != '%' then
      if s[0] as int < 0x80 then Prepend([s[0] as int], PercentDecode(s[1..])) else None
    else if |s| < 3 then None
    else
      match (HexValue(s[1]), HexValue(s[2]))
      case (Some(hi), Some(lo)) => Prepend([hi * 16 + lo], PercentDecode(s[3..]))
      case _ => None
  }

  predicate Continuation(b: Byte)
  {
    0x80 <= b < 0xC0
  }

  /** The character with code point `cp`, if `cp` is a Unicode scalar value. */
  function Scalar(cp: int): Option<char>
  {
    if 0 <= cp < 0xD800 || 0xE000 <= cp < 0x11_0000 then Some(cp as char) else None
  }

  function PrependChar(c: Option<char>, rest: Option<string>): Option<string>
  {
    match c
    case None => None
    case Some(ch) => Prepend([ch], rest)
  }

  /** The characters a UTF-8 byte sequence stands for; `None` when it is not well formed. */
  function Utf8Decode(bytes: seq<Byte>): Option<string>
    decreases |bytes|
  {
    if bytes == [] then Some([])
    else
      var b0: int := bytes[0];
      if b0 < 0x80 then
        PrependChar(Scalar(b0), Utf8Decode(bytes[1..]))
      else if 0xC0 <= b0 < 0xE0 && 2 <= |bytes| && Continuation(bytes[1]) then
        PrependChar(Scalar((b0 - 0xC0) * 64 + (bytes[1] as int - 0x80)), Utf8Decode(bytes[2..]))
      else if 0xE0 <= b0 < 0xF0 && 3 <= |bytes| && Continuation(bytes[1]) && Continuation(bytes[2]) then
        PrependChar(Scalar((b0 - 0xE0) * 4096 + (bytes[1] as int - 0x80) * 64 + (bytes[2] as int - 0x80)),
                    Utf8Decode(bytes[3..]))
      else if 0xF0 <= b0 < 0xF8 && 4 <= |bytes| && Continuation(bytes[1]) && Continuation(bytes[2])
              && Continuation(bytes[3]) then
        PrependChar(Scalar((b0 - 0xF0) * 262144 + (bytes[1] as int - 0x80) * 4096 + (bytes[2] as int - 0x80) * 64
                           + (bytes[3] as int - 0x80)),
                    Utf8Decode(bytes[4..]))
      else None
  }

  /**
   * The inverse of `Encode` used by the proofs. Unlike `decodeURIComponent`,
   * it rejects characters outside ASCII and accepts overlong UTF-8 forms.
   */
  function Decode(s: string): Option<string>
  {
    match PercentDecode(s)
    case None => None
    case Some(bytes) => Utf8Decode(bytes)
  }

  // ---------------------------------------------------------------------------
  // Round trip

  lemma HexRoundTrip(d: int)
    requires 0 <= d < 16
    ensures HexValue(HexDigit(d)) == Some(d)
  {
  }

  lemma PrependPrepend<T>(xs: seq<T>, ys: seq<T>, r: Option<seq<T>>)
    ensures Prepend(xs, Prepend(ys, r)) == Prepend(xs + ys, r)
  {
    if r.Some? {
      assert xs + (ys + r.value) == (xs + ys) + r.value;
    }
  }

  /** A block of escapes decodes to its bytes, whatever follows it. */
  lemma {:induction false} PercentDecodeBytes(bytes: seq<Byte>, rest: string)
    ensures PercentDecode(PercentBytes(bytes) + rest) == Prepend(bytes, PercentDecode(rest))
  {
    if bytes == [] {
      assert PercentBytes(bytes) + rest == rest;
      if PercentDecode(rest).Some? {
        assert [] + PercentDecode(rest).value == PercentDecode(rest).value;
      }
    } else {
      var b := bytes[0];
      var s := PercentBytes(bytes) + rest;
      HexRoundTrip(b / 16);
      HexRoundTrip(b % 16);
      assert s[0] == '%' && s[1] == HexDigit(b / 16) && s[2] == HexDigit(b % 16);
      assert s[3..] == PercentBytes(bytes[1..]) + rest;
      assert PercentDecode(s) == Prepend([b], PercentDecode(s[3..]));
      PercentDecodeBytes(bytes[1..], rest);
      PrependPrepend([b], bytes[1..], PercentDecode(rest));
      assert [b] + bytes[1..] == bytes;
    }
  }

  /** The escapes of a string decode to its UTF-8 bytes. */
  lemma {:induction false} PercentDecodeEncode(s: string)
    ensures PercentDecode(Encode(s)) == Some(Utf8String(s))
  {
    if s != [] {
      var c := s[0];
      PercentDecodeEncode(s[1..]);
      if Unreserved(c) {
        assert Encode(s) == [c] + Encode(s[1..]);
        assert (Encode(s))[1..] == Encode(s[1..]);
      } else {
        PercentDecodeBytes(Utf8(c), Encode(s[1..]));
      }
    }
  }

  /** A code point is the sum of its 6-bit groups. */
  lemma SixBitGroups(cp: int)
    requires 0 <= cp
    ensures (cp / 4096) * 4096 + ((cp / 64) % 64) * 64 + cp % 64 == cp
    ensures (cp / 262144) * 262144 + ((cp / 4096) % 64) * 4096 + ((cp / 64) % 64) * 64 + cp % 64 == cp
  {
    var q1, q2, q3 := cp / 64, cp / 4096, cp / 262144;
    assert cp == q1 * 64 + cp % 64;
    assert q1 / 64 == q2;
    assert q1 == q2 * 64 + q1 % 64;
    assert q2 / 64 == q3;
    assert q2 == q3 * 64 + q2 % 64;
  }

  lemma Utf8DecodeOne(c: char, rest: seq<Byte>)
    requires c as int < 0x80
    ensures Utf8Decode(Utf8(c) + rest) == Prepend([c], Utf8Decode(rest))
  {
    var bytes := Utf8(c) + rest;
    assert bytes[0] == c as int && bytes[1..] == rest;
  }

  lemma Utf8DecodeTwo(c: char, rest: seq<Byte>)
    requires 0x80 <= c as int < 0x800
    ensures Utf8Decode(Utf8(c) + rest) == Prepend([c], Utf8Decode(rest))
  {
    var cp := c as int;
    var b0, b1 := 0xC0 + cp / 64, 0x80 + cp % 64;
    var bytes := Utf8(c) + rest;
    assert bytes[0] == b0 && bytes[1] == b1 && bytes[2..] == rest;
    assert 0xC0 <= b0 < 0xE0;
    assert (b0 - 0xC0) * 64 + (b1 - 0x80) == cp;
  }

  lemma Utf8DecodeThree(c: char, rest: seq<Byte>)
    requires 0x800 <= c as int < 0x10000
    ensures Utf8Decode(Utf8(c) + rest) == Prepend([c], Utf8Decode(rest))
  {
    var cp := c as int;
    var b0, b1, b2 := 0xE0 + cp / 4096, 0x80 + (cp / 64) % 64, 0x80 + cp % 64;
    var bytes := Utf8(c) + rest;
    assert bytes[0] == b0 && bytes[1] == b1 && bytes[2] == b2 && bytes[3..] == rest;
    assert 0xE0 <= b0 < 0xF0;
    SixBitGroups(cp);
    assert (b0 - 0xE0) * 4096 + (b1 - 0x80) * 64 + (b2 - 0x80) == cp;
  }

  lemma Utf8DecodeFour(c: char, rest: seq<Byte>)
    requires 0x10000 <= c as int
    ensures Utf8Decode(Utf8(c) + rest) == Prepend([c], Utf8Decode(rest))
  {
    var cp := c as int;
    var b0, b1, b2, b3 := 0xF0 + cp / 262144, 0x80 + (cp / 4096) % 64, 0x80 + (cp / 64) % 64, 0x80 + cp % 64;
    var bytes := Utf8(c) + rest;
    assert bytes[0] == b0 && bytes[1] == b1 && bytes[2] == b2 && bytes[3] == b3 && bytes[4..] == rest;
    assert 0xF0 <= b0 < 0xF8;
    SixBitGroups(cp);
    assert (b0 - 0xF0) * 262144 + (b1 - 0x80) * 4096 + (b2 - 0x80) * 64 + (b3 - 0x80) == cp;
  }

  /** The UTF-8 bytes of one character decode back to it, whatever follows them. */
  lemma Utf8DecodeChar(c: char, rest: seq<Byte>)
    ensures Utf8Decode(Utf8(c) + rest) == Prepend([c], Utf8Decode(rest))
  {
    var cp := c as int;
    if cp < 0x80 {
      Utf8DecodeOne(c, rest);
    } else if cp < 0x800 {
      Utf8DecodeTwo(c, rest);
    } else if cp < 0x10000 {
      Utf8DecodeThree(c, rest);
    } else {
      Utf8DecodeFour(c, rest);
    }
  }

  lemma {:induction false} Utf8RoundTrip(s: string)
    ensures Utf8Decode(Utf8String(s)) == Some(s)
  {
    if s != [] {
      Utf8RoundTrip(s[1..]);
      Utf8DecodeChar(s[0], Utf8String(s[1..]));
      assert [s[0]] + s[1..] == s;
    }
  }

  /** Decoding undoes encoding: no role name is lost or altered in a search URL. */
  lemma RoundTrip(s: string)
    ensures Decode(Encode(s)) == Some(s)
  {
    PercentDecodeEncode(s);
    Utf8RoundTrip(s);
  }

  /** Distinct strings have distinct encodings. */
  lemma EncodeInjective(a: string, b: string)
    requires Encode(a) == Encode(b)
    ensures a == b
  {
    RoundTrip(a);
    RoundTrip(b);
  }

  /** The characters an encoding is made of: the unreserved ones (hexadecimal digits among them) and `%`. */
  predicate UrlSafe(c: char)
  {
    Unreserved(c) || c == '%'
  }

  lemma {:induction false} PercentBytesSafe(bytes: seq<Byte>)
    ensures forall c :: c in PercentBytes(bytes) ==> UrlSafe(c)
  {
    if bytes != [] {
      PercentBytesSafe(bytes[1..]);
    }
  }

  lemma {:induction false} EncodeSafe(s: string)
    ensures forall c :: c in Encode(s) ==> UrlSafe(c)
  {
    if s != [] {
      EncodeSafe(s[1..]);
      PercentBytesSafe(Utf8(s[0]));
    }
  }

  /** A string made only of unreserved characters is its own encoding. */
  lemma {:induction false} EncodeUnreserved(s: string)
    requires forall c :: c in s ==> Unreserved(c)
    ensures Encode(s) == s
  {
    if s != [] {
      EncodeUnreserved(s[1..]);
      assert [s[0]] + s[1..] == s;
    }
  }
}
