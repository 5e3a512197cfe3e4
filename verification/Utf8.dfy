/** UTF-8 (RFC 3629) as `str.encode("utf-8")` produces it, and a decoder that undoes it. */
module Utf8 {
  import opened Options

  type Byte = n: nat | n < 256

  function EncodeChar(c: char): (r: seq<Byte>)
    ensures 1 <= |r| <= 4
  {
    var n := c as int;
    if n < 0x80 then [n]
    else if n < 0x800 then [0xC0 + n / 64, 0x80 + n % 64]
    else if n < 0x10000 then [0xE0 + n / 4096, 0x80 + n / 64 % 64, 0x80 + n % 64]
    else [0xF0 + n / 262144, 0x80 + n / 4096 % 64, 0x80 + n / 64 % 64, 0x80 + n % 64]
  }

  function Encode(s: string): seq<Byte> {
    if s == [] then [] else EncodeChar(s[0]) + Encode(s[1..])
  }

  predicate Scalar(n: int) {
    0 <= n < 0xD800 || 0xE000 <= n < 0x110000
  }

  /** The payload of a byte whose marker bits are `marker`. */
  function Bits(x: int, marker: int): int {
    x - marker
  }

  /** The code point and the number of bytes it took, read off the lead byte. */
  function DecodePoint(b: seq<Byte>): (r: (int, nat))
    requires b != []
    ensures r.1 >= 1
  {
    if b[0] < 0x80 then (b[0], 1)
    else if b[0] < 0xE0 && |b| >= 2 then (Bits(b[0], 0xC0) * 64 + Bits(b[1], 0x80), 2)
    else if b[0] < 0xF0 && |b| >= 3 then
      (Bits(b[0], 0xE0) * 4096 + Bits(b[1], 0x80) * 64 + Bits(b[2], 0x80), 3)
    else if |b| >= 4 then
      (Bits(b[0], 0xF0) * 262144 + Bits(b[1], 0x80) * 4096 + Bits(b[2], 0x80) * 64 + Bits(b[3], 0x80), 4)
    else (-1, 1)
  }

  function Decode(b: seq<Byte>): Option<string>
    decreases |b|
  {
    if b == [] then Some([])
    else
      var (n, used) := DecodePoint(b);
      if !Scalar(n) || used > |b| then None
      else
        match Decode(b[used..])
        case None => None
        case Some(rest) => Some([n as char] + rest)
  }

  lemma Digits64(n: nat)
    ensures n == (n / 64) * 64 + n % 64
    ensures n / 64 == (n / 4096) * 64 + n / 64 % 64
    ensures n / 4096 == (n / 262144) * 64 + n / 4096 % 64
  {
    assert n / 4096 == n / 64 / 64;
    assert n / 262144 == n / 4096 / 64;
  }

  lemma PointRoundTrip(c: char, tail: seq<Byte>)
    ensures DecodePoint(EncodeChar(c) + tail) == (c as int, |EncodeChar(c)|)
  {
    Digits64(c as int);
  }

  lemma {:induction false} RoundTrip(s: string)
    ensures Decode(Encode(s)) == Some(s)
  {
    if s == [] {
    } else {
      RoundTrip(s[1..]);
      PointRoundTrip(s[0], Encode(s[1..]));
      var head := EncodeChar(s[0]);
      assert Encode(s)[|head|..] == Encode(s[1..]);
      assert s == [s[0]] + s[1..];
    }
  }
}
