/**
 * Go's `[]byte(s)` conversion for text.
 *
 * A Go string holds the UTF-8 bytes of its text, so converting it to `[]byte`
 * yields exactly the UTF-8 encoding of the characters. Characters here are Unicode
 * scalar values; the encoding follows section 3 of RFC 3629.
 */
module Utf8 {
  import opened Wrappers

  /** Go's `byte`. */
  newtype byte = b: int | 0 <= b < 256

  /** The UTF-8 encoding of one scalar value: one to four bytes. */
  function EncodeChar(c: char): (r: seq<byte>)
    ensures 1 <= |r| <= 4
  {
    var n := c as int;
    if n < 0x80 then [n as byte]
    else if n < 0x800 then [(0xC0 + n / 64) as byte, (0x80 + n % 64) as byte]
    else if n < 0x10000 then [(0xE0 + n / 4096) as byte, (0x80 + n / 64 % 64) as byte, (0x80 + n % 64) as byte]
    else [(0xF0 + n / 262144) as byte, (0x80 + n / 4096 % 64) as byte, (0x80 + n / 64 % 64) as byte, (0x80 + n % 64) as byte]
  }

  /** `[]byte(s)`: the characters' encodings, concatenated in order. */
  function Encode(s: string): seq<byte>
  {
    if s == [] then [] else EncodeChar(s[0]) + Encode(s[1..])
  }

  /** The low six bits of a continuation byte. */
  function Cont(b: byte): int
  {
    b as int % 64
  }

  /** The number of bytes a sequence led by `lead` occupies. */
  function SequenceLength(lead: byte): nat
  {
    if lead < 0x80 then 1 else if lead < 0xE0 then 2 else if lead < 0xF0 then 3 else 4
  }

  /** Reads one character off the front of `b`: the character and the number of bytes it took, if they form one. */
  function DecodeOne(b: seq<byte>): (r: Option<(char, nat)>)
    requires b != []
    ensures r.Some? ==> 1 <= r.value.1 <= |b|
  {
    var len := SequenceLength(b[0]);
    if |b| < len then None
    else
      var lead := b[0] as int;
      var n :=
        if len == 1 then lead
        else if len == 2 then (lead % 32) * 64 + Cont(b[1])
        else if len == 3 then (lead % 16) * 4096 + Cont(b[1]) * 64 + Cont(b[2])
        else (lead % 8) * 262144 + Cont(b[1]) * 4096 + Cont(b[2]) * 64 + Cont(b[3]);
      if 0 <= n < 0xD800 || 0xE000 <= n < 0x11_0000 then Some((n as char, len)) else None
  }

  /**
   * Reads `b` back as text. It is a lenient reader, not a validating UTF-8 decoder:
   * it accepts overlong forms and does not check that continuation bytes start
   * with the bits 10. It serves as the left inverse of `Encode`, so `DecodeEncode`
   * shows that `[]byte(s)` is injective: no two texts are sent as the same bytes.
   */
  function Decode(b: seq<byte>): Option<string>
    decreases |b|
  {
    if b == [] then Some([])
    else match DecodeOne(b)
      case None => None
      case Some((c, len)) =>
        match Decode(b[len..])
        case None => None
        case Some(rest) => Some([c] + rest)
  }

  lemma TwoByteFields(n: int)
    requires 0x80 <= n < 0x800
    ensures 0xC0 <= 0xC0 + n / 64 < 0xE0
    ensures ((0xC0 + n / 64) % 32) * 64 + (0x80 + n % 64) % 64 == n
  {
    var q, r := n / 64, n % 64;
    assert (0xC0 + q) % 32 == q;
    assert (0x80 + r) % 64 == r;
  }

  lemma ThreeByteFields(n: int)
    requires 0x800 <= n < 0x10000
    ensures 0xE0 <= 0xE0 + n / 4096 < 0xF0
    ensures ((0xE0 + n / 4096) % 16) * 4096 + ((0x80 + n / 64 % 64) % 64) * 64 + (0x80 + n % 64) % 64 == n
  {
    var q, m, r := n / 4096, n / 64 % 64, n % 64;
    assert n / 64 == 64 * q + m;
    assert (0xE0 + q) % 16 == q;
    assert (0x80 + m) % 64 == m;
    assert (0x80 + r) % 64 == r;
  }

  /** A continuation byte `0x80 + x` carries its six payload bits unchanged. */
  lemma ContinuationBits(x: int)
    requires 0 <= x < 64
    ensures (0x80 + x) % 64 == x
  {
  }

  /** A code point below 0x110000 splits into a three-bit lead and three six-bit groups. */
  lemma FourByteDigits(n: int)
    requires 0 <= n
    ensures n == 262144 * (n / 262144) + 4096 * (n / 4096 % 64) + 64 * (n / 64 % 64) + n % 64
  {
    assert n / 64 / 64 == n / 4096;
    assert n / 4096 == 64 * (n / 262144) + n / 4096 % 64;
    assert n / 64 == 64 * (n / 4096) + n / 64 % 64;
  }

  lemma FourByteFields(n: int)
    requires 0x10000 <= n < 0x11_0000
    ensures 0xF0 <= 0xF0 + n / 262144 < 0xF5
    ensures ((0xF0 + n / 262144) % 8) * 262144 + ((0x80 + n / 4096 % 64) % 64) * 4096
      + ((0x80 + n / 64 % 64) % 64) * 64 + (0x80 + n % 64) % 64 == n
  {
    FourByteDigits(n);
    assert (0xF0 + n / 262144) % 8 == n / 262144;
    ContinuationBits(n / 4096 % 64);
    ContinuationBits(n / 64 % 64);
    ContinuationBits(n % 64);
  }

  lemma DecodeEncodeTwo(c: char, rest: seq<byte>)
    requires 0x80 <= c as int < 0x800
    ensures DecodeOne(EncodeChar(c) + rest) == Some((c, 2))
  {
    TwoByteFields(c as int);
  }

  lemma DecodeEncodeThree(c: char, rest: seq<byte>)
    requires 0x800 <= c as int < 0x10000
    ensures DecodeOne(EncodeChar(c) + rest) == Some((c, 3))
  {
    ThreeByteFields(c as int);
  }

  lemma DecodeEncodeFour(c: char, rest: seq<byte>)
    requires 0x10000 <= c as int
    ensures DecodeOne(EncodeChar(c) + rest) == Some((c, 4))
  {
    FourByteFields(c as int);
  }

  /** Each character's encoding is read back as that character, whatever follows it. */
  lemma DecodeEncodeChar(c: char, rest: seq<byte>)
    ensures DecodeOne(EncodeChar(c) + rest) == Some((c, |EncodeChar(c)|))
  {
    var n := c as int;
    if n < 0x80 {
    } else if n < 0x800 {
      DecodeEncodeTwo(c, rest);
    } else if n < 0x10000 {
      DecodeEncodeThree(c, rest);
    } else {
      DecodeEncodeFour(c, rest);
    }
  }

  /** `[]byte(s)` loses nothing: the bytes decode back to `s`, and there are between one and four per character. */
  lemma {:induction false} DecodeEncode(s: string)
    ensures Decode(Encode(s)) == Some(s)
    ensures |s| <= |Encode(s)| <= 4 * |s|
  {
    if s != [] {
      DecodeEncode(s[1..]);
      var e := EncodeChar(s[0]);
      DecodeEncodeChar(s[0], Encode(s[1..]));
      assert (e + Encode(s[1..]))[|e|..] == Encode(s[1..]);
      assert [s[0]] + s[1..] == s;
    }
  }

  /** Text made of ASCII characters is sent byte for byte. */
  lemma {:induction false} EncodeAscii(s: string)
    requires forall i :: 0 <= i < |s| ==> s[i] as int < 0x80
    ensures |Encode(s)| == |s|
    ensures forall i :: 0 <= i < |s| ==> Encode(s)[i] as int == s[i] as int
  {
    if s != [] {
      EncodeAscii(s[1..]);
      assert Encode(s) == [s[0] as byte] + Encode(s[1..]);
    }
  }
}
