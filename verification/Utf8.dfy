/** Well-formed UTF-8, the grammar of section 4 of RFC 3629 that `str::from_utf8` accepts. */
module Utf8 {
  import opened Bytes

  predicate Tail(b: byte) {
    0x80 <= b <= 0xBF
  }

  /** Length of the character that `s` starts with, or 0 when it starts with none. */
  function CharLength(s: seq<byte>): (n: nat)
    ensures n <= |s|
  {
    if |s| >= 1 && s[0] <= 0x7F then 1
    else if |s| >= 2 && 0xC2 <= s[0] <= 0xDF && Tail(s[1]) then 2
    else if |s| >= 3 && Tail(s[2]) && ThreeByteLead(s[0], s[1]) then 3
    else if |s| >= 4 && Tail(s[2]) && Tail(s[3]) && FourByteLead(s[0], s[1]) then 4
    else 0
  }

  predicate ThreeByteLead(a: byte, b: byte) {
    || (a == 0xE0 && 0xA0 <= b <= 0xBF)
    || (0xE1 <= a <= 0xEC && Tail(b))
    || (a == 0xED && 0x80 <= b <= 0x9F)
    || (0xEE <= a <= 0xEF && Tail(b))
  }

  predicate FourByteLead(a: byte, b: byte) {
    || (a == 0xF0 && 0x90 <= b <= 0xBF)
    || (0xF1 <= a <= 0xF3 && Tail(b))
    || (a == 0xF4 && 0x80 <= b <= 0x8F)
  }

  predicate ValidUtf8(s: seq<byte>) {
    s == [] || (CharLength(s) > 0 && ValidUtf8(s[CharLength(s)..]))
  }

  /** A Rust `String`, as the bytes that encode it. */
  type Utf8String = s: seq<byte> | ValidUtf8(s)

  // ----- what the grammar accepts: the encodings of characters, and nothing else -----

  /** A Unicode scalar value: any code point but the surrogates. */
  type Scalar = c: int | 0 <= c <= 0x10FFFF && !(0xD800 <= c <= 0xDFFF)

  /** The encoder of section 3 of RFC 3629: six bits in each byte after the first. */
  function EncodeChar(c: Scalar): (s: seq<byte>)
    ensures 1 <= |s| <= 4
  {
    if c < 0x80 then [c]
    else if c < 0x800 then [0xC0 + c / 64, 0x80 + c % 64]
    else if c < 0x1_0000 then [0xE0 + c / 4096, 0x80 + c / 64 % 64, 0x80 + c % 64]
    else [0xF0 + c / 262144, 0x80 + c / 4096 % 64, 0x80 + c / 64 % 64, 0x80 + c % 64]
  }

  function EncodeText(text: seq<Scalar>): seq<byte> {
    if text == [] then [] else EncodeChar(text[0]) + EncodeText(text[1..])
  }

  lemma CharLengthOfEncoded(c: Scalar, rest: seq<byte>)
    ensures CharLength(EncodeChar(c) + rest) == |EncodeChar(c)|
  {}

  lemma DecodeTwo(a: byte, b: byte) returns (c: Scalar)
    requires 0xC2 <= a <= 0xDF && Tail(b)
    ensures EncodeChar(c) == [a, b]
  {
    c := 64 * (a - 0xC0) + (b - 0x80);
  }

  lemma DecodeThree(a: byte, b: byte, d: byte) returns (c: Scalar)
    requires ThreeByteLead(a, b) && Tail(d)
    ensures EncodeChar(c) == [a, b, d]
  {
    c := 4096 * (a - 0xE0) + 64 * (b - 0x80) + (d - 0x80);
    assert c / 64 == 64 * (a - 0xE0) + (b - 0x80);
  }

  lemma DecodeFour(a: byte, b: byte, d: byte, e: byte) returns (c: Scalar)
    requires FourByteLead(a, b) && Tail(d) && Tail(e)
    ensures EncodeChar(c) == [a, b, d, e]
  {
    var high := 64 * (a - 0xF0) + (b - 0x80);
    var middle := 64 * high + (d - 0x80);
    c := 64 * middle + (e - 0x80);
    assert c / 64 == middle && c / 4096 == high && c / 262144 == a - 0xF0;
  }

  lemma DecodeChar(s: seq<byte>) returns (c: Scalar)
    requires CharLength(s) > 0
    ensures EncodeChar(c) == s[..CharLength(s)]
  {
    hide EncodeChar;
    if CharLength(s) == 1 {
      c := s[0];
      OneByteChar(c);
    } else if CharLength(s) == 2 {
      c := DecodeTwo(s[0], s[1]);
    } else if CharLength(s) == 3 {
      c := DecodeThree(s[0], s[1], s[2]);
    } else {
      c := DecodeFour(s[0], s[1], s[2], s[3]);
    }
  }

  lemma OneByteChar(c: Scalar)
    requires c < 0x80
    ensures EncodeChar(c) == [c]
  {}

  lemma {:induction false} EncodedIsValid(text: seq<Scalar>)
    ensures ValidUtf8(EncodeText(text))
  {
    hide CharLength, EncodeChar;
    if text != [] {
      var first, rest := EncodeChar(text[0]), EncodeText(text[1..]);
      EncodedIsValid(text[1..]);
      CharLengthOfEncoded(text[0], rest);
      assert (first + rest)[|first|..] == rest;
    }
  }

  lemma {:induction false} DecodeText(s: seq<byte>) returns (text: seq<Scalar>)
    requires ValidUtf8(s)
    ensures EncodeText(text) == s
    decreases |s|
  {
    hide CharLength, EncodeChar;
    if s == [] {
      text := [];
    } else {
      var n := CharLength(s);
      var c := DecodeChar(s);
      var rest := DecodeText(s[n..]);
      text := [c] + rest;
      assert text[1..] == rest && s == s[..n] + s[n..];
    }
  }

  /** A byte string is accepted exactly if it encodes some text. */
  lemma {:induction false} ValidUtf8Iff(s: seq<byte>)
    ensures ValidUtf8(s) <==> exists text: seq<Scalar> :: EncodeText(text) == s
  {
    if ValidUtf8(s) {
      var text := DecodeText(s);
    }
    if text: seq<Scalar> :| EncodeText(text) == s {
      EncodedIsValid(text);
    }
  }
}
