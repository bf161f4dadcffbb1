/** Well-formed UTF-8, as table 3-7 of the Unicode Standard (and section 4 of RFC 3629) defines it. */
module Utf8 {
  import opened Numbers

  predicate Continuation(b: byte) {
    0x80 <= b <= 0xBF
  }

  predicate ValidUtf8(s: Bytes) {
    if s == [] then true
    else if s[0] <= 0x7F then ValidUtf8(s[1..])
    else if 0xC2 <= s[0] <= 0xDF then |s| >= 2 && Continuation(s[1]) && ValidUtf8(s[2..])
    else if 0xE0 <= s[0] <= 0xEF then |s| >= 3 && SecondOfThree(s[0], s[1]) && Continuation(s[2]) && ValidUtf8(s[3..])
    else if 0xF0 <= s[0] <= 0xF4 then
      |s| >= 4 && SecondOfFour(s[0], s[1]) && Continuation(s[2]) && Continuation(s[3]) && ValidUtf8(s[4..])
    else false
  }

  /** Neither an overlong form nor a surrogate. */
  predicate SecondOfThree(first: byte, second: byte) {
    Continuation(second) && (first == 0xE0 ==> second >= 0xA0) && (first == 0xED ==> second <= 0x9F)
  }

  /** Neither an overlong form nor a code point above 10FFFF. */
  predicate SecondOfFour(first: byte, second: byte) {
    Continuation(second) && (first == 0xF0 ==> second >= 0x90) && (first == 0xF4 ==> second <= 0x8F)
  }

  // ------------------------------------------------------------ what it encodes

  /** Any code point but a surrogate. */
  ghost predicate Scalar(c: nat) {
    c <= 0x10_FFFF && !(0xD800 <= c <= 0xDFFF)
  }

  /** The shortest form, the first byte telling the length, and six bits in each of the others. */
  ghost function Encode(c: nat): (b: Bytes)
    requires Scalar(c)
    ensures b != []
  {
    if c < 0x80 then [c]
    else if c < 0x800 then [0xC0 + c / 64, 0x80 + c % 64]
    else if c < 0x1_0000 then [0xE0 + c / 4096, 0x80 + c / 64 % 64, 0x80 + c % 64]
    else [0xF0 + c / 0x4_0000, 0x80 + c / 4096 % 64, 0x80 + c / 64 % 64, 0x80 + c % 64]
  }

  ghost predicate Scalars(text: seq<nat>) {
    forall i :: 0 <= i < |text| ==> Scalar(text[i])
  }

  ghost function EncodeAll(text: seq<nat>): Bytes
    requires Scalars(text)
  {
    if text == [] then [] else Encode(text[0]) + EncodeAll(text[1..])
  }

  ghost predicate Encodes(text: seq<nat>, s: Bytes) {
    Scalars(text) && EncodeAll(text) == s
  }

  lemma EncodedIsValid(c: nat, rest: Bytes)
    requires Scalar(c)
    ensures ValidUtf8(Encode(c) + rest) <==> ValidUtf8(rest)
  {
    var s := Encode(c) + rest;
    assert s[|Encode(c)|..] == rest;
  }

  lemma OfOne(a: byte) returns (c: nat)
    requires a < 0x80
    ensures Scalar(c) && Encode(c) == [a]
  {
    c := a;
  }

  lemma OfTwo(a: byte, b: byte) returns (c: nat)
    requires 0xC2 <= a <= 0xDF && Continuation(b)
    ensures Scalar(c) && Encode(c) == [a, b]
  {
    var x: int, y: int := a - 0xC0, b - 0x80;
    c := 64 * x + y;
    assert c / 64 == x && c % 64 == y;
  }

  lemma OfThree(a: byte, b: byte, d: byte) returns (c: nat)
    requires 0xE0 <= a <= 0xEF && SecondOfThree(a, b) && Continuation(d)
    ensures Scalar(c) && Encode(c) == [a, b, d]
  {
    var x: int, y: int, z: int := a - 0xE0, b - 0x80, d - 0x80;
    c := 64 * (64 * x + y) + z;
    assert c / 64 == 64 * x + y && c % 64 == z;
    assert c / 4096 == x;
  }

  lemma OfFour(a: byte, b: byte, d: byte, e: byte) returns (c: nat)
    requires 0xF0 <= a <= 0xF4 && SecondOfFour(a, b) && Continuation(d) && Continuation(e)
    ensures Scalar(c) && Encode(c) == [a, b, d, e]
  {
    var x: int, y: int, z: int, w: int := a - 0xF0, b - 0x80, d - 0x80, e - 0x80;
    var high := 64 * x + y;
    c := 64 * (64 * high + z) + w;
    assert c / 64 == 64 * high + z && c % 64 == w;
    assert c / 4096 == high && c / 0x4_0000 == x;
  }

  /** The first character of valid text. */
  lemma FirstCharacter(s: Bytes) returns (c: nat, rest: Bytes)
    requires s != [] && ValidUtf8(s)
    ensures Scalar(c) && s == Encode(c) + rest && ValidUtf8(rest)
  {
    hide Encode, Scalar;
    if s[0] < 0x80 {
      c := OfOne(s[0]);
      rest := s[1..];
    } else if s[0] < 0xE0 {
      c := OfTwo(s[0], s[1]);
      rest := s[2..];
    } else if s[0] < 0xF0 {
      c := OfThree(s[0], s[1], s[2]);
      rest := s[3..];
    } else {
      c := OfFour(s[0], s[1], s[2], s[3]);
      rest := s[4..];
    }
  }

  lemma {:induction false} AllEncodedIsValid(text: seq<nat>)
    requires Scalars(text)
    ensures ValidUtf8(EncodeAll(text))
  {
    if text != [] {
      AllEncodedIsValid(text[1..]);
      EncodedIsValid(text[0], EncodeAll(text[1..]));
    }
  }

  lemma {:induction false} ValidIsEncoded(s: Bytes) returns (text: seq<nat>)
    requires ValidUtf8(s)
    ensures Encodes(text, s)
    decreases |s|
  {
    if s == [] {
      text := [];
    } else {
      var c, rest := FirstCharacter(s);
      var tail := ValidIsEncoded(rest);
      text := [c] + tail;
      assert text[1..] == tail;
    }
  }

  /** Valid is exactly what some sequence of scalar values is encoded as, each in its shortest form. */
  lemma ValidIff(s: Bytes)
    ensures ValidUtf8(s) <==> exists text :: Encodes(text, s)
  {
    if ValidUtf8(s) {
      var text := ValidIsEncoded(s);
    } else if text :| Encodes(text, s) {
      AllEncodedIsValid(text);
    }
  }
}
