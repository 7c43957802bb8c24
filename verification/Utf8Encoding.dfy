/** Well-formed UTF-8 against its definition: the encodings of sequences of Unicode scalar
    values, by the table in section 3 of RFC 3629. */
module Utf8Encoding {
  import opened Utf8

  /** A code point that is no surrogate. */
  type Scalar = c: int | 0 <= c < 0x11_0000 && !(0xD800 <= c < 0xE000)

  function TailByte(bits: int): Byte { 0x80 + bits % 64 }

  function EncodedScalar(c: Scalar): Text {
    if c < 0x80 then [c]
    else if c < 0x800 then [0xC0 + c / 64, TailByte(c)]
    else if c < 0x1_0000 then [0xE0 + c / 64 / 64, TailByte(c / 64), TailByte(c)]
    else [0xF0 + c / 64 / 64 / 64, TailByte(c / 64 / 64), TailByte(c / 64), TailByte(c)]
  }

  function EncodedText(scalars: seq<Scalar>): Text {
    if scalars == [] then [] else EncodedScalar(scalars[0]) + EncodedText(scalars[1..])
  }

  lemma ScalarIsChar(c: Scalar, rest: Text)
    ensures CharLength(EncodedScalar(c) + rest) == |EncodedScalar(c)| > 0
  {
    var s := EncodedScalar(c) + rest;
    assert forall i :: 0 <= i < |EncodedScalar(c)| ==> s[i] == EncodedScalar(c)[i];
  }

  /** The bits in the first byte of a character, and then six bits per tail byte. */
  function Bits(s: Text, n: nat): nat
    requires 0 < n <= |s| && n == CharLength(s)
  {
    s[0] as int - if n == 1 then 0 else if n == 2 then 0xC0 else if n == 3 then 0xE0 else 0xF0
  }

  function TailBits(b: Byte): (bits: nat)
    requires IsTail(b)
    ensures bits < 64
  {
    b as int - 0x80
  }

  function Joined(high: nat, b: Byte): (bits: nat)
    requires IsTail(b)
    ensures bits / 64 == high && TailByte(bits) == b
  {
    64 * high + TailBits(b)
  }

  /** The scalar the first character encodes. */
  function Decode(s: Text): Scalar
    requires CharLength(s) > 0
  {
    var n := CharLength(s);
    var head := Bits(s, n);
    if n == 1 then head
    else if n == 2 then Joined(head, s[1])
    else if n == 3 then Joined(Joined(head, s[1]), s[2])
    else Joined(Joined(Joined(head, s[1]), s[2]), s[3])
  }

  lemma CharIsScalar(s: Text)
    requires CharLength(s) > 0
    ensures s[..CharLength(s)] == EncodedScalar(Decode(s))
  {
    var n, c := CharLength(s), Decode(s) as int;
    if n == 2 {
      assert s[..n] == [0xC0 + c / 64, TailByte(c)];
    } else if n == 3 {
      assert s[..n] == [0xE0 + c / 64 / 64, TailByte(c / 64), TailByte(c)];
    } else if n == 4 {
      assert s[..n] == [0xF0 + c / 64 / 64 / 64, TailByte(c / 64 / 64), TailByte(c / 64), TailByte(c)];
    }
  }

  /** Text is well formed exactly when it encodes some scalar values. */
  lemma ValidExactly(s: Text)
    ensures Valid(s) <==> exists scalars :: EncodedText(scalars) == s
  {
    if Valid(s) {
      var scalars := ScalarsOf(s);
    }
    forall scalars | EncodedText(scalars) == s ensures Valid(s) {
      EncodedIsValid(scalars);
    }
  }

  lemma {:induction false} EncodedIsValid(scalars: seq<Scalar>)
    ensures Valid(EncodedText(scalars))
  {
    hide EncodedScalar, CharLength;
    if scalars != [] {
      var first, rest := EncodedScalar(scalars[0]), EncodedText(scalars[1..]);
      ScalarIsChar(scalars[0], rest);
      EncodedIsValid(scalars[1..]);
      assert (first + rest)[|first|..] == rest;
    }
  }

  lemma {:induction false} ScalarsOf(s: Text) returns (scalars: seq<Scalar>)
    requires Valid(s)
    ensures EncodedText(scalars) == s
  {
    hide EncodedScalar, CharLength, Decode;
    scalars := [];
    if s != [] {
      var n := CharLength(s);
      var more := ScalarsOf(s[n..]);
      CharIsScalar(s);
      scalars := [Decode(s)] + more;
      assert scalars[1..] == more && s == s[..n] + s[n..];
    }
  }
}
