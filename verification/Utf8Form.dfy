/** Which byte strings are UTF-8: the concatenated encodings of Unicode scalar values (RFC 3629, section 3). */
module Utf8Form {
  import opened Bytes
  import opened OcbStringTable

  /** Every code point but the surrogates. */
  type Scalar = x: int | 0 <= x <= 0xD7FF || 0xE000 <= x <= 0x10FFFF witness 0

  /** Six payload bits of a continuation byte. */
  function Tail(x: nat): Byte { 0x80 + x % 0x40 }

  function Encode(x: Scalar): (b: seq<Byte>)
    ensures 1 <= |b| <= 4
  {
    if x < 0x80 then [x]
    else if x < 0x800 then [0xC0 + x / 0x40, Tail(x)]
    else if x < 0x1_0000 then [0xE0 + x / 0x1000, Tail(x / 0x40), Tail(x)]
    else [0xF0 + x / 0x4_0000, Tail(x / 0x1000), Tail(x / 0x40), Tail(x)]
  }

  function EncodeAll(xs: seq<Scalar>): seq<Byte> {
    if xs == [] then [] else Encode(xs[0]) + EncodeAll(xs[1..])
  }

  // ---------------------------------------------------------------- one character

  /** An encoding at the front is recognised at its own length. */
  lemma EncodedFront(x: Scalar, t: seq<Byte>)
    ensures CharLen(Encode(x) + t) == |Encode(x)|
  {
    var s := Encode(x) + t;
    if x >= 0x1_0000 {
      assert s[0] == 0xF0 + x / 0x4_0000 && s[1] == Tail(x / 0x1000) && s[2] == Tail(x / 0x40) && s[3] == Tail(x);
      LeadOfFour(x);
    } else if x >= 0x800 {
      assert s[0] == 0xE0 + x / 0x1000 && s[1] == Tail(x / 0x40) && s[2] == Tail(x);
      LeadOfThree(x);
    } else if x >= 0x80 {
      assert s[0] == 0xC0 + x / 0x40 && s[1] == Tail(x);
    }
  }

  lemma LeadOfThree(x: Scalar)
    requires 0x800 <= x < 0x1_0000
    ensures x / 0x1000 == 0 ==> Tail(x / 0x40) >= 0xA0
    ensures x / 0x1000 == 0xD ==> Tail(x / 0x40) <= 0x9F
    ensures x / 0x1000 <= 0xF
  {
    assert x / 0x40 == 0x40 * (x / 0x1000) + x / 0x40 % 0x40;
  }

  lemma LeadOfFour(x: Scalar)
    requires 0x1_0000 <= x
    ensures x / 0x4_0000 == 0 ==> Tail(x / 0x1000) >= 0x90
    ensures x / 0x4_0000 == 4 ==> Tail(x / 0x1000) <= 0x8F
    ensures x / 0x4_0000 <= 4
  {
    assert x / 0x1000 == 0x40 * (x / 0x4_0000) + x / 0x1000 % 0x40;
  }

  /** The scalar value of the character at the front. */
  function Decode(s: seq<Byte>): (x: Scalar)
    requires CharLen(s) > 0
  {
    if CharLen(s) == 1 then s[0]
    else if CharLen(s) == 2 then 0x40 * Payload(s[0], 0xC0) + Payload(s[1], 0x80)
    else if CharLen(s) == 3 then 0x1000 * Payload(s[0], 0xE0) + 0x40 * Payload(s[1], 0x80) + Payload(s[2], 0x80)
    else 0x4_0000 * Payload(s[0], 0xF0) + 0x1000 * Payload(s[1], 0x80) + 0x40 * Payload(s[2], 0x80) + Payload(s[3], 0x80)
  }

  function Payload(b: Byte, mark: Byte): int { b - mark }

  lemma TwoBytes(a: nat, b: nat)
    requires b < 0x40
    ensures (0x40 * a + b) / 0x40 == a && Tail(0x40 * a + b) == 0x80 + b
  {
  }

  /** A recognised character is the encoding of its scalar value. */
  lemma DecodedFront(s: seq<Byte>)
    requires CharLen(s) > 0
    ensures Encode(Decode(s)) == s[..CharLen(s)]
  {
    var n := CharLen(s);
    if n == 2 {
      TwoBytes(Payload(s[0], 0xC0), Payload(s[1], 0x80));
    } else if n == 3 {
      var a, b, c := Payload(s[0], 0xE0), Payload(s[1], 0x80), Payload(s[2], 0x80);
      TwoBytes(0x40 * a + b, c);
      TwoBytes(a, b);
      assert Decode(s) / 0x1000 == a;
    } else if n == 4 {
      var a, b, c, d := Payload(s[0], 0xF0), Payload(s[1], 0x80), Payload(s[2], 0x80), Payload(s[3], 0x80);
      TwoBytes(0x1000 * a + 0x40 * b + c, d);
      TwoBytes(0x40 * a + b, c);
      TwoBytes(a, b);
      assert Decode(s) / 0x1000 == 0x40 * a + b && Decode(s) / 0x4_0000 == a;
    }
  }

  lemma Digits64(x: nat)
    ensures x == 0x40 * (x / 0x40) + Payload(Tail(x), 0x80)
    ensures x / 0x40 / 0x40 == x / 0x1000 && x / 0x1000 / 0x40 == x / 0x4_0000
  {
  }

  lemma DecodeEncoded(x: Scalar, t: seq<Byte>)
    ensures CharLen(Encode(x) + t) > 0 && Decode(Encode(x) + t) == x
  {
    EncodedFront(x, t);
    Digits64(x);
    Digits64(x / 0x40);
    Digits64(x / 0x1000);
  }

  // ---------------------------------------------------------------- whole strings

  lemma {:induction false} EncodedIsValid(xs: seq<Scalar>)
    ensures ValidUtf8(EncodeAll(xs))
  {
    if xs != [] {
      var front, tail := Encode(xs[0]), EncodeAll(xs[1..]);
      EncodedFront(xs[0], tail);
      EncodedIsValid(xs[1..]);
      assert (front + tail)[|front|..] == tail;
    }
  }

  function DecodeAll(s: seq<Byte>): seq<Scalar>
    requires ValidUtf8(s)
    decreases |s|
  {
    if s == [] then [] else [Decode(s)] + DecodeAll(s[CharLen(s)..])
  }

  lemma {:induction false} ValidIsEncoded(s: seq<Byte>)
    requires ValidUtf8(s)
    ensures EncodeAll(DecodeAll(s)) == s
    decreases |s|
  {
    if s != [] {
      DecodedFront(s);
      ValidIsEncoded(s[CharLen(s)..]);
      assert DecodeAll(s)[1..] == DecodeAll(s[CharLen(s)..]);
    }
  }

  /** A byte string is accepted exactly when it spells scalar values. */
  lemma ValidUtf8Iff(s: seq<Byte>)
    ensures ValidUtf8(s) <==> exists xs :: s == EncodeAll(xs)
  {
    if ValidUtf8(s) {
      ValidIsEncoded(s);
    }
    if xs :| s == EncodeAll(xs) {
      EncodedIsValid(xs);
    }
  }

  /** Encoding loses nothing: the scalar values come back. */
  lemma {:induction false} DecodeOfEncode(xs: seq<Scalar>)
    ensures ValidUtf8(EncodeAll(xs)) && DecodeAll(EncodeAll(xs)) == xs
  {
    EncodedIsValid(xs);
    if xs != [] {
      var front, tail := Encode(xs[0]), EncodeAll(xs[1..]);
      DecodeOfEncode(xs[1..]);
      EncodedFront(xs[0], tail);
      assert (front + tail)[|front|..] == tail;
      DecodeEncoded(xs[0], tail);
    }
  }
}
