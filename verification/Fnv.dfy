/** The 64-bit FNV-1a hash, section 2 of draft-eastlake-fnv. */
module Fnv {
  import opened Basics
  import opened Bytes
  import opened Bits

  const OFFSET_BASIS: U64 := 0xcbf2_9ce4_8422_2325
  const PRIME: U64 := 0x0000_0100_0000_01b3

  function XorByte(h: U64, b: Byte): U64 {
    Pow2Values();
    FromBits(Xor(ToBits(h, 64), ToBits(b, 64)))
  }

  /** `wrapping_mul` by the prime. */
  function Multiply(x: U64): U64 { x * PRIME % U64_LIMIT }

  function Step(h: U64, b: Byte): U64 { Multiply(XorByte(h, b)) }

  /** The hash state after the bytes, in order. */
  function Fold(h: U64, bytes: seq<Byte>): U64 {
    if bytes == [] then h else Step(Fold(h, bytes[..|bytes| - 1]), bytes[|bytes| - 1])
  }

  function Hash(bytes: seq<Byte>): U64 { Fold(OFFSET_BASIS, bytes) }

  /** Hashing two pieces in turn hashes their concatenation. */
  lemma {:induction false} FoldAppend(h: U64, a: seq<Byte>, b: seq<Byte>)
    ensures Fold(h, a + b) == Fold(Fold(h, a), b)
    decreases |b|
  {
    if b == [] {
      assert a + b == a;
    } else {
      var n := |b| - 1;
      FoldAppend(h, a, b[..n]);
      assert (a + b)[..|a + b| - 1] == a + b[..n];
    }
  }

  // ---------------------------------------------------------------- error detection

  lemma XorByteInjective(g: U64, h: U64, a: Byte, b: Byte)
    requires XorByte(g, a) == XorByte(h, b)
    ensures g == h ==> a == b
    ensures a == b ==> g == h
  {
    Pow2Values();
    FromBitsInjective(Xor(ToBits(g, 64), ToBits(a, 64)), Xor(ToBits(h, 64), ToBits(b, 64)));
    if a == b {
      XorCancels(ToBits(g, 64), ToBits(h, 64), ToBits(a, 64));
      ToBitsInjective(g, h, 64);
    } else if g == h {
      XorCommutes(ToBits(g, 64), ToBits(a, 64));
      XorCommutes(ToBits(g, 64), ToBits(b, 64));
      XorCancels(ToBits(a, 64), ToBits(b, 64), ToBits(g, 64));
      ToBitsInjective(a, b, 64);
    }
  }

  /** `PRIME * INVERSE == 1 + CARRY * 2^64`: the prime is odd, so it can be divided out. */
  const INVERSE: U64 := 0xce96_5057_aff6_957b
  const CARRY: nat := 0xce9650590f

  /** Multiplying by the prime modulo 2^64 loses nothing. */
  lemma MultiplyInjective(x: U64, y: U64)
    requires Multiply(x) == Multiply(y)
    ensures x == y
  {
    var d, t := x - y, x * PRIME / U64_LIMIT - y * PRIME / U64_LIMIT;
    assert d * PRIME == t * U64_LIMIT;
    assert d * PRIME * INVERSE == d + d * CARRY * U64_LIMIT;
    assert d == (t * INVERSE - d * CARRY) * U64_LIMIT;
  }

  /** The step is injective in the state, and in the byte. */
  lemma StepInjective(g: U64, h: U64, a: Byte, b: Byte)
    requires Step(g, a) == Step(h, b)
    ensures g == h ==> a == b
    ensures a == b ==> g == h
  {
    MultiplyInjective(XorByte(g, a), XorByte(h, b));
    XorByteInjective(g, h, a, b);
  }

  lemma {:induction false} FoldInjective(g: U64, h: U64, bytes: seq<Byte>)
    requires g != h
    ensures Fold(g, bytes) != Fold(h, bytes)
    decreases |bytes|
  {
    if bytes != [] {
      var n := |bytes| - 1;
      FoldInjective(g, h, bytes[..n]);
      if Fold(g, bytes) == Fold(h, bytes) {
        StepInjective(Fold(g, bytes[..n]), Fold(h, bytes[..n]), bytes[n], bytes[n]);
      }
    }
  }

  /** Changing any one byte of a stream changes its hash. */
  lemma OneByteDetected(bytes: seq<Byte>, k: nat, b: Byte)
    requires k < |bytes| && b != bytes[k]
    ensures Hash(bytes[k := b]) != Hash(bytes)
  {
    var front, tail := bytes[..k], bytes[k + 1..];
    var h := Hash(front);
    assert bytes == front + [bytes[k]] + tail;
    assert bytes[k := b] == front + [b] + tail;
    FoldAppend(OFFSET_BASIS, front + [bytes[k]], tail);
    FoldAppend(OFFSET_BASIS, front + [b], tail);
    FoldAppend(OFFSET_BASIS, front, [bytes[k]]);
    FoldAppend(OFFSET_BASIS, front, [b]);
    OneStep(h, b);
    OneStep(h, bytes[k]);
    if Step(h, b) == Step(h, bytes[k]) {
      StepInjective(h, h, b, bytes[k]);
    }
    FoldInjective(Step(h, b), Step(h, bytes[k]), tail);
  }

  lemma OneStep(h: U64, b: Byte)
    ensures Fold(h, [b]) == Step(h, b)
  {
    assert [b][..0] == [];
  }

  /** `CompactL2Fnv1a64`. */
  class Fnv1a64 {
    var value: U64

    constructor ()
      ensures value == Hash([])
    {
      value := OFFSET_BASIS;
    }

    method Update(bytes: seq<Byte>)
      modifies this
      ensures value == Fold(old(value), bytes)
    {
      for i := 0 to |bytes|
        invariant value == Fold(old(value), bytes[..i])
      {
        assert bytes[..i + 1][..i] == bytes[..i];
        value := XorByte(value, bytes[i]);
        value := Multiply(value);
      }
      assert bytes[..|bytes|] == bytes;
    }
  }
}
