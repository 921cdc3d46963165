/** The laws that make the hash FNV-1a, and the draft's known answers. */
module FnvVectors {
  import opened Basics
  import opened Bytes
  import opened Bits
  import opened Words
  import opened Fnv

  // ---------------------------------------------------------------- laws

  /** A zero byte only multiplies by the prime, modulo `2^64`. */
  lemma ZeroByte(h: U64)
    ensures Fold(h, [0]) == h * 0x100_0000_01b3 % 0x1_0000_0000_0000_0000
  {
    OneStep(h, 0);
    XorZero(h);
  }

  lemma XorZero(h: U64)
    ensures XorByte(h, 0) == h
  {
    Pow2Values();
    ClearBits(64);
    assert Xor(ToBits(h, 64), ToBits(0, 64)) == ToBits(h, 64);
    FromBitsOfToBits(h, 64);
  }

  lemma {:induction false} ClearBits(n: nat)
    ensures ToBits(0, n) == Clear(n)
  {
    if n > 0 {
      ClearBits(n - 1);
    }
  }

  /** A byte is added before the multiplication. */
  lemma ByteFirst(h: U64, b: Byte)
    ensures Fold(h, [b]) == Fold(XorByte(h, b), [0])
  {
    OneStep(h, b);
    OneStep(XorByte(h, b), 0);
    XorZero(XorByte(h, b));
  }

  /** Adding a byte flips the bits of the state at which the byte has a one, and no other. */
  lemma AddedBit(h: U64, b: Byte, i: nat)
    requires i < 64
    ensures (XorByte(h, b) / Pow2(i) % 2 == 1) == ((h / Pow2(i) % 2 == 1) != (b / Pow2(i) % 2 == 1))
  {
    BitsOfXor(h, b);
    BitAt(h, 64, i);
    BitAt(b, 64, i);
    BitAt(XorByte(h, b), 64, i);
  }

  lemma BitsOfXor(h: U64, b: Byte)
    ensures ToBits(XorByte(h, b), 64) == Xor(ToBits(h, 64), ToBits(b, 64))
  {
    ToBitsOfFromBits(Xor(ToBits(h, 64), ToBits(b, 64)));
  }

  // ---------------------------------------------------------------- known answers

  lemma XorLow(a: seq<Bit>, b: seq<Bit>, high: seq<Bit>)
    requires |a| == |b|
    ensures Xor(a + high, b + Clear(|high|)) == Xor(a, b) + high
  {
  }

  lemma LowAndHigh(low: nat, high: nat, m: nat)
    requires low < 256 && high < Pow2(m)
    ensures ToBits(low + 256 * high, 8 + m) == ToBits(low, 8) + ToBits(high, m)
  {
    Pow2Values();
    ToBitsSplit(low, high, 8, m);
  }

  lemma HighPower()
    ensures Pow2(56) == 0x100_0000_0000_0000
  {
    Pow2Values();
    Pow2Add(8, 56);
  }

  lemma XorUnder(low: Byte, high: nat, b: Byte, sum: Byte, m: nat)
    requires high < Pow2(m) && ToBits(sum, 8) == Xor(ToBits(low, 8), ToBits(b, 8))
    ensures Xor(ToBits(low + 256 * high, 8 + m), ToBits(b, 8 + m)) == ToBits(sum + 256 * high, 8 + m)
  {
    LowAndHigh(low, high, m);
    LowAndHigh(b, 0, m);
    LowAndHigh(sum, high, m);
    ClearBits(m);
    XorLow(ToBits(low, 8), ToBits(b, 8), ToBits(high, m));
  }

  /** Only the low byte of the state meets the added byte. */
  lemma XorLowByte(low: Byte, high: nat, b: Byte, sum: Byte)
    requires high < 0x100_0000_0000_0000 && ToBits(sum, 8) == Xor(ToBits(low, 8), ToBits(b, 8))
    ensures XorByte(low + 256 * high, b) == sum + 256 * high
  {
    HighPower();
    XorUnder(low, high, b, sum, 56);
    Pow2Values();
    FromBitsOfToBits(sum + 256 * high, 64);
  }

  /** The value of the low byte of a word. */
  function ByteOf(x: bv64): Byte { Digit(x) + 16 * Digit(x >> 4) }

  lemma XorBytes(x: bv64, w: bv64, z: bv64)
    requires z == x ^ w
    ensures ToBits(ByteOf(z), 8) == Xor(ToBits(ByteOf(x), 8), ToBits(ByteOf(w), 8))
  {
    ByteBits(x);
    ByteBits(w);
    ByteBits(z);
    WordXor(x, w, z, 8);
  }

  lemma ByteBits(x: bv64)
    ensures ToBits(ByteOf(x), 8) == WordBits(x, 8)
  {
    TwoDigits(x, 0);
    BitsOfValue(x, 8, ByteOf(x));
  }

  lemma KnownProduct(h: U64, b: Byte, sum: U64, carry: nat, next: U64)
    requires XorByte(h, b) == sum && sum * PRIME == carry * U64_LIMIT + next
    ensures Fold(h, [b]) == next
  {
    WrapsTo(sum * PRIME, carry, next);
    OneStep(h, b);
  }

  /** One step computed: words hold the bytes added, and `carry` is what the product loses. */
  lemma KnownStep(front: seq<Byte>, b: Byte, high: nat, x: bv64, w: bv64, z: bv64, carry: nat, next: U64)
    requires high < 0x100_0000_0000_0000 && Hash(front) == ByteOf(x) + 256 * high
    requires b == ByteOf(w) && z == x ^ w
    requires (ByteOf(z) + 256 * high) * PRIME == carry * U64_LIMIT + next
    ensures Hash(front + [b]) == next
  {
    var low, sum := ByteOf(x), ByteOf(z);
    XorBytes(x, w, z);
    XorLowByte(low, high, b, sum);
    KnownProduct(low + 256 * high, b, sum + 256 * high, carry, next);
    FoldAppend(OFFSET_BASIS, front, [b]);
  }

  lemma WrapsTo(product: nat, carry: nat, next: U64)
    requires product == carry * U64_LIMIT + next
    ensures product % U64_LIMIT == next
  {
  }

  /** The hash of nothing and of `a`. */
  lemma ShortAnswers()
    ensures Hash([]) == 0xcbf2_9ce4_8422_2325
    ensures Hash([0x61]) == 0xaf63_dc4c_8601_ec8c
  {
    KnownStep([], 0x61, 0xcbf29ce4842223, 0x25, 0x61, 0x44, 0xcbf29ce5de, 0xaf63_dc4c_8601_ec8c);
    assert [] + [0x61] == [0x61];
  }

  lemma PairOne(front: seq<Byte>)
    requires Hash(front) == 0xcbf2_9ce4_8422_2325
    ensures Hash(front + [0x66] + [0x6f]) == 0x0898_5907_b541_d342
  {
    KnownStep(front, 0x66, 0xcbf29ce4842223, 0x25, 0x66, 0x43, 0xcbf29ce5de, 0xaf63_db4c_8601_ead9);
    KnownStep(front + [0x66], 0x6f, 0xaf63db4c8601ea, 0xd9, 0x6f, 0xb6, 0xaf63db4db0, 0x0898_5907_b541_d342);
  }

  lemma PairTwo(front: seq<Byte>)
    requires Hash(front) == 0x0898_5907_b541_d342
    ensures Hash(front + [0x6f] + [0x62]) == 0xdd12_0e79_0c25_12af
  {
    KnownStep(front, 0x6f, 0x8985907b541d3, 0x42, 0x6f, 0x2d, 0x8985907c3, 0xdcb2_7518_fed9_d577);
    KnownStep(front + [0x6f], 0x62, 0xdcb27518fed9d5, 0x77, 0x62, 0x15, 0xdcb2751a75, 0xdd12_0e79_0c25_12af);
  }

  lemma PairThree(front: seq<Byte>)
    requires Hash(front) == 0xdd12_0e79_0c25_12af
    ensures Hash(front + [0x61] + [0x72]) == 0x8594_4171_f739_67e8
  {
    KnownStep(front, 0x61, 0xdd120e790c2512, 0xaf, 0x61, 0xce, 0xdd120e7a83, 0xcac1_65af_a2fe_f40a);
    KnownStep(front + [0x61], 0x72, 0xcac165afa2fef4, 0x0a, 0x72, 0x78, 0xcac165b0fb, 0x8594_4171_f739_67e8);
  }

  /** The hash of `foobar`. */
  lemma LongAnswer()
    ensures Hash([0x66, 0x6f, 0x6f, 0x62, 0x61, 0x72]) == 0x8594_4171_f739_67e8
  {
    var a: seq<Byte> := [] + [0x66] + [0x6f];
    var b: seq<Byte> := a + [0x6f] + [0x62];
    var c: seq<Byte> := b + [0x61] + [0x72];
    PairOne([]);
    PairTwo(a);
    PairThree(b);
    assert c == [0x66, 0x6f, 0x6f, 0x62, 0x61, 0x72];
  }
}
