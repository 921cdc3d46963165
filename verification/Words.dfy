/** Machine words and their bits, for computing with constants. */
module Words {
  import opened Bits

  function Low(x: bv64): Bit { x & 1 == 1 }

  /** The word without its `n` low bits. */
  function Drop(x: bv64, n: nat): bv64
    decreases n
  {
    if n == 0 then x else Drop(x >> 1, n - 1)
  }

  function BitOf(x: bv64, i: nat): Bit { Low(Drop(x, i)) }

  /** The `n` low bits of a word. */
  function WordBits(x: bv64, n: nat): (b: seq<Bit>)
    ensures |b| == n
  {
    seq(n, i requires 0 <= i < n => BitOf(x, i))
  }

  lemma LowXor(x: bv64, y: bv64, z: bv64)
    requires z == x ^ y
    ensures Low(z) == (Low(x) != Low(y))
    ensures z >> 1 == (x >> 1) ^ (y >> 1)
  {
  }

  lemma BitFront(x: bv64, half: bv64, i: nat)
    requires half == x >> 1
    ensures BitOf(x, 0) == Low(x) && BitOf(x, i + 1) == BitOf(half, i)
  {
  }

  lemma {:induction false} BitXor(x: bv64, y: bv64, z: bv64, i: nat)
    requires z == x ^ y
    ensures BitOf(z, i) == (BitOf(x, i) != BitOf(y, i))
    decreases i
  {
    LowXor(x, y, z);
    var u, v, w := x >> 1, y >> 1, z >> 1;
    if i == 0 {
      BitFront(x, u, 0);
      BitFront(y, v, 0);
      BitFront(z, w, 0);
    } else {
      BitXor(u, v, w, i - 1);
      BitFront(x, u, i - 1);
      BitFront(y, v, i - 1);
      BitFront(z, w, i - 1);
    }
  }

  lemma WordXor(x: bv64, y: bv64, z: bv64, n: nat)
    requires z == x ^ y
    ensures WordBits(z, n) == Xor(WordBits(x, n), WordBits(y, n))
  {
    forall i | 0 <= i < n ensures BitOf(z, i) == (BitOf(x, i) != BitOf(y, i)) {
      BitXor(x, y, z, i);
    }
  }

  lemma DropByte(x: bv64)
    ensures Drop(x, 8) == x >> 8
  {
  }

  lemma {:induction false} DropAdd(x: bv64, m: nat, n: nat)
    ensures Drop(x, m + n) == Drop(Drop(x, m), n)
    decreases m
  {
    if m > 0 {
      DropAdd(x >> 1, m - 1, n);
    }
  }

  lemma {:induction false} DropZero(n: nat)
    ensures Drop(0, n) == 0
  {
    if n > 0 {
      assert 0 as bv64 >> 1 == 0;
      DropZero(n - 1);
    }
  }

  // ---------------------------------------------------------------- numbers

  /** The value of the four low bits. */
  function Digit(x: bv64): nat {
    (if x & 1 == 0 then 0 else 1) + (if x & 2 == 0 then 0 else 2) + (if x & 4 == 0 then 0 else 4) + (if x & 8 == 0 then 0 else 8)
  }

  function Value(x: bv64, n: nat): nat
    decreases n, x
  {
    if n == 0 then 0 else (if x & 1 == 0 then 0 else 1) + 2 * Value(x >> 1, n - 1)
  }

  lemma WordTail(x: bv64, half: bv64, n: nat)
    requires n > 0 && half == x >> 1
    ensures WordBits(x, n)[1..] == WordBits(half, n - 1)
  {
    forall i | 0 <= i < n - 1 ensures BitOf(x, i + 1) == BitOf(half, i) {
    }
  }

  lemma LowBit(x: bv64)
    ensures Low(x) == (x & 1 != 0)
  {
  }

  lemma {:induction false} WordValue(x: bv64, n: nat)
    ensures FromBits(WordBits(x, n)) == Value(x, n)
    decreases n
  {
    if n > 0 {
      var half := x >> 1;
      WordTail(x, half, n);
      WordValue(half, n - 1);
      LowBit(x);
      assert WordBits(x, n)[0] == Low(x);
    }
  }

  lemma ShiftedBits(x: bv64)
    ensures x >> 1 >> 1 == x >> 2 && x >> 2 >> 1 == x >> 3 && x >> 3 >> 1 == x >> 4
    ensures ((x >> 1) & 1 == 0) == (x & 2 == 0) && ((x >> 2) & 1 == 0) == (x & 4 == 0) && ((x >> 3) & 1 == 0) == (x & 8 == 0)
  {
  }

  lemma OneDigit(x: bv64, n: nat)
    ensures Value(x, n + 4) == Digit(x) + 16 * Value(x >> 4, n)
  {
    ShiftedBits(x);
    assert Value(x, n + 4) == (if x & 1 == 0 then 0 else 1) + 2 * Value(x >> 1, n + 3);
    assert Value(x >> 1, n + 3) == (if x & 2 == 0 then 0 else 1) + 2 * Value(x >> 2, n + 2);
    assert Value(x >> 2, n + 2) == (if x & 4 == 0 then 0 else 1) + 2 * Value(x >> 3, n + 1);
    assert Value(x >> 3, n + 1) == (if x & 8 == 0 then 0 else 1) + 2 * Value(x >> 4, n);
  }

  lemma TwoDigits(x: bv64, n: nat)
    ensures Value(x, n + 8) == Digit(x) + 0x10 * Digit(x >> 4) + 0x100 * Value(x >> 8, n)
  {
    assert x >> 4 >> 4 == x >> 8;
    OneDigit(x, n + 4);
    OneDigit(x >> 4, n);
  }

  lemma FourDigits(x: bv64, n: nat)
    ensures Value(x, n + 16) ==
            Digit(x) + 0x10 * Digit(x >> 4) + 0x100 * Digit(x >> 8) + 0x1000 * Digit(x >> 12) + 0x1_0000 * Value(x >> 16, n)
  {
    assert x >> 8 >> 4 == x >> 12 && x >> 8 >> 8 == x >> 16;
    TwoDigits(x, n + 8);
    TwoDigits(x >> 8, n);
  }

  /** A word with value `v` has the bits of the number `v`. */
  lemma BitsOfValue(x: bv64, n: nat, v: nat)
    requires Value(x, n) == v
    ensures WordBits(x, n) == ToBits(v, n) && FromBits(WordBits(x, n)) == v
  {
    WordValue(x, n);
    ToBitsOfFromBits(WordBits(x, n));
  }
}
