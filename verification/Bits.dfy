/** Bit strings, least significant bit first, and exclusive or. */
module Bits {

  type Bit = bool

  function ToBits(x: nat, n: nat): (b: seq<Bit>)
    ensures |b| == n
    decreases n, x
  {
    if n == 0 then [] else [x % 2 == 1] + ToBits(x / 2, n - 1)
  }

  function FromBits(b: seq<Bit>): (x: nat)
    ensures x < Pow2(|b|)
  {
    if b == [] then 0 else (if b[0] then 1 else 0) + 2 * FromBits(b[1..])
  }

  function Pow2(n: nat): (p: nat)
    ensures p >= 1
  {
    if n == 0 then 1 else 2 * Pow2(n - 1)
  }

  lemma {:induction false} Pow2Add(m: nat, n: nat)
    ensures Pow2(m + n) == Pow2(m) * Pow2(n)
    decreases n
  {
    if n > 0 {
      Pow2Add(m, n - 1);
      assert Pow2(m + n) == 2 * Pow2(m + (n - 1));
    }
  }

  lemma Pow2Values()
    ensures Pow2(8) == 0x100 && Pow2(32) == 0x1_0000_0000 && Pow2(64) == 0x1_0000_0000_0000_0000
  {
    assert Pow2(8) == 0x100;
    Pow2Add(8, 8);
    Pow2Add(16, 16);
    Pow2Add(32, 32);
  }

  lemma {:induction false} FromBitsOfToBits(x: nat, n: nat)
    requires x < Pow2(n)
    ensures FromBits(ToBits(x, n)) == x
    decreases n
  {
    if n > 0 {
      FromBitsOfToBits(x / 2, n - 1);
      assert ToBits(x, n)[1..] == ToBits(x / 2, n - 1);
    }
  }

  lemma {:induction false} ToBitsOfFromBits(b: seq<Bit>)
    ensures ToBits(FromBits(b), |b|) == b
    decreases |b|
  {
    if b != [] {
      ToBitsOfFromBits(b[1..]);
      assert FromBits(b) / 2 == FromBits(b[1..]);
    }
  }

  function Clear(n: nat): (b: seq<Bit>)
    ensures |b| == n
  {
    seq(n, _ => false)
  }

  function Xor(a: seq<Bit>, b: seq<Bit>): (c: seq<Bit>)
    requires |a| == |b|
    ensures |c| == |a|
  {
    seq(|a|, i requires 0 <= i < |a| => a[i] != b[i])
  }

  lemma XorCancels(a: seq<Bit>, b: seq<Bit>, c: seq<Bit>)
    requires |a| == |b| == |c| && Xor(a, c) == Xor(b, c)
    ensures a == b
  {
    forall i | 0 <= i < |a| ensures a[i] == b[i] {
      assert Xor(a, c)[i] == Xor(b, c)[i];
    }
  }

  lemma XorCommutes(a: seq<Bit>, b: seq<Bit>)
    requires |a| == |b|
    ensures Xor(a, b) == Xor(b, a)
  {
  }

  lemma ToBitsInjective(x: nat, y: nat, n: nat)
    requires x < Pow2(n) && y < Pow2(n) && ToBits(x, n) == ToBits(y, n)
    ensures x == y
  {
    FromBitsOfToBits(x, n);
    FromBitsOfToBits(y, n);
  }

  lemma FromBitsInjective(a: seq<Bit>, b: seq<Bit>)
    requires |a| == |b| && FromBits(a) == FromBits(b)
    ensures a == b
  {
    ToBitsOfFromBits(a);
    ToBitsOfFromBits(b);
  }

  /** Bit `i` counts `2^i`. */
  lemma {:induction false} BitAt(x: nat, n: nat, i: nat)
    requires i < n
    ensures ToBits(x, n)[i] == (x / Pow2(i) % 2 == 1)
    decreases n, x
  {
    if i > 0 {
      BitAt(x / 2, n - 1, i - 1);
      HalveThenDivide(x, Pow2(i - 1));
    }
  }

  lemma HalveThenDivide(x: nat, p: nat)
    requires p >= 1
    ensures x / (2 * p) == x / 2 / p
  {
    var h := x / 2;
    var q, r := h / p, h % p;
    Twice(q, p);
    assert h == q * p + r;
    DivideUnique(x, 2 * p, q);
  }

  lemma Twice(q: nat, p: nat)
    ensures q * (2 * p) == 2 * (q * p) && (q + 1) * (2 * p) == 2 * (q * p) + 2 * p
  {
  }

  lemma Multiples(d: int, m: nat)
    requires m >= 1
    ensures d >= 1 ==> d * m >= m
    ensures d <= -1 ==> d * m + m <= 0
  {
  }

  lemma DivideUnique(x: nat, d: nat, q: nat)
    requires d >= 1 && q * d <= x < (q + 1) * d
    ensures x / d == q
  {
    var r := x / d;
    assert r * d <= x < (r + 1) * d;
    assert (r - q) * d == r * d - q * d;
    Multiples(r - q, d);
  }

  lemma DoubleProduct(p: nat, x: nat)
    ensures 2 * (p * x) == (2 * p) * x
  {
  }

  lemma {:induction false} FromBitsAppend(a: seq<Bit>, b: seq<Bit>)
    ensures FromBits(a + b) == FromBits(a) + Pow2(|a|) * FromBits(b)
  {
    if a == [] {
      assert a + b == b;
    } else {
      var x := FromBits(b);
      FromBitsAppend(a[1..], b);
      assert (a + b)[1..] == a[1..] + b;
      DoubleProduct(Pow2(|a| - 1), x);
    }
  }

  /** The bits of `low + 2^m * high`, low part first. */
  lemma ToBitsSplit(low: nat, high: nat, m: nat, n: nat)
    requires low < Pow2(m) && high < Pow2(n)
    ensures ToBits(low + Pow2(m) * high, m + n) == ToBits(low, m) + ToBits(high, n)
  {
    var b := ToBits(low, m) + ToBits(high, n);
    FromBitsAppend(ToBits(low, m), ToBits(high, n));
    FromBitsOfToBits(low, m);
    FromBitsOfToBits(high, n);
    ToBitsOfFromBits(b);
  }

  lemma XorCons(a: Bit, x: seq<Bit>, b: Bit, y: seq<Bit>)
    requires |x| == |y|
    ensures Xor([a] + x, [b] + y) == [a != b] + Xor(x, y)
  {
  }
}
