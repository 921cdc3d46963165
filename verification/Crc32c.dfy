/**
 CRC32C: the division it stands for, the table-driven form, and the corruption it
 detects. A 32-bit state is its bits, least significant first.
 */
module Crc32c {
  import opened Bytes
  import opened Bits

  type Word = w: seq<Bit> | |w| == 32 witness Clear(32)

  /** The reflected polynomial constant of the format. */
  const POLY: Word := ToBits(0x82F6_3B78, 32)

  const INIT: Word := ToBits(0xFFFF_FFFF, 32)

  // ---------------------------------------------------------------- the loop body

  function ShiftRight(c: Word): Word { c[1..] + [false] }

  /** One bit of the table-building loop. */
  function BitStep(c: Word): Word {
    if c[0] then Xor(ShiftRight(c), POLY) else ShiftRight(c)
  }

  function Steps(c: Word, n: nat): Word
    decreases n, c
  {
    if n == 0 then c else Steps(BitStep(c), n - 1)
  }

  /** A byte as a 32-bit value. */
  function Widen(b: Byte): Word { ToBits(b, 8) + Clear(24) }

  function LowByte(c: Word): Word { c[..8] + Clear(24) }

  function ShiftByte(c: Word): Word { c[8..] + Clear(8) }

  /** The table entry of a byte value. */
  function Entry(low: Word): Word { Steps(low, 8) }

  /** The table-driven step. */
  function Step(state: Word, b: Byte): Word {
    Xor(Entry(LowByte(Xor(state, Widen(b)))), ShiftByte(state))
  }

  function Update(state: Word, bytes: seq<Byte>): Word {
    if bytes == [] then state else Step(Update(state, bytes[..|bytes| - 1]), bytes[|bytes| - 1])
  }

  function Finish(state: Word): Word { Xor(state, INIT) }

  function Checksum(bytes: seq<Byte>): U32 {
    Pow2Values();
    FromBits(Finish(Update(INIT, bytes)))
  }

  // ---------------------------------------------------------------- linearity

  lemma BitStepXor(a: Word, b: Word)
    ensures BitStep(Xor(a, b)) == Xor(BitStep(a), BitStep(b))
  {
  }

  lemma {:induction false} StepsXor(a: Word, b: Word, n: nat)
    ensures Steps(Xor(a, b), n) == Xor(Steps(a, n), Steps(b, n))
    decreases n
  {
    if n > 0 {
      BitStepXor(a, b);
      StepsXor(BitStep(a), BitStep(b), n - 1);
    }
  }

  /** Bits above `n` clear ones are only shifted. */
  lemma {:induction false} StepsShift(c: Word, n: nat)
    requires n <= 32 && c[..n] == Clear(n)
    ensures Steps(c, n) == c[n..] + Clear(n)
    decreases n
  {
    if n > 0 {
      var d := BitStep(c);
      assert !c[..n][0];
      assert d[..n - 1] == c[..n][1..];
      StepsShift(d, n - 1);
      assert d[n - 1..] + Clear(n - 1) == c[n..] + Clear(n);
    }
  }

  /** The table-driven step is eight steps of the bit-by-bit division. */
  lemma StepIsDivision(state: Word, b: Byte)
    ensures Step(state, b) == Steps(Xor(state, Widen(b)), 8)
  {
    var x := Xor(state, Widen(b));
    var high := Clear(8) + x[8..];
    assert x == Xor(LowByte(x), high);
    StepsXor(LowByte(x), high, 8);
    StepsShift(high, 8);
    assert high[8..] + Clear(8) == ShiftByte(state);
  }

  /** Updating over two pieces in turn updates over their concatenation. */
  lemma {:induction false} UpdateAppend(state: Word, a: seq<Byte>, b: seq<Byte>)
    ensures Update(state, a + b) == Update(Update(state, a), b)
    decreases |b|
  {
    if b == [] {
      assert a + b == a;
    } else {
      var n := |b| - 1;
      UpdateAppend(state, a, b[..n]);
      assert (a + b)[..|a + b| - 1] == a + b[..n];
    }
  }

  // ---------------------------------------------------------------- one message bit at a time

  /** The division register, fed one message bit. */
  function FeedBit(state: Word, bit: Bit): Word { BitStep(Xor(state, [bit] + Clear(31))) }

  function Feed(state: Word, message: seq<Bit>): Word
    decreases |message|
  {
    if message == [] then state else Feed(FeedBit(state, message[0]), message[1..])
  }

  /** Message bits aligned with the register's low end. */
  function Padded(message: seq<Bit>): Word
    requires |message| <= 32
  {
    message + Clear(32 - |message|)
  }

  lemma AddMessage(state: Word, message: seq<Bit>)
    requires 0 < |message| <= 32
    ensures Xor(Xor(state, [message[0]] + Clear(31)), [false] + Padded(message[1..])[..31]) == Xor(state, Padded(message))
  {
  }

  lemma ShiftMessage(tail: seq<Bit>)
    requires |tail| < 32
    ensures BitStep([false] + Padded(tail)[..31]) == Padded(tail)
  {
  }

  /** Adding a message and stepping feeds its first bit and leaves the others added. */
  lemma FeedStep(state: Word, message: seq<Bit>)
    requires 0 < |message| <= 32
    ensures BitStep(Xor(state, Padded(message))) == Xor(FeedBit(state, message[0]), Padded(message[1..]))
  {
    var head, tail := [message[0]] + Clear(31), [false] + Padded(message[1..])[..31];
    ShiftMessage(message[1..]);
    BitStepXor(Xor(state, head), tail);
    AddMessage(state, message);
  }

  lemma XorNothing(state: Word)
    ensures Xor(state, Padded([])) == state
  {
  }

  /** Up to 32 message bits can be added to the register before stepping. */
  lemma {:induction false} FeedIsSteps(state: Word, message: seq<Bit>)
    requires |message| <= 32
    ensures Feed(state, message) == Steps(Xor(state, Padded(message)), |message|)
    decreases |message|
  {
    if message == [] {
      XorNothing(state);
    } else {
      FeedStep(state, message);
      FeedIsSteps(FeedBit(state, message[0]), message[1..]);
    }
  }

  /** A byte enters the division least significant bit first. */
  lemma StepFeeds(state: Word, b: Byte)
    ensures Step(state, b) == Feed(state, ToBits(b, 8))
  {
    StepIsDivision(state, b);
    FeedIsSteps(state, ToBits(b, 8));
  }

  function MessageBits(bytes: seq<Byte>): (bits: seq<Bit>)
    ensures |bits| == 8 * |bytes|
  {
    if bytes == [] then [] else MessageBits(bytes[..|bytes| - 1]) + ToBits(bytes[|bytes| - 1], 8)
  }

  lemma {:induction false} FeedAppend(state: Word, a: seq<Bit>, b: seq<Bit>)
    ensures Feed(state, a + b) == Feed(Feed(state, a), b)
    decreases |a|
  {
    if a == [] {
      assert a + b == b;
    } else {
      assert (a + b)[1..] == a[1..] + b;
      FeedAppend(FeedBit(state, a[0]), a[1..], b);
    }
  }

  /** The table-driven update is the bit-by-bit division of the whole message. */
  lemma {:induction false} UpdateFeeds(state: Word, bytes: seq<Byte>)
    ensures Update(state, bytes) == Feed(state, MessageBits(bytes))
  {
    if bytes != [] {
      var n := |bytes| - 1;
      UpdateFeeds(state, bytes[..n]);
      StepFeeds(Update(state, bytes[..n]), bytes[n]);
      FeedAppend(state, MessageBits(bytes[..n]), ToBits(bytes[n], 8));
    }
  }

  // ---------------------------------------------------------------- nothing is lost

  /** The top bit of the polynomial records which branch was taken. */
  lemma PolyTop()
    ensures POLY[31]
  {
    Pow2Values();
    assert Pow2(32) == 2 * Pow2(31);
    TopBit(0x82F6_3B78, 32);
  }

  lemma {:induction false} TopBit(x: nat, n: nat)
    requires 0 < n && Pow2(n - 1) <= x < Pow2(n)
    ensures ToBits(x, n)[n - 1]
    decreases n, x
  {
    if n > 1 {
      TopBit(x / 2, n - 1);
    }
  }

  lemma TopOfStep(c: Word)
    ensures BitStep(c)[31] == c[0]
  {
    PolyTop();
  }

  lemma WordHead(c: Word)
    ensures c == [c[0]] + ShiftRight(c)[..31]
  {
  }

  lemma BitStepInjective(a: Word, b: Word)
    requires BitStep(a) == BitStep(b)
    ensures a == b
  {
    TopOfStep(a);
    TopOfStep(b);
    if a[0] {
      XorCancels(ShiftRight(a), ShiftRight(b), POLY);
    }
    WordHead(a);
    WordHead(b);
  }

  lemma {:induction false} StepsInjective(a: Word, b: Word, n: nat)
    requires Steps(a, n) == Steps(b, n)
    ensures a == b
    decreases n
  {
    if n > 0 {
      StepsInjective(BitStep(a), BitStep(b), n - 1);
      BitStepInjective(a, b);
    }
  }

  /** Distinct states stay distinct under the same message. */
  lemma {:induction false} FeedInjectiveInState(s: Word, t: Word, message: seq<Bit>)
    requires Feed(s, message) == Feed(t, message)
    ensures s == t
    decreases |message|
  {
    if message != [] {
      FeedInjectiveInState(FeedBit(s, message[0]), FeedBit(t, message[0]), message[1..]);
      var bit := [message[0]] + Clear(31);
      BitStepInjective(Xor(s, bit), Xor(t, bit));
      XorCancels(s, t, bit);
    }
  }

  /** Distinct messages of at most 32 bits lead one state to distinct states. */
  lemma FeedInjectiveInMessage(state: Word, a: seq<Bit>, b: seq<Bit>)
    requires |a| == |b| <= 32 && Feed(state, a) == Feed(state, b)
    ensures a == b
  {
    FeedIsSteps(state, a);
    FeedIsSteps(state, b);
    StepsInjective(Xor(state, Padded(a)), Xor(state, Padded(b)), |a|);
    XorCommutes(state, Padded(a));
    XorCommutes(state, Padded(b));
    XorCancels(Padded(a), Padded(b), state);
    assert a == Padded(a)[..|a|] && b == Padded(b)[..|b|];
  }

  /** The step is injective in the state, and in the byte. */
  lemma StepInjective(s: Word, t: Word, a: Byte, b: Byte)
    ensures Step(s, a) == Step(t, a) ==> s == t
    ensures Step(s, a) == Step(s, b) ==> a == b
  {
    StepFeeds(s, a);
    StepFeeds(t, a);
    StepFeeds(s, b);
    if Step(s, a) == Step(t, a) {
      FeedInjectiveInState(s, t, ToBits(a, 8));
    }
    if Step(s, a) == Step(s, b) {
      FeedInjectiveInMessage(s, ToBits(a, 8), ToBits(b, 8));
      Pow2Values();
      ToBitsInjective(a, b, 8);
    }
  }

  /**
   A burst of at most 32 bits anywhere in a message changes its register: two messages
   that agree outside the burst and reach one state are equal.
   */
  lemma BurstDetected(state: Word, front: seq<Bit>, a: seq<Bit>, b: seq<Bit>, tail: seq<Bit>)
    requires |a| == |b| <= 32 && Feed(state, front + a + tail) == Feed(state, front + b + tail)
    ensures a == b
  {
    FeedAppend(state, front + a, tail);
    FeedAppend(state, front + b, tail);
    FeedAppend(state, front, a);
    FeedAppend(state, front, b);
    var mid := Feed(state, front);
    FeedInjectiveInState(Feed(mid, a), Feed(mid, b), tail);
    FeedInjectiveInMessage(mid, a, b);
  }

  lemma {:induction false} MessageBitsAppend(a: seq<Byte>, b: seq<Byte>)
    ensures MessageBits(a + b) == MessageBits(a) + MessageBits(b)
  {
    if b == [] {
      assert a + b == a;
    } else {
      var n := |b| - 1;
      MessageBitsAppend(a, b[..n]);
      assert (a + b)[..|a + b| - 1] == a + b[..n];
    }
  }

  lemma Aligned2<T>(a: seq<T>, u: seq<T>, b: seq<T>, v: seq<T>)
    requires |a| == |b| && a + u == b + v
    ensures a == b && u == v
  {
    assert a == (a + u)[..|a|] && u == (a + u)[|a|..] && b == (b + v)[..|b|] && v == (b + v)[|b|..];
  }

  lemma {:induction false} MessageBitsInjective(a: seq<Byte>, b: seq<Byte>)
    requires |a| == |b| && MessageBits(a) == MessageBits(b)
    ensures a == b
  {
    if a != [] {
      var n := |a| - 1;
      Aligned2(MessageBits(a[..n]), ToBits(a[n], 8), MessageBits(b[..n]), ToBits(b[n], 8));
      MessageBitsInjective(a[..n], b[..n]);
      Pow2Values();
      ToBitsInjective(a[n], b[n], 8);
      assert a == a[..n] + [a[n]] && b == b[..n] + [b[n]];
    }
  }

  /** Equal checksums of messages that agree outside four consecutive bytes: equal messages. */
  lemma ByteBurstDetected(front: seq<Byte>, a: seq<Byte>, b: seq<Byte>, tail: seq<Byte>)
    requires |a| == |b| <= 4 && Checksum(front + a + tail) == Checksum(front + b + tail)
    ensures a == b
  {
    var s, t := Update(INIT, front + a + tail), Update(INIT, front + b + tail);
    FromBitsInjective(Finish(s), Finish(t));
    XorCancels(s, t, INIT);
    UpdateFeeds(INIT, front + a + tail);
    UpdateFeeds(INIT, front + b + tail);
    MessageBitsAppend(front + a, tail);
    MessageBitsAppend(front + b, tail);
    MessageBitsAppend(front, a);
    MessageBitsAppend(front, b);
    BurstDetected(INIT, MessageBits(front), MessageBits(a), MessageBits(b), MessageBits(tail));
    MessageBitsInjective(a, b);
  }

  function Reversed(b: seq<Bit>): (r: seq<Bit>)
    ensures |r| == |b|
  {
    if b == [] then [] else Reversed(b[1..]) + [b[0]]
  }

  /** The number whose `n` low bits are those of `x` in the opposite order, above `acc`'s. */
  function Flip(x: nat, acc: nat, n: nat): nat
    decreases n, acc, x
  {
    if n == 0 then acc else Flip(x / 2, 2 * acc + x % 2, n - 1)
  }

  lemma ToBitsDouble(acc: nat, bit: nat, m: nat)
    requires bit <= 1
    ensures ToBits(2 * acc + bit, m + 1) == [bit == 1] + ToBits(acc, m)
  {
  }

  lemma ReversedFront(x: nat, n: nat)
    requires n > 0
    ensures Reversed(ToBits(x, n)) == Reversed(ToBits(x / 2, n - 1)) + [x % 2 == 1]
  {
    assert ToBits(x, n)[1..] == ToBits(x / 2, n - 1);
  }

  lemma MoveBit(a: seq<Bit>, bit: Bit, b: seq<Bit>)
    ensures a + ([bit] + b) == (a + [bit]) + b
  {
  }

  lemma {:induction false} FlipReverses(x: nat, acc: nat, n: nat, m: nat)
    ensures ToBits(Flip(x, acc, n), n + m) == Reversed(ToBits(x, n)) + ToBits(acc, m)
    decreases n, x
  {
    if n == 0 {
      assert Reversed(ToBits(x, 0)) + ToBits(acc, m) == ToBits(acc, m);
    } else {
      FlipReverses(x / 2, 2 * acc + x % 2, n - 1, m + 1);
      ToBitsDouble(acc, x % 2, m);
      ReversedFront(x, n);
      MoveBit(Reversed(ToBits(x / 2, n - 1)), x % 2 == 1, ToBits(acc, m));
    }
  }

  lemma FlipNibble(x: nat, rest: nat, bits: seq<nat>, acc: nat, n: nat)
    requires |bits| == 4 && (forall i :: 0 <= i < 4 ==> bits[i] <= 1)
    requires x == 16 * rest + 8 * bits[3] + 4 * bits[2] + 2 * bits[1] + bits[0]
    ensures Flip(x, acc, n + 4) == Flip(rest, 16 * acc + 8 * bits[0] + 4 * bits[1] + 2 * bits[2] + bits[3], n)
  {
    assert x / 2 == 8 * rest + 4 * bits[3] + 2 * bits[2] + bits[1];
    assert x / 2 / 2 == 4 * rest + 2 * bits[3] + bits[2];
    assert x / 2 / 2 / 2 == 2 * rest + bits[3];
    var acc1, acc2, acc3 := 2 * acc + bits[0], 4 * acc + 2 * bits[0] + bits[1], 8 * acc + 4 * bits[0] + 2 * bits[1] + bits[2];
    assert Flip(x, acc, n + 4) == Flip(x / 2, acc1, n + 3);
    assert Flip(x / 2, acc1, n + 3) == Flip(x / 2 / 2, acc2, n + 2);
    assert Flip(x / 2 / 2, acc2, n + 2) == Flip(x / 2 / 2 / 2, acc3, n + 1);
  }

  lemma FlippedLow()
    ensures Flip(0x82F6_3B78, 0, 32) == Flip(0x82F6, 0x1EDC, 16)
  {
    FlipNibble(0x82F63B78, 0x82F63B7, [0, 0, 0, 1], 0x0, 28);
    FlipNibble(0x82F63B7, 0x82F63B, [1, 1, 1, 0], 0x1, 24);
    FlipNibble(0x82F63B, 0x82F63, [1, 1, 0, 1], 0x1E, 20);
    FlipNibble(0x82F63, 0x82F6, [1, 1, 0, 0], 0x1ED, 16);
  }

  lemma FlippedHigh()
    ensures Flip(0x82F6, 0x1EDC, 16) == 0x1EDC_6F41
  {
    FlipNibble(0x82F6, 0x82F, [0, 1, 1, 0], 0x1EDC, 12);
    FlipNibble(0x82F, 0x82, [1, 1, 1, 1], 0x1EDC6, 8);
    FlipNibble(0x82, 0x8, [0, 1, 0, 0], 0x1EDC6F, 4);
    FlipNibble(0x8, 0x0, [0, 0, 0, 1], 0x1EDC6F4, 0);
  }

  /** The constant is the polynomial of section 12.1 of RFC 3720, 0x1EDC6F41, highest power first. */
  lemma PolyIsCastagnoli()
    ensures Reversed(POLY) == ToBits(0x1EDC_6F41, 32)
  {
    FlippedLow();
    FlippedHigh();
    FlipReverses(0x82F6_3B78, 0, 32, 0);
  }

  // ---------------------------------------------------------------- polynomial remainder

  /**
   Polynomials over GF(2), coefficient of the highest power first. `Multiple(q)` is the
   product of `q` and the generator `x^32 + POLY`.
   */
  function Multiple(q: seq<Bit>): (m: seq<Bit>)
    ensures |m| == |q| + 32
  {
    if q == [] then Clear(32)
    else
      var rest := [false] + Multiple(q[1..]);
      if q[0] then Xor(Aligned(|q| - 1), rest) else rest
  }

  /** The quotient the division register never stores. */
  function Quotient(state: Word, message: seq<Bit>): (q: seq<Bit>)
    ensures |q| == |message|
    decreases |message|
  {
    if message == [] then []
    else [state[0] != message[0]] + Quotient(FeedBit(state, message[0]), message[1..])
  }

  /** The dividend: message times `x^32`, with the initial state added to its leading bits. */
  function Dividend(state: Word, message: seq<Bit>): (d: seq<Bit>)
    ensures |d| == |message| + 32
  {
    Xor(message + Clear(32), state + Clear(|message|))
  }

  lemma FedRegister(state: Word, bit: Bit)
    ensures FeedBit(state, bit) == if state[0] != bit then Xor(ShiftRight(state), POLY) else ShiftRight(state)
  {
    assert ShiftRight(Xor(state, [bit] + Clear(31))) == ShiftRight(state);
  }

  /** The generator, aligned with the leading bit of a dividend `n` bits longer than it. */
  function Aligned(n: nat): (g: seq<Bit>)
    ensures |g| == n + 33
  {
    [true] + POLY + Clear(n)
  }

  lemma XorPadded(a: seq<Bit>, b: seq<Bit>, n: nat)
    requires |a| == |b|
    ensures Xor(a, b) + Clear(n) == Xor(a + Clear(n), b + Clear(n))
  {
  }

  lemma XorTwice(m: seq<Bit>, s: seq<Bit>, p: seq<Bit>)
    requires |m| == |s| == |p|
    ensures Xor(p, Xor(m, Xor(s, p))) == Xor(m, s)
  {
  }

  lemma DividendHead(state: Word, message: seq<Bit>)
    requires message != []
    ensures Dividend(state, message) ==
            [state[0] != message[0]] + Xor(message[1..] + Clear(32), ShiftRight(state) + Clear(|message| - 1))
  {
    var n := |message|;
    assert message + Clear(32) == [message[0]] + (message[1..] + Clear(32));
    assert state + Clear(n) == [state[0]] + (ShiftRight(state) + Clear(n - 1));
    XorCons(message[0], message[1..] + Clear(32), state[0], ShiftRight(state) + Clear(n - 1));
  }

  /** Taking the leading bit off a dividend, for whatever word the register holds next. */
  lemma DividendStep(state: Word, next: Word, message: seq<Bit>)
    requires message != []
    requires next == if state[0] != message[0] then Xor(ShiftRight(state), POLY) else ShiftRight(state)
    ensures var tail := [false] + Dividend(next, message[1..]);
            Dividend(state, message) == if state[0] != message[0] then Xor(Aligned(|message| - 1), tail) else tail
  {
    var n := |message| - 1;
    DividendHead(state, message);
    if state[0] != message[0] {
      var m, s, p := message[1..] + Clear(32), ShiftRight(state) + Clear(n), POLY + Clear(n);
      XorPadded(ShiftRight(state), POLY, n);
      XorTwice(m, s, p);
      assert Aligned(n) == [true] + p;
      XorCons(true, p, false, Dividend(next, message[1..]));
    }
  }

  lemma XorAssociates(a: seq<Bit>, b: seq<Bit>, c: seq<Bit>)
    requires |a| == |b| == |c|
    ensures Xor(a, Xor(b, c)) == Xor(Xor(a, b), c)
  {
  }

  lemma XorUnderZero(a: seq<Bit>, n: nat, r: Word)
    requires |a| == n + 32
    ensures [false] + Xor(a, Clear(n) + r) == Xor([false] + a, Clear(n + 1) + r)
  {
  }

  /** The register holds the remainder of the dividend by the generator polynomial. */
  lemma {:induction false} RegisterIsRemainder(state: Word, message: seq<Bit>)
    ensures Dividend(state, message) ==
            Xor(Multiple(Quotient(state, message)), Clear(|message|) + Feed(state, message))
    decreases |message|
  {
    if message == [] {
      assert state + Clear(0) == state && [] + Clear(32) == Clear(32) && Clear(0) + state == state;
    } else {
      var n, next := |message| - 1, FeedBit(state, message[0]);
      FedRegister(state, message[0]);
      DividendStep(state, next, message);
      RegisterIsRemainder(next, message[1..]);
      var q, r := Quotient(next, message[1..]), Feed(next, message[1..]);
      XorUnderZero(Multiple(q), n, r);
      XorAssociates(Aligned(n), [false] + Multiple(q), Clear(n + 1) + r);
      assert Quotient(state, message)[1..] == q;
    }
  }

  /** A dividend written as a multiple of the generator and a remainder. */
  ghost predicate Divides(d: seq<Bit>, q: seq<Bit>, r: Word) {
    |d| == |q| + 32 && d == Xor(Multiple(q), Clear(|q|) + r)
  }

  lemma DividesTail(d: seq<Bit>, q: seq<Bit>, r: Word)
    requires q != [] && Divides(d, q, r)
    ensures d[0] == q[0]
    ensures Divides((if q[0] then Xor(Aligned(|q| - 1), d) else d)[1..], q[1..], r)
  {
    var n := |q| - 1;
    var m, c := [false] + Multiple(q[1..]), Clear(n + 1) + r;
    XorUnderZero(Multiple(q[1..]), n, r);
    if q[0] {
      XorAssociates(Aligned(n), m, c);
      XorTwice(Clear(n + 33), Xor(m, c), Aligned(n));
      XorCommutes(Xor(m, c), Aligned(n));
      assert Xor(Clear(n + 33), Xor(Aligned(n), Xor(m, c))) == Xor(Aligned(n), Xor(m, c));
      assert Xor(Clear(n + 33), Xor(m, c)) == Xor(m, c);
    }
  }

  /** Quotient and remainder are unique, so the register is determined by the polynomial alone. */
  lemma {:induction false} RemainderUnique(d: seq<Bit>, q: seq<Bit>, r: Word, p: seq<Bit>, t: Word)
    requires Divides(d, q, r) && Divides(d, p, t)
    ensures q == p && r == t
    decreases |q|
  {
    if q == [] {
      assert Clear(0) + r == r && Clear(0) + t == t;
      assert Xor(Clear(32), r) == r && Xor(Clear(32), t) == t;
    } else {
      DividesTail(d, q, r);
      DividesTail(d, p, t);
      var rest := (if q[0] then Xor(Aligned(|q| - 1), d) else d)[1..];
      RemainderUnique(rest, q[1..], r, p[1..], t);
      assert q == [q[0]] + q[1..] && p == [p[0]] + p[1..];
    }
  }

  /**
   The checksum before its final inversion is the remainder of the message polynomial
   by the generator, and no other word is.
   */
  lemma ChecksumIsRemainder(bytes: seq<Byte>, q: seq<Bit>, r: Word)
    ensures exists p :: Divides(Dividend(INIT, MessageBits(bytes)), p, Update(INIT, bytes))
    ensures Divides(Dividend(INIT, MessageBits(bytes)), q, r) ==> r == Update(INIT, bytes)
  {
    var message := MessageBits(bytes);
    var p := Quotient(INIT, message);
    RegisterIsRemainder(INIT, message);
    UpdateFeeds(INIT, bytes);
    assert Divides(Dividend(INIT, message), p, Update(INIT, bytes));
    if Divides(Dividend(INIT, message), q, r) {
      RemainderUnique(Dividend(INIT, message), q, r, p, Update(INIT, bytes));
    }
  }

  // ---------------------------------------------------------------- as the format runs it

  lemma OneStepLess(c: Word, n: nat)
    requires n > 0
    ensures Steps(c, n) == Steps(BitStep(c), n - 1)
  {
  }

  /** The inner loop of `build_crc32c_table`. */
  method BuildEntry(i: Byte) returns (crc: Word)
    ensures crc == Entry(Widen(i))
  {
    crc := Widen(i);
    var j := 0;
    while j < 8
      invariant j <= 8 && Steps(crc, 8 - j) == Entry(Widen(i))
    {
      OneStepLess(crc, 8 - j);
      if crc[0] {
        crc := Xor(ShiftRight(crc), POLY);
      } else {
        crc := ShiftRight(crc);
      }
      j := j + 1;
    }
  }

  /** `build_crc32c_table`. */
  method BuildTable() returns (table: array<Word>)
    ensures fresh(table) && table.Length == 256
    ensures forall i :: 0 <= i < 256 ==> table[i] == Entry(Widen(i))
  {
    table := new Word[256](_ => Clear(32));
    for i := 0 to 256
      invariant forall k :: 0 <= k < i ==> table[k] == Entry(Widen(k))
    {
      table[i] := BuildEntry(i);
    }
  }

  /** `crc32c_update`. */
  method UpdateWithTable(table: array<Word>, start: Word, bytes: seq<Byte>) returns (state: Word)
    requires table.Length == 256 && forall i :: 0 <= i < 256 ==> table[i] == Entry(Widen(i))
    ensures state == Update(start, bytes)
  {
    state := start;
    Pow2Values();
    for i := 0 to |bytes|
      invariant state == Update(start, bytes[..i])
    {
      var low := Xor(state, Widen(bytes[i]))[..8];
      var idx := FromBits(low);
      ToBitsOfFromBits(low);
      assert bytes[..i + 1][..i] == bytes[..i];
      state := Xor(table[idx], ShiftByte(state));
    }
    assert bytes[..|bytes|] == bytes;
  }

  // ---------------------------------------------------------------- sealed objects

  /** Accepted by a reader: the trailer is the checksum of the object with a zeroed trailer. */
  predicate Sealed(bytes: seq<Byte>) {
    |bytes| >= 4 && Get32(bytes[|bytes| - 4..]) == Checksum(bytes[..|bytes| - 4] + Zeros(4))
  }

  /** What a writer emits for a body: the zero trailer overwritten with the checksum. */
  function Seal(body: seq<Byte>): (bytes: seq<Byte>)
    ensures |bytes| == |body| + 4
  {
    body + Put32(Checksum(body + Zeros(4)))
  }

  lemma SealIsSealed(body: seq<Byte>)
    ensures Sealed(Seal(body)) && Seal(body)[..|body|] == body
  {
    var c := Checksum(body + Zeros(4));
    assert Seal(body)[|body|..] == Put32(c) && Seal(body)[..|body|] == body;
    GetPut32(c);
  }

  lemma Get32Injective(a: seq<Byte>, b: seq<Byte>)
    requires |a| == |b| == 4 && Get32(a) == Get32(b)
    ensures a == b
  {
    PutGet32(a);
    PutGet32(b);
  }

  lemma SealedParts(front: seq<Byte>, a: seq<Byte>, tail: seq<Byte>, trailer: seq<Byte>)
    requires |trailer| == 4
    ensures var x := front + a + tail + trailer;
            x[|x| - 4..] == trailer && x[..|x| - 4] + Zeros(4) == front + a + (tail + Zeros(4))
  {
    var x := front + a + tail + trailer;
    assert x[..|x| - 4] == front + a + tail;
  }

  lemma BodyBurstRejected(front: seq<Byte>, a: seq<Byte>, b: seq<Byte>, tail: seq<Byte>, trailer: seq<Byte>)
    requires |a| == |b| <= 4 && |trailer| == 4
    requires Sealed(front + a + tail + trailer) && Sealed(front + b + tail + trailer)
    ensures a == b
  {
    SealedParts(front, a, tail, trailer);
    SealedParts(front, b, tail, trailer);
    ByteBurstDetected(front, a, b, tail + Zeros(4));
  }

  lemma Splice4<T>(s: seq<T>, i: nat, j: nat, n: nat)
    requires i <= j <= n <= |s|
    ensures s == s[..i] + s[i..j] + s[j..][..n - j] + s[j..][n - j..]
  {
  }

  lemma PrefixOfPrefix<T>(s: seq<T>, n: nat, i: nat)
    requires n <= i <= |s|
    ensures s[..i][..n] == s[..n]
  {
  }

  /**
   Any corruption confined to four consecutive bytes of the body, or to the trailer,
   is rejected: two accepted objects that agree elsewhere are equal.
   */
  lemma BurstRejected(x: seq<Byte>, y: seq<Byte>, i: nat, j: nat)
    requires Sealed(x) && Sealed(y) && |x| == |y|
    requires i <= j <= |x| && j - i <= 4 && (j <= |x| - 4 || i >= |x| - 4)
    requires x[..i] == y[..i] && x[j..] == y[j..]
    ensures x == y
  {
    var n := |x| - 4;
    if j <= n {
      Splice4(x, i, j, n);
      Splice4(y, i, j, n);
      BodyBurstRejected(x[..i], x[i..j], y[i..j], x[j..][..n - j], x[j..][n - j..]);
    } else {
      PrefixOfPrefix(x, n, i);
      PrefixOfPrefix(y, n, i);
      TrailerDetermined(x, y);
    }
  }

  lemma TrailerDetermined(x: seq<Byte>, y: seq<Byte>)
    requires Sealed(x) && Sealed(y) && |x| == |y| && x[..|x| - 4] == y[..|x| - 4]
    ensures x == y
  {
    var n := |x| - 4;
    Get32Injective(x[n..], y[n..]);
    Halves(x, n);
    Halves(y, n);
  }

  lemma Halves<T>(s: seq<T>, n: nat)
    requires n <= |s|
    ensures s == s[..n] + s[n..]
  {
  }

  /** Any single-byte corruption of an accepted object, trailer included, is rejected. */
  lemma OneByteRejected(x: seq<Byte>, k: nat, b: Byte)
    requires Sealed(x) && k < |x| && b != x[k]
    ensures !Sealed(x[k := b])
  {
    var y := x[k := b];
    if Sealed(y) {
      assert x[..k] == y[..k] && x[k + 1..] == y[k + 1..];
      BurstRejected(x, y, k, k + 1);
    }
  }
}
