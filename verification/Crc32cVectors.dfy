/** CRC32C by its constants: the residue every sealed message leaves, and the check value. */
module Crc32cVectors {
  import opened Bytes
  import opened Bits
  import opened Words
  import opened Crc32c

  // ---------------------------------------------------------------- the final inversion

  /** The least significant byte of a number enters the division first. */
  lemma {:induction false} MessageBitsOfNumber(x: nat, n: nat)
    requires x < Pow2(8 * n)
    ensures MessageBits(LE(x, n)) == ToBits(x, 8 * n)
    decreases n
  {
    if n > 0 {
      var low, high, m := x % 256, x / 256, 8 * (n - 1);
      ByteSplit(x, m);
      MessageBitsOfNumber(high, n - 1);
      MessageBitsAppend([low], LE(high, n - 1));
      OneByteBits(low);
    }
  }

  lemma ByteSplit(x: nat, m: nat)
    requires x < Pow2(8 + m)
    ensures x / 256 < Pow2(m)
    ensures ToBits(x, 8 + m) == ToBits(x % 256, 8) + ToBits(x / 256, m)
  {
    var low, high, p := x % 256, x / 256, Pow2(m);
    Pow2Add(8, m);
    BytePower();
    assert high < p;
    assert low + Pow2(8) * high == x;
    ToBitsSplit(low, high, 8, m);
  }

  lemma BytePower()
    ensures Pow2(8) == 256
  {
    Pow2Values();
  }

  lemma OneByteBits(b: Byte)
    ensures MessageBits([b]) == ToBits(b, 8)
  {
    assert [b][..0] == [];
    assert MessageBits([]) + ToBits(b, 8) == ToBits(b, 8);
  }

  lemma {:induction false} AllOnes(n: nat)
    ensures ToBits(Pow2(n) - 1, n) == seq(n, _ => true)
  {
    if n > 0 {
      AllOnes(n - 1);
      assert (Pow2(n) - 1) / 2 == Pow2(n - 1) - 1;
    }
  }

  lemma InitIsOnes()
    ensures INIT == seq(32, _ => true)
  {
    Pow2Values();
    AllOnes(32);
  }

  lemma InversionUndone(state: Word)
    ensures Xor(state, Padded(Finish(state))) == INIT
  {
  }

  /** A message followed by its checksum leaves the register 32 zero bits after the initial one. */
  lemma TrailedRegister(message: seq<Byte>)
    ensures Update(INIT, message + Put32(Checksum(message))) == Steps(INIT, 32)
  {
    var state, c := Update(INIT, message), Checksum(message);
    Pow2Values();
    UpdateAppend(INIT, message, Put32(c));
    UpdateFeeds(state, Put32(c));
    MessageBitsOfNumber(c, 4);
    ToBitsOfFromBits(Finish(state));
    FeedIsSteps(state, Finish(state));
    InversionUndone(state);
  }

  // ---------------------------------------------------------------- on machine words

  function StepWord(x: bv64): bv64 { if x & 1 == 1 then (x >> 1) ^ 0x82F6_3B78 else x >> 1 }

  function StepsWord(x: bv64, n: nat): bv64
    decreases n, x
  {
    if n == 0 then x else StepsWord(StepWord(x), n - 1)
  }

  lemma PolyWord()
    ensures POLY == WordBits(0x82F6_3B78, 32)
  {
    FourDigits(0x82F6_3B78, 16);
    FourDigits(0x82F6, 0);
    BitsOfValue(0x82F6_3B78, 32, 0x82F6_3B78);
  }

  lemma InitWord()
    ensures INIT == WordBits(0xFFFF_FFFF, 32)
  {
    FourDigits(0xFFFF_FFFF, 16);
    FourDigits(0xFFFF, 0);
    BitsOfValue(0xFFFF_FFFF, 32, 0xFFFF_FFFF);
  }

  lemma DropWord(x: bv64)
    ensures Drop(x, 32) == x >> 32
  {
    DropAdd(x, 8, 24);
    DropByte(x);
    DropAdd(x >> 8, 8, 16);
    DropByte(x >> 8);
    DropAdd(x >> 8 >> 8, 8, 8);
    DropByte(x >> 8 >> 8);
    DropByte(x >> 8 >> 8 >> 8);
    assert x >> 8 >> 8 >> 8 >> 8 == x >> 32;
  }

  lemma ShiftWord(x: bv64, half: bv64)
    requires x >> 32 == 0 && half == x >> 1
    ensures ShiftRight(WordBits(x, 32)) == WordBits(half, 32)
  {
    WordTail(x, half, 32);
    DropWord(x);
    BitFront(x, half, 31);
    assert !BitOf(half, 31);
  }

  lemma StepStaysNarrow(x: bv64)
    requires x >> 32 == 0
    ensures StepWord(x) >> 32 == 0
  {
  }

  lemma AddPoly(half: bv64, next: bv64)
    requires next == half ^ 0x82F6_3B78
    ensures Xor(WordBits(half, 32), POLY) == WordBits(next, 32)
  {
    PolyWord();
    WordXor(half, 0x82F6_3B78, next, 32);
  }

  lemma StepOfWord(x: bv64, next: bv64)
    requires x >> 32 == 0 && next == StepWord(x)
    ensures BitStep(WordBits(x, 32)) == WordBits(next, 32)
  {
    var half := x >> 1;
    ShiftWord(x, half);
    BitFront(x, half, 0);
    if Low(x) {
      AddPoly(half, next);
    }
  }

  lemma {:induction false} StepsOfWord(x: bv64, n: nat)
    requires x >> 32 == 0
    ensures Steps(WordBits(x, 32), n) == WordBits(StepsWord(x, n), 32)
    ensures StepsWord(x, n) >> 32 == 0
    decreases n
  {
    if n > 0 {
      StepOfWord(x, StepWord(x));
      StepStaysNarrow(x);
      StepsOfWord(StepWord(x), n - 1);
    }
  }

  function FourSteps(x: bv64): bv64 { StepWord(StepWord(StepWord(StepWord(x)))) }

  function EightSteps(x: bv64): bv64 { FourSteps(FourSteps(x)) }

  lemma FourStepsMore(x: bv64, n: nat)
    ensures StepsWord(x, n + 4) == StepsWord(FourSteps(x), n)
  {
    var a := StepWord(x);
    var b := StepWord(a);
    var c := StepWord(b);
    assert StepsWord(x, n + 4) == StepsWord(a, n + 3);
    assert StepsWord(a, n + 3) == StepsWord(b, n + 2);
    assert StepsWord(b, n + 2) == StepsWord(c, n + 1);
  }

  lemma EightStepsMore(x: bv64, n: nat)
    ensures StepsWord(x, n + 8) == StepsWord(EightSteps(x), n)
  {
    FourStepsMore(x, n + 4);
    FourStepsMore(FourSteps(x), n);
  }

  lemma ResidueWord()
    ensures StepsWord(0xFFFF_FFFF, 32) == 0xB798_B438
  {
    assert EightSteps(0xFFFF_FFFF) == 0xAD82_ACAE;
    assert EightSteps(0xAD82_ACAE) == 0x0E9E_882D;
    assert EightSteps(0x0E9E_882D) == 0x9F9B_5C85;
    assert EightSteps(0x9F9B_5C85) == 0xB798_B438;
    EightStepsMore(0xFFFF_FFFF, 24);
    EightStepsMore(0xAD82_ACAE, 16);
    EightStepsMore(0x0E9E_882D, 8);
    EightStepsMore(0x9F9B_5C85, 0);
  }

  lemma ResidueNumber(x: bv64)
    requires x == 0xB798_B438
    ensures FromBits(WordBits(x, 32)) == 0xB798_B438
  {
    FourDigits(x, 16);
    FourDigits(0xB798, 0);
    BitsOfValue(x, 32, 0xB798_B438);
  }

  /**
   Reading any message and then its checksum, least significant byte first, leaves the
   register at the CRC32C residue.
   */
  lemma Residue(message: seq<Byte>)
    ensures FromBits(Update(INIT, message + Put32(Checksum(message)))) == 0xB798_B438
  {
    TrailedRegister(message);
    InitWord();
    StepsOfWord(0xFFFF_FFFF, 32);
    ResidueWord();
    ResidueNumber(0xB798_B438);
  }

  /** Two trailers that lead one register to the same word are one. */
  lemma TrailerUnique(state: Word, a: U32, b: U32)
    requires Update(state, Put32(a)) == Update(state, Put32(b))
    ensures a == b
  {
    UpdateFeeds(state, Put32(a));
    UpdateFeeds(state, Put32(b));
    FeedInjectiveInMessage(state, MessageBits(Put32(a)), MessageBits(Put32(b)));
    MessageBitsInjective(Put32(a), Put32(b));
    GetPut32(a);
    GetPut32(b);
  }

  /** The checksum is the one trailer that leaves the residue. */
  lemma ResidueIff(message: seq<Byte>, c: U32)
    ensures FromBits(Update(INIT, message + Put32(c))) == 0xB798_B438 <==> c == Checksum(message)
  {
    Residue(message);
    if FromBits(Update(INIT, message + Put32(c))) == 0xB798_B438 {
      var d := Checksum(message);
      FromBitsInjective(Update(INIT, message + Put32(c)), Update(INIT, message + Put32(d)));
      UpdateAppend(INIT, message, Put32(c));
      UpdateAppend(INIT, message, Put32(d));
      TrailerUnique(Update(INIT, message), c, d);
    }
  }

  // ---------------------------------------------------------------- the check value

  /** A byte and a word with its value. */
  ghost predicate IsByte(b: Byte, w: bv64) { w >> 8 == 0 && Value(w, 8) == b }

  lemma WidenWord(b: Byte, w: bv64)
    requires IsByte(b, w)
    ensures Widen(b) == WordBits(w, 32)
  {
    BitsOfValue(w, 8, b);
    DropByte(w);
    forall i | 8 <= i < 32 ensures !BitOf(w, i) {
      DropAdd(w, 8, i - 8);
      DropZero(i - 8);
    }
  }

  lemma NarrowSum(x: bv64, w: bv64)
    requires x >> 32 == 0 && w >> 8 == 0
    ensures (x ^ w) >> 32 == 0
  {
  }

  lemma EightStepsOfWord(sum: bv64, next: bv64)
    requires sum >> 32 == 0 && next == EightSteps(sum)
    ensures Steps(WordBits(sum, 32), 8) == WordBits(next, 32) && next >> 32 == 0
  {
    StepsOfWord(sum, 8);
    EightStepsMore(sum, 0);
  }

  lemma StepByte(x: bv64, b: Byte, w: bv64, next: bv64)
    requires x >> 32 == 0 && IsByte(b, w) && next == EightSteps(x ^ w)
    ensures Step(WordBits(x, 32), b) == WordBits(next, 32) && next >> 32 == 0
  {
    var sum := x ^ w;
    NarrowSum(x, w);
    WidenWord(b, w);
    WordXor(x, w, sum, 32);
    StepIsDivision(WordBits(x, 32), b);
    EightStepsOfWord(sum, next);
  }

  /** The register after a message, as a word. */
  ghost predicate Reaches(message: seq<Byte>, x: bv64) {
    x >> 32 == 0 && Update(INIT, message) == WordBits(x, 32)
  }

  lemma OneMore(message: seq<Byte>, x: bv64, b: Byte, w: bv64, next: bv64)
    requires Reaches(message, x) && IsByte(b, w) && next == EightSteps(x ^ w)
    ensures Reaches(message + [b], next)
  {
    StepByte(x, b, w, next);
    assert (message + [b])[..|message|] == message;
  }

  lemma DigitByte(b: Byte, w: bv64)
    requires w >> 4 == 3 && b == 0x30 + Digit(w)
    ensures IsByte(b, w)
  {
    assert w >> 8 == w >> 4 >> 4;
    TwoDigits(w, 0);
  }

  /** The register before and after one byte, which the word `w` holds. */
  ghost predicate Link(x: bv64, b: Byte, w: bv64, y: bv64) {
    w >> 4 == 3 && b == 0x30 + Digit(w) && y == EightSteps(x ^ w)
  }

  lemma LinkMore(message: seq<Byte>, x: bv64, b: Byte, w: bv64, y: bv64)
    requires Reaches(message, x) && Link(x, b, w, y)
    ensures Reaches(message + [b], y)
  {
    DigitByte(b, w);
    OneMore(message, x, b, w, y);
  }

  lemma ChainStart()
    ensures Reaches([], 0xFFFF_FFFF)
  {
    InitWord();
  }

  /** The states are those of the register along the bytes. */
  ghost predicate Linked(bytes: seq<Byte>, words: seq<bv64>, states: seq<bv64>) {
    && |bytes| == |words| && |states| == |bytes| + 1 && states[0] == 0xFFFF_FFFF
    && forall i :: 0 <= i < |bytes| ==> Link(states[i], bytes[i], words[i], states[i + 1])
  }

  lemma LinkAt(bytes: seq<Byte>, words: seq<bv64>, states: seq<bv64>, k: nat)
    requires Linked(bytes, words, states) && k < |bytes| && Reaches(bytes[..k], states[k])
    ensures Reaches(bytes[..k + 1], states[k + 1])
  {
    LinkMore(bytes[..k], states[k], bytes[k], words[k], states[k + 1]);
    assert bytes[..k + 1] == bytes[..k] + [bytes[k]];
  }

  lemma {:induction false} Chain(bytes: seq<Byte>, words: seq<bv64>, states: seq<bv64>, n: nat)
    requires Linked(bytes, words, states) && n <= |bytes|
    ensures Reaches(bytes[..n], states[n])
    decreases n
  {
    if n == 0 {
      ChainStart();
    } else {
      Chain(bytes, words, states, n - 1);
      LinkAt(bytes, words, states, n - 1);
    }
  }

  lemma LinksOne()
    ensures Link(0xFFFF_FFFF, 0x31, 0x31, 0x6F0A_661C)
    ensures Link(0x6F0A_661C, 0x32, 0x32, 0x8CAA_3B9F)
    ensures Link(0x8CAA_3B9F, 0x33, 0x33, 0xEF84_D04D)
  {
  }

  lemma LinksTwo()
    ensures Link(0xEF84_D04D, 0x34, 0x34, 0x09C5_0B11)
    ensures Link(0x09C5_0B11, 0x35, 0x35, 0xE72E_DCCA)
    ensures Link(0xE72E_DCCA, 0x36, 0x36, 0xBECA_8E79)
  {
  }

  lemma LinksThree()
    ensures Link(0xBECA_8E79, 0x37, 0x37, 0xEDBD_6815)
    ensures Link(0xEDBD_6815, 0x38, 0x38, 0x9F78_7F65)
    ensures Link(0x9F78_7F65, 0x39, 0x39, 0x1CF9_6D7C)
  {
  }

  /** The ASCII digits from 1 to 9. */
  const DIGITS: seq<Byte> := [0x31, 0x32, 0x33, 0x34, 0x35, 0x36, 0x37, 0x38, 0x39]

  const STATES: seq<bv64> :=
    [0xFFFF_FFFF, 0x6F0A_661C, 0x8CAA_3B9F, 0xEF84_D04D, 0x09C5_0B11, 0xE72E_DCCA, 0xBECA_8E79, 0xEDBD_6815, 0x9F78_7F65, 0x1CF9_6D7C]

  lemma DigitsRegister()
    ensures Reaches(DIGITS, 0x1CF9_6D7C)
  {
    LinksOne();
    LinksTwo();
    LinksThree();
    Chain(DIGITS, [0x31, 0x32, 0x33, 0x34, 0x35, 0x36, 0x37, 0x38, 0x39], STATES, 9);
    assert DIGITS[..9] == DIGITS;
  }

  lemma CheckNumber(x: bv64)
    requires x == 0xE306_9283
    ensures FromBits(WordBits(x, 32)) == 0xE306_9283
  {
    FourDigits(x, 16);
    FourDigits(0xE306, 0);
    BitsOfValue(x, 32, 0xE306_9283);
  }

  /** The check value of CRC32C. */
  lemma CheckValue()
    ensures Checksum(DIGITS) == 0xE306_9283
  {
    DigitsRegister();
    InitWord();
    WordXor(0x1CF9_6D7C, 0xFFFF_FFFF, 0xE306_9283, 32);
    CheckNumber(0xE306_9283);
  }
}
