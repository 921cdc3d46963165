/** Bytes, fixed-width integers and their little-endian encodings. */
module Bytes {

  type Byte = x: int | 0 <= x < 0x100
  type U16 = x: int | 0 <= x < 0x1_0000
  type U32 = x: int | 0 <= x < 0x1_0000_0000
  type U64 = x: int | 0 <= x < 0x1_0000_0000_0000_0000
  type I32 = x: int | -0x8000_0000 <= x < 0x8000_0000
  type I64 = x: int | -0x8000_0000_0000_0000 <= x < 0x8000_0000_0000_0000

  /** `256^n`. */
  function Radix(n: nat): (r: nat)
    ensures r >= 1
  {
    if n == 0 then 1 else 256 * Radix(n - 1)
  }

  /** The `n` low bytes of `x`, least significant first. */
  function LE(x: nat, n: nat): (b: seq<Byte>)
    ensures |b| == n
    decreases n, x
  {
    if n == 0 then [] else [x % 256] + LE(x / 256, n - 1)
  }

  function FromLE(b: seq<Byte>): (x: nat)
    ensures x < Radix(|b|)
  {
    if b == [] then 0 else b[0] + 256 * FromLE(b[1..])
  }

  lemma {:induction false} FromLEofLE(x: nat, n: nat)
    requires x < Radix(n)
    ensures FromLE(LE(x, n)) == x
    decreases n
  {
    if n > 0 {
      FromLEofLE(x / 256, n - 1);
      assert LE(x, n)[1..] == LE(x / 256, n - 1);
    }
  }

  lemma {:induction false} LEofFromLE(b: seq<Byte>)
    ensures LE(FromLE(b), |b|) == b
    decreases |b|
  {
    if b != [] {
      LEofFromLE(b[1..]);
      assert FromLE(b) % 256 == b[0] && FromLE(b) / 256 == FromLE(b[1..]);
    }
  }

  lemma RadixValues()
    ensures Radix(1) == 0x100 && Radix(2) == 0x1_0000 && Radix(4) == 0x1_0000_0000
    ensures Radix(8) == 0x1_0000_0000_0000_0000
  {
    assert Radix(2) == 0x1_0000;
    assert Radix(4) == 0x1_0000 * Radix(2);
    assert Radix(6) == 0x1_0000 * Radix(4);
    assert Radix(8) == 0x1_0000 * Radix(6);
  }

  // ---------------------------------------------------------------- the widths in use

  function Put16(x: U16): (b: seq<Byte>) ensures |b| == 2 { LE(x, 2) }
  function Put32(x: U32): (b: seq<Byte>) ensures |b| == 4 { LE(x, 4) }
  function Put64(x: U64): (b: seq<Byte>) ensures |b| == 8 { LE(x, 8) }
  function PutI32(x: I32): (b: seq<Byte>) ensures |b| == 4 { LE(if x < 0 then x + 0x1_0000_0000 else x, 4) }
  function PutI64(x: I64): (b: seq<Byte>) ensures |b| == 8 { LE(if x < 0 then x + 0x1_0000_0000_0000_0000 else x, 8) }

  function Get16(b: seq<Byte>): U16
    requires |b| == 2
  {
    RadixValues();
    FromLE(b)
  }

  function Get32(b: seq<Byte>): U32
    requires |b| == 4
  {
    RadixValues();
    FromLE(b)
  }

  function Get64(b: seq<Byte>): U64
    requires |b| == 8
  {
    RadixValues();
    FromLE(b)
  }

  function GetI32(b: seq<Byte>): I32
    requires |b| == 4
  {
    var x := Get32(b);
    if x < 0x8000_0000 then x else x - 0x1_0000_0000
  }

  function GetI64(b: seq<Byte>): I64
    requires |b| == 8
  {
    var x := Get64(b);
    if x < 0x8000_0000_0000_0000 then x else x - 0x1_0000_0000_0000_0000
  }

  lemma GetPut16(x: U16)
    ensures Get16(Put16(x)) == x
  {
    RadixValues();
    FromLEofLE(x, 2);
  }

  lemma GetPut32(x: U32)
    ensures Get32(Put32(x)) == x
  {
    RadixValues();
    FromLEofLE(x, 4);
  }

  lemma GetPut64(x: U64)
    ensures Get64(Put64(x)) == x
  {
    RadixValues();
    FromLEofLE(x, 8);
  }

  lemma GetPutI32(x: I32)
    ensures GetI32(PutI32(x)) == x
  {
    GetPut32(if x < 0 then x + 0x1_0000_0000 else x);
  }

  lemma GetPutI64(x: I64)
    ensures GetI64(PutI64(x)) == x
  {
    GetPut64(if x < 0 then x + 0x1_0000_0000_0000_0000 else x);
  }

  lemma PutGet16(b: seq<Byte>)
    requires |b| == 2
    ensures Put16(Get16(b)) == b
  {
    LEofFromLE(b);
  }

  lemma PutGet32(b: seq<Byte>)
    requires |b| == 4
    ensures Put32(Get32(b)) == b && PutI32(GetI32(b)) == b
  {
    LEofFromLE(b);
  }

  lemma PutGet64(b: seq<Byte>)
    requires |b| == 8
    ensures Put64(Get64(b)) == b && PutI64(GetI64(b)) == b
  {
    LEofFromLE(b);
  }

  /** Two, four and eight bytes as a number: the first byte counts least. */
  lemma LittleEndian(b: seq<Byte>)
    ensures |b| == 2 ==> Get16(b) == b[0] + 0x100 * (b[1] as int)
    ensures |b| == 4 ==> Get32(b) == b[0] + 0x100 * (b[1] as int) + 0x1_0000 * (b[2] as int) + 0x100_0000 * (b[3] as int)
    ensures |b| == 8 ==>
              Get64(b) == b[0] + 0x100 * (b[1] as int) + 0x1_0000 * (b[2] as int) + 0x100_0000 * (b[3] as int) + 0x1_0000_0000 * (b[4] as int)
                          + 0x100_0000_0000 * (b[5] as int) + 0x1_0000_0000_0000 * (b[6] as int) + 0x100_0000_0000_0000 * (b[7] as int)
  {
    if |b| == 2 {
      TwoMore(b);
    } else if |b| == 4 {
      TwoMore(b);
      TwoMore(b[2..]);
    } else if |b| == 8 {
      TwoMore(b);
      TwoMore(b[2..]);
      TwoMore(b[4..]);
      TwoMore(b[6..]);
      assert b[2..][2..] == b[4..] && b[4..][2..] == b[6..];
    }
  }

  lemma TwoMore(b: seq<Byte>)
    requires |b| >= 2
    ensures FromLE(b) == b[0] + 0x100 * (b[1] as int) + 0x1_0000 * FromLE(b[2..])
    ensures |b| == 2 ==> FromLE(b[2..]) == 0
  {
    assert b[1..][1..] == b[2..];
  }

  /** Signed values are two's complement. */
  lemma TwosComplement(b: seq<Byte>)
    ensures |b| == 4 ==> GetI32(b) == Get32(b) - if b[3] >= 0x80 then 0x1_0000_0000 else 0
    ensures |b| == 8 ==> GetI64(b) == Get64(b) - if b[7] >= 0x80 then 0x1_0000_0000_0000_0000 else 0
  {
    LittleEndian(b);
  }

  function Zeros(n: nat): (b: seq<Byte>)
    ensures |b| == n
  {
    seq(n, _ => 0)
  }
}
