/** Eight-bit registers, by their bits. */
module Registers8 {
  import opened Basics

  /** A byte as its bits; `b7` is the most significant. */
  datatype Bits = Bits(b7: bool, b6: bool, b5: bool, b4: bool, b3: bool, b2: bool, b1: bool, b0: bool)
  {
    function Value(): byte {
      (if b7 then 128 else 0) + (if b6 then 64 else 0) + (if b5 then 32 else 0) + (if b4 then 16 else 0)
      + (if b3 then 8 else 0) + (if b2 then 4 else 0) + (if b1 then 2 else 0) + (if b0 then 1 else 0)
    }

    /** The value of the three low bits. */
    function Low3(): nat {
      (if b2 then 4 else 0) + (if b1 then 2 else 0) + (if b0 then 1 else 0)
    }
  }

  /** The bits of a number, found by subtracting the powers of two from the top down. */
  function Byte(n: byte): Bits {
    var r6 := if n >= 128 then n - 128 else n;
    var r5 := if r6 >= 64 then r6 - 64 else r6;
    var r4 := if r5 >= 32 then r5 - 32 else r5;
    var r3 := if r4 >= 16 then r4 - 16 else r4;
    var r2 := if r3 >= 8 then r3 - 8 else r3;
    var r1 := if r2 >= 4 then r2 - 4 else r2;
    var r0 := if r1 >= 2 then r1 - 2 else r1;
    Bits(n >= 128, r6 >= 64, r5 >= 32, r4 >= 16, r3 >= 8, r2 >= 4, r1 >= 2, r0 >= 1)
  }

  /** `(before & !mask) | (value & mask)`. */
  function Merge(before: Bits, value: Bits, mask: Bits): Bits {
    Bits(if mask.b7 then value.b7 else before.b7, if mask.b6 then value.b6 else before.b6,
         if mask.b5 then value.b5 else before.b5, if mask.b4 then value.b4 else before.b4,
         if mask.b3 then value.b3 else before.b3, if mask.b2 then value.b2 else before.b2,
         if mask.b1 then value.b1 else before.b1, if mask.b0 then value.b0 else before.b0)
  }

  const ZERO: Bits := Bits(false, false, false, false, false, false, false, false)

  /** Pairs and halves of the bits, as quotients and remainders of the value. */
  lemma ValueParts(b: Bits)
    ensures b.Value() / 64 == (if b.b7 then 2 else 0) + (if b.b6 then 1 else 0)
    ensures b.Value() / 16 % 4 == (if b.b5 then 2 else 0) + (if b.b4 then 1 else 0)
    ensures b.Value() / 4 % 4 == (if b.b3 then 2 else 0) + (if b.b2 then 1 else 0)
    ensures b.Value() % 16 == (if b.b3 then 8 else 0) + b.Low3() && b.Value() % 8 == b.Low3()
    ensures b.Value() / 16 == (if b.b7 then 8 else 0) + (if b.b6 then 4 else 0) + (if b.b5 then 2 else 0)
                              + (if b.b4 then 1 else 0)
  {
    var p7 := (if b.b7 then 2 else 0) + (if b.b6 then 1 else 0);
    var p5 := (if b.b5 then 2 else 0) + (if b.b4 then 1 else 0);
    var p3 := (if b.b3 then 2 else 0) + (if b.b2 then 1 else 0);
    var p1 := (if b.b1 then 2 else 0) + (if b.b0 then 1 else 0);
    ValueSums(b, p7, p5, p3, p1);
    hide Bits.Value, Bits.Low3;
    PartsOf(b.Value(), p7, p5, p3, p1);
    LowOf(b.Value(), b.Value() / 16, if b.b3 then 1 else 0, b.Low3());
  }

  lemma ValueSums(b: Bits, p7: nat, p5: nat, p3: nat, p1: nat)
    requires p7 == (if b.b7 then 2 else 0) + (if b.b6 then 1 else 0)
    requires p5 == (if b.b5 then 2 else 0) + (if b.b4 then 1 else 0)
    requires p3 == (if b.b3 then 2 else 0) + (if b.b2 then 1 else 0)
    requires p1 == (if b.b1 then 2 else 0) + (if b.b0 then 1 else 0)
    ensures b.Value() == 64 * p7 + 16 * p5 + 4 * p3 + p1
    ensures 4 * p3 + p1 == (if b.b3 then 8 else 0) + b.Low3() && b.Low3() < 8
  {
  }

  lemma LowOf(v: nat, high: nat, middle: nat, low: nat)
    requires v == 16 * high + 8 * middle + low && middle < 2 && low < 8
    ensures v % 8 == low
  {
    assert v == 8 * (2 * high + middle) + low;
  }

  lemma PartsOf(v: nat, p7: nat, p5: nat, p3: nat, p1: nat)
    requires v == 64 * p7 + 16 * p5 + 4 * p3 + p1 && p5 < 4 && p3 < 4 && p1 < 4
    ensures v / 64 == p7 && v / 16 == 4 * p7 + p5 && v / 16 % 4 == p5
    ensures v / 4 == 16 * p7 + 4 * p5 + p3 && v / 4 % 4 == p3 && v % 16 == 4 * p3 + p1
  {
  }

  lemma ByteValue(n: byte)
    ensures Byte(n).Value() == n
  {
  }
}
