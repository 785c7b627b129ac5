/** Eight-bit addition and subtraction with DAA, and the decimal chains made of them (instructions.rs). */
module DecimalArithmetic {
  import opened Basics
  import opened Registers8

  function Carry(b: bool): nat {
    if b then 1 else 0
  }

  /** A byte as a signed number. */
  function Signed(b: byte): int {
    if b >= 128 then b - 256 else b
  }

  predicate Even(b: Bits) {
    !((((b.b7 != b.b6) != (b.b5 != b.b4)) != ((b.b3 != b.b2) != (b.b1 != b.b0))))
  }

  /** Parity counts the bits. */
  lemma EvenCounts(b: Bits)
    ensures Even(b) <==> (Carry(b.b7) + Carry(b.b6) + Carry(b.b5) + Carry(b.b4) + Carry(b.b3) + Carry(b.b2)
                          + Carry(b.b1) + Carry(b.b0)) % 2 == 0
  {
  }

  /** Two decimal digits. */
  predicate IsBcd(b: byte) {
    b / 16 <= 9 && b % 16 <= 9
  }

  function Digits(b: byte): nat {
    10 * (b / 16) + b % 16
  }

  /** The number whose digits are stored from the lowest byte up. */
  function Number(s: seq<byte>): nat {
    if s == [] then 0 else Digits(s[0]) + 100 * Number(s[1..])
  }

  function Hundreds(n: nat): (p: nat)
    ensures p > 0
  {
    if n == 0 then 1 else 100 * Hundreds(n - 1)
  }

  predicate AllBcd(s: seq<byte>) {
    forall i :: 0 <= i < |s| ==> IsBcd(s[i])
  }

  /** What DAA makes of an accumulator, from the flags N, H and C. */
  function Adjusted(a: byte, n: bool, h: bool, c: bool): byte {
    var correction := (if h || a % 16 > 9 then 0x06 else 0) + (if c || a > 0x99 then 0x60 else 0);
    if n then (a - correction) % 256 else (a + correction) % 256
  }

  lemma Nibbles(b: nat, high: nat, low: nat)
    requires b == 16 * high + low && low < 16
    ensures b / 16 == high && b % 16 == low
  {
  }

  /** The adjustment, by nibbles. */
  lemma AdjustedAt(a: byte, high: nat, low: nat, n: bool, h: bool, c: bool)
    requires a == 16 * high + low && low < 16
    ensures var correction := (if h || low > 9 then 0x06 else 0) + (if c || a > 0x99 then 0x60 else 0);
            var sum := if n then a - correction else a + correction;
            Adjusted(a, n, h, c) == if sum > 255 then sum - 256 else if sum < 0 then sum + 256 else sum
  {
    Nibbles(a, high, low);
  }

  /** DAA after adding the digits `xh xl` and `yh yl`. */
  lemma AdjustedSum(xh: nat, xl: nat, yh: nat, yl: nat, c: bool)
    requires xh <= 9 && xl <= 9 && yh <= 9 && yl <= 9
    ensures var low := xl + yl + Carry(c);
            var high := xh + yh + Carry(low > 9);
            var sum := 16 * (xh + yh) + low;
            var a: byte := if sum > 255 then sum - 256 else sum;
            && Adjusted(a, false, low > 15, sum > 255)
               == 16 * (if high > 9 then high - 10 else high) + (if low > 9 then low - 10 else low)
            && (sum > 255 || a > 0x99 <==> high > 9)
  {
    hide Adjusted;
    var low := xl + yl + Carry(c);
    var sum := 16 * (xh + yh) + low;
    var a: byte := if sum > 255 then sum - 256 else sum;
    var top := if sum > 255 then xh + yh - 16 else xh + yh;
    if low > 15 {
      AdjustedAt(a, top + 1, low - 16, false, true, sum > 255);
    } else {
      AdjustedAt(a, top, low, false, false, sum > 255);
    }
  }

  /** DAA after subtracting the digits `yh yl` from `xh xl`. */
  lemma AdjustedDifference(xh: nat, xl: nat, yh: nat, yl: nat, c: bool)
    requires xh <= 9 && xl <= 9 && yh <= 9 && yl <= 9
    ensures var low := xl - yl - Carry(c);
            var high := xh - yh - Carry(low < 0);
            var difference := 16 * (xh - yh) + low;
            var a: byte := if difference < 0 then difference + 256 else difference;
            && Adjusted(a, true, low < 0, difference < 0)
               == 16 * (if high < 0 then high + 10 else high) + (if low < 0 then low + 10 else low)
            && (difference < 0 || a > 0x99 <==> high < 0) && (difference < 0 <==> high < 0)
  {
    hide Adjusted;
    var low := xl - yl - Carry(c);
    var difference := 16 * (xh - yh) + low;
    var a: byte := if difference < 0 then difference + 256 else difference;
    var top := if difference < 0 then xh - yh + 16 else xh - yh;
    if low < 0 {
      AdjustedAt(a, top - 1, low + 16, true, true, difference < 0);
    } else {
      AdjustedAt(a, top, low, true, false, difference < 0);
    }
  }

  /** After adding two decimal bytes DAA leaves the decimal sum, and the carry is the decimal carry. */
  lemma DaaAfterAdd(x: byte, y: byte, c: bool)
    requires IsBcd(x) && IsBcd(y)
    ensures var sum := x + y + Carry(c);
            var a: byte := if sum > 255 then sum - 256 else sum;
            var r := Adjusted(a, false, x % 16 + y % 16 + Carry(c) > 15, sum > 255);
            && IsBcd(r)
            && Digits(r) + 100 * Carry(sum > 255 || a > 0x99) == Digits(x) + Digits(y) + Carry(c)
  {
    hide Adjusted;
    var low := x % 16 + y % 16 + Carry(c);
    var high := x / 16 + y / 16 + Carry(low > 9);
    AdjustedSum(x / 16, x % 16, y / 16, y % 16, c);
    Nibbles(16 * (if high > 9 then high - 10 else high) + (if low > 9 then low - 10 else low),
            if high > 9 then high - 10 else high, if low > 9 then low - 10 else low);
  }

  /** After subtracting two decimal bytes DAA leaves the decimal difference, and the carry is the borrow. */
  lemma DaaAfterSub(x: byte, y: byte, c: bool)
    requires IsBcd(x) && IsBcd(y)
    ensures var difference := x - y - Carry(c);
            var a: byte := if difference < 0 then difference + 256 else difference;
            var r := Adjusted(a, true, x % 16 < y % 16 + Carry(c), difference < 0);
            && IsBcd(r)
            && (difference < 0 || a > 0x99 <==> difference < 0)
            && Digits(r) == Digits(x) - Digits(y) - Carry(c) + 100 * Carry(difference < 0)
  {
    hide Adjusted;
    var low := x % 16 - y % 16 - Carry(c);
    var high := x / 16 - y / 16 - Carry(low < 0);
    AdjustedDifference(x / 16, x % 16, y / 16, y % 16, c);
    Nibbles(16 * (if high < 0 then high + 10 else high) + (if low < 0 then low + 10 else low),
            if high < 0 then high + 10 else high, if low < 0 then low + 10 else low);
  }

  // -------------------------------------------------------------------------------- chains of digits

  lemma {:induction false} NumberMore(s: seq<byte>, d: byte)
    ensures Number(s + [d]) == Number(s) + Hundreds(|s|) * Digits(d)
    decreases |s|
  {
    if s != [] {
      NumberMore(s[1..], d);
      assert (s + [d])[1..] == s[1..] + [d] && (s + [d])[0] == s[0];
      assert 100 * (Hundreds(|s| - 1) * Digits(d)) == Hundreds(|s|) * Digits(d);
    } else {
      assert ([] + [d])[1..] == [];
    }
  }

  lemma Nothing(x: seq<byte>, y: seq<byte>)
    ensures Number([]) == Number(x[..0]) == Number(y[..0]) == 0 && Hundreds(0) == 1
  {
  }

  /** A number of `n` decimal bytes is below 100^n. */
  lemma {:induction false} NumberBound(s: seq<byte>)
    requires AllBcd(s)
    ensures Number(s) < Hundreds(|s|)
    decreases |s|
  {
    if s != [] {
      assert IsBcd(s[0]);
      NumberBound(s[1..]);
    }
  }

  lemma Distribute(p: int, a: int, b: int)
    ensures p * (a + b) == p * a + p * b
  {
  }

  /** One more byte of a sum. */
  lemma SumMore(x: seq<byte>, y: seq<byte>, r: seq<byte>, i: nat, d: byte, c0: bool, c: bool, c': bool)
    requires i < |x| == |y| && |r| == i
    requires Number(r) + Carry(c) * Hundreds(i) == Number(x[..i]) + Number(y[..i]) + Carry(c0)
    requires Digits(d) + 100 * Carry(c') == Digits(x[i]) + Digits(y[i]) + Carry(c)
    ensures Number(r + [d]) + Carry(c') * Hundreds(i + 1) == Number(x[..i + 1]) + Number(y[..i + 1]) + Carry(c0)
  {
    hide Digits, Number;
    NumberMore(r, d);
    NumberMore(x[..i], x[i]);
    NumberMore(y[..i], y[i]);
    assert x[..i] + [x[i]] == x[..i + 1] && y[..i] + [y[i]] == y[..i + 1];
    var p := Hundreds(i);
    Distribute(p, Digits(x[i]), Digits(y[i]));
    Distribute(p, Digits(x[i]) + Digits(y[i]), Carry(c));
    Distribute(p, Digits(d), 100 * Carry(c'));
  }

  /** One more byte of a difference. */
  lemma DifferenceMore(x: seq<byte>, y: seq<byte>, r: seq<byte>, i: nat, d: byte, c0: bool, c: bool, c': bool)
    requires i < |x| == |y| && |r| == i
    requires Number(r) + Number(y[..i]) + Carry(c0) == Number(x[..i]) + Carry(c) * Hundreds(i)
    requires Digits(d) + Digits(y[i]) + Carry(c) == Digits(x[i]) + 100 * Carry(c')
    ensures Number(r + [d]) + Number(y[..i + 1]) + Carry(c0)
            == Number(x[..i + 1]) + Carry(c') * Hundreds(i + 1)
  {
    hide Digits, Number;
    NumberMore(r, d);
    NumberMore(x[..i], x[i]);
    NumberMore(y[..i], y[i]);
    assert x[..i] + [x[i]] == x[..i + 1] && y[..i] + [y[i]] == y[..i + 1];
    var p := Hundreds(i);
    Distribute(p, Digits(d), Digits(y[i]));
    Distribute(p, Digits(d) + Digits(y[i]), Carry(c));
    Distribute(p, Digits(x[i]), 100 * Carry(c'));
  }

  // ------------------------------------------------------------------------------ the accumulator

  class Alu {
    var a: byte
    var f: Bits  // S Z Y H X P/V N C

    constructor (a: byte, f: Bits)
      ensures this.a == a && this.f == f
    {
      this.a, this.f := a, f;
    }

    /** `add8`: H, P/V and C are the half carry, the signed overflow and the carry. */
    method Add8(value: byte, withCarry: bool)
      modifies this
      ensures var c := Carry(withCarry && old(f.b0));
              && a + 256 * Carry(f.b0) == old(a) + value + c
              && a % 16 + 16 * Carry(f.b4) == old(a) % 16 + value % 16 + c
              && (f.b2 <==> !(-128 <= Signed(old(a)) + Signed(value) + c < 128))
      ensures !f.b1 && (f.b6 <==> a == 0) && (f.b7 <==> Signed(a) < 0)
      ensures f.b5 == Byte(a).b5 && f.b3 == Byte(a).b3
    {
      hide Byte;
      var accumulator := a;
      var carry := Carry(withCarry && f.b0);
      var sum := accumulator + value + carry;
      var result: byte := if sum > 255 then sum - 256 else sum;
      var half := accumulator % 16 + value % 16 + carry > 15;
      var overflow := (accumulator >= 128) == (value >= 128) && (accumulator >= 128) != (result >= 128);
      a := result;
      f := Bits(result >= 128, result == 0, Byte(result).b5, half, Byte(result).b3, overflow, false, sum > 255);
    }

    /** `sub8`: H, P/V and C are the half borrow, the signed overflow and the borrow. */
    method Sub8(value: byte, withCarry: bool, compareOnly: bool)
      modifies this
      ensures var c, difference := Carry(withCarry && old(f.b0)), old(a) - value - Carry(withCarry && old(f.b0));
              && (f.b0 <==> difference < 0)
              && a == (if compareOnly then old(a) else difference + 256 * Carry(f.b0))
              && (f.b4 <==> old(a) % 16 < value % 16 + c)
              && (f.b2 <==> !(-128 <= Signed(old(a)) - Signed(value) - c < 128))
              && (f.b6 <==> difference % 256 == 0) && (f.b7 <==> difference % 256 >= 128)
              && f.b5 == Byte(difference % 256).b5 && f.b3 == Byte(difference % 256).b3
      ensures f.b1
    {
      hide Byte;
      var accumulator := a;
      var carry := Carry(withCarry && f.b0);
      var difference := accumulator - value - carry;
      var result: byte := if difference < 0 then difference + 256 else difference;
      var half := accumulator % 16 < value % 16 + carry;
      var overflow := (accumulator >= 128) != (value >= 128) && (accumulator >= 128) != (result >= 128);
      f := Bits(result >= 128, result == 0, Byte(result).b5, half, Byte(result).b3, overflow, true,
                difference < 0);
      if !compareOnly {
        a := result;
      }
    }

    /** `execute_daa`. */
    method Daa()
      modifies this
      ensures a == Adjusted(old(a), old(f.b1), old(f.b4), old(f.b0))
      ensures var low, high := old(f.b4) || old(a) % 16 >= 10, old(f.b0) || old(a) >= 154;
              var d := (if low then 6 else 0) + (if high then 96 else 0);
              a == (if old(f.b1) then old(a) - d else old(a) + d) % 256
      ensures var b := Byte(a);
              f.b2 <==> (Carry(b.b7) + Carry(b.b6) + Carry(b.b5) + Carry(b.b4) + Carry(b.b3) + Carry(b.b2)
                         + Carry(b.b1) + Carry(b.b0)) % 2 == 0
      ensures f.b0 == (old(f.b0) || old(a) > 0x99) && f.b1 == old(f.b1)
      ensures f.b4 <==> Byte(old(a)).b4 != Byte(a).b4
      ensures (f.b6 <==> a == 0) && f.b7 == Byte(a).b7 && f.b2 == Even(Byte(a))
      ensures f.b5 == Byte(a).b5 && f.b3 == Byte(a).b3
    {
      hide Byte, Even;
      var accumulator := a;
      var subtract := f.b1;
      var correction: int := 0;
      if f.b4 || accumulator % 16 > 9 {
        correction := 0x06;
      }
      var carry := f.b0 || accumulator > 0x99;
      if carry {
        correction := correction + 0x60;
      }
      var corrected: int := accumulator;
      corrected := if subtract then corrected - correction else corrected + correction;
      var result: byte := corrected % 256;
      var b := Byte(result);
      EvenCounts(b);
      a := result;
      f := Bits(b.b7, result == 0, b.b5, Byte(accumulator).b4 != b.b4, b.b3, Even(b), subtract, carry);
    }

    /** ADC and DAA on every byte, from the lowest up: the decimal sum modulo 100^n, and the decimal carry. */
    method AddDecimal(x: seq<byte>, y: seq<byte>) returns (r: seq<byte>)
      requires |x| == |y| && AllBcd(x) && AllBcd(y)
      modifies this
      ensures |r| == |x| && AllBcd(r) && Number(r) < Hundreds(|x|)
      ensures Number(r) + Carry(f.b0) * Hundreds(|x|) == Number(x) + Number(y) + Carry(old(f.b0))
    {
      hide Adjusted, Byte, Digits, Number, Hundreds, IsBcd;
      r := [];
      Nothing(x, y);
      for i := 0 to |x|
        invariant |r| == i && AllBcd(r)
        invariant Number(r) + Carry(f.b0) * Hundreds(i)
                  == Number(x[..i]) + Number(y[..i]) + Carry(old(f.b0))
      {
        ghost var c := f.b0;
        DaaAfterAdd(x[i], y[i], f.b0);
        a := x[i];
        Add8(y[i], true);
        Daa();
        SumMore(x, y, r, i, a, old(f.b0), c, f.b0);
        r := r + [a];
      }
      assert x[..|x|] == x && y[..|x|] == y;
      NumberBound(r);
    }

    /** SBC and DAA on every byte, from the lowest up: the decimal difference modulo 100^n, and the borrow. */
    method SubDecimal(x: seq<byte>, y: seq<byte>) returns (r: seq<byte>)
      requires |x| == |y| && AllBcd(x) && AllBcd(y)
      modifies this
      ensures |r| == |x| && AllBcd(r) && Number(r) < Hundreds(|x|)
      ensures Number(r) == Number(x) - Number(y) - Carry(old(f.b0)) + Carry(f.b0) * Hundreds(|x|)
    {
      hide Adjusted, Byte, Digits, Number, Hundreds, IsBcd;
      r := [];
      Nothing(x, y);
      for i := 0 to |x|
        invariant |r| == i && AllBcd(r)
        invariant Number(r) + Number(y[..i]) + Carry(old(f.b0))
                  == Number(x[..i]) + Carry(f.b0) * Hundreds(i)
      {
        ghost var c := f.b0;
        DaaAfterSub(x[i], y[i], f.b0);
        a := x[i];
        Sub8(y[i], true, false);
        Daa();
        DifferenceMore(x, y, r, i, a, old(f.b0), c, f.b0);
        r := r + [a];
      }
      assert x[..|x|] == x && y[..|x|] == y;
      NumberBound(r);
    }
  }
}
