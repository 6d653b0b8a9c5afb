/** The numbers that bits stand for. Sixty-four-bit words are compared and added to as bits; the value of
    a field of at most thirty-two of them is read off by halving. */
module Numerals {

  function Half(b: bv64): bv64 { b >> 1 }

  predicate Odd(b: bv64) { b & 1 == 1 }

  function Inc(b: bv64): bv64 { b + 1 }

  function Dec(b: bv64): bv64 { b - 1 }

  /** The bits above the thirty-second are clear. */
  predicate Small(b: bv64) { b & 0xFFFF_FFFF_0000_0000 == 0 }

  function Bit(b: bool): nat { if b then 1 else 0 }

  /** The value of the lowest bits. */
  function Value(b: bv64, width: nat): nat {
    if width == 0 then 0 else 2 * Value(Half(b), width - 1) + Bit(Odd(b))
  }

  /** No bit is set above the lowest. */
  predicate Fits(b: bv64, width: nat) {
    if width == 0 then b == 0 else Fits(Half(b), width - 1)
  }

  function Pow(width: nat): nat {
    if width == 0 then 1 else 2 * Pow(width - 1)
  }

  // ---- Counting and comparing -----------------------------------------------------------------------------

  lemma SmallHalf(b: bv64)
    requires Small(b)
    ensures Small(Half(b))
  {
  }

  lemma IncEven(b: bv64)
    requires !Odd(b)
    ensures Half(Inc(b)) == Half(b) && Odd(Inc(b))
  {
  }

  lemma IncOdd(b: bv64)
    requires Odd(b) && Small(b)
    ensures Half(Inc(b)) == Inc(Half(b)) && !Odd(Inc(b))
  {
  }

  lemma Halves(a: bv64, b: bv64)
    requires Half(a) == Half(b) && Odd(a) == Odd(b)
    ensures a == b
  {
  }

  lemma HalfZero()
    ensures Half(0) == 0 && !Odd(0)
  {
  }

  lemma {:induction false} IncValue(b: bv64, width: nat)
    requires Small(b) && Value(b, width) + 1 < Pow(width)
    ensures Value(Inc(b), width) == Value(b, width) + 1
    decreases width
  {
    hide Half, Odd, Inc, Small;
    if width > 0 {
      if Odd(b) {
        IncOdd(b);
        SmallHalf(b);
        IncValue(Half(b), width - 1);
      } else {
        IncEven(b);
      }
    }
  }

  lemma {:induction false} ValueInjective(a: bv64, b: bv64, width: nat)
    requires Fits(a, width) && Fits(b, width) && Value(a, width) == Value(b, width)
    ensures a == b
    decreases width
  {
    hide Half, Odd;
    if width > 0 {
      ValueInjective(Half(a), Half(b), width - 1);
      Halves(a, b);
    }
  }

  lemma {:induction false} ValueZero(width: nat)
    ensures Value(0, width) == 0 && Fits(0, width)
  {
    hide Half, Odd;
    if width > 0 {
      HalfZero();
      ValueZero(width - 1);
    }
  }

  lemma {:induction false} ValueBound(b: bv64, width: nat)
    ensures Value(b, width) < Pow(width)
    decreases width
  {
    hide Half, Odd;
    if width > 0 { ValueBound(Half(b), width - 1); }
  }

  // ---- Eight bits at a time ---------------------------------------------------------------------------------

  function Drop8(b: bv64): bv64 { b >> 8 }

  function Half4(b: bv64): bv64 { Half(Half(Half(Half(b)))) }

  predicate Ones4(b: bv64) {
    Odd(b) && Odd(Half(b)) && Odd(Half(Half(b))) && Odd(Half(Half(Half(b))))
  }

  lemma Drop8Halves(b: bv64)
    ensures Half4(Half4(b)) == Drop8(b)
  {
  }

  lemma FourthOne(b: bv64)
    requires b & 0xF == 0xF
    ensures Odd(b) && Half(b) & 7 == 7
  {
  }

  lemma ThirdOne(b: bv64)
    requires b & 7 == 7
    ensures Odd(b) && Half(b) & 3 == 3
  {
  }

  lemma LastOnes(b: bv64)
    requires b & 3 == 3
    ensures Odd(b) && Odd(Half(b))
  {
  }

  lemma LowOnes(b: bv64)
    requires b & 0xF == 0xF
    ensures Ones4(b)
  {
    hide Half, Odd;
    FourthOne(b);
    ThirdOne(Half(b));
    LastOnes(Half(Half(b)));
  }

  lemma HighOnes(b: bv64)
    requires b & 0xFF == 0xFF
    ensures b & 0xF == 0xF && Half4(b) & 0xF == 0xF
  {
  }

  lemma FitsBy4(b: bv64, width: nat)
    requires width >= 4 && Fits(Half4(b), width - 4)
    ensures Fits(b, width)
  {
    hide Half;
    assert Fits(Half(Half(Half(b))), width - 3);
    assert Fits(Half(Half(b)), width - 2);
    assert Fits(Half(b), width - 1);
  }

  lemma FitsBy8(b: bv64, width: nat)
    requires width >= 8 && Fits(Drop8(b), width - 8)
    ensures Fits(b, width)
  {
    hide Half4, Drop8, Fits;
    Drop8Halves(b);
    FitsBy4(Half4(b), width - 4);
    FitsBy4(b, width);
  }

  lemma OnesBy4(b: bv64, width: nat)
    requires width >= 4 && Ones4(b)
    ensures Value(b, width) == 16 * Value(Half4(b), width - 4) + 15
  {
    hide Half, Odd;
    var c := Half(b);
    var d := Half(c);
    var e := Half(d);
    assert Value(e, width - 3) == 2 * Value(Half(e), width - 4) + 1;
    assert Value(d, width - 2) == 2 * Value(e, width - 3) + 1;
    assert Value(c, width - 1) == 2 * Value(d, width - 2) + 1;
  }

  lemma OnesBy8(b: bv64, width: nat)
    requires width >= 8 && b & 0xFF == 0xFF
    ensures Value(b, width) == 256 * Value(Drop8(b), width - 8) + 255
  {
    hide Half4, Drop8, Value, Ones4;
    HighOnes(b);
    LowOnes(b);
    LowOnes(Half4(b));
    Drop8Halves(b);
    OnesBy4(b, width);
    OnesBy4(Half4(b), width - 4);
  }

  lemma PowBy4(width: nat)
    ensures Pow(width + 4) == 16 * Pow(width)
  {
    assert Pow(width + 4) == 2 * Pow(width + 3);
    assert Pow(width + 3) == 2 * Pow(width + 2);
    assert Pow(width + 2) == 2 * Pow(width + 1);
  }

  lemma PowZero()
    ensures Pow(0) == 1
  {
  }

  lemma PowOf32()
    ensures Pow(32) == 0x1_0000_0000
  {
    hide Pow;
    assert Pow(0) == 1 by { PowZero(); }
    PowBy4(0);
    PowBy4(4);
    PowBy4(8);
    PowBy4(12);
    PowBy4(16);
    PowBy4(20);
    PowBy4(24);
    PowBy4(28);
  }

  lemma SmallDrops(b: bv64)
    requires Small(b)
    ensures Drop8(Drop8(Drop8(Drop8(b)))) == 0
  {
  }

  lemma SmallFits(b: bv64)
    requires Small(b)
    ensures Fits(b, 32)
  {
    hide Drop8, Fits, Small;
    SmallDrops(b);
    ValueZero(0);
    FitsBy8(Drop8(Drop8(Drop8(b))), 8);
    FitsBy8(Drop8(Drop8(b)), 16);
    FitsBy8(Drop8(b), 24);
    FitsBy8(b, 32);
  }

  lemma OnesDrop()
    ensures Drop8(0xFFFF_FFFF) == 0xFF_FFFF && Drop8(0xFF_FFFF) == 0xFFFF && Drop8(0xFFFF) == 0xFF && Drop8(0xFF) == 0
    ensures Drop8(0x3FFF_FFFF) == 0x3F_FFFF && Drop8(0x3F_FFFF) == 0x3FFF && Drop8(0x3FFF) == 0x3F
  {
  }

  lemma ValueOfOnes()
    ensures Value(0xFFFF_FFFF, 32) == 0xFFFF_FFFF
  {
    hide Drop8, Value;
    OnesDrop();
    OnesBy8(0xFFFF_FFFF, 32);
    OnesBy8(0xFF_FFFF, 24);
    OnesBy8(0xFFFF, 16);
    OnesBy8(0xFF, 8);
    ValueZero(0);
  }

  lemma SixHalves()
    ensures Half4(0x3F) == 3 && Ones4(0x3F) && Half(3) == 1 && Half(1) == 0 && Odd(3) && Odd(1)
  {
  }

  lemma TwoOnes()
    ensures Value(3, 4) == 3
  {
    hide Half, Odd;
    SixHalves();
    ValueZero(2);
    assert Value(1, 3) == 1;
  }

  lemma ValueOfThirtyOnes()
    ensures Value(0x3FFF_FFFF, 32) == 0x3FFF_FFFF
  {
    hide Drop8, Value;
    OnesDrop();
    OnesBy8(0x3FFF_FFFF, 32);
    OnesBy8(0x3F_FFFF, 24);
    OnesBy8(0x3FFF, 16);
    SixHalves();
    OnesBy4(0x3F, 8);
    TwoOnes();
  }

  // ---- Numbers of thirty-two bits ---------------------------------------------------------------------------

  const LIMIT: nat := 0x1_0000_0000

  function Number(b: bv64): nat {
    Value(b, 32)
  }

  lemma NumberBound(b: bv64)
    ensures Number(b) < LIMIT
  {
    hide Value, Pow;
    PowOf32();
    ValueBound(b, 32);
  }

  lemma NumberInjective(a: bv64, b: bv64)
    requires Small(a) && Small(b)
    ensures Number(a) == Number(b) <==> a == b
  {
    hide Value, Small, Fits;
    SmallFits(a);
    SmallFits(b);
    if Number(a) == Number(b) { ValueInjective(a, b, 32); }
  }

  lemma NumberZero()
    ensures Number(0) == 0 && Small(0)
  {
    hide Value;
    ValueZero(32);
  }

  lemma IncSmall(b: bv64)
    ensures Small(b) && b != 0xFFFF_FFFF ==> Small(Inc(b))
  {
  }

  /** Adding one to the bits adds one to the number, below the limit. */
  lemma NumberInc(b: bv64)
    requires Small(b) && Number(b) + 1 < LIMIT
    ensures Number(Inc(b)) == Number(b) + 1 && Small(Inc(b)) && b != 0xFFFF_FFFF
  {
    hide Value, Small, Inc, Pow;
    PowOf32();
    ValueOfOnes();
    IncValue(b, 32);
    IncSmall(b);
  }

  lemma DecSmall(b: bv64)
    requires Small(b) && b != 0
    ensures Small(Dec(b)) && Inc(Dec(b)) == b && Dec(b) != 0xFFFF_FFFF
  {
  }

  lemma OnesSmall()
    ensures Small(0xFFFF_FFFF) && Number(0xFFFF_FFFF) == 0xFFFF_FFFF
  {
    hide Value;
    ValueOfOnes();
  }

  lemma NumberDec(b: bv64)
    requires Small(b) && Number(b) > 0
    ensures Number(Dec(b)) == Number(b) - 1 && Small(Dec(b)) && b != 0
  {
    hide Number, Small, Inc, Dec;
    NumberZero();
    DecSmall(b);
    NumberBound(Dec(b));
    if Number(Dec(b)) == 0xFFFF_FFFF {
      OnesSmall();
      NumberInjective(Dec(b), 0xFFFF_FFFF);
    }
    NumberInc(Dec(b));
  }

  /** The bits of a number. */
  function Numeral(n: nat): bv64 {
    if n == 0 then 0 else Inc(Numeral(n - 1))
  }

  lemma {:induction false} NumeralNumber(n: nat)
    requires n < LIMIT
    ensures Number(Numeral(n)) == n && Small(Numeral(n))
  {
    hide Number, Small, Inc;
    if n == 0 {
      NumberZero();
    } else {
      NumeralNumber(n - 1);
      NumberInc(Numeral(n - 1));
    }
  }

  lemma ValueBy4(b: bv64, width: nat)
    requires width >= 4
    ensures Value(b, width) >= 16 * Value(Half4(b), width - 4)
  {
    hide Half, Odd;
    var c := Half(b);
    var d := Half(c);
    var e := Half(d);
    assert Value(e, width - 3) >= 2 * Value(Half(e), width - 4);
    assert Value(d, width - 2) >= 2 * Value(e, width - 3);
    assert Value(c, width - 1) >= 2 * Value(d, width - 2);
  }

  lemma ValueBy8(b: bv64, width: nat)
    requires width >= 8
    ensures Value(b, width) >= 256 * Value(Drop8(b), width - 8)
  {
    hide Half4, Drop8, Value;
    Drop8Halves(b);
    ValueBy4(b, width);
    ValueBy4(Half4(b), width - 4);
  }

  lemma DropsClear(b: bv64)
    ensures Drop8(Drop8(b)) == 0 ==> b & !0xFFFF == 0
  {
  }

  /** A number below 2^16 has no bits beyond the sixteenth. */
  lemma SixteenBits(b: bv64)
    requires Small(b) && Number(b) < 0x1_0000
    ensures b & !0xFFFF == 0
  {
    hide Drop8, Value, Fits, Small;
    ValueBy8(b, 32);
    ValueBy8(Drop8(b), 24);
    SmallDrops(b);
    ValueZero(0);
    FitsBy8(Drop8(Drop8(Drop8(b))), 8);
    FitsBy8(Drop8(Drop8(b)), 16);
    ValueZero(16);
    ValueInjective(Drop8(Drop8(b)), 0, 16);
    DropsClear(b);
  }
}
