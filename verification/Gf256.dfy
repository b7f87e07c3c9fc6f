/** Arithmetic of GF(2^8) with reduction byte 0x1d, as the erasure coder uses it. */
module Gf256 {

  /** Field addition; it is its own inverse. */
  function Add(a: bv8, b: bv8): (r: bv8) {
    a ^ b
  }

  /** Multiplication by x: shift left, folding the carry back in with 0x1d. */
  function XTime(a: bv8): (r: bv8) {
    if a & 0x80 != 0 then (a << 1) ^ 0x1d else a << 1
  }

  function Times(a: bv8, bit: bool): (r: bv8) {
    if bit then a else 0
  }

  /** Shift-and-add product: `a` scaled by each bit of `b`. */
  function Mul(a: bv8, b: bv8): (r: bv8)
    decreases b
  {
    if b == 0 then 0 else Add(Times(a, b & 1 != 0), Mul(XTime(a), b >> 1))
  }

  /** Repeated multiplication, the meaning of an exponent. */
  function Power(a: bv8, n: nat): (r: bv8) {
    if n == 0 then 1 else Mul(a, Power(a, n - 1))
  }

  /** The inverse the coder uses; the zero byte is mapped to itself. */
  function Inv(a: bv8): (r: bv8) {
    if a == 0 then 0 else Power(a, 254)
  }

  // ---------------------------------------------------------------- bit-level facts

  lemma XorAssoc(a: bv8, b: bv8, c: bv8)
    ensures (a ^ b) ^ c == a ^ (b ^ c)
  {
  }

  lemma XorComm(a: bv8, b: bv8)
    ensures a ^ b == b ^ a
  {
  }

  lemma ShiftXor(a: bv8, b: bv8)
    ensures (a ^ b) << 1 == (a << 1) ^ (b << 1)
    ensures (a ^ b) >> 1 == (a >> 1) ^ (b >> 1)
    ensures (a ^ b) & 0x80 == (a & 0x80) ^ (b & 0x80)
    ensures (a ^ b) & 1 == (a & 1) ^ (b & 1)
  {
  }

  lemma LowBit(a: bv8)
    ensures a & 1 == 0 || a & 1 == 1
    ensures a & 0x80 == 0 || a & 0x80 == 0x80
  {
  }

  /** x times x^7 is the reduction byte. */
  lemma ReductionByte()
    ensures Mul(2, 0x80) == 0x1d
  {
    assert Mul(XTime(2), 0x40) == Mul(XTime(XTime(2)), 0x20);
  }

  // ---------------------------------------------------------------- the additive group

  lemma AddComm(a: bv8, b: bv8)
    ensures Add(a, b) == Add(b, a)
  {
    XorComm(a, b);
  }

  lemma AddAssoc(a: bv8, b: bv8, c: bv8)
    ensures Add(Add(a, b), c) == Add(a, Add(b, c))
  {
    XorAssoc(a, b, c);
  }

  lemma AddZero(a: bv8)
    ensures Add(a, 0) == a && Add(0, a) == a
    ensures Add(a, a) == 0
  {
  }

  lemma AddCancel(a: bv8, b: bv8)
    ensures Add(a, b) == 0 <==> a == b
  {
    hide Add;
    AddZero(a); AddZero(b);
    if Add(a, b) == 0 {
      AddAssoc(a, b, b);
    }
  }

  lemma AddSwap(a: bv8, b: bv8, c: bv8, d: bv8)
    ensures Add(Add(a, b), Add(c, d)) == Add(Add(a, c), Add(b, d))
  {
    hide Add;
    AddAssoc(a, b, Add(c, d)); AddAssoc(b, c, d); AddComm(b, c);
    AddAssoc(c, b, d); AddAssoc(a, c, Add(b, d));
  }

  lemma XTimeAdd(a: bv8, b: bv8)
    ensures XTime(Add(a, b)) == Add(XTime(a), XTime(b))
  {
    ShiftXor(a, b); LowBit(a); LowBit(b);
  }

  lemma TimesAdd(a: bv8, b: bv8, bit: bool)
    ensures Times(Add(a, b), bit) == Add(Times(a, bit), Times(b, bit))
  {
    AddZero(0);
  }

  // ---------------------------------------------------------------- the ring

  lemma MulStep(a: bv8, b: bv8)
    ensures Mul(a, b) == Add(Times(a, b & 1 != 0), Mul(XTime(a), b >> 1))
  {
    hide XTime, Add;
    if b == 0 {
      AddZero(0);
    }
  }

  lemma {:induction false} MulAddLeft(a: bv8, c: bv8, b: bv8)
    ensures Mul(Add(a, c), b) == Add(Mul(a, b), Mul(c, b))
    decreases b
  {
    hide XTime, Times, Add;
    if b == 0 {
      AddZero(0);
    } else {
      var a', c', b', t := XTime(a), XTime(c), b >> 1, b & 1 != 0;
      XTimeAdd(a, c); TimesAdd(a, c, t);
      MulAddLeft(a', c', b');
      AddSwap(Times(a, t), Times(c, t), Mul(a', b'), Mul(c', b'));
    }
  }

  lemma TimesSum(a: bv8, s: bool, t: bool)
    ensures Times(a, s != t) == Add(Times(a, s), Times(a, t))
  {
    AddZero(a);
  }

  lemma LowBitSum(b: bv8, c: bv8)
    ensures (Add(b, c) & 1 != 0) == ((b & 1 != 0) != (c & 1 != 0))
    ensures Add(b, c) >> 1 == Add(b >> 1, c >> 1)
  {
    ShiftXor(b, c); LowBit(b); LowBit(c);
  }

  lemma {:induction false} MulAddRight(a: bv8, b: bv8, c: bv8)
    ensures Mul(a, Add(b, c)) == Add(Mul(a, b), Mul(a, c))
    decreases b, c
  {
    hide XTime, Times, Add;
    if b == 0 {
      AddZero(c); AddZero(Mul(a, c));
    } else {
      var s, t := b & 1 != 0, c & 1 != 0;
      MulStep(a, Add(b, c)); MulStep(a, b); MulStep(a, c);
      LowBitSum(b, c); TimesSum(a, s, t);
      MulAddRight(XTime(a), b >> 1, c >> 1);
      AddSwap(Times(a, s), Times(a, t), Mul(XTime(a), b >> 1), Mul(XTime(a), c >> 1));
    }
  }

  lemma XTimeTimes(a: bv8, t: bool)
    ensures XTime(Times(a, t)) == Times(XTime(a), t)
  {
  }

  lemma {:induction false} MulXTimeLeft(a: bv8, b: bv8)
    ensures Mul(XTime(a), b) == XTime(Mul(a, b))
    decreases b
  {
    hide Add, Times, XTime;
    if b == 0 {
      XTimeTimes(0, false);
      assert XTime(0) == 0 by { XTimeZero(); }
    } else {
      MulXTimeLeft(XTime(a), b >> 1);
      XTimeTimes(a, b & 1 != 0);
      XTimeAdd(Times(a, b & 1 != 0), Mul(XTime(a), b >> 1));
    }
  }

  lemma XTimeZero()
    ensures XTime(0) == 0
  {
  }

  lemma MulZeroOne(a: bv8)
    ensures Mul(a, 0) == 0 && Mul(a, 1) == a
  {
    hide Add, XTime;
    MulStep(a, 1); AddZero(a);
  }

  lemma {:induction false} MulZeroLeft(b: bv8)
    ensures Mul(0, b) == 0
    decreases b
  {
    hide Add, XTime;
    if b != 0 {
      XTimeZero(); AddZero(0);
      MulZeroLeft(b >> 1);
    }
  }

  lemma ShiftBack(b: bv8)
    ensures b == Add(b & 1, XTime(b >> 1))
  {
    assert (b >> 1) & 0x80 == 0;
  }

  lemma {:induction false} MulOneLeft(b: bv8)
    ensures Mul(1, b) == b
    decreases b
  {
    hide Add, XTime;
    if b != 0 {
      MulOneLeft(b >> 1);
      MulXTimeLeft(1, b >> 1);
      LowBit(b); ShiftBack(b);
    }
  }

  lemma {:induction false} MulComm(a: bv8, b: bv8)
    ensures Mul(a, b) == Mul(b, a)
    decreases b
  {
    hide Add, XTime;
    if b == 0 {
      MulZeroLeft(a);
    } else {
      MulComm(a, b >> 1);
      MulXTimeLeft(a, b >> 1); MulXTimeLeft(b >> 1, a);
      ShiftBack(b); MulAddLeft(b & 1, XTime(b >> 1), a);
      LowBit(b); MulOneLeft(a); MulZeroLeft(a);
    }
  }

  lemma {:induction false} MulAssoc(a: bv8, b: bv8, c: bv8)
    ensures Mul(Mul(a, b), c) == Mul(a, Mul(b, c))
    decreases c
  {
    hide Add, XTime, Times;
    if c == 0 {
      MulZeroOne(a);
    } else {
      var t := c & 1 != 0;
      MulComm(a, b); MulXTimeLeft(b, a); MulComm(XTime(b), a);
      MulAssoc(a, XTime(b), c >> 1);
      MulAddRight(a, Times(b, t), Mul(XTime(b), c >> 1));
      MulTimes(a, b, t);
    }
  }

  lemma MulTimes(a: bv8, b: bv8, t: bool)
    ensures Mul(a, Times(b, t)) == Times(Mul(a, b), t)
  {
  }

  lemma MulSwap(a: bv8, b: bv8, c: bv8, d: bv8)
    ensures Mul(Mul(a, b), Mul(c, d)) == Mul(Mul(a, c), Mul(b, d))
  {
    hide Mul;
    MulAssoc(a, b, Mul(c, d)); MulAssoc(b, c, d); MulComm(b, c);
    MulAssoc(c, b, d); MulAssoc(a, c, Mul(b, d));
  }

  // ---------------------------------------------------------------- the Frobenius map

  function Square(a: bv8): (r: bv8) {
    Mul(a, a)
  }

  lemma SquareAdd(a: bv8, b: bv8)
    ensures Square(Add(a, b)) == Add(Square(a), Square(b))
  {
    hide Add, Mul;
    MulAddLeft(a, b, Add(a, b)); MulAddRight(a, a, b); MulAddRight(b, a, b);
    MulComm(a, b);
    AddAssoc(Mul(a, a), Mul(a, b), Add(Mul(a, b), Mul(b, b)));
    AddAssoc(Mul(a, b), Mul(a, b), Mul(b, b));
    AddZero(Mul(a, b)); AddZero(Mul(b, b));
  }

  lemma SquareMul(a: bv8, b: bv8)
    ensures Square(Mul(a, b)) == Mul(Square(a), Square(b))
  {
    hide Mul;
    MulSwap(a, b, a, b);
  }

  lemma SquareXTime(a: bv8)
    ensures Square(XTime(a)) == XTime(XTime(Square(a)))
  {
    hide Mul, XTime;
    MulXTimeLeft(a, XTime(a)); MulComm(a, XTime(a)); MulXTimeLeft(a, a);
  }

  function Pick(a: bv8, mask: bv8, v: bv8): (r: bv8) {
    if a & mask != 0 then v else 0
  }

  function Sum8(a: bv8, b: bv8, c: bv8, d: bv8, e: bv8, f: bv8, g: bv8, h: bv8): (r: bv8) {
    Add(Add(Add(Add(Add(Add(Add(a, b), c), d), e), f), g), h)
  }

  /** Squaring as a linear map on the eight bits. */
  function SquareBits(a: bv8): (r: bv8) {
    Sum8(Pick(a, 0x01, 0x01), Pick(a, 0x02, 0x04), Pick(a, 0x04, 0x10), Pick(a, 0x08, 0x40),
         Pick(a, 0x10, 0x1d), Pick(a, 0x20, 0x74), Pick(a, 0x40, 0xcd), Pick(a, 0x80, 0x13))
  }

  lemma SquareUnits()
    ensures Square(0x01) == 0x01 && Square(0x02) == 0x04 && Square(0x04) == 0x10 && Square(0x08) == 0x40
    ensures Square(0x10) == 0x1d && Square(0x20) == 0x74 && Square(0x40) == 0xcd && Square(0x80) == 0x13
    ensures Square(0) == 0
  {
    hide Mul;
    MulZeroOne(1); MulZeroOne(0);
    SquareXTime(0x01); SquareXTime(0x02); SquareXTime(0x04); SquareXTime(0x08);
    SquareXTime(0x10); SquareXTime(0x20); SquareXTime(0x40);
  }

  lemma Bits(a: bv8)
    ensures a == Sum8(a & 0x01, a & 0x02, a & 0x04, a & 0x08, a & 0x10, a & 0x20, a & 0x40, a & 0x80)
  {
  }

  lemma MaskCases(a: bv8)
    ensures (a & 0x01 == 0 || a & 0x01 == 0x01) && (a & 0x02 == 0 || a & 0x02 == 0x02)
    ensures (a & 0x04 == 0 || a & 0x04 == 0x04) && (a & 0x08 == 0 || a & 0x08 == 0x08)
    ensures (a & 0x10 == 0 || a & 0x10 == 0x10) && (a & 0x20 == 0 || a & 0x20 == 0x20)
    ensures (a & 0x40 == 0 || a & 0x40 == 0x40) && (a & 0x80 == 0 || a & 0x80 == 0x80)
  {
  }

  lemma SquarePick(a: bv8, mask: bv8, v: bv8)
    requires (a & mask == 0 || a & mask == mask) && Square(mask) == v && Square(0) == 0
    ensures Square(a & mask) == Pick(a, mask, v)
  {
    hide Mul, Square;
  }

  /** Squaring distributes over the eight terms of a sum. */
  lemma SquareSum(a: bv8, b: bv8, c: bv8, d: bv8, e: bv8, f: bv8, g: bv8, h: bv8)
    ensures Square(Sum8(a, b, c, d, e, f, g, h)) ==
            Sum8(Square(a), Square(b), Square(c), Square(d), Square(e), Square(f), Square(g), Square(h))
  {
    hide Mul, Square, Add;
    var s2 := Add(a, b); var s3 := Add(s2, c); var s4 := Add(s3, d); var s5 := Add(s4, e);
    var s6 := Add(s5, f); var s7 := Add(s6, g);
    SquareAdd(a, b); SquareAdd(s2, c); SquareAdd(s3, d); SquareAdd(s4, e);
    SquareAdd(s5, f); SquareAdd(s6, g); SquareAdd(s7, h);
  }

  lemma SquareIsLinear(a: bv8)
    ensures Square(a) == SquareBits(a)
  {
    hide Mul, Square, Pick, Sum8;
    Bits(a);
    SquareSum(a & 0x01, a & 0x02, a & 0x04, a & 0x08, a & 0x10, a & 0x20, a & 0x40, a & 0x80);
    SquareUnits(); MaskCases(a);
    SquarePick(a, 0x01, 0x01); SquarePick(a, 0x02, 0x04); SquarePick(a, 0x04, 0x10); SquarePick(a, 0x08, 0x40);
    SquarePick(a, 0x10, 0x1d); SquarePick(a, 0x20, 0x74); SquarePick(a, 0x40, 0xcd); SquarePick(a, 0x80, 0x13);
  }

  lemma FixedBySquareBits(e: bv8)
    requires SquareBits(e) == e
    ensures e == 0 || e == 1
  {
  }

  /** Squaring `n` times: the power 2^n. */
  function Frobenius(a: bv8, n: nat): (r: bv8) {
    if n == 0 then a else Square(Frobenius(a, n - 1))
  }

  lemma {:induction false} FrobeniusAdd(a: bv8, b: bv8, n: nat)
    ensures Frobenius(Add(a, b), n) == Add(Frobenius(a, n), Frobenius(b, n))
  {
    hide Square, Add;
    if n > 0 {
      FrobeniusAdd(a, b, n - 1);
      SquareAdd(Frobenius(a, n - 1), Frobenius(b, n - 1));
    }
  }

  lemma {:induction false} FrobeniusMul(a: bv8, b: bv8, n: nat)
    ensures Frobenius(Mul(a, b), n) == Mul(Frobenius(a, n), Frobenius(b, n))
  {
    hide Square, Mul;
    if n > 0 {
      FrobeniusMul(a, b, n - 1);
      SquareMul(Frobenius(a, n - 1), Frobenius(b, n - 1));
    }
  }

  /** The successive squares of x. */
  lemma OrbitBits()
    ensures SquareBits(0x02) == 0x04 && SquareBits(0x04) == 0x10 && SquareBits(0x10) == 0x1d && SquareBits(0x1d) == 0x4c
    ensures SquareBits(0x4c) == 0x9d && SquareBits(0x9d) == 0x5f && SquareBits(0x5f) == 0x85 && SquareBits(0x85) == 0x02
  {
  }

  lemma FrobeniusStep(a: bv8, n: nat)
    ensures Frobenius(a, n + 1) == Square(Frobenius(a, n)) && Frobenius(a, 0) == a
  {
    hide Square;
  }

  /** The orbit of x under squaring closes after eight steps. */
  lemma OrbitOfX()
    ensures Frobenius(0x02, 8) == 0x02
  {
    hide Square, SquareBits, Frobenius;
    OrbitBits();
    SquareIsLinear(0x02); SquareIsLinear(0x04); SquareIsLinear(0x10); SquareIsLinear(0x1d);
    SquareIsLinear(0x4c); SquareIsLinear(0x9d); SquareIsLinear(0x5f); SquareIsLinear(0x85);
    FrobeniusStep(0x02, 0); FrobeniusStep(0x02, 1); FrobeniusStep(0x02, 2); FrobeniusStep(0x02, 3);
    FrobeniusStep(0x02, 4); FrobeniusStep(0x02, 5); FrobeniusStep(0x02, 6); FrobeniusStep(0x02, 7);
  }

  lemma {:induction false} FrobeniusLowBit(b: bv8, n: nat)
    ensures Frobenius(b & 1, n) == b & 1
  {
    hide Square;
    LowBit(b);
    if n > 0 {
      FrobeniusLowBit(b, n - 1);
      SquareUnits();
    }
  }

  /** Every byte is a root of y^256 = y. */
  lemma {:induction false} FrobeniusIdentity(a: bv8)
    ensures Frobenius(a, 8) == a
    decreases a
  {
    hide Add, Mul, XTime, Frobenius, Square;
    if a == 0 {
      FrobeniusLowBit(0, 8);
    } else {
      var h := a >> 1;
      FrobeniusIdentity(h);
      ShiftBack(a); FrobeniusAdd(a & 1, XTime(h), 8); FrobeniusLowBit(a, 8);
      XTimeIsMul(h); FrobeniusMul(0x02, h, 8); OrbitOfX();
    }
  }

  lemma XTimeIsMul(a: bv8)
    ensures XTime(a) == Mul(0x02, a)
  {
    hide Mul;
    MulXTimeLeft(1, a); MulOneLeft(a);
  }

  // ---------------------------------------------------------------- inverses

  lemma PowerStep(a: bv8, n: nat)
    ensures Power(a, n + 1) == Mul(a, Power(a, n))
    ensures Power(a, 0) == 1 && Power(a, 1) == a
  {
    hide Mul;
    MulZeroOne(a);
  }

  /** The square-and-multiply law. */
  lemma {:induction false} PowerEven(a: bv8, n: nat)
    ensures Power(a, 2 * n) == Power(Mul(a, a), n)
    ensures Power(a, 2 * n + 1) == Mul(a, Power(Mul(a, a), n))
  {
    hide Mul;
    if n > 0 {
      PowerEven(a, n - 1);
      MulAssoc(a, a, Power(Mul(a, a), n - 1));
    }
  }

  /** The product of the conjugates a^(2^i) .. a^(2^7). */
  function Conjugates(a: bv8, i: nat): (r: bv8)
    requires i <= 7
    decreases 7 - i
  {
    if i == 7 then Frobenius(a, 7) else Mul(Frobenius(a, i), Conjugates(a, i + 1))
  }

  lemma PowerOfConjugate(a: bv8, i: nat, n: nat)
    ensures Power(Frobenius(a, i), 2 * n) == Power(Frobenius(a, i + 1), n)
    ensures Power(Frobenius(a, i), 2 * n + 1) == Mul(Frobenius(a, i), Power(Frobenius(a, i + 1), n))
  {
    hide Mul, Power;
    PowerEven(Frobenius(a, i), n);
  }

  lemma InvIsConjugates(a: bv8)
    requires a != 0
    ensures Inv(a) == Conjugates(a, 1)
  {
    hide Mul, Frobenius, Power;
    assert Frobenius(a, 0) == a by { FrobeniusStart(a); }
    PowerOfConjugate(a, 0, 127); PowerOfConjugate(a, 1, 63); PowerOfConjugate(a, 2, 31);
    PowerOfConjugate(a, 3, 15); PowerOfConjugate(a, 4, 7); PowerOfConjugate(a, 5, 3); PowerOfConjugate(a, 6, 1);
    PowerStep(Frobenius(a, 7), 0);
    assert Power(Frobenius(a, 5), 7) == Conjugates(a, 5);
    assert Power(Frobenius(a, 3), 31) == Conjugates(a, 3);
  }

  lemma FrobeniusStart(a: bv8)
    ensures Frobenius(a, 0) == a
  {
  }

  lemma {:induction false} SquareConjugates(a: bv8, i: nat)
    requires i <= 7
    ensures Square(Conjugates(a, i)) == if i == 7 then a else Mul(Conjugates(a, i + 1), a)
    decreases 7 - i
  {
    hide Mul, Square;
    FrobeniusIdentity(a);
    if i < 7 {
      SquareConjugates(a, i + 1);
      SquareMul(Frobenius(a, i), Conjugates(a, i + 1));
      if i < 6 {
        MulAssoc(Frobenius(a, i + 1), Conjugates(a, i + 2), a);
      }
    }
  }

  lemma {:induction false} ConjugateTimesTail(a: bv8, i: nat)
    requires i <= 7
    ensures Mul(Frobenius(a, i), Conjugates(a, i)) == a
    decreases 7 - i
  {
    hide Mul;
    if i == 7 {
      FrobeniusIdentity(a);
      assert Frobenius(a, 8) == Square(Frobenius(a, 7));
    } else {
      ConjugateTimesTail(a, i + 1);
      MulAssoc(Frobenius(a, i), Frobenius(a, i), Conjugates(a, i + 1));
      assert Frobenius(a, i + 1) == Square(Frobenius(a, i));
    }
  }

  /** Every nonzero byte has the inverse that the coder computes: its norm is fixed by squaring, hence 1. */
  lemma MulInv(a: bv8)
    requires a != 0
    ensures Mul(a, Inv(a)) == 1
  {
    hide Mul, Square, SquareBits, Inv;
    var e := Conjugates(a, 0);
    FrobeniusStart(a); InvIsConjugates(a);
    assert e == Mul(a, Inv(a));
    SquareConjugates(a, 0); MulComm(Conjugates(a, 1), a);
    assert Square(e) == e;
    SquareIsLinear(e); FixedBySquareBits(e);
    ConjugateTimesTail(a, 0); MulZeroOne(a);
  }

  lemma NoZeroDivisors(a: bv8, b: bv8)
    ensures Mul(a, b) == 0 <==> a == 0 || b == 0
  {
    hide Mul, Inv;
    MulZeroOne(a); MulZeroLeft(b);
    if Mul(a, b) == 0 && a != 0 {
      MulInv(a); MulComm(a, Inv(a)); MulAssoc(Inv(a), a, b);
      MulZeroOne(Inv(a)); MulOneLeft(b);
    }
  }

  lemma InvNonzero(a: bv8)
    ensures Inv(a) == 0 <==> a == 0
  {
    hide Mul, Power;
    if a != 0 {
      MulInv(a); MulZeroOne(a);
    }
  }

  // ---------------------------------------------------------------- the loops

  /** Russian-peasant multiplication, one bit of `b0` per round. */
  method GfMul(a0: bv8, b0: bv8) returns (p: bv8)
    ensures p == Mul(a0, b0)
  {
    hide Add;
    var a, b := a0, b0;
    p := 0;
    AddZero(Mul(a, b));
    while b != 0
      invariant Add(p, Mul(a, b)) == Mul(a0, b0)
      decreases b
    {
      AddAssoc(p, Times(a, b & 1 != 0), Mul(XTime(a), b >> 1)); AddZero(p);
      MulStep(a, b);
      if b & 1 != 0 {
        p := Add(p, a);
      }
      var hi := a & 0x80;
      ghost var next := XTime(a);
      a := a << 1;
      if hi != 0 {
        a := a ^ 0x1d;
      }
      assert a == next;
      b := b >> 1;
    }
    AddZero(p); MulZeroOne(a);
  }

  /** Square-and-multiply exponentiation; a negative exponent runs no round. */
  method GfPow(a0: bv8, n0: int) returns (out: bv8)
    ensures out == Power(a0, if n0 < 0 then 0 else n0)
  {
    hide Mul;
    var a, n := a0, n0;
    out := 1;
    MulOneLeft(Power(a0, if n0 < 0 then 0 else n0));
    while n > 0
      invariant Mul(out, Power(a, if n < 0 then 0 else n)) == Power(a0, if n0 < 0 then 0 else n0)
    {
      PowerEven(a, n / 2);
      if n % 2 == 1 {
        MulAssoc(out, a, Power(Mul(a, a), n / 2));
        out := GfMul(out, a);
      }
      a := GfMul(a, a);
      n := n / 2;
    }
    MulZeroOne(out);
  }

  method GfInv(a: bv8) returns (r: bv8)
    ensures r == Inv(a)
    ensures a != 0 ==> Mul(a, r) == 1
    ensures a == 0 ==> r == 0
  {
    hide Mul, Power;
    if a == 0 {
      return 0;
    }
    MulInv(a);
    r := GfPow(a, 254);
  }
}
