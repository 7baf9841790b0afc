/**
 The field with 256 elements used by the Reed-Solomon code, with field polynomial
 x^8 + x^4 + x^3 + x^2 + 1 (0x11d). A byte is the polynomial whose coefficients are its bits.
 The laws proved here are what erasure decoding rests on: addition is exclusive or, and
 multiplication is commutative and associative and distributes over it.
 */
module Gf256 {
  import opened Bytes

  const ZERO: Byte := 0
  const ONE: Byte := 1

  /** Addition: exclusive or of the bits. */
  function Add(x: Byte, y: Byte): Byte {
    x ^ y
  }

  function ShiftLeft(a: Byte): Byte {
    a << 1
  }

  /** What the coefficient shifted out at the top reduces to. */
  function Overflow(a: Byte): Byte {
    if a & 0x80 != 0 then 0x1d else 0
  }

  /** Multiplication by the polynomial x, reduced by 0x11d. */
  function TimesX(a: Byte): Byte {
    Add(ShiftLeft(a), Overflow(a))
  }

  /** Division by the polynomial x, forgetting the constant coefficient. */
  function ShiftRight(a: Byte): Byte {
    a >> 1
  }

  predicate IsOdd(a: Byte) {
    a & 1 == 1
  }

  function Scale(bit: bool, a: Byte): Byte {
    if bit then a else ZERO
  }

  /** a times the polynomial made of the n lowest coefficients of b. */
  function MulLow(a: Byte, b: Byte, n: nat): Byte
    decreases n
  {
    if n == 0 then ZERO else Add(Scale(IsOdd(b), a), MulLow(TimesX(a), ShiftRight(b), n - 1))
  }

  function Mul(a: Byte, b: Byte): Byte {
    MulLow(a, b, 8)
  }

  // ---------- addition ----------

  lemma AddCommutes(a: Byte, b: Byte)
    ensures Add(a, b) == Add(b, a)
  {
  }

  lemma AddCancels(a: Byte, b: Byte)
    ensures Add(a, a) == ZERO
    ensures Add(a, ZERO) == a && Add(ZERO, a) == a
  {
  }

  lemma AddAssociates(a: Byte, b: Byte, c: Byte)
    ensures Add(Add(a, b), c) == Add(a, Add(b, c))
  {
  }

  /** The exchange law that regroups two sums of two. */
  lemma AddExchange(a: Byte, b: Byte, c: Byte, d: Byte)
    ensures Add(Add(a, b), Add(c, d)) == Add(Add(a, c), Add(b, d))
  {
    hide Add;
    AddAssociates(a, b, Add(c, d));
    AddAssociates(b, c, d);
    AddCommutes(b, c);
    AddAssociates(c, b, d);
    AddAssociates(a, c, Add(b, d));
  }

  lemma ShiftLeftAdds(a: Byte, b: Byte)
    ensures ShiftLeft(Add(a, b)) == Add(ShiftLeft(a), ShiftLeft(b))
  {
  }

  lemma OverflowAdds(a: Byte, b: Byte)
    ensures Overflow(Add(a, b)) == Add(Overflow(a), Overflow(b))
  {
    assert ((a ^ b) & 0x80 != 0) == ((a & 0x80 != 0) != (b & 0x80 != 0));
  }

  lemma TimesXAdds(a: Byte, b: Byte)
    ensures TimesX(Add(a, b)) == Add(TimesX(a), TimesX(b))
  {
    hide Add, ShiftLeft, Overflow;
    ShiftLeftAdds(a, b);
    OverflowAdds(a, b);
    AddExchange(ShiftLeft(a), ShiftLeft(b), Overflow(a), Overflow(b));
  }

  // ---------- multiplication ----------

  lemma ScaleAdds(bit: bool, a: Byte, c: Byte)
    ensures Scale(bit, Add(a, c)) == Add(Scale(bit, a), Scale(bit, c))
  {
    AddCancels(ZERO, ZERO);
  }

  lemma {:induction false} MulLowAdds(a: Byte, c: Byte, b: Byte, n: nat)
    ensures MulLow(Add(a, c), b, n) == Add(MulLow(a, b, n), MulLow(c, b, n))
    decreases n
  {
    hide Add;
    if n == 0 {
      AddCancels(ZERO, ZERO);
    } else {
      hide TimesX;
      TimesXAdds(a, c);
      MulLowAdds(TimesX(a), TimesX(c), ShiftRight(b), n - 1);
      ScaleAdds(IsOdd(b), a, c);
      AddExchange(Scale(IsOdd(b), a), Scale(IsOdd(b), c),
                  MulLow(TimesX(a), ShiftRight(b), n - 1), MulLow(TimesX(c), ShiftRight(b), n - 1));
    }
  }

  lemma {:induction false} MulLowTimesX(a: Byte, b: Byte, n: nat)
    ensures MulLow(TimesX(a), b, n) == TimesX(MulLow(a, b, n))
    decreases n
  {
    if n != 0 {
      MulLowTimesX(TimesX(a), ShiftRight(b), n - 1);
      TimesXAdds(Scale(IsOdd(b), a), MulLow(TimesX(a), ShiftRight(b), n - 1));
      assert Scale(IsOdd(b), TimesX(a)) == TimesX(Scale(IsOdd(b), a));
    }
  }

  lemma {:induction false} ZeroMulLow(b: Byte, n: nat)
    ensures MulLow(ZERO, b, n) == ZERO
    decreases n
  {
    if n != 0 {
      ZeroMulLow(ShiftRight(b), n - 1);
    }
  }

  function Shifted(b: Byte, n: nat): Byte
    decreases n
  {
    if n == 0 then b else Shifted(ShiftRight(b), n - 1)
  }

  lemma ShiftedAway(b: Byte)
    ensures Shifted(b, 8) == ZERO
  {
    var s1 := ShiftRight(b);
    var s2 := ShiftRight(s1);
    var s3 := ShiftRight(s2);
    var s4 := ShiftRight(s3);
    assert Shifted(b, 8) == Shifted(s1, 7) == Shifted(s2, 6) == Shifted(s3, 5) == Shifted(s4, 4);
    var s5 := ShiftRight(s4);
    var s6 := ShiftRight(s5);
    var s7 := ShiftRight(s6);
    assert Shifted(s4, 4) == Shifted(s5, 3) == Shifted(s6, 2) == Shifted(s7, 1) == ShiftRight(s7);
  }

  lemma OneMul(a: Byte)
    ensures Mul(ONE, a) == a
  {
    OneMulLow(a, 8);
    ShiftedAway(a);
  }

  lemma {:induction false} OneMulLow(b: Byte, n: nat)
    requires Shifted(b, n) == ZERO
    ensures MulLow(ONE, b, n) == b
    decreases n
  {
    if n != 0 {
      OneMulLow(ShiftRight(b), n - 1);
      MulLowTimesX(ONE, ShiftRight(b), n - 1);
    }
  }

  lemma OneAndShift(b: Byte)
    ensures b == Add(Scale(IsOdd(b), ONE), TimesX(ShiftRight(b)))
  {
  }

  /** Horner's step for the left factor. */
  lemma MulByShift(b: Byte, a: Byte)
    ensures Mul(b, a) == Add(Scale(IsOdd(b), a), TimesX(Mul(ShiftRight(b), a)))
  {
    OneAndShift(b);
    hide Add, TimesX, ShiftRight, MulLow;
    MulLowAdds(Scale(IsOdd(b), ONE), TimesX(ShiftRight(b)), a, 8);
    MulLowTimesX(ShiftRight(b), a, 8);
    OneMul(a);
    ZeroMulLow(a, 8);
  }

  lemma {:induction false} MulLowCommutes(a: Byte, b: Byte, n: nat)
    requires Shifted(b, n) == ZERO
    ensures MulLow(a, b, n) == Mul(b, a)
    decreases n
  {
    hide Add, TimesX, ShiftRight, Mul;
    if n == 0 {
      MulZero(a);
    } else {
      MulLowCommutes(a, ShiftRight(b), n - 1);
      MulLowTimesX(a, ShiftRight(b), n - 1);
      MulByShift(b, a);
    }
  }

  lemma MulCommutes(a: Byte, b: Byte)
    ensures Mul(a, b) == Mul(b, a)
  {
    ShiftedAway(b);
    MulLowCommutes(a, b, 8);
  }

  lemma MulDistributes(a: Byte, b: Byte, c: Byte)
    ensures Mul(Add(a, b), c) == Add(Mul(a, c), Mul(b, c))
    ensures Mul(c, Add(a, b)) == Add(Mul(c, a), Mul(c, b))
  {
    MulLowAdds(a, b, c, 8);
    MulCommutes(Add(a, b), c);
    MulCommutes(a, c);
    MulCommutes(b, c);
  }

  lemma MulZero(a: Byte)
    ensures Mul(ZERO, a) == ZERO
  {
    ZeroMulLow(a, 8);
  }

  lemma ScaleMul(bit: bool, a: Byte, b: Byte)
    ensures Scale(bit, Mul(a, b)) == Mul(a, Scale(bit, b))
  {
    hide MulLow;
    MulZero(a);
    MulCommutes(a, ZERO);
  }

  lemma {:induction false} MulLowAssociates(a: Byte, b: Byte, c: Byte, n: nat)
    ensures MulLow(Mul(a, b), c, n) == Mul(a, MulLow(b, c, n))
    decreases n
  {
    hide Add, TimesX, ShiftRight;
    if n == 0 {
      ScaleMul(false, a, b);
    } else {
      MulCommutes(a, b);
      MulLowTimesX(b, a, 8);
      MulCommutes(a, TimesX(b));
      assert TimesX(Mul(a, b)) == Mul(a, TimesX(b));
      MulLowAssociates(a, TimesX(b), ShiftRight(c), n - 1);
      MulDistributes(Scale(IsOdd(c), b), MulLow(TimesX(b), ShiftRight(c), n - 1), a);
      ScaleMul(IsOdd(c), a, b);
    }
  }

  lemma MulAssociates(a: Byte, b: Byte, c: Byte)
    ensures Mul(Mul(a, b), c) == Mul(a, Mul(b, c))
  {
    MulLowAssociates(a, b, c, 8);
  }
}
