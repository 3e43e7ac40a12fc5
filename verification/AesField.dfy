/**
 The S-box as section 5.1.1 of FIPS-197 defines it: the reciprocal in the field of 256 elements, then an affine
 transformation. The table of the source holds exactly these values.
 */
module AesField {
  import opened AesModel
  import opened AesRounds
  import opened AesBoxes

  // ---------------------------------------------------------------- the field, section 4.2 of FIPS-197

  /** `a`, if `b` has this bit. */
  function Part(b: bv8, bit: bv8, a: bv8): bv8 { if b & bit != 0 then a else 0 }

  function X4(a: bv8): bv8 { XTime(X3(a)) }
  function X5(a: bv8): bv8 { XTime(X4(a)) }
  function X6(a: bv8): bv8 { XTime(X5(a)) }
  function X7(a: bv8): bv8 { XTime(X6(a)) }

  function Sum8(a: bv8, b: bv8, c: bv8, d: bv8, e: bv8, f: bv8, g: bv8, h: bv8): bv8 {
    ((a ^ b) ^ (c ^ d)) ^ ((e ^ f) ^ (g ^ h))
  }

  /** The product: the sum of the multiples of `a` by the powers of x that `b` has. */
  function Product(a: bv8, b: bv8): bv8 {
    Sum8(Part(b, 0x01, a), Part(b, 0x02, XTime(a)), Part(b, 0x04, X2(a)), Part(b, 0x08, X3(a)),
         Part(b, 0x10, X4(a)), Part(b, 0x20, X5(a)), Part(b, 0x40, X6(a)), Part(b, 0x80, X7(a)))
  }

  /** The multiples that MixColumns uses... */
  lemma MixMultiples(a: bv8)
    ensures Product(a, 0x01) == a && Product(a, 0x02) == XTime(a) && Product(a, 0x03) == Mul3(a)
  {
  }

  lemma MultiplesD(a: bv8)
    ensures Product(a, 0x0d) == MulD(a) && Product(a, 0x0e) == MulE(a)
  {
  }

  /** ...and those of InvMixColumns. */
  lemma InvMixMultiples(a: bv8)
    ensures Product(a, 0x09) == Mul9(a) && Product(a, 0x0b) == MulB(a)
    ensures Product(a, 0x0d) == MulD(a) && Product(a, 0x0e) == MulE(a)
  {
    MultiplesD(a);
  }

  lemma PartPlus(b: bv8, c: bv8, bit: bv8, a: bv8)
    requires bit in {0x01, 0x02, 0x04, 0x08, 0x10, 0x20, 0x40, 0x80}
    ensures Part(Xor(b, c), bit, a) == Xor(Part(b, bit, a), Part(c, bit, a))
  {
  }

  function LowParts(a: bv8, b: bv8): bv8 {
    Xor4(Part(b, 0x01, a), Part(b, 0x02, XTime(a)), Part(b, 0x04, X2(a)), Part(b, 0x08, X3(a)))
  }

  function HighParts(a: bv8, b: bv8): bv8 {
    Xor4(Part(b, 0x10, X4(a)), Part(b, 0x20, X5(a)), Part(b, 0x40, X6(a)), Part(b, 0x80, X7(a)))
  }

  lemma SumIs(a: bv8, b: bv8, c: bv8, d: bv8, e: bv8, f: bv8, g: bv8, h: bv8)
    ensures Sum8(a, b, c, d, e, f, g, h) == Xor(Xor4(a, b, c, d), Xor4(e, f, g, h))
  {
  }

  lemma ProductParts(a: bv8, b: bv8)
    ensures Product(a, b) == Xor(LowParts(a, b), HighParts(a, b))
  {
    SumIs(Part(b, 0x01, a), Part(b, 0x02, XTime(a)), Part(b, 0x04, X2(a)), Part(b, 0x08, X3(a)),
          Part(b, 0x10, X4(a)), Part(b, 0x20, X5(a)), Part(b, 0x40, X6(a)), Part(b, 0x80, X7(a)));
  }

  lemma LowPlus(a: bv8, b: bv8, c: bv8)
    ensures LowParts(a, Xor(b, c)) == Xor(LowParts(a, b), LowParts(a, c))
  {
    PartPlus(b, c, 0x01, a);
    PartPlus(b, c, 0x02, XTime(a));
    PartPlus(b, c, 0x04, X2(a));
    PartPlus(b, c, 0x08, X3(a));
    Xor4Sum(Part(b, 0x01, a), Part(b, 0x02, XTime(a)), Part(b, 0x04, X2(a)), Part(b, 0x08, X3(a)),
            Part(c, 0x01, a), Part(c, 0x02, XTime(a)), Part(c, 0x04, X2(a)), Part(c, 0x08, X3(a)));
  }

  lemma HighPlus(a: bv8, b: bv8, c: bv8)
    ensures HighParts(a, Xor(b, c)) == Xor(HighParts(a, b), HighParts(a, c))
  {
    PartPlus(b, c, 0x10, X4(a));
    PartPlus(b, c, 0x20, X5(a));
    PartPlus(b, c, 0x40, X6(a));
    PartPlus(b, c, 0x80, X7(a));
    Xor4Sum(Part(b, 0x10, X4(a)), Part(b, 0x20, X5(a)), Part(b, 0x40, X6(a)), Part(b, 0x80, X7(a)),
            Part(c, 0x10, X4(a)), Part(c, 0x20, X5(a)), Part(c, 0x40, X6(a)), Part(c, 0x80, X7(a)));
  }

  /** The product is linear in its second factor. */
  lemma ProductPlus(a: bv8, b: bv8, c: bv8)
    ensures Product(a, Xor(b, c)) == Xor(Product(a, b), Product(a, c))
  {
    LowPlus(a, b, c);
    HighPlus(a, b, c);
    ProductParts(a, b);
    ProductParts(a, c);
    ProductParts(a, Xor(b, c));
    Interchange(LowParts(a, b), LowParts(a, c), HighParts(a, b), HighParts(a, c));
  }

  // ---------------------------------------------------------------- no product of other factors is 0

  lemma LowFactors(a: bv8, b: bv8)
    requires a != 0 && b != 0 && b < 0x40
    ensures Product(a, b) != 0
  {
  }

  lemma MiddleFactors(a: bv8, b: bv8)
    requires a != 0 && 0x40 <= b < 0x80
    ensures Product(a, b) != 0
  {
  }

  lemma HighFactors(a: bv8, b: bv8)
    requires a != 0 && 0x80 <= b < 0xc0
    ensures Product(a, b) != 0
  {
  }

  lemma TopFactors(a: bv8, b: bv8)
    requires a != 0 && 0xc0 <= b < 0xe0
    ensures Product(a, b) != 0
  {
  }

  lemma LastFactors(a: bv8, b: bv8)
    requires a != 0 && 0xe0 <= b
    ensures Product(a, b) != 0
  {
  }

  lemma NoZeroDivisor(a: bv8, b: bv8)
    requires a != 0 && b != 0
    ensures Product(a, b) != 0
  {
    if b < 0x40 {
      LowFactors(a, b);
    } else if b < 0x80 {
      MiddleFactors(a, b);
    } else if b < 0xc0 {
      HighFactors(a, b);
    } else if b < 0xe0 {
      TopFactors(a, b);
    } else {
      LastFactors(a, b);
    }
  }

  lemma SameBytes(b: bv8, c: bv8)
    ensures Xor(b, c) == 0 <==> b == c
  {
  }

  /** A byte has one reciprocal at most. */
  lemma OneReciprocal(a: bv8, b: bv8, c: bv8)
    requires Product(a, b) == 1 && Product(a, c) == 1
    ensures b == c
  {
    ProductPlus(a, b, c);
    SameBytes(b, c);
    SameBytes(Product(a, b), Product(a, c));
    if b != c {
      ZeroTimes(Xor(b, c));
      NoZeroDivisor(a, Xor(b, c));
    }
  }

  lemma ZeroTimes(b: bv8)
    ensures Product(0, b) == 0
  {
  }

  // ---------------------------------------------------------------- the affine transformation

  function Rotl(b: bv8, i: bv8): bv8
    requires 0 < i < 8
  {
    (b << i) | (b >> (8 - i))
  }

  /** Bit i of the result is the sum of bits i, i + 4, i + 5, i + 6 and i + 7 of `b` and bit i of {63}. */
  function Affine(b: bv8): bv8 {
    b ^ Rotl(b, 1) ^ Rotl(b, 2) ^ Rotl(b, 3) ^ Rotl(b, 4) ^ 0x63
  }

  function InvAffine(b: bv8): bv8 {
    Rotl(b, 1) ^ Rotl(b, 3) ^ Rotl(b, 6) ^ 0x05
  }

  lemma AffineBack(b: bv8)
    ensures Affine(InvAffine(b)) == b
  {
  }

  lemma FirstQuarter(x: bv8)
    requires 0 < x < 0x40
    ensures Product(x, InvAffine(SBox(x))) == 1
  {
  }

  lemma SecondQuarter(x: bv8)
    requires 0x40 <= x < 0x80
    ensures Product(x, InvAffine(SBox(x))) == 1
  {
  }

  lemma ThirdQuarter(x: bv8)
    requires 0x80 <= x < 0xc0
    ensures Product(x, InvAffine(SBox(x))) == 1
  {
  }

  lemma FourthQuarter(x: bv8)
    requires 0xc0 <= x
    ensures Product(x, InvAffine(SBox(x))) == 1
  {
  }

  /** What the S-box transforms is the reciprocal of a byte, and 0 for 0. */
  lemma BoxedReciprocal(x: bv8)
    ensures if x == 0 then InvAffine(SBox(x)) == 0 else Product(x, InvAffine(SBox(x))) == 1
  {
    if 0 < x < 0x40 {
      FirstQuarter(x);
    } else if 0x40 <= x < 0x80 {
      SecondQuarter(x);
    } else if 0x80 <= x < 0xc0 {
      ThirdQuarter(x);
    } else if 0xc0 <= x {
      FourthQuarter(x);
    }
  }

  /** `y` is the reciprocal of `x`, or both are 0. */
  predicate Reciprocal(x: bv8, y: bv8) {
    if x == 0 then y == 0 else Product(x, y) == 1
  }

  lemma OnlyReciprocal(x: bv8, y: bv8, z: bv8)
    requires Reciprocal(x, y) && Reciprocal(x, z)
    ensures z == y
  {
    if x != 0 {
      OneReciprocal(x, y, z);
    }
  }

  /** The byte `s` is the value the standard gives the S-box at `x`. */
  ghost predicate StandardAt(x: bv8, s: bv8) {
    exists y: bv8 :: Reciprocal(x, y) && s == Affine(y) && forall z: bv8 :: Reciprocal(x, z) ==> z == y
  }

  lemma Standard(x: bv8, s: bv8, y: bv8)
    requires Reciprocal(x, y) && s == Affine(y)
    ensures StandardAt(x, s) == true
  {
    forall z: bv8 | Reciprocal(x, z) ensures z == y {
      OnlyReciprocal(x, y, z);
    }
  }

  lemma BoxedIs(x: bv8, y: bv8)
    requires y == InvAffine(SBox(x))
    ensures Reciprocal(x, y) && SBox(x) == Affine(y)
  {
    BoxedReciprocal(x);
    AffineBack(SBox(x));
  }

  /** Every byte has exactly one reciprocal, or 0 for 0, and the S-box holds its affine transformation. */
  lemma SBoxIsStandard(x: bv8)
    ensures StandardAt(x, SBox(x)) == true
  {
    var y := InvAffine(SBox(x));
    BoxedIs(x, y);
    Standard(x, SBox(x), y);
  }
}
