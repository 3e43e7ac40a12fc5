/** The table rounds are the rounds of FIPS-197, and each undoes the other. */
module AesRounds {
  import opened AesModel

  // ---------------------------------------------------------------- columns and their bytes

  lemma WordBytes(b0: bv8, b1: bv8, b2: bv8, b3: bv8)
    ensures B0(Word(b0, b1, b2, b3)) == b0 && B1(Word(b0, b1, b2, b3)) == b1
    ensures B2(Word(b0, b1, b2, b3)) == b2 && B3(Word(b0, b1, b2, b3)) == b3
  {
  }

  lemma BytesWord(x: bv32)
    ensures Word(B0(x), B1(x), B2(x), B3(x)) == x
  {
  }

  lemma BytesCaret(x: bv32, y: bv32)
    ensures B0(x ^ y) == Xor(B0(x), B0(y)) && B1(x ^ y) == Xor(B1(x), B1(y))
    ensures B2(x ^ y) == Xor(B2(x), B2(y)) && B3(x ^ y) == Xor(B3(x), B3(y))
  {
  }

  lemma BytesXor(x: bv32, y: bv32)
    ensures B0(XorW(x, y)) == Xor(B0(x), B0(y)) && B1(XorW(x, y)) == Xor(B1(x), B1(y))
    ensures B2(XorW(x, y)) == Xor(B2(x), B2(y)) && B3(XorW(x, y)) == Xor(B3(x), B3(y))
  {
    BytesCaret(x, y);
  }

  lemma WordXor(a0: bv8, a1: bv8, a2: bv8, a3: bv8, b0: bv8, b1: bv8, b2: bv8, b3: bv8)
    ensures XorW(Word(a0, a1, a2, a3), Word(b0, b1, b2, b3)) == Word(Xor(a0, b0), Xor(a1, b1), Xor(a2, b2), Xor(a3, b3))
  {
  }

  lemma WordXor4(a0: bv8, a1: bv8, a2: bv8, a3: bv8, b0: bv8, b1: bv8, b2: bv8, b3: bv8,
                 c0: bv8, c1: bv8, c2: bv8, c3: bv8, d0: bv8, d1: bv8, d2: bv8, d3: bv8, k: bv32)
    ensures Join(Word(a0, a1, a2, a3), Word(b0, b1, b2, b3), Word(c0, c1, c2, c3), Word(d0, d1, d2, d3), k) ==
            XorW(Word(Xor4(a0, b0, c0, d0), Xor4(a1, b1, c1, d1), Xor4(a2, b2, c2, d2), Xor4(a3, b3, c3, d3)), k)
  {
    WordXor(a0, a1, a2, a3, b0, b1, b2, b3);
    WordXor(Xor(a0, b0), Xor(a1, b1), Xor(a2, b2), Xor(a3, b3), c0, c1, c2, c3);
    WordXor(Xor(Xor(a0, b0), c0), Xor(Xor(a1, b1), c1), Xor(Xor(a2, b2), c2), Xor(Xor(a3, b3), c3), d0, d1, d2, d3);
    Associate(Xor(a0, b0), c0, d0);
    Associate(Xor(a1, b1), c1, d1);
    Associate(Xor(a2, b2), c2, d2);
    Associate(Xor(a3, b3), c3, d3);
  }

  lemma Associate(a: bv8, b: bv8, c: bv8)
    ensures Xor(Xor(a, b), c) == Xor(a, Xor(b, c))
  {
    assert (a ^ b) ^ c == a ^ (b ^ c);
  }

  // ---------------------------------------------------------------- the field

  lemma Interchange(a: bv8, b: bv8, c: bv8, d: bv8)
    ensures Xor(Xor(a, b), Xor(c, d)) == Xor(Xor(a, c), Xor(b, d))
  {
    assert (a ^ b) ^ (c ^ d) == (a ^ c) ^ (b ^ d);
  }

  lemma Xor4Sum(a: bv8, b: bv8, c: bv8, d: bv8, p: bv8, q: bv8, r: bv8, s: bv8)
    ensures Xor(Xor4(a, b, c, d), Xor4(p, q, r, s)) == Xor4(Xor(a, p), Xor(b, q), Xor(c, r), Xor(d, s))
  {
    Interchange(Xor(a, b), Xor(c, d), Xor(p, q), Xor(r, s));
    Interchange(a, b, p, q);
    Interchange(c, d, r, s);
  }

  lemma XTimeXor(a: bv8, b: bv8)
    ensures XTime(Xor(a, b)) == Xor(XTime(a), XTime(b))
  {
  }

  lemma X2Xor(a: bv8, b: bv8)
    ensures X2(Xor(a, b)) == Xor(X2(a), X2(b))
  {
    XTimeXor(a, b);
    XTimeXor(XTime(a), XTime(b));
  }

  lemma X3Xor(a: bv8, b: bv8)
    ensures X3(Xor(a, b)) == Xor(X3(a), X3(b))
  {
    X2Xor(a, b);
    XTimeXor(X2(a), X2(b));
  }

  /** Multiplication by a constant distributes over addition. */
  lemma Mul3Xor(a: bv8, b: bv8)
    ensures Mul3(Xor(a, b)) == Xor(Mul3(a), Mul3(b))
  {
    XTimeXor(a, b);
    Interchange(XTime(a), XTime(b), a, b);
  }

  lemma Mul9Xor(a: bv8, b: bv8)
    ensures Mul9(Xor(a, b)) == Xor(Mul9(a), Mul9(b))
  {
    X3Xor(a, b);
    Interchange(X3(a), X3(b), a, b);
  }

  lemma MulBXor(a: bv8, b: bv8)
    ensures MulB(Xor(a, b)) == Xor(MulB(a), MulB(b))
  {
    X3Xor(a, b);
    Mul3Xor(a, b);
    Interchange(X3(a), X3(b), Mul3(a), Mul3(b));
  }

  lemma MulDXor(a: bv8, b: bv8)
    ensures MulD(Xor(a, b)) == Xor(MulD(a), MulD(b))
  {
    X2Xor(a, b);
    Mul9Xor(a, b);
    Interchange(X2(a), X2(b), Mul9(a), Mul9(b));
  }

  lemma MulEXor(a: bv8, b: bv8)
    ensures MulE(Xor(a, b)) == Xor(MulE(a), MulE(b))
  {
    XTimeXor(a, b);
    X2Xor(a, b);
    X3Xor(a, b);
    Interchange(X2(a), X2(b), XTime(a), XTime(b));
    Interchange(X3(a), X3(b), Xor(X2(a), XTime(a)), Xor(X2(b), XTime(b)));
  }

  /** The same over the four terms of a mixed byte. */
  lemma Mul9Xor4(a: bv8, b: bv8, c: bv8, d: bv8)
    ensures Mul9(Xor4(a, b, c, d)) == Xor4(Mul9(a), Mul9(b), Mul9(c), Mul9(d))
  {
    Mul9Xor(Xor(a, b), Xor(c, d));
    Mul9Xor(a, b);
    Mul9Xor(c, d);
  }

  lemma MulBXor4(a: bv8, b: bv8, c: bv8, d: bv8)
    ensures MulB(Xor4(a, b, c, d)) == Xor4(MulB(a), MulB(b), MulB(c), MulB(d))
  {
    MulBXor(Xor(a, b), Xor(c, d));
    MulBXor(a, b);
    MulBXor(c, d);
  }

  lemma MulDXor4(a: bv8, b: bv8, c: bv8, d: bv8)
    ensures MulD(Xor4(a, b, c, d)) == Xor4(MulD(a), MulD(b), MulD(c), MulD(d))
  {
    MulDXor(Xor(a, b), Xor(c, d));
    MulDXor(a, b);
    MulDXor(c, d);
  }

  lemma MulEXor4(a: bv8, b: bv8, c: bv8, d: bv8)
    ensures MulE(Xor4(a, b, c, d)) == Xor4(MulE(a), MulE(b), MulE(c), MulE(d))
  {
    MulEXor(Xor(a, b), Xor(c, d));
    MulEXor(a, b);
    MulEXor(c, d);
  }

  /** A square of sixteen bytes added up by rows and by columns. */
  lemma Transpose(a0: bv8, a1: bv8, a2: bv8, a3: bv8, b0: bv8, b1: bv8, b2: bv8, b3: bv8,
                  c0: bv8, c1: bv8, c2: bv8, c3: bv8, d0: bv8, d1: bv8, d2: bv8, d3: bv8)
    ensures Xor4(Xor4(a0, a1, a2, a3), Xor4(b0, b1, b2, b3), Xor4(c0, c1, c2, c3), Xor4(d0, d1, d2, d3)) ==
            Xor4(Xor4(a0, b0, c0, d0), Xor4(a1, b1, c1, d1), Xor4(a2, b2, c2, d2), Xor4(a3, b3, c3, d3))
  {
    Xor4Sum(a0, a1, a2, a3, b0, b1, b2, b3);
    Xor4Sum(c0, c1, c2, c3, d0, d1, d2, d3);
    Xor4Sum(Xor(a0, b0), Xor(a1, b1), Xor(a2, b2), Xor(a3, b3), Xor(c0, d0), Xor(c1, d1), Xor(c2, d2), Xor(c3, d3));
  }

  // ---------------------------------------------------------------- MixColumns

  /** The product of the two matrices of section 5.1.3 and section 5.3.3 of FIPS-197, entry by entry. */
  lemma MatrixRow0(x: bv8)
    ensures Xor4(MulE(XTime(x)), MulB(x), MulD(x), Mul9(Mul3(x))) == x
    ensures Xor4(MulE(Mul3(x)), MulB(XTime(x)), MulD(x), Mul9(x)) == 0
    ensures Xor4(MulE(x), MulB(Mul3(x)), MulD(XTime(x)), Mul9(x)) == 0
    ensures Xor4(MulE(x), MulB(x), MulD(Mul3(x)), Mul9(XTime(x))) == 0
  {
  }

  lemma MatrixRow1(x: bv8)
    ensures Xor4(Mul9(XTime(x)), MulE(x), MulB(x), MulD(Mul3(x))) == 0
    ensures Xor4(Mul9(Mul3(x)), MulE(XTime(x)), MulB(x), MulD(x)) == x
    ensures Xor4(Mul9(x), MulE(Mul3(x)), MulB(XTime(x)), MulD(x)) == 0
    ensures Xor4(Mul9(x), MulE(x), MulB(Mul3(x)), MulD(XTime(x))) == 0
  {
  }

  lemma MatrixRow2(x: bv8)
    ensures Xor4(MulD(XTime(x)), Mul9(x), MulE(x), MulB(Mul3(x))) == 0
    ensures Xor4(MulD(Mul3(x)), Mul9(XTime(x)), MulE(x), MulB(x)) == 0
    ensures Xor4(MulD(x), Mul9(Mul3(x)), MulE(XTime(x)), MulB(x)) == x
    ensures Xor4(MulD(x), Mul9(x), MulE(Mul3(x)), MulB(XTime(x))) == 0
  {
  }

  lemma MatrixRow3(x: bv8)
    ensures Xor4(MulB(XTime(x)), MulD(x), Mul9(x), MulE(Mul3(x))) == 0
    ensures Xor4(MulB(Mul3(x)), MulD(XTime(x)), Mul9(x), MulE(x)) == 0
    ensures Xor4(MulB(x), MulD(Mul3(x)), Mul9(XTime(x)), MulE(x)) == 0
    ensures Xor4(MulB(x), MulD(x), Mul9(Mul3(x)), MulE(XTime(x))) == x
  {
  }

  lemma Zeros(x: bv8)
    ensures Xor4(x, 0, 0, 0) == x && Xor4(0, x, 0, 0) == x && Xor4(0, 0, x, 0) == x && Xor4(0, 0, 0, x) == x
  {
  }

  lemma MixRow0(a: bv8, b: bv8, c: bv8, d: bv8)
    ensures Xor4(MulE(Xor4(XTime(a), Mul3(b), c, d)), MulB(Xor4(a, XTime(b), Mul3(c), d)),
                 MulD(Xor4(a, b, XTime(c), Mul3(d))), Mul9(Xor4(Mul3(a), b, c, XTime(d)))) == a
  {
    MulEXor4(XTime(a), Mul3(b), c, d);
    MulBXor4(a, XTime(b), Mul3(c), d);
    MulDXor4(a, b, XTime(c), Mul3(d));
    Mul9Xor4(Mul3(a), b, c, XTime(d));
    Transpose(MulE(XTime(a)), MulE(Mul3(b)), MulE(c), MulE(d),
              MulB(a), MulB(XTime(b)), MulB(Mul3(c)), MulB(d),
              MulD(a), MulD(b), MulD(XTime(c)), MulD(Mul3(d)),
              Mul9(Mul3(a)), Mul9(b), Mul9(c), Mul9(XTime(d)));
    MatrixRow0(a);
    MatrixRow0(b);
    MatrixRow0(c);
    MatrixRow0(d);
    Zeros(a);
  }

  lemma MixRow1(a: bv8, b: bv8, c: bv8, d: bv8)
    ensures Xor4(Mul9(Xor4(XTime(a), Mul3(b), c, d)), MulE(Xor4(a, XTime(b), Mul3(c), d)),
                 MulB(Xor4(a, b, XTime(c), Mul3(d))), MulD(Xor4(Mul3(a), b, c, XTime(d)))) == b
  {
    Mul9Xor4(XTime(a), Mul3(b), c, d);
    MulEXor4(a, XTime(b), Mul3(c), d);
    MulBXor4(a, b, XTime(c), Mul3(d));
    MulDXor4(Mul3(a), b, c, XTime(d));
    Transpose(Mul9(XTime(a)), Mul9(Mul3(b)), Mul9(c), Mul9(d),
              MulE(a), MulE(XTime(b)), MulE(Mul3(c)), MulE(d),
              MulB(a), MulB(b), MulB(XTime(c)), MulB(Mul3(d)),
              MulD(Mul3(a)), MulD(b), MulD(c), MulD(XTime(d)));
    MatrixRow1(a);
    MatrixRow1(b);
    MatrixRow1(c);
    MatrixRow1(d);
    Zeros(b);
  }

  lemma MixRow2(a: bv8, b: bv8, c: bv8, d: bv8)
    ensures Xor4(MulD(Xor4(XTime(a), Mul3(b), c, d)), Mul9(Xor4(a, XTime(b), Mul3(c), d)),
                 MulE(Xor4(a, b, XTime(c), Mul3(d))), MulB(Xor4(Mul3(a), b, c, XTime(d)))) == c
  {
    MulDXor4(XTime(a), Mul3(b), c, d);
    Mul9Xor4(a, XTime(b), Mul3(c), d);
    MulEXor4(a, b, XTime(c), Mul3(d));
    MulBXor4(Mul3(a), b, c, XTime(d));
    Transpose(MulD(XTime(a)), MulD(Mul3(b)), MulD(c), MulD(d),
              Mul9(a), Mul9(XTime(b)), Mul9(Mul3(c)), Mul9(d),
              MulE(a), MulE(b), MulE(XTime(c)), MulE(Mul3(d)),
              MulB(Mul3(a)), MulB(b), MulB(c), MulB(XTime(d)));
    MatrixRow2(a);
    MatrixRow2(b);
    MatrixRow2(c);
    MatrixRow2(d);
    Zeros(c);
  }

  lemma MixRow3(a: bv8, b: bv8, c: bv8, d: bv8)
    ensures Xor4(MulB(Xor4(XTime(a), Mul3(b), c, d)), MulD(Xor4(a, XTime(b), Mul3(c), d)),
                 Mul9(Xor4(a, b, XTime(c), Mul3(d))), MulE(Xor4(Mul3(a), b, c, XTime(d)))) == d
  {
    MulBXor4(XTime(a), Mul3(b), c, d);
    MulDXor4(a, XTime(b), Mul3(c), d);
    Mul9Xor4(a, b, XTime(c), Mul3(d));
    MulEXor4(Mul3(a), b, c, XTime(d));
    Transpose(MulB(XTime(a)), MulB(Mul3(b)), MulB(c), MulB(d),
              MulD(a), MulD(XTime(b)), MulD(Mul3(c)), MulD(d),
              Mul9(a), Mul9(b), Mul9(XTime(c)), Mul9(Mul3(d)),
              MulE(Mul3(a)), MulE(b), MulE(c), MulE(XTime(d)));
    MatrixRow3(a);
    MatrixRow3(b);
    MatrixRow3(c);
    MatrixRow3(d);
    Zeros(d);
  }

  /** InvMixColumns undoes MixColumns. */
  lemma InvMixMix(x: bv32)
    ensures InvMixColumn(MixColumn(x)) == x
  {
    var a, b, c, d := B0(x), B1(x), B2(x), B3(x);
    WordBytes(Xor4(XTime(a), Mul3(b), c, d), Xor4(a, XTime(b), Mul3(c), d),
              Xor4(a, b, XTime(c), Mul3(d)), Xor4(Mul3(a), b, c, XTime(d)));
    MixRow0(a, b, c, d);
    MixRow1(a, b, c, d);
    MixRow2(a, b, c, d);
    MixRow3(a, b, c, d);
    BytesWord(x);
  }

  lemma InvRow0(a: bv8, b: bv8, c: bv8, d: bv8, p: bv8, q: bv8, r: bv8, s: bv8)
    ensures Xor4(MulE(Xor(a, p)), MulB(Xor(b, q)), MulD(Xor(c, r)), Mul9(Xor(d, s))) ==
            Xor(Xor4(MulE(a), MulB(b), MulD(c), Mul9(d)), Xor4(MulE(p), MulB(q), MulD(r), Mul9(s)))
  {
    MulEXor(a, p);
    MulBXor(b, q);
    MulDXor(c, r);
    Mul9Xor(d, s);
    Xor4Sum(MulE(a), MulB(b), MulD(c), Mul9(d), MulE(p), MulB(q), MulD(r), Mul9(s));
  }

  lemma InvRow1(a: bv8, b: bv8, c: bv8, d: bv8, p: bv8, q: bv8, r: bv8, s: bv8)
    ensures Xor4(Mul9(Xor(a, p)), MulE(Xor(b, q)), MulB(Xor(c, r)), MulD(Xor(d, s))) ==
            Xor(Xor4(Mul9(a), MulE(b), MulB(c), MulD(d)), Xor4(Mul9(p), MulE(q), MulB(r), MulD(s)))
  {
    Mul9Xor(a, p);
    MulEXor(b, q);
    MulBXor(c, r);
    MulDXor(d, s);
    Xor4Sum(Mul9(a), MulE(b), MulB(c), MulD(d), Mul9(p), MulE(q), MulB(r), MulD(s));
  }

  lemma InvRow2(a: bv8, b: bv8, c: bv8, d: bv8, p: bv8, q: bv8, r: bv8, s: bv8)
    ensures Xor4(MulD(Xor(a, p)), Mul9(Xor(b, q)), MulE(Xor(c, r)), MulB(Xor(d, s))) ==
            Xor(Xor4(MulD(a), Mul9(b), MulE(c), MulB(d)), Xor4(MulD(p), Mul9(q), MulE(r), MulB(s)))
  {
    MulDXor(a, p);
    Mul9Xor(b, q);
    MulEXor(c, r);
    MulBXor(d, s);
    Xor4Sum(MulD(a), Mul9(b), MulE(c), MulB(d), MulD(p), Mul9(q), MulE(r), MulB(s));
  }

  lemma InvRow3(a: bv8, b: bv8, c: bv8, d: bv8, p: bv8, q: bv8, r: bv8, s: bv8)
    ensures Xor4(MulB(Xor(a, p)), MulD(Xor(b, q)), Mul9(Xor(c, r)), MulE(Xor(d, s))) ==
            Xor(Xor4(MulB(a), MulD(b), Mul9(c), MulE(d)), Xor4(MulB(p), MulD(q), Mul9(r), MulE(s)))
  {
    MulBXor(a, p);
    MulDXor(b, q);
    Mul9Xor(c, r);
    MulEXor(d, s);
    Xor4Sum(MulB(a), MulD(b), Mul9(c), MulE(d), MulB(p), MulD(q), Mul9(r), MulE(s));
  }

  /** InvMixColumns distributes over AddRoundKey, section 5.3.5 of FIPS-197. */
  lemma InvMixXor(x: bv32, y: bv32)
    ensures InvMixColumn(XorW(x, y)) == XorW(InvMixColumn(x), InvMixColumn(y))
  {
    var a, b, c, d, p, q, r, s := B0(x), B1(x), B2(x), B3(x), B0(y), B1(y), B2(y), B3(y);
    BytesXor(x, y);
    InvRow0(a, b, c, d, p, q, r, s);
    InvRow1(a, b, c, d, p, q, r, s);
    InvRow2(a, b, c, d, p, q, r, s);
    InvRow3(a, b, c, d, p, q, r, s);
    WordXor(Xor4(MulE(a), MulB(b), MulD(c), Mul9(d)), Xor4(Mul9(a), MulE(b), MulB(c), MulD(d)),
            Xor4(MulD(a), Mul9(b), MulE(c), MulB(d)), Xor4(MulB(a), MulD(b), Mul9(c), MulE(d)),
            Xor4(MulE(p), MulB(q), MulD(r), Mul9(s)), Xor4(Mul9(p), MulE(q), MulB(r), MulD(s)),
            Xor4(MulD(p), Mul9(q), MulE(r), MulB(s)), Xor4(MulB(p), MulD(q), Mul9(r), MulE(s)));
  }

  // ---------------------------------------------------------------- tables

  lemma FtColumn(t: Boxes, a: bv32, b: bv32, c: bv32, d: bv32, k: bv32)
    ensures FRn(t, a, b, c, d, k) == XorW(MixBytes(t.s(B0(a)), t.s(B1(b)), t.s(B2(c)), t.s(B3(d))), k)
  {
    var p, q, r, s := t.s(B0(a)), t.s(B1(b)), t.s(B2(c)), t.s(B3(d));
    WordXor4(XTime(p), p, p, Mul3(p), Mul3(q), XTime(q), q, q, r, Mul3(r), XTime(r), r, s, s, Mul3(s), XTime(s), k);
  }

  lemma ItRows(t: Boxes, x: bv8, s: bv8)
    requires s == t.inv(x)
    ensures It(t, 0, x) == Word(MulE(s), Mul9(s), MulD(s), MulB(s))
    ensures It(t, 1, x) == Word(MulB(s), MulE(s), Mul9(s), MulD(s))
    ensures It(t, 2, x) == Word(MulD(s), MulB(s), MulE(s), Mul9(s))
    ensures It(t, 3, x) == Word(Mul9(s), MulD(s), MulB(s), MulE(s))
  {
  }

  lemma IRnIs(t: Boxes, a: bv32, b: bv32, c: bv32, d: bv32, k: bv32, p: bv8, q: bv8, r: bv8, s: bv8)
    requires p == t.inv(B0(a)) && q == t.inv(B1(b)) && r == t.inv(B2(c)) && s == t.inv(B3(d))
    ensures IRn(t, a, b, c, d, k) ==
            Join(Word(MulE(p), Mul9(p), MulD(p), MulB(p)), Word(MulB(q), MulE(q), Mul9(q), MulD(q)),
                 Word(MulD(r), MulB(r), MulE(r), Mul9(r)), Word(Mul9(s), MulD(s), MulB(s), MulE(s)), k)
  {
    ItRows(t, B0(a), p);
    ItRows(t, B1(b), q);
    ItRows(t, B2(c), r);
    ItRows(t, B3(d), s);
  }

  lemma JoinIs(p: bv8, q: bv8, r: bv8, s: bv8, k: bv32)
    ensures Join(Word(MulE(p), Mul9(p), MulD(p), MulB(p)), Word(MulB(q), MulE(q), Mul9(q), MulD(q)),
                 Word(MulD(r), MulB(r), MulE(r), Mul9(r)), Word(Mul9(s), MulD(s), MulB(s), MulE(s)), k)
            == XorW(InvMixBytes(p, q, r, s), k)
  {
    WordXor4(MulE(p), Mul9(p), MulD(p), MulB(p), MulB(q), MulE(q), Mul9(q), MulD(q),
             MulD(r), MulB(r), MulE(r), Mul9(r), Mul9(s), MulD(s), MulB(s), MulE(s), k);
  }

  lemma ItColumn(t: Boxes, a: bv32, b: bv32, c: bv32, d: bv32, k: bv32)
    ensures IRn(t, a, b, c, d, k) ==
            XorW(InvMixBytes(t.inv(B0(a)), t.inv(B1(b)), t.inv(B2(c)), t.inv(B3(d))), k)
  {
    var p, q, r, s := t.inv(B0(a)), t.inv(B1(b)), t.inv(B2(c)), t.inv(B3(d));
    IRnIs(t, a, b, c, d, k, p, q, r, s);
    JoinIs(p, q, r, s, k);
  }

  /** The bytes of a column put in one by one. */
  lemma Shift1(p: bv8, q: bv8)
    ensures XorW(Place(0, p), Place(1, q)) == Word(p, q, 0, 0)
  {
  }

  lemma Shift2(p: bv8, q: bv8, r: bv8)
    ensures XorW(Word(p, q, 0, 0), Place(2, r)) == Word(p, q, r, 0)
  {
  }

  lemma Shift3(p: bv8, q: bv8, r: bv8, s: bv8)
    ensures XorW(Word(p, q, r, 0), Place(3, s)) == Word(p, q, r, s)
  {
  }

  lemma PlacedBytes(p: bv8, q: bv8, r: bv8, s: bv8)
    ensures XorW(XorW(XorW(Place(0, p), Place(1, q)), Place(2, r)), Place(3, s)) == Word(p, q, r, s)
  {
    Shift1(p, q);
    Shift2(p, q, r);
    Shift3(p, q, r, s);
  }

  lemma JoinPlaced(p: bv8, q: bv8, r: bv8, s: bv8, k: bv32)
    ensures Join(Place(0, p), Place(1, q), Place(2, r), Place(3, s), k) == XorW(Word(p, q, r, s), k)
  {
    PlacedBytes(p, q, r, s);
  }

  lemma RlIs(f: bv8 -> bv8, a: bv32, b: bv32, c: bv32, d: bv32, k: bv32)
    ensures Rl(f, a, b, c, d, k) ==
            Join(Place(0, f(B0(a))), Place(1, f(B1(b))), Place(2, f(B2(c))), Place(3, f(B3(d))), k)
  {
  }

  lemma LastColumn(f: bv8 -> bv8, a: bv32, b: bv32, c: bv32, d: bv32, k: bv32)
    ensures Rl(f, a, b, c, d, k) == XorW(Word(f(B0(a)), f(B1(b)), f(B2(c)), f(B3(d))), k)
  {
    RlIs(f, a, b, c, d, k);
    JoinPlaced(f(B0(a)), f(B1(b)), f(B2(c)), f(B3(d)), k);
  }
}
