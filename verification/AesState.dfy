/** Bytes and columns of FIPS-197: where input, output and key bytes go, and MixColumns as a product of the field. */
module AesState {
  import opened AesModel
  import opened AesRounds
  import opened AesKeys
  import opened AesField
  import opened AesInPlace

  function Column(b: Block, c: nat): bv32
    requires c < 4
  {
    if c == 0 then b.w0 else if c == 1 then b.w1 else if c == 2 then b.w2 else b.w3
  }

  function ByteOf(x: bv32, r: nat): bv8
    requires r < 4
  {
    if r == 0 then B0(x) else if r == 1 then B1(x) else if r == 2 then B2(x) else B3(x)
  }

  /** The byte in row `r` and column `c`. */
  function At(b: Block, r: nat, c: nat): bv8
    requires r < 4 && c < 4
  {
    ByteOf(Column(b, c), r)
  }

  /** Section 3.4 of FIPS-197: byte r + 4c of the input goes to row r and column c... */
  lemma StateIsInput(s: seq<bv8>, r: nat, c: nat)
    requires |s| == 16 && r < 4 && c < 4
    ensures At(Load(s), r, c) == s[r + 4 * c]
  {
    WordBytes(s[4 * c], s[4 * c + 1], s[4 * c + 2], s[4 * c + 3]);
    assert Column(Load(s), c) == Word(s[4 * c], s[4 * c + 1], s[4 * c + 2], s[4 * c + 3]);
  }

  /** ...and that of the output comes from there. */
  lemma OutputIsState(b: Block, r: nat, c: nat)
    requires r < 4 && c < 4
    ensures Store(b)[r + 4 * c] == At(b, r, c)
  {
    LoadStore(b);
    StateIsInput(Store(b), r, c);
  }

  /** Section 5.2 of FIPS-197: word i of the key holds its bytes 4i to 4i + 3. */
  lemma KeyWordIs(k: seq<bv8>, i: nat, r: nat)
    requires |k| % 4 == 0 && i < |k| / 4 && r < 4
    ensures ByteOf(KeyWords(k)[i], r) == k[4 * i + r]
  {
    WordBytes(k[4 * i], k[4 * i + 1], k[4 * i + 2], k[4 * i + 3]);
  }

  /** RotWord of section 5.2. */
  lemma RotWordIs(x: bv32, r: nat)
    requires r < 4
    ensures ByteOf(Ror8(x), r) == ByteOf(x, (r + 1) % 4)
  {
    Ror8Bytes(x);
    WordBytes(B1(x), B2(x), B3(x), B0(x));
  }

  /** Section 5.1.3: a column times {03}x^3 + {01}x^2 + {01}x + {02}, modulo x^4 + 1. */
  lemma MixColumnIs(x: bv32)
    ensures var a, b, c, d := B0(x), B1(x), B2(x), B3(x);
            && B0(MixColumn(x)) == Xor4(Product(a, 0x02), Product(b, 0x03), c, d)
            && B1(MixColumn(x)) == Xor4(a, Product(b, 0x02), Product(c, 0x03), d)
            && B2(MixColumn(x)) == Xor4(a, b, Product(c, 0x02), Product(d, 0x03))
            && B3(MixColumn(x)) == Xor4(Product(a, 0x03), b, c, Product(d, 0x02))
  {
    var a, b, c, d := B0(x), B1(x), B2(x), B3(x);
    MixMultiples(a);
    MixMultiples(b);
    MixMultiples(c);
    MixMultiples(d);
    WordBytes(Xor4(XTime(a), Mul3(b), c, d), Xor4(a, XTime(b), Mul3(c), d),
              Xor4(a, b, XTime(c), Mul3(d)), Xor4(Mul3(a), b, c, XTime(d)));
  }
}
