/**
 AES as crypto/aes_generic.c computes it: on 32-bit little-endian columns, with tables derived from an S-box.

 The cipher is stated for any pair of byte substitutions; AesBoxes holds the ones of the standard.
 */
module AesModel {
  /** A byte substitution and its inverse. */
  datatype Boxes = Boxes(s: bv8 -> bv8, inv: bv8 -> bv8)

  ghost predicate Inverse(t: Boxes) {
    forall x: bv8 :: t.inv(t.s(x)) == x
  }

  /** Four columns. */
  datatype Block = Block(w0: bv32, w1: bv32, w2: bv32, w3: bv32)

  // ---------------------------------------------------------------- bytes and columns

  function B0(x: bv32): bv8 { (x & 0xff) as bv8 }
  function B1(x: bv32): bv8 { ((x >> 8) & 0xff) as bv8 }
  function B2(x: bv32): bv8 { ((x >> 16) & 0xff) as bv8 }
  function B3(x: bv32): bv8 { ((x >> 24) & 0xff) as bv8 }

  function Word(b0: bv8, b1: bv8, b2: bv8, b3: bv8): bv32 {
    (b0 as bv32) | ((b1 as bv32) << 8) | ((b2 as bv32) << 16) | ((b3 as bv32) << 24)
  }

  /** Exclusive or of columns, and of the four table entries of a round with the round key. */
  function XorW(x: bv32, y: bv32): bv32 { x ^ y }
  function Join(a: bv32, b: bv32, c: bv32, d: bv32, k: bv32): bv32 { XorW(XorW(XorW(XorW(a, b), c), d), k) }

  /** ror32 by one, two and three bytes. */
  function Ror8(x: bv32): bv32 { (x >> 8) | (x << 24) }
  function Ror16(x: bv32): bv32 { (x >> 16) | (x << 16) }
  function Ror24(x: bv32): bv32 { (x >> 24) | (x << 8) }

  /** Multiplication by x in the field of 256 elements, section 4.2.1 of FIPS-197. */
  function XTime(b: bv8): bv8 {
    (b << 1) ^ ((b >> 7) * 0x1b)
  }

  /** Addition in the field. */
  function Xor(a: bv8, b: bv8): bv8 { a ^ b }
  function Xor4(a: bv8, b: bv8, c: bv8, d: bv8): bv8 { Xor(Xor(a, b), Xor(c, d)) }

  function X2(b: bv8): bv8 { XTime(XTime(b)) }
  function X3(b: bv8): bv8 { XTime(X2(b)) }

  /** Multiplication by {03}, {09}, {0b}, {0d} and {0e}. */
  function Mul3(b: bv8): bv8 { Xor(XTime(b), b) }
  function Mul9(b: bv8): bv8 { Xor(X3(b), b) }
  function MulB(b: bv8): bv8 { Xor(X3(b), Mul3(b)) }
  function MulD(b: bv8): bv8 { Xor(X2(b), Mul9(b)) }
  function MulE(b: bv8): bv8 { Xor(X3(b), Xor(X2(b), XTime(b))) }

  // ---------------------------------------------------------------- the rounds of FIPS-197

  function Sub(f: bv8 -> bv8, x: bv32): bv32 {
    Word(f(B0(x)), f(B1(x)), f(B2(x)), f(B3(x)))
  }

  /** SubBytes and InvSubBytes. */
  function SubBytes(f: bv8 -> bv8, b: Block): Block {
    Block(Sub(f, b.w0), Sub(f, b.w1), Sub(f, b.w2), Sub(f, b.w3))
  }

  function ShiftRows(b: Block): Block {
    Block(Word(B0(b.w0), B1(b.w1), B2(b.w2), B3(b.w3)), Word(B0(b.w1), B1(b.w2), B2(b.w3), B3(b.w0)),
          Word(B0(b.w2), B1(b.w3), B2(b.w0), B3(b.w1)), Word(B0(b.w3), B1(b.w0), B2(b.w1), B3(b.w2)))
  }

  function InvShiftRows(b: Block): Block {
    Block(Word(B0(b.w0), B1(b.w3), B2(b.w2), B3(b.w1)), Word(B0(b.w1), B1(b.w0), B2(b.w3), B3(b.w2)),
          Word(B0(b.w2), B1(b.w1), B2(b.w0), B3(b.w3)), Word(B0(b.w3), B1(b.w2), B2(b.w1), B3(b.w0)))
  }

  function MixBytes(a: bv8, b: bv8, c: bv8, d: bv8): bv32 {
    Word(Xor4(XTime(a), Mul3(b), c, d), Xor4(a, XTime(b), Mul3(c), d),
         Xor4(a, b, XTime(c), Mul3(d)), Xor4(Mul3(a), b, c, XTime(d)))
  }

  function InvMixBytes(a: bv8, b: bv8, c: bv8, d: bv8): bv32 {
    Word(Xor4(MulE(a), MulB(b), MulD(c), Mul9(d)), Xor4(Mul9(a), MulE(b), MulB(c), MulD(d)),
         Xor4(MulD(a), Mul9(b), MulE(c), MulB(d)), Xor4(MulB(a), MulD(b), Mul9(c), MulE(d)))
  }

  function MixColumn(x: bv32): bv32 {
    MixBytes(B0(x), B1(x), B2(x), B3(x))
  }

  function InvMixColumn(x: bv32): bv32 {
    InvMixBytes(B0(x), B1(x), B2(x), B3(x))
  }

  function MixColumns(b: Block): Block {
    Block(MixColumn(b.w0), MixColumn(b.w1), MixColumn(b.w2), MixColumn(b.w3))
  }

  function InvMixColumns(b: Block): Block {
    Block(InvMixColumn(b.w0), InvMixColumn(b.w1), InvMixColumn(b.w2), InvMixColumn(b.w3))
  }

  function AddRoundKey(b: Block, k: Block): Block {
    Block(XorW(b.w0, k.w0), XorW(b.w1, k.w1), XorW(b.w2, k.w2), XorW(b.w3, k.w3))
  }

  // ---------------------------------------------------------------- the rounds of the source

  /** crypto_ft_tab: row n is row 0 rotated by n bytes. */
  function Ft(t: Boxes, n: nat, x: bv8): bv32 {
    var s := t.s(x);
    if n == 0 then Word(XTime(s), s, s, Mul3(s))
    else if n == 1 then Word(Mul3(s), XTime(s), s, s)
    else if n == 2 then Word(s, Mul3(s), XTime(s), s)
    else Word(s, s, Mul3(s), XTime(s))
  }

  /** crypto_it_tab. */
  function It(t: Boxes, n: nat, x: bv8): bv32 {
    var s := t.inv(x);
    if n == 0 then Word(MulE(s), Mul9(s), MulD(s), MulB(s))
    else if n == 1 then Word(MulB(s), MulE(s), Mul9(s), MulD(s))
    else if n == 2 then Word(MulD(s), MulB(s), MulE(s), Mul9(s))
    else Word(Mul9(s), MulD(s), MulB(s), MulE(s))
  }

  /** A byte alone in row `n` of a column. */
  function Place(n: nat, b: bv8): bv32 {
    if n == 0 then b as bv32
    else if n == 1 then (b as bv32) << 8
    else if n == 2 then (b as bv32) << 16
    else (b as bv32) << 24
  }

  /** crypto_fl_tab and crypto_il_tab. */
  function Ltab(f: bv8 -> bv8, n: nat, x: bv8): bv32 {
    Place(n, f(x))
  }

  /** f_rn on the columns it picks its four bytes from. */
  function FRn(t: Boxes, a: bv32, b: bv32, c: bv32, d: bv32, k: bv32): bv32 {
    Join(Ft(t, 0, B0(a)), Ft(t, 1, B1(b)), Ft(t, 2, B2(c)), Ft(t, 3, B3(d)), k)
  }

  /** i_rn. */
  function IRn(t: Boxes, a: bv32, b: bv32, c: bv32, d: bv32, k: bv32): bv32 {
    Join(It(t, 0, B0(a)), It(t, 1, B1(b)), It(t, 2, B2(c)), It(t, 3, B3(d)), k)
  }

  /** f_rl and i_rl, and with a zero key ls_box on one column. */
  function Rl(f: bv8 -> bv8, a: bv32, b: bv32, c: bv32, d: bv32, k: bv32): bv32 {
    Join(Ltab(f, 0, B0(a)), Ltab(f, 1, B1(b)), Ltab(f, 2, B2(c)), Ltab(f, 3, B3(d)), k)
  }

  /** f_nround. */
  function FRound(t: Boxes, b: Block, k: Block): Block {
    Block(FRn(t, b.w0, b.w1, b.w2, b.w3, k.w0), FRn(t, b.w1, b.w2, b.w3, b.w0, k.w1),
          FRn(t, b.w2, b.w3, b.w0, b.w1, k.w2), FRn(t, b.w3, b.w0, b.w1, b.w2, k.w3))
  }

  /** f_lround. */
  function FLast(t: Boxes, b: Block, k: Block): Block {
    Block(Rl(t.s, b.w0, b.w1, b.w2, b.w3, k.w0), Rl(t.s, b.w1, b.w2, b.w3, b.w0, k.w1),
          Rl(t.s, b.w2, b.w3, b.w0, b.w1, k.w2), Rl(t.s, b.w3, b.w0, b.w1, b.w2, k.w3))
  }

  /** i_nround. */
  function IRound(t: Boxes, b: Block, k: Block): Block {
    Block(IRn(t, b.w0, b.w3, b.w2, b.w1, k.w0), IRn(t, b.w1, b.w0, b.w3, b.w2, k.w1),
          IRn(t, b.w2, b.w1, b.w0, b.w3, k.w2), IRn(t, b.w3, b.w2, b.w1, b.w0, k.w3))
  }

  /** i_lround. */
  function ILast(t: Boxes, b: Block, k: Block): Block {
    Block(Rl(t.inv, b.w0, b.w3, b.w2, b.w1, k.w0), Rl(t.inv, b.w1, b.w0, b.w3, b.w2, k.w1),
          Rl(t.inv, b.w2, b.w1, b.w0, b.w3, k.w2), Rl(t.inv, b.w3, b.w2, b.w1, b.w0, k.w3))
  }

  /** star_x: the four bytes multiplied by x at once. */
  function StarX(x: bv32): bv32 {
    ((x & 0x7f7f7f7f) << 1) ^ (((x & 0x80808080) >> 7) * 0x1b)
  }

  /** imix_col. */
  function ImixCol(x: bv32): bv32 {
    var u := StarX(x);
    var v := StarX(u);
    var w := StarX(v);
    var t := XorW(w, x);
    Join(XorW(XorW(u, v), w), Ror8(XorW(u, t)), Ror16(XorW(v, t)), Ror24(t), 0)
  }

  // ---------------------------------------------------------------- the cipher

  /** Round key `r` of a key schedule. */
  function Key(w: seq<bv32>, r: nat): Block
    requires 4 * r + 4 <= |w|
  {
    Block(w[4 * r], w[4 * r + 1], w[4 * r + 2], w[4 * r + 3])
  }

  /** The state of aes_encrypt after `r` full rounds. */
  function EncState(t: Boxes, w: seq<bv32>, r: nat, b: Block): Block
    requires 4 * r + 4 <= |w|
  {
    if r == 0 then AddRoundKey(b, Key(w, 0)) else FRound(t, EncState(t, w, r - 1, b), Key(w, r))
  }

  /** aes_encrypt with `full` full rounds and the last one. */
  function Encrypted(t: Boxes, w: seq<bv32>, full: nat, b: Block): Block
    requires 4 * full + 8 <= |w|
  {
    FLast(t, EncState(t, w, full, b), Key(w, full + 1))
  }

  function DecState(t: Boxes, w: seq<bv32>, r: nat, b: Block): Block
    requires 4 * r + 4 <= |w|
  {
    if r == 0 then AddRoundKey(b, Key(w, 0)) else IRound(t, DecState(t, w, r - 1, b), Key(w, r))
  }

  /** aes_decrypt. */
  function Decrypted(t: Boxes, w: seq<bv32>, full: nat, b: Block): Block
    requires 4 * full + 8 <= |w|
  {
    ILast(t, DecState(t, w, full, b), Key(w, full + 1))
  }
}
