/** Decryption undoes encryption, round by round. */
module AesCipher {
  import opened AesModel
  import opened AesRounds

  lemma SubByte(f: bv8 -> bv8, x: bv32)
    ensures B0(Sub(f, x)) == f(B0(x)) && B1(Sub(f, x)) == f(B1(x))
    ensures B2(Sub(f, x)) == f(B2(x)) && B3(Sub(f, x)) == f(B3(x))
  {
    WordBytes(f(B0(x)), f(B1(x)), f(B2(x)), f(B3(x)));
  }

  // ---------------------------------------------------------------- rounds by table and by definition

  lemma RoundColumn(t: Boxes, a: bv32, b: bv32, c: bv32, d: bv32, k: bv32)
    ensures FRn(t, a, b, c, d, k) ==
            XorW(MixColumn(Word(B0(Sub(t.s, a)), B1(Sub(t.s, b)), B2(Sub(t.s, c)), B3(Sub(t.s, d)))), k)
  {
    FtColumn(t, a, b, c, d, k);
    SubByte(t.s, a);
    SubByte(t.s, b);
    SubByte(t.s, c);
    SubByte(t.s, d);
    WordBytes(t.s(B0(a)), t.s(B1(b)), t.s(B2(c)), t.s(B3(d)));
  }

  /** A table round is SubBytes, ShiftRows, MixColumns and AddRoundKey, section 5.1 of FIPS-197. */
  lemma TableRound(t: Boxes, b: Block, k: Block)
    ensures FRound(t, b, k) == AddRoundKey(MixColumns(ShiftRows(SubBytes(t.s, b))), k)
  {
    RoundColumn(t, b.w0, b.w1, b.w2, b.w3, k.w0);
    RoundColumn(t, b.w1, b.w2, b.w3, b.w0, k.w1);
    RoundColumn(t, b.w2, b.w3, b.w0, b.w1, k.w2);
    RoundColumn(t, b.w3, b.w0, b.w1, b.w2, k.w3);
  }

  lemma InvRoundColumn(t: Boxes, a: bv32, b: bv32, c: bv32, d: bv32, k: bv32)
    ensures IRn(t, a, b, c, d, k) ==
            XorW(InvMixColumn(Word(B0(Sub(t.inv, a)), B1(Sub(t.inv, b)), B2(Sub(t.inv, c)), B3(Sub(t.inv, d)))), k)
  {
    ItColumn(t, a, b, c, d, k);
    SubByte(t.inv, a);
    SubByte(t.inv, b);
    SubByte(t.inv, c);
    SubByte(t.inv, d);
    WordBytes(t.inv(B0(a)), t.inv(B1(b)), t.inv(B2(c)), t.inv(B3(d)));
  }

  /** A round of aes_decrypt is one of the equivalent inverse cipher, section 5.3.5 of FIPS-197. */
  lemma InvTableRound(t: Boxes, b: Block, k: Block)
    ensures IRound(t, b, k) == AddRoundKey(InvMixColumns(InvShiftRows(SubBytes(t.inv, b))), k)
  {
    InvRoundColumn(t, b.w0, b.w3, b.w2, b.w1, k.w0);
    InvRoundColumn(t, b.w1, b.w0, b.w3, b.w2, k.w1);
    InvRoundColumn(t, b.w2, b.w1, b.w0, b.w3, k.w2);
    InvRoundColumn(t, b.w3, b.w2, b.w1, b.w0, k.w3);
  }

  lemma LastRoundColumn(f: bv8 -> bv8, a: bv32, b: bv32, c: bv32, d: bv32, k: bv32)
    ensures Rl(f, a, b, c, d, k) == XorW(Word(B0(Sub(f, a)), B1(Sub(f, b)), B2(Sub(f, c)), B3(Sub(f, d))), k)
  {
    LastColumn(f, a, b, c, d, k);
    SubByte(f, a);
    SubByte(f, b);
    SubByte(f, c);
    SubByte(f, d);
  }

  lemma LastRounds(t: Boxes, b: Block, k: Block)
    ensures FLast(t, b, k) == AddRoundKey(ShiftRows(SubBytes(t.s, b)), k)
    ensures ILast(t, b, k) == AddRoundKey(InvShiftRows(SubBytes(t.inv, b)), k)
  {
    LastRoundColumn(t.s, b.w0, b.w1, b.w2, b.w3, k.w0);
    LastRoundColumn(t.s, b.w1, b.w2, b.w3, b.w0, k.w1);
    LastRoundColumn(t.s, b.w2, b.w3, b.w0, b.w1, k.w2);
    LastRoundColumn(t.s, b.w3, b.w0, b.w1, b.w2, k.w3);
    LastRoundColumn(t.inv, b.w0, b.w3, b.w2, b.w1, k.w0);
    LastRoundColumn(t.inv, b.w1, b.w0, b.w3, b.w2, k.w1);
    LastRoundColumn(t.inv, b.w2, b.w1, b.w0, b.w3, k.w2);
    LastRoundColumn(t.inv, b.w3, b.w2, b.w1, b.w0, k.w3);
  }

  // ---------------------------------------------------------------- undoing

  /** One column of InvShiftRows and InvSubBytes after SubBytes and ShiftRows. */
  lemma UndoColumn(t: Boxes, x: bv32, p: bv32, q: bv32, r: bv32, s: bv32)
    requires Inverse(t)
    requires B0(p) == B0(Sub(t.s, x)) && B1(q) == B1(Sub(t.s, x)) && B2(r) == B2(Sub(t.s, x))
    requires B3(s) == B3(Sub(t.s, x))
    ensures Word(B0(Sub(t.inv, p)), B1(Sub(t.inv, q)), B2(Sub(t.inv, r)), B3(Sub(t.inv, s))) == x
  {
    SubByte(t.s, x);
    SubByte(t.inv, p);
    SubByte(t.inv, q);
    SubByte(t.inv, r);
    SubByte(t.inv, s);
    BytesWord(x);
  }

  lemma UndoSubShift(t: Boxes, b: Block)
    requires Inverse(t)
    ensures InvShiftRows(SubBytes(t.inv, ShiftRows(SubBytes(t.s, b)))) == b
  {
    var z := SubBytes(t.s, b);
    var y := ShiftRows(z);
    WordBytes(B0(z.w0), B1(z.w1), B2(z.w2), B3(z.w3));
    WordBytes(B0(z.w1), B1(z.w2), B2(z.w3), B3(z.w0));
    WordBytes(B0(z.w2), B1(z.w3), B2(z.w0), B3(z.w1));
    WordBytes(B0(z.w3), B1(z.w0), B2(z.w1), B3(z.w2));
    UndoColumn(t, b.w0, y.w0, y.w3, y.w2, y.w1);
    UndoColumn(t, b.w1, y.w1, y.w0, y.w3, y.w2);
    UndoColumn(t, b.w2, y.w2, y.w1, y.w0, y.w3);
    UndoColumn(t, b.w3, y.w3, y.w2, y.w1, y.w0);
  }

  lemma XorTwice(x: bv32, k: bv32)
    ensures XorW(XorW(x, k), k) == x
  {
    assert (x ^ k) ^ k == x;
  }

  lemma AddTwice(b: Block, k: Block)
    ensures AddRoundKey(AddRoundKey(b, k), k) == b
  {
    XorTwice(b.w0, k.w0);
    XorTwice(b.w1, k.w1);
    XorTwice(b.w2, k.w2);
    XorTwice(b.w3, k.w3);
  }

  /** InvMixColumns of a mixed and keyed column is the column before, keyed with the transformed key. */
  lemma UndoMixColumn(x: bv32, k: bv32)
    ensures InvMixColumn(XorW(MixColumn(x), k)) == XorW(x, InvMixColumn(k))
  {
    InvMixXor(MixColumn(x), k);
    InvMixMix(x);
  }

  lemma UndoMix(b: Block, k: Block)
    ensures InvMixColumns(AddRoundKey(MixColumns(b), k)) == AddRoundKey(b, InvMixColumns(k))
  {
    UndoMixColumn(b.w0, k.w0);
    UndoMixColumn(b.w1, k.w1);
    UndoMixColumn(b.w2, k.w2);
    UndoMixColumn(b.w3, k.w3);
  }

  /** A round of aes_decrypt takes back a round of aes_encrypt. */
  lemma UndoRound(t: Boxes, b: Block, k: Block)
    requires Inverse(t)
    ensures IRound(t, ShiftRows(SubBytes(t.s, FRound(t, b, k))), InvMixColumns(k)) == ShiftRows(SubBytes(t.s, b))
  {
    var y := ShiftRows(SubBytes(t.s, b));
    var z := FRound(t, b, k);
    TableRound(t, b, k);
    InvTableRound(t, ShiftRows(SubBytes(t.s, z)), InvMixColumns(k));
    UndoSubShift(t, z);
    UndoMix(y, k);
    AddTwice(y, InvMixColumns(k));
  }

  /** The decryption schedule is the encryption schedule reversed, with InvMixColumns applied within. */
  ghost predicate DecKeys(w: seq<bv32>, dw: seq<bv32>, full: nat) {
    && 4 * full + 8 <= |w| && 4 * full + 8 <= |dw|
    && Key(dw, 0) == Key(w, full + 1) && Key(dw, full + 1) == Key(w, 0)
    && forall i, r :: 0 < i && 0 < r && i + r == full + 1 ==> Key(dw, r) == InvMixColumns(Key(w, i))
  }

  lemma FollowStep(t: Boxes, k: Block, dk: Block, before: Block, after: Block, d: Block)
    requires Inverse(t) && dk == InvMixColumns(k) && after == FRound(t, before, k)
    requires d == ShiftRows(SubBytes(t.s, after))
    ensures IRound(t, d, dk) == ShiftRows(SubBytes(t.s, before))
  {
    UndoRound(t, before, k);
  }

  /** After `r` rounds block `c` has decrypted to what `b` was after `i`. */
  ghost predicate Mirrors(t: Boxes, w: seq<bv32>, dw: seq<bv32>, b: Block, c: Block, i: nat, r: nat) {
    4 * i + 4 <= |w| && 4 * r + 4 <= |dw| && DecState(t, dw, r, c) == ShiftRows(SubBytes(t.s, EncState(t, w, i, b)))
  }

  lemma MirrorStep(t: Boxes, w: seq<bv32>, dw: seq<bv32>, full: nat, b: Block, c: Block, i: nat, r: nat)
    requires Inverse(t) == true && DecKeys(w, dw, full) == true && i + r + 1 == full
    requires Mirrors(t, w, dw, b, c, i + 1, r) == true
    ensures Mirrors(t, w, dw, b, c, i, r + 1) == true
  {
    FollowStep(t, Key(w, i + 1), Key(dw, r + 1), EncState(t, w, i, b), EncState(t, w, i + 1, b), DecState(t, dw, r, c));
  }

  lemma {:induction false} DecryptFollows(t: Boxes, w: seq<bv32>, dw: seq<bv32>, full: nat, b: Block, c: Block,
                                          i: nat, r: nat)
    requires Inverse(t) == true && DecKeys(w, dw, full) == true && i + r == full
    requires Mirrors(t, w, dw, b, c, i, r) == true
    ensures Mirrors(t, w, dw, b, c, 0, full) == true
    decreases i
  {
    if i > 0 {
      MirrorStep(t, w, dw, full, b, c, i - 1, r);
      DecryptFollows(t, w, dw, full, b, c, i - 1, r + 1);
    }
  }

  lemma DecryptBegins(t: Boxes, w: seq<bv32>, dw: seq<bv32>, full: nat, b: Block)
    requires DecKeys(w, dw, full) == true
    ensures Mirrors(t, w, dw, b, Encrypted(t, w, full, b), full, 0) == true
  {
    var last := EncState(t, w, full, b);
    LastRounds(t, last, Key(w, full + 1));
    AddTwice(ShiftRows(SubBytes(t.s, last)), Key(w, full + 1));
  }

  lemma DecryptEnds(t: Boxes, w: seq<bv32>, dw: seq<bv32>, full: nat, b: Block, c: Block)
    requires Inverse(t) == true && DecKeys(w, dw, full) == true && Mirrors(t, w, dw, b, c, 0, full) == true
    ensures Decrypted(t, dw, full, c) == b
  {
    var first := EncState(t, w, 0, b);
    LastRounds(t, ShiftRows(SubBytes(t.s, first)), Key(dw, full + 1));
    UndoSubShift(t, first);
    AddTwice(b, Key(w, 0));
  }

  /** Decryption with the decryption schedule gives back every block. */
  lemma DecryptUndoesEncrypt(t: Boxes, w: seq<bv32>, dw: seq<bv32>, full: nat, b: Block)
    requires Inverse(t) == true && DecKeys(w, dw, full) == true
    ensures Decrypted(t, dw, full, Encrypted(t, w, full, b)) == b
  {
    var c := Encrypted(t, w, full, b);
    DecryptBegins(t, w, dw, full, b);
    DecryptFollows(t, w, dw, full, b, c, full, 0);
    DecryptEnds(t, w, dw, full, b, c);
  }
}
