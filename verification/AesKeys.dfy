/** Key expansion: the schedule of FIPS-197, and the decryption schedule made from it. */
module AesKeys {
  import opened AesModel
  import opened AesRounds
  import opened AesCipher

  // ---------------------------------------------------------------- imix_col is InvMixColumns

  lemma StarXBytes(a: bv8, b: bv8, c: bv8, d: bv8)
    ensures StarX(Word(a, b, c, d)) == Word(XTime(a), XTime(b), XTime(c), XTime(d))
  {
  }

  lemma Ror8Bytes(x: bv32)
    ensures Ror8(x) == Word(B1(x), B2(x), B3(x), B0(x))
  {
  }

  lemma Ror16Bytes(x: bv32)
    ensures Ror16(x) == Word(B2(x), B3(x), B0(x), B1(x))
  {
  }

  lemma Ror24Bytes(x: bv32)
    ensures Ror24(x) == Word(B3(x), B0(x), B1(x), B2(x))
  {
  }

  lemma RorWord(a: bv8, b: bv8, c: bv8, d: bv8)
    ensures Ror8(Word(a, b, c, d)) == Word(b, c, d, a)
    ensures Ror16(Word(a, b, c, d)) == Word(c, d, a, b)
    ensures Ror24(Word(a, b, c, d)) == Word(d, a, b, c)
  {
    WordBytes(a, b, c, d);
    Ror8Bytes(Word(a, b, c, d));
    Ror16Bytes(Word(a, b, c, d));
    Ror24Bytes(Word(a, b, c, d));
  }

  lemma Reverse3(p: bv8, q: bv8, r: bv8)
    ensures Xor(Xor(p, q), r) == Xor(r, Xor(q, p))
  {
    assert (p ^ q) ^ r == r ^ (q ^ p);
  }

  lemma Swap3(p: bv8, q: bv8, r: bv8)
    ensures Xor(p, Xor(q, r)) == Xor(q, Xor(p, r))
  {
    assert p ^ (q ^ r) == q ^ (p ^ r);
  }

  lemma Commute(p: bv8, q: bv8)
    ensures Xor(p, q) == Xor(q, p)
  {
    assert p ^ q == q ^ p;
  }

  lemma Rotate4(p: bv8, q: bv8, r: bv8, s: bv8)
    ensures Xor4(p, q, r, s) == Xor4(s, p, q, r)
  {
    Commute(r, s);
    Interchange(p, q, s, r);
    Commute(p, s);
  }

  lemma XorZero(x: bv32)
    ensures XorW(x, 0) == x
  {
    assert x ^ 0 == x;
  }

  /** The three powers of x times a column, added up as imix_col does. */
  lemma ImixSums(a: bv8, b: bv8, c: bv8, d: bv8)
    ensures var x := Word(a, b, c, d); var u := StarX(x); var v := StarX(u); var w := StarX(v); var t := XorW(w, x);
            && t == Word(Mul9(a), Mul9(b), Mul9(c), Mul9(d))
            && XorW(XorW(u, v), w) == Word(MulE(a), MulE(b), MulE(c), MulE(d))
            && XorW(u, t) == Word(MulB(a), MulB(b), MulB(c), MulB(d))
            && XorW(v, t) == Word(MulD(a), MulD(b), MulD(c), MulD(d))
  {
    StarXBytes(a, b, c, d);
    StarXBytes(XTime(a), XTime(b), XTime(c), XTime(d));
    StarXBytes(X2(a), X2(b), X2(c), X2(d));
    WordXor(X3(a), X3(b), X3(c), X3(d), a, b, c, d);
    WordXor(XTime(a), XTime(b), XTime(c), XTime(d), X2(a), X2(b), X2(c), X2(d));
    WordXor(Xor(XTime(a), X2(a)), Xor(XTime(b), X2(b)), Xor(XTime(c), X2(c)), Xor(XTime(d), X2(d)),
            X3(a), X3(b), X3(c), X3(d));
    WordXor(XTime(a), XTime(b), XTime(c), XTime(d), Mul9(a), Mul9(b), Mul9(c), Mul9(d));
    WordXor(X2(a), X2(b), X2(c), X2(d), Mul9(a), Mul9(b), Mul9(c), Mul9(d));
    Reverse3(XTime(a), X2(a), X3(a));
    Reverse3(XTime(b), X2(b), X3(b));
    Reverse3(XTime(c), X2(c), X3(c));
    Reverse3(XTime(d), X2(d), X3(d));
    Swap3(XTime(a), X3(a), a);
    Swap3(XTime(b), X3(b), b);
    Swap3(XTime(c), X3(c), c);
    Swap3(XTime(d), X3(d), d);
  }

  lemma ImixRows(a: bv8, b: bv8, c: bv8, d: bv8)
    ensures Join(Word(MulE(a), MulE(b), MulE(c), MulE(d)), Word(MulB(b), MulB(c), MulB(d), MulB(a)),
                 Word(MulD(c), MulD(d), MulD(a), MulD(b)), Word(Mul9(d), Mul9(a), Mul9(b), Mul9(c)), 0)
            == InvMixBytes(a, b, c, d)
  {
    WordXor4(MulE(a), MulE(b), MulE(c), MulE(d), MulB(b), MulB(c), MulB(d), MulB(a),
             MulD(c), MulD(d), MulD(a), MulD(b), Mul9(d), Mul9(a), Mul9(b), Mul9(c), 0);
    Rotate4(MulE(b), MulB(c), MulD(d), Mul9(a));
    Rotate4(MulE(c), MulB(d), MulD(a), Mul9(b));
    Rotate4(Mul9(b), MulE(c), MulB(d), MulD(a));
    Rotate4(MulE(d), MulB(a), MulD(b), Mul9(c));
    Rotate4(Mul9(c), MulE(d), MulB(a), MulD(b));
    Rotate4(MulD(b), Mul9(c), MulE(d), MulB(a));
    XorZero(InvMixBytes(a, b, c, d));
  }

  /** imix_col computes InvMixColumns of a column. */
  lemma ImixColIs(x: bv32)
    ensures ImixCol(x) == InvMixColumn(x)
  {
    var a, b, c, d := B0(x), B1(x), B2(x), B3(x);
    BytesWord(x);
    ImixSums(a, b, c, d);
    RorWord(MulB(a), MulB(b), MulB(c), MulB(d));
    RorWord(MulD(a), MulD(b), MulD(c), MulD(d));
    RorWord(Mul9(a), Mul9(b), Mul9(c), Mul9(d));
    ImixRows(a, b, c, d);
  }

  // ---------------------------------------------------------------- the schedule

  /** Rcon of section 5.2 of FIPS-197: the powers of x, in the low byte of a column. */
  function Rcon(i: nat): bv8 {
    if i == 0 then 1 else XTime(Rcon(i - 1))
  }

  /** rco_tab. */
  const RCO_TAB: seq<bv8> := [1, 2, 4, 8, 16, 32, 64, 128, 27, 54]

  lemma RcoTab(i: nat)
    requires i < 10
    ensures RCO_TAB[i] == Rcon(i)
  {
    assert Rcon(0) == 1 && Rcon(1) == 2 && Rcon(2) == 4 && Rcon(3) == 8 && Rcon(4) == 16;
    assert Rcon(5) == 32 && Rcon(6) == 64 && Rcon(7) == 128 && Rcon(8) == 27 && Rcon(9) == 54;
  }

  /** ls_box. */
  function LsBox(t: Boxes, x: bv32): bv32 {
    XorW(XorW(XorW(Ltab(t.s, 0, B0(x)), Ltab(t.s, 1, B1(x))), Ltab(t.s, 2, B2(x))), Ltab(t.s, 3, B3(x)))
  }

  /** ls_box is SubWord. */
  lemma LsBoxIs(t: Boxes, x: bv32)
    ensures LsBox(t, x) == Sub(t.s, x)
  {
    PlacedBytes(t.s(B0(x)), t.s(B1(x)), t.s(B2(x)), t.s(B3(x)));
  }

  /** The next word of a schedule for keys of `nk` words, figure 11 of FIPS-197; RotWord is a rotation by a byte. */
  function NextWord(t: Boxes, w: seq<bv32>, nk: nat): bv32
    requires 0 < nk <= |w|
  {
    var i := |w|;
    if i % nk == 0 then XorW(XorW(Sub(t.s, Ror8(w[i - 1])), Rcon(i / nk - 1) as bv32), w[i - nk])
    else if nk > 6 && i % nk == 4 then XorW(w[i - nk], Sub(t.s, w[i - 1]))
    else XorW(w[i - 1], w[i - nk])
  }

  /** The first `n` words of the schedule. */
  function Schedule(t: Boxes, key: seq<bv32>, n: nat): (w: seq<bv32>)
    requires 0 < |key| <= n
    ensures |w| == n
    decreases n
  {
    if n == |key| then key
    else Schedule(t, key, n - 1) + [NextWord(t, Schedule(t, key, n - 1), |key|)]
  }

  /** The decryption schedule for `full` full rounds. */
  function DecSchedule(w: seq<bv32>, full: nat): (dw: seq<bv32>)
    requires |w| == 4 * full + 8
    ensures |dw| == |w|
  {
    seq(|w|, j requires 0 <= j < |w| => DecWord(w, full, j, Source(full, j)))
  }

  /** The word that goes into slot `j`, and how it gets there. */
  function Source(full: nat, j: nat): (i: nat)
    requires j < 4 * full + 8
    ensures i < 4 * full + 8
  {
    4 * full + 4 - j + 2 * (j % 4)
  }

  function DecWord(w: seq<bv32>, full: nat, j: nat, i: nat): bv32
    requires i < |w|
  {
    if j < 4 || j >= 4 * full + 4 then w[i] else InvMixColumn(w[i])
  }

  lemma SourceIs(full: nat, i: nat, r: nat, from: nat, to: nat)
    requires i + r == full + 1 && 4 * i <= from < 4 * i + 4 && to == 4 * r + (from - 4 * i)
    ensures to < 4 * full + 8 && Source(full, to) == from
  {
    assert to % 4 == from - 4 * i;
  }

  /** Words of the first and the last round key go over as they are... */
  lemma DecWordEdge(w: seq<bv32>, full: nat, i: nat, r: nat, from: nat, to: nat)
    requires |w| == 4 * full + 8 && i + r == full + 1 && (i == 0 || r == 0)
    requires 4 * i <= from < 4 * i + 4 && to == 4 * r + (from - 4 * i)
    ensures DecSchedule(w, full)[to] == w[from]
  {
    SourceIs(full, i, r, from, to);
  }

  /** ...and the others through InvMixColumns. */
  lemma DecWordWithin(w: seq<bv32>, full: nat, i: nat, r: nat, from: nat, to: nat)
    requires |w| == 4 * full + 8 && i + r == full + 1 && i > 0 && r > 0
    requires 4 * i <= from < 4 * i + 4 && to == 4 * r + (from - 4 * i)
    ensures DecSchedule(w, full)[to] == InvMixColumn(w[from])
  {
    SourceIs(full, i, r, from, to);
    assert DecSchedule(w, full)[to] == DecWord(w, full, to, from);
  }

  ghost predicate WordsMixed(w: seq<bv32>, dw: seq<bv32>, i: nat, r: nat) {
    && 4 * i + 4 <= |w| && 4 * r + 4 <= |dw|
    && forall from, to :: 4 * i <= from < 4 * i + 4 && to == 4 * r + (from - 4 * i) ==> dw[to] == InvMixColumn(w[from])
  }

  lemma DecWordsWithin(w: seq<bv32>, full: nat, i: nat, r: nat)
    requires |w| == 4 * full + 8 && i + r == full + 1 && i > 0 && r > 0
    ensures WordsMixed(w, DecSchedule(w, full), i, r) == true
  {
    forall from, to | 4 * i <= from < 4 * i + 4 && to == 4 * r + (from - 4 * i)
      ensures DecSchedule(w, full)[to] == InvMixColumn(w[from])
    {
      DecWordWithin(w, full, i, r, from, to);
    }
  }

  lemma MixedKey(w: seq<bv32>, dw: seq<bv32>, i: nat, r: nat)
    requires WordsMixed(w, dw, i, r)
    ensures Key(dw, r) == InvMixColumns(Key(w, i))
  {
  }

  lemma DecKeyWithin(w: seq<bv32>, full: nat, i: nat, r: nat)
    requires |w| == 4 * full + 8 && i + r == full + 1 && i > 0 && r > 0
    ensures Key(DecSchedule(w, full), r) == InvMixColumns(Key(w, i))
  {
    DecWordsWithin(w, full, i, r);
    MixedKey(w, DecSchedule(w, full), i, r);
  }

  lemma DecKeyEnds(w: seq<bv32>, full: nat, i: nat, r: nat)
    requires |w| == 4 * full + 8 && i + r == full + 1 && (i == 0 || r == 0)
    ensures Key(DecSchedule(w, full), r) == Key(w, i)
  {
    DecWordEdge(w, full, i, r, 4 * i, 4 * r);
    DecWordEdge(w, full, i, r, 4 * i + 1, 4 * r + 1);
    DecWordEdge(w, full, i, r, 4 * i + 2, 4 * r + 2);
    DecWordEdge(w, full, i, r, 4 * i + 3, 4 * r + 3);
  }

  lemma DecScheduleKeys(w: seq<bv32>, full: nat)
    requires |w| == 4 * full + 8
    ensures DecKeys(w, DecSchedule(w, full), full)
  {
    var dw := DecSchedule(w, full);
    DecKeyEnds(w, full, 0, full + 1);
    DecKeyEnds(w, full, full + 1, 0);
    forall i, r | 0 < i && 0 < r && i + r == full + 1 ensures Key(dw, r) == InvMixColumns(Key(w, i)) {
      DecKeyWithin(w, full, i, r);
    }
  }

  // ---------------------------------------------------------------- the cipher on bytes

  function Load(s: seq<bv8>): Block
    requires |s| == 16
  {
    Block(Word(s[0], s[1], s[2], s[3]), Word(s[4], s[5], s[6], s[7]),
          Word(s[8], s[9], s[10], s[11]), Word(s[12], s[13], s[14], s[15]))
  }

  function StoreWord(x: bv32): (s: seq<bv8>)
    ensures |s| == 4
  {
    [B0(x), B1(x), B2(x), B3(x)]
  }

  function Store(b: Block): (s: seq<bv8>)
    ensures |s| == 16
  {
    StoreWord(b.w0) + StoreWord(b.w1) + StoreWord(b.w2) + StoreWord(b.w3)
  }

  lemma LoadStore(b: Block)
    ensures Load(Store(b)) == b
  {
    BytesWord(b.w0);
    BytesWord(b.w1);
    BytesWord(b.w2);
    BytesWord(b.w3);
  }

  lemma StoreLoad(s: seq<bv8>)
    requires |s| == 16
    ensures Store(Load(s)) == s
  {
    WordBytes(s[0], s[1], s[2], s[3]);
    WordBytes(s[4], s[5], s[6], s[7]);
    WordBytes(s[8], s[9], s[10], s[11]);
    WordBytes(s[12], s[13], s[14], s[15]);
  }

  /** For every key and every block of bytes, aes_decrypt undoes aes_encrypt. */
  lemma AesRoundTrip(t: Boxes, key: seq<bv32>, full: nat, s: seq<bv8>)
    requires Inverse(t) == true && 0 < |key| <= 4 * full + 8 && |s| == 16
    ensures var w := Schedule(t, key, 4 * full + 8);
            Store(Decrypted(t, DecSchedule(w, full), full, Load(Store(Encrypted(t, w, full, Load(s)))))) == s
  {
    var w := Schedule(t, key, 4 * full + 8);
    var c := Encrypted(t, w, full, Load(s));
    DecScheduleKeys(w, full);
    LoadStore(c);
    DecryptUndoesEncrypt(t, w, DecSchedule(w, full), full, Load(s));
    StoreLoad(s);
  }
}
