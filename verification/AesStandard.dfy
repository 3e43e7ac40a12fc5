/** aes_encrypt and aes_decrypt are the cipher and the inverse cipher of FIPS-197, as it states them. */
module AesStandard {
  import opened AesModel
  import opened AesRounds
  import opened AesCipher
  import opened AesKeys

  // ---------------------------------------------------------------- the cipher, section 5.1 of FIPS-197

  function CipherState(t: Boxes, w: seq<bv32>, r: nat, b: Block): Block
    requires 4 * r + 4 <= |w|
  {
    if r == 0 then AddRoundKey(b, Key(w, 0))
    else AddRoundKey(MixColumns(ShiftRows(SubBytes(t.s, CipherState(t, w, r - 1, b)))), Key(w, r))
  }

  function Cipher(t: Boxes, w: seq<bv32>, full: nat, b: Block): Block
    requires 4 * full + 8 <= |w|
  {
    AddRoundKey(ShiftRows(SubBytes(t.s, CipherState(t, w, full, b))), Key(w, full + 1))
  }

  lemma RoundAgrees(t: Boxes, k: Block, x: Block, y: Block, x': Block, y': Block)
    requires x == y && x' == FRound(t, x, k) && y' == AddRoundKey(MixColumns(ShiftRows(SubBytes(t.s, y))), k)
    ensures x' == y'
  {
    TableRound(t, x, k);
  }

  ghost predicate Agree(t: Boxes, w: seq<bv32>, r: nat, b: Block) {
    4 * r + 4 <= |w| && EncState(t, w, r, b) == CipherState(t, w, r, b)
  }

  lemma AgreeStep(t: Boxes, w: seq<bv32>, r: nat, b: Block)
    requires Agree(t, w, r, b) == true && 4 * r + 8 <= |w|
    ensures Agree(t, w, r + 1, b) == true
  {
    RoundAgrees(t, Key(w, r + 1), EncState(t, w, r, b), CipherState(t, w, r, b),
                EncState(t, w, r + 1, b), CipherState(t, w, r + 1, b));
  }

  /** The rounds from `m` to `n`; a round is looked at only where it is marked. */
  predicate At(r: int) { true }

  ghost predicate AgreeFrom(t: Boxes, w: seq<bv32>, m: nat, n: nat, b: Block) {
    forall r {:trigger At(r)} :: At(r) && m <= r <= n ==> Agree(t, w, r, b)
  }

  lemma AgreeAt(t: Boxes, w: seq<bv32>, n: nat, r: nat, b: Block)
    requires AgreeFrom(t, w, 0, n, b) == true && r <= n
    ensures Agree(t, w, r, b) == true
  {
    assert At(r);
  }

  lemma AgreeStart(t: Boxes, w: seq<bv32>, b: Block)
    requires 4 <= |w|
    ensures AgreeFrom(t, w, 0, 0, b) == true
  {
  }

  lemma AgreeOnce(t: Boxes, w: seq<bv32>, n: nat, b: Block)
    requires Agree(t, w, n, b) == true
    ensures AgreeFrom(t, w, n, n, b) == true
  {
  }

  lemma AgreeThen(t: Boxes, w: seq<bv32>, n: nat, b: Block)
    requires AgreeFrom(t, w, 0, n, b) == true && AgreeFrom(t, w, n + 1, n + 1, b) == true
    ensures AgreeFrom(t, w, 0, n + 1, b) == true
  {
  }

  lemma AgreeMore(t: Boxes, w: seq<bv32>, n: nat, b: Block)
    requires AgreeFrom(t, w, 0, n, b) == true && 4 * n + 8 <= |w|
    ensures AgreeFrom(t, w, n + 1, n + 1, b) == true
  {
    AgreeAt(t, w, n, n, b);
    AgreeStep(t, w, n, b);
    AgreeOnce(t, w, n + 1, b);
  }

  lemma {:induction false} EncStatesAre(t: Boxes, w: seq<bv32>, n: nat, b: Block)
    requires 4 * n + 4 <= |w|
    ensures AgreeFrom(t, w, 0, n, b) == true
  {
    if n == 0 {
      AgreeStart(t, w, b);
    } else {
      EncStatesAre(t, w, n - 1, b);
      AgreeMore(t, w, n - 1, b);
      AgreeThen(t, w, n - 1, b);
    }
  }

  lemma EncStateIs(t: Boxes, w: seq<bv32>, r: nat, b: Block)
    requires 4 * r + 4 <= |w|
    ensures Agree(t, w, r, b) == true
  {
    EncStatesAre(t, w, r, b);
    AgreeAt(t, w, r, r, b);
  }

  /** All rounds together: aes_encrypt is the cipher, for any schedule and number of rounds. */
  lemma EncryptIsCipher(t: Boxes, w: seq<bv32>, full: nat, b: Block)
    requires 4 * full + 8 <= |w|
    ensures Encrypted(t, w, full, b) == Cipher(t, w, full, b)
  {
    EncStateIs(t, w, full, b);
    LastRounds(t, EncState(t, w, full, b), Key(w, full + 1));
  }

  // ---------------------------------------------------------------- the inverse cipher, section 5.3 of FIPS-197

  /** The state after `r` of its full rounds, which take the round keys from the last one but one down. */
  function InvState(t: Boxes, w: seq<bv32>, full: nat, r: nat, b: Block): Block
    requires 4 * full + 8 <= |w| && r <= full
  {
    if r == 0 then AddRoundKey(b, Key(w, full + 1))
    else InvMixColumns(AddRoundKey(SubBytes(t.inv, InvShiftRows(InvState(t, w, full, r - 1, b))), Key(w, full + 1 - r)))
  }

  function InvCipher(t: Boxes, w: seq<bv32>, full: nat, b: Block): Block
    requires 4 * full + 8 <= |w|
  {
    AddRoundKey(SubBytes(t.inv, InvShiftRows(InvState(t, w, full, full, b))), Key(w, 0))
  }

  lemma SubColumn(f: bv8 -> bv8, a: bv32, b: bv32, c: bv32, d: bv32)
    ensures Sub(f, Word(B0(a), B1(b), B2(c), B3(d))) == Word(B0(Sub(f, a)), B1(Sub(f, b)), B2(Sub(f, c)), B3(Sub(f, d)))
  {
    WordBytes(B0(a), B1(b), B2(c), B3(d));
    SubByte(f, a);
    SubByte(f, b);
    SubByte(f, c);
    SubByte(f, d);
  }

  /** Substituting bytes and moving them within rows commute. */
  lemma SubShiftCommute(f: bv8 -> bv8, b: Block)
    ensures SubBytes(f, InvShiftRows(b)) == InvShiftRows(SubBytes(f, b))
  {
    SubColumn(f, b.w0, b.w3, b.w2, b.w1);
    SubColumn(f, b.w1, b.w0, b.w3, b.w2);
    SubColumn(f, b.w2, b.w1, b.w0, b.w3);
    SubColumn(f, b.w3, b.w2, b.w1, b.w0);
  }

  /** InvMixColumns of a keyed block is the mixed block keyed with the mixed key. */
  lemma InvMixKeyed(b: Block, k: Block)
    ensures InvMixColumns(AddRoundKey(b, k)) == AddRoundKey(InvMixColumns(b), InvMixColumns(k))
  {
    InvMixXor(b.w0, k.w0);
    InvMixXor(b.w1, k.w1);
    InvMixXor(b.w2, k.w2);
    InvMixXor(b.w3, k.w3);
  }

  /** A round of aes_decrypt with the transformed key is a round of the inverse cipher with the key itself. */
  lemma InvRoundIs(t: Boxes, b: Block, k: Block)
    ensures IRound(t, b, InvMixColumns(k)) == InvMixColumns(AddRoundKey(SubBytes(t.inv, InvShiftRows(b)), k))
  {
    InvTableRound(t, b, InvMixColumns(k));
    SubShiftCommute(t.inv, b);
    InvMixKeyed(InvShiftRows(SubBytes(t.inv, b)), k);
  }

  lemma InvRoundAgrees(t: Boxes, k: Block, dk: Block, x: Block, y: Block, x': Block, y': Block)
    requires x == y && dk == InvMixColumns(k) && x' == IRound(t, x, dk)
    requires y' == InvMixColumns(AddRoundKey(SubBytes(t.inv, InvShiftRows(y)), k))
    ensures x' == y'
  {
    InvRoundIs(t, x, k);
  }

  ghost predicate InvAgree(t: Boxes, w: seq<bv32>, dw: seq<bv32>, full: nat, r: nat, b: Block) {
    && 4 * full + 8 <= |w| && 4 * r + 4 <= |dw| && r <= full
    && DecState(t, dw, r, b) == InvState(t, w, full, r, b)
  }

  lemma InvAgreeStep(t: Boxes, w: seq<bv32>, dw: seq<bv32>, full: nat, r: nat, i: nat, b: Block)
    requires DecKeys(w, dw, full) == true && r < full && i == full - r && InvAgree(t, w, dw, full, r, b) == true
    ensures InvAgree(t, w, dw, full, r + 1, b) == true
  {
    InvRoundAgrees(t, Key(w, i), Key(dw, r + 1), DecState(t, dw, r, b), InvState(t, w, full, r, b),
                   DecState(t, dw, r + 1, b), InvState(t, w, full, r + 1, b));
  }

  ghost predicate InvAgreeFrom(t: Boxes, w: seq<bv32>, dw: seq<bv32>, full: nat, m: nat, n: nat, b: Block) {
    forall r {:trigger At(r)} :: At(r) && m <= r <= n ==> InvAgree(t, w, dw, full, r, b)
  }

  lemma InvAgreeAt(t: Boxes, w: seq<bv32>, dw: seq<bv32>, full: nat, n: nat, r: nat, b: Block)
    requires InvAgreeFrom(t, w, dw, full, 0, n, b) == true && r <= n
    ensures InvAgree(t, w, dw, full, r, b) == true
  {
    assert At(r);
  }

  lemma InvAgreeStart(t: Boxes, w: seq<bv32>, dw: seq<bv32>, full: nat, b: Block)
    requires DecKeys(w, dw, full)
    ensures InvAgreeFrom(t, w, dw, full, 0, 0, b) == true
  {
  }

  lemma InvAgreeOnce(t: Boxes, w: seq<bv32>, dw: seq<bv32>, full: nat, n: nat, b: Block)
    requires InvAgree(t, w, dw, full, n, b) == true
    ensures InvAgreeFrom(t, w, dw, full, n, n, b) == true
  {
  }

  lemma InvAgreeThen(t: Boxes, w: seq<bv32>, dw: seq<bv32>, full: nat, n: nat, b: Block)
    requires InvAgreeFrom(t, w, dw, full, 0, n, b) == true && InvAgreeFrom(t, w, dw, full, n + 1, n + 1, b) == true
    ensures InvAgreeFrom(t, w, dw, full, 0, n + 1, b) == true
  {
  }

  lemma InvAgreeMore(t: Boxes, w: seq<bv32>, dw: seq<bv32>, full: nat, n: nat, b: Block)
    requires DecKeys(w, dw, full) == true && n < full && InvAgreeFrom(t, w, dw, full, 0, n, b) == true
    ensures InvAgreeFrom(t, w, dw, full, n + 1, n + 1, b) == true
  {
    InvAgreeAt(t, w, dw, full, n, n, b);
    InvAgreeStep(t, w, dw, full, n, full - n, b);
    InvAgreeOnce(t, w, dw, full, n + 1, b);
  }

  lemma {:induction false} DecStatesAre(t: Boxes, w: seq<bv32>, dw: seq<bv32>, full: nat, n: nat, b: Block)
    requires DecKeys(w, dw, full) == true && n <= full
    ensures InvAgreeFrom(t, w, dw, full, 0, n, b) == true
  {
    if n == 0 {
      InvAgreeStart(t, w, dw, full, b);
    } else {
      DecStatesAre(t, w, dw, full, n - 1, b);
      InvAgreeMore(t, w, dw, full, n - 1, b);
      InvAgreeThen(t, w, dw, full, n - 1, b);
    }
  }

  lemma DecStateIs(t: Boxes, w: seq<bv32>, dw: seq<bv32>, full: nat, b: Block)
    requires DecKeys(w, dw, full) == true
    ensures InvAgree(t, w, dw, full, full, b) == true
  {
    DecStatesAre(t, w, dw, full, full, b);
    InvAgreeAt(t, w, dw, full, full, full, b);
  }

  /** All rounds together: aes_decrypt with its schedule is the inverse cipher with the schedule of the cipher. */
  lemma DecryptIsInvCipher(t: Boxes, w: seq<bv32>, full: nat, b: Block)
    requires |w| == 4 * full + 8
    ensures Decrypted(t, DecSchedule(w, full), full, b) == InvCipher(t, w, full, b)
  {
    var dw := DecSchedule(w, full);
    DecScheduleKeys(w, full);
    DecStateIs(t, w, dw, full, b);
    LastRounds(t, DecState(t, dw, full, b), Key(dw, full + 1));
    SubShiftCommute(t.inv, DecState(t, dw, full, b));
  }
}
