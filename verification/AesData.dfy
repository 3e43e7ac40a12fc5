/** struct crypto_aes_ctx: key expansion into its two arrays, and the unrolled rounds. */
module AesInPlace {
  import opened AesModel
  import opened AesRounds
  import opened AesCipher
  import opened AesKeys
  import opened AesBoxes

  datatype Status = Done | InvalidKeySize

  /** The words of a key given as bytes. */
  function KeyWords(k: seq<bv8>): (w: seq<bv32>)
    requires |k| % 4 == 0
    ensures |w| == |k| / 4
  {
    seq(|k| / 4, i requires 0 <= i < |k| / 4 => Word(k[4 * i], k[4 * i + 1], k[4 * i + 2], k[4 * i + 3]))
  }

  /** Marks the word a quantified fact about a schedule is wanted for. */
  predicate At(n: int) { true }

  /** Sixty words that follow the recurrence of the key schedule. */
  ghost predicate Scheduled(t: Boxes, key: seq<bv32>, w: seq<bv32>) {
    && 0 < |key| <= 60 == |w|
    && forall n {:trigger At(n)} :: At(n) && |key| <= n < 60 ==> w[n] == NextWord(t, w[..n], |key|)
  }

  lemma {:induction false} SchedulePrefix(t: Boxes, key: seq<bv32>, n: nat, m: nat)
    requires 0 < |key| <= m <= n
    ensures Schedule(t, key, n)[..m] == Schedule(t, key, m)
    decreases n
  {
    if m < n {
      SchedulePrefix(t, key, n - 1, m);
      assert Schedule(t, key, n)[..m] == Schedule(t, key, n - 1)[..m];
    }
  }

  lemma ScheduleAt(t: Boxes, key: seq<bv32>, n: nat)
    requires 0 < |key| <= n < 60
    ensures Schedule(t, key, 60)[n] == NextWord(t, Schedule(t, key, 60)[..n], |key|)
  {
    SchedulePrefix(t, key, 60, n);
    SchedulePrefix(t, key, 60, n + 1);
    assert Schedule(t, key, 60)[..n + 1][n] == Schedule(t, key, 60)[n];
  }

  lemma ScheduleIsScheduled(t: Boxes, key: seq<bv32>)
    requires 0 < |key| <= 60
    ensures Scheduled(t, key, Schedule(t, key, 60)) == true && Schedule(t, key, 60)[..|key|] == key
  {
    SchedulePrefix(t, key, 60, |key|);
    forall n {:trigger At(n)} | At(n) && |key| <= n < 60
      ensures Schedule(t, key, 60)[n] == NextWord(t, Schedule(t, key, 60)[..n], |key|)
    {
      ScheduleAt(t, key, n);
    }
  }

  lemma NextIs(t: Boxes, key: seq<bv32>, w: seq<bv32>, n: nat, ke: seq<bv32>)
    requires Scheduled(t, key, w) && |key| <= n < 60 && ke == w[..n]
    ensures w[n] == NextWord(t, ke, |key|)
  {
    assert At(n);
  }

  /** The next word of the schedule is stored. */
  method StoreNext(ke: array<bv32>, ghost w: seq<bv32>, n: nat, word: bv32)
    requires n < ke.Length == |w| && ke[..n] == w[..n] && word == w[n]
    modifies ke
    ensures ke[..n + 1] == w[..n + 1]
  {
    ke[n] := word;
  }

  /** The first statement of loop4, loop6 and loop8: the word that begins a key's length of the schedule. */
  method FirstOf(t: Boxes, ke: array<bv32>, ghost key: seq<bv32>, ghost w: seq<bv32>, nk: nat, i: nat, n: nat)
    requires Scheduled(t, key, w) == true && 0 < nk == |key| && i < 10 && nk <= n < 60 && n % nk == 0 && n / nk - 1 == i
    requires ke.Length == 60 && ke[..n] == w[..n]
    modifies ke
    ensures ke[..n + 1] == w[..n + 1]
  {
    var word := Ror8(ke[n - 1]);
    NextIs(t, key, w, n, ke[..n]);
    LsBoxIs(t, word);
    RcoTab(i);
    word := XorW(LsBox(t, word), RCO_TAB[i] as bv32);
    word := XorW(word, ke[n - nk]);
    StoreNext(ke, w, n, word);
  }

  /** The chain of exclusive ors that follows, for the words from `from` up to `to`. */
  method Chain(t: Boxes, ke: array<bv32>, ghost key: seq<bv32>, ghost w: seq<bv32>, nk: nat, from: nat, to: nat)
    requires Scheduled(t, key, w) == true && 0 < nk == |key| && nk <= from <= to <= 60 == ke.Length
    requires ke[..from] == w[..from]
    requires forall n :: from <= n < to ==> n % nk != 0 && (nk > 6 ==> n % nk != 4)
    modifies ke
    ensures ke[..to] == w[..to]
  {
    for n := from to to
      invariant ke[..n] == w[..n]
    {
      NextIs(t, key, w, n, ke[..n]);
      StoreNext(ke, w, n, XorW(ke[n - 1], ke[n - nk]));
    }
  }

  /** The word of key_dec that word `i` of key_enc goes to. */
  function Slot(last: nat, i: nat): (j: nat)
    requires last % 4 == 0 && i < last + 4
    ensures j < last + 4
  {
    last - i / 4 * 4 + i % 4
  }

  lemma SlotTwice(last: nat, j: nat)
    requires last % 4 == 0 && j < last + 4
    ensures Slot(last, Slot(last, j)) == j
  {
    var a, b := j / 4, j % 4;
    assert j == 4 * a + b && Slot(last, j) == last - 4 * a + b;
    assert Slot(last, j) / 4 == last / 4 - a && Slot(last, j) % 4 == b;
  }

  lemma SlotsDiffer(last: nat)
    requires last % 4 == 0
    ensures forall i: nat, j: nat :: i < j < last + 4 ==> Slot(last, i) != Slot(last, j)
  {
    forall i: nat, j: nat | i < j < last + 4 ensures Slot(last, i) != Slot(last, j) {
      SlotTwice(last, i);
      SlotTwice(last, j);
    }
  }

  /** `dw` holds the words of `w` where the source puts them, those within it through imix_col. */
  ghost predicate DecScheduled(w: seq<bv32>, dw: seq<bv32>, last: nat) {
    && last % 4 == 0 && |w| == |dw| == last + 4
    && forall i {:trigger At(i)} :: At(i) && 0 <= i < last + 4 ==>
         dw[Slot(last, i)] == if i < 4 || i >= last then w[i] else ImixCol(w[i])
  }

  lemma DecScheduledAt(w: seq<bv32>, full: nat, i: nat)
    requires |w| == 4 * full + 8 && i < |w|
    ensures DecSchedule(w, full)[Slot(4 * full + 4, i)] == if i < 4 || i >= 4 * full + 4 then w[i] else ImixCol(w[i])
  {
    var a := i / 4;
    if i < 4 || i >= 4 * full + 4 {
      DecWordEdge(w, full, a, full + 1 - a, i, Slot(4 * full + 4, i));
    } else {
      DecWordWithin(w, full, a, full + 1 - a, i, Slot(4 * full + 4, i));
      ImixColIs(w[i]);
    }
  }

  lemma DecScheduleIs(w: seq<bv32>, full: nat)
    requires |w| == 4 * full + 8
    ensures DecScheduled(w, DecSchedule(w, full), 4 * full + 4) == true
  {
    forall i {:trigger At(i)} | At(i) && 0 <= i < 4 * full + 8
      ensures DecSchedule(w, full)[Slot(4 * full + 4, i)] == if i < 4 || i >= 4 * full + 4 then w[i] else ImixCol(w[i])
    {
      DecScheduledAt(w, full, i);
    }
  }

  lemma SameWord(w: seq<bv32>, dw: seq<bv32>, last: nat, i: nat)
    requires DecScheduled(w, dw, last) == true && (i < 4 || last <= i < last + 4)
    ensures last % 4 == 0 && i < |w| == |dw| == last + 4 && dw[Slot(last, i)] == w[i]
  {
    assert At(i);
  }

  /** imix_col on a word. */
  method Mixed(ghost w: seq<bv32>, ghost dw: seq<bv32>, ghost last: nat, ghost i: nat, word: bv32) returns (r: bv32)
    requires DecScheduled(w, dw, last) == true && 4 <= i < last && i < |w| && word == w[i]
    ensures last % 4 == 0 && |dw| == last + 4 && r == dw[Slot(last, i)]
  {
    assert At(i);
    r := ImixCol(word);
  }

  // ---------------------------------------------------------------- rounds in turn

  /** `b` is the state after `r` full rounds on `src`. */
  ghost predicate EncAt(t: Boxes, w: seq<bv32>, src: Block, r: nat, b: Block) {
    4 * r + 4 <= |w| && b == EncState(t, w, r, src)
  }

  ghost predicate DecAt(t: Boxes, w: seq<bv32>, src: Block, r: nat, b: Block) {
    4 * r + 4 <= |w| && b == DecState(t, w, r, src)
  }

  lemma EncStart(t: Boxes, w: seq<bv32>, src: Block, b: Block)
    requires |w| >= 4 && b == AddRoundKey(src, Key(w, 0))
    ensures EncAt(t, w, src, 0, b) == true
  {
  }

  lemma DecStart(t: Boxes, w: seq<bv32>, src: Block, b: Block)
    requires |w| >= 4 && b == AddRoundKey(src, Key(w, 0))
    ensures DecAt(t, w, src, 0, b) == true
  {
  }

  /** f_nround. */
  method OneRound(t: Boxes, w: seq<bv32>, ghost src: Block, b: Block, kp: nat) returns (b': Block)
    requires 0 < kp && 4 * kp + 4 <= |w| && EncAt(t, w, src, kp - 1, b) == true
    ensures EncAt(t, w, src, kp, b') == true
  {
    b' := FRound(t, b, Key(w, kp));
  }

  /** i_nround. */
  method OneInvRound(t: Boxes, w: seq<bv32>, ghost src: Block, b: Block, kp: nat) returns (b': Block)
    requires 0 < kp && 4 * kp + 4 <= |w| && DecAt(t, w, src, kp - 1, b) == true
    ensures DecAt(t, w, src, kp, b') == true
  {
    b' := IRound(t, b, Key(w, kp));
  }

  /** f_nround from b0 to b1 and back. */
  method TwoRounds(t: Boxes, w: seq<bv32>, ghost src: Block, b0: Block, kp: nat) returns (b: Block, kp': nat)
    requires 0 < kp && 4 * kp + 8 <= |w| && EncAt(t, w, src, kp - 1, b0) == true
    ensures kp' == kp + 2 && EncAt(t, w, src, kp' - 1, b) == true
  {
    var b1 := OneRound(t, w, src, b0, kp);
    b := OneRound(t, w, src, b1, kp + 1);
    kp' := kp + 2;
  }

  method TwoInvRounds(t: Boxes, w: seq<bv32>, ghost src: Block, b0: Block, kp: nat) returns (b: Block, kp': nat)
    requires 0 < kp && 4 * kp + 8 <= |w| && DecAt(t, w, src, kp - 1, b0) == true
    ensures kp' == kp + 2 && DecAt(t, w, src, kp' - 1, b) == true
  {
    var b1 := OneInvRound(t, w, src, b0, kp);
    b := OneInvRound(t, w, src, b1, kp + 1);
    kp' := kp + 2;
  }

  /** f_lround. */
  method LastRound(t: Boxes, w: seq<bv32>, ghost src: Block, ghost full: nat, b: Block, kp: nat) returns (b': Block)
    requires kp == full + 1 && 4 * kp + 4 == |w| && EncAt(t, w, src, full, b) == true
    ensures b' == Encrypted(t, w, full, src)
  {
    b' := FLast(t, b, Key(w, kp));
  }

  /** i_lround. */
  method LastInvRound(t: Boxes, w: seq<bv32>, ghost src: Block, ghost full: nat, b: Block, kp: nat) returns (b': Block)
    requires kp == full + 1 && 4 * kp + 4 == |w| && DecAt(t, w, src, full, b) == true
    ensures b' == Decrypted(t, w, full, src)
  {
    b' := ILast(t, b, Key(w, kp));
  }

  /** The nine rounds that all key sizes have before the last one. */
  method NineRounds(t: Boxes, w: seq<bv32>, ghost src: Block, b: Block, kp: nat) returns (b': Block, kp': nat)
    requires 0 < kp && 4 * kp + 36 <= |w| && EncAt(t, w, src, kp - 1, b) == true
    ensures kp' == kp + 9 && EncAt(t, w, src, kp' - 1, b') == true
  {
    b', kp' := TwoRounds(t, w, src, b, kp);
    b', kp' := TwoRounds(t, w, src, b', kp');
    b', kp' := TwoRounds(t, w, src, b', kp');
    b', kp' := TwoRounds(t, w, src, b', kp');
    b' := OneRound(t, w, src, b', kp');
    kp' := kp' + 1;
  }

  /** The body of aes_encrypt: b0 and b1 take turns, and kp walks through the schedule. */
  method EncryptBlock(t: Boxes, w: seq<bv32>, full: nat, src: Block) returns (b: Block)
    requires (full == 9 || full == 11 || full == 13) && |w| == 4 * full + 8
    ensures b == Encrypted(t, w, full, src)
  {
    var b0, kp := AddRoundKey(src, Key(w, 0)), 1;
    EncStart(t, w, src, b0);
    if full > 11 {
      b0, kp := TwoRounds(t, w, src, b0, kp);
    }
    if full > 9 {
      b0, kp := TwoRounds(t, w, src, b0, kp);
    }
    b0, kp := NineRounds(t, w, src, b0, kp);
    b := LastRound(t, w, src, full, b0, kp);
  }

  /** The nine rounds that all key sizes have before the last one. */
  method NineInvRounds(t: Boxes, w: seq<bv32>, ghost src: Block, b: Block, kp: nat) returns (b': Block, kp': nat)
    requires 0 < kp && 4 * kp + 36 <= |w| && DecAt(t, w, src, kp - 1, b) == true
    ensures kp' == kp + 9 && DecAt(t, w, src, kp' - 1, b') == true
  {
    b', kp' := TwoInvRounds(t, w, src, b, kp);
    b', kp' := TwoInvRounds(t, w, src, b', kp');
    b', kp' := TwoInvRounds(t, w, src, b', kp');
    b', kp' := TwoInvRounds(t, w, src, b', kp');
    b' := OneInvRound(t, w, src, b', kp');
    kp' := kp' + 1;
  }

  /** The body of aes_decrypt: b0 and b1 take turns, and kp walks through the schedule. */
  method DecryptBlock(t: Boxes, w: seq<bv32>, full: nat, src: Block) returns (b: Block)
    requires (full == 9 || full == 11 || full == 13) && |w| == 4 * full + 8
    ensures b == Decrypted(t, w, full, src)
  {
    var b0, kp := AddRoundKey(src, Key(w, 0)), 1;
    DecStart(t, w, src, b0);
    if full > 11 {
      b0, kp := TwoInvRounds(t, w, src, b0, kp);
    }
    if full > 9 {
      b0, kp := TwoInvRounds(t, w, src, b0, kp);
    }
    b0, kp := NineInvRounds(t, w, src, b0, kp);
    b := LastInvRound(t, w, src, full, b0, kp);
  }

  class Context {
    const keyEnc: array<bv32>
    const keyDec: array<bv32>
    var keyLength: nat

    ghost predicate Valid()
      reads this
    {
      keyEnc.Length == 60 && keyDec.Length == 60 && keyEnc != keyDec
    }

    constructor ()
      ensures Valid() && fresh(keyEnc) && fresh(keyDec)
    {
      keyEnc := new bv32[60];
      keyDec := new bv32[60];
      keyLength := 0;
    }

    /** Full rounds for the key length in use. */
    function Full(): nat
      reads this
    {
      if keyLength == 16 then 9 else if keyLength == 24 then 11 else 13
    }

    /** Both schedules hold what the key calls for. */
    ghost predicate Expanded(t: Boxes, key: seq<bv32>)
      reads this, keyEnc, keyDec
    {
      && Valid() && keyLength == 4 * |key| && KeySize(|key|, Full())
      && keyEnc[..4 * Full() + 8] == Schedule(t, key, 4 * Full() + 8)
      && keyDec[..4 * Full() + 8] == DecSchedule(keyEnc[..4 * Full() + 8], Full())
    }

    /** The case of 128-bit keys. */
    method Expand128(t: Boxes, ghost key: seq<bv32>, ghost w: seq<bv32>)
      requires Valid() && |key| == 4 && Scheduled(t, key, w) == true && keyEnc[..4] == w[..4]
      modifies keyEnc
      ensures keyEnc[..44] == w[..44]
    {
      for i := 0 to 10
        invariant keyEnc[..4 * i + 4] == w[..4 * i + 4]
      {
        FirstOf(t, keyEnc, key, w, 4, i, 4 * i + 4);
        Chain(t, keyEnc, key, w, 4, 4 * i + 5, 4 * i + 8);
      }
    }

    /** The case of 192-bit keys; two words more than are needed. */
    method Expand192(t: Boxes, ghost key: seq<bv32>, ghost w: seq<bv32>)
      requires Valid() && |key| == 6 && Scheduled(t, key, w) == true && keyEnc[..6] == w[..6]
      modifies keyEnc
      ensures keyEnc[..54] == w[..54]
    {
      for i := 0 to 8
        invariant keyEnc[..6 * i + 6] == w[..6 * i + 6]
      {
        FirstOf(t, keyEnc, key, w, 6, i, 6 * i + 6);
        Chain(t, keyEnc, key, w, 6, 6 * i + 7, 6 * i + 12);
      }
    }

    /** loop8tophalf. */
    method TopHalf(t: Boxes, ghost key: seq<bv32>, ghost w: seq<bv32>, i: nat)
      requires Valid() && |key| == 8 && i < 7 && Scheduled(t, key, w) == true && keyEnc[..8 * i + 8] == w[..8 * i + 8]
      modifies keyEnc
      ensures keyEnc[..8 * i + 12] == w[..8 * i + 12]
    {
      FirstOf(t, keyEnc, key, w, 8, i, 8 * i + 8);
      Chain(t, keyEnc, key, w, 8, 8 * i + 9, 8 * i + 12);
    }

    /** The rest of loop8. */
    method BottomHalf(t: Boxes, ghost key: seq<bv32>, ghost w: seq<bv32>, n: nat)
      requires Valid() && |key| == 8 && 12 <= n <= 56 && n % 8 == 4 && Scheduled(t, key, w) == true
      requires keyEnc[..n] == w[..n]
      modifies keyEnc
      ensures keyEnc[..n + 4] == w[..n + 4]
    {
      NextIs(t, key, w, n, keyEnc[..n]);
      LsBoxIs(t, keyEnc[n - 1]);
      StoreNext(keyEnc, w, n, XorW(keyEnc[n - 8], LsBox(t, keyEnc[n - 1])));
      Chain(t, keyEnc, key, w, 8, n + 1, n + 4);
    }

    /** The case of 256-bit keys. */
    method Expand256(t: Boxes, ghost key: seq<bv32>, ghost w: seq<bv32>)
      requires Valid() && |key| == 8 && Scheduled(t, key, w) == true && keyEnc[..8] == w[..8]
      modifies keyEnc
      ensures keyEnc[..60] == w[..60]
    {
      for i := 0 to 6
        invariant keyEnc[..8 * i + 8] == w[..8 * i + 8]
      {
        TopHalf(t, key, w, i);
        BottomHalf(t, key, w, 8 * i + 12);
      }
      TopHalf(t, key, w, 6);
    }

    /** The key words, and the switch on the key size. */
    method ExpandInto(t: Boxes, key: seq<bv32>, ghost w: seq<bv32>)
      requires Valid() && (|key| == 4 || |key| == 6 || |key| == 8) && Scheduled(t, key, w) == true && |w| == 60
      requires w[..|key|] == key
      modifies keyEnc
      ensures keyEnc[..4 * |key| + 28] == w[..4 * |key| + 28]
    {
      forall i | 0 <= i < |key| {
        keyEnc[i] := key[i];
      }
      assert keyEnc[..|key|] == w[..|key|];
      if |key| == 4 {
        Expand128(t, key, w);
      } else if |key| == 6 {
        Expand192(t, key, w);
        assert keyEnc[..54][..52] == w[..54][..52];
      } else {
        Expand256(t, key, w);
      }
    }

    method ExpandEnc(t: Boxes, key: seq<bv32>)
      requires Valid() && (|key| == 4 || |key| == 6 || |key| == 8)
      modifies keyEnc
      ensures keyEnc[..4 * |key| + 28] == Schedule(t, key, 4 * |key| + 28)
    {
      ScheduleIsScheduled(t, key);
      SchedulePrefix(t, key, 60, 4 * |key| + 28);
      ExpandInto(t, key, Schedule(t, key, 60));
    }

    /** The filling of key_dec: its first and last slot, then the others by imix_col. */
    method FillDec(last: nat, ghost dw: seq<bv32>)
      requires Valid() && 4 <= last <= 56 && last % 4 == 0 && DecScheduled(keyEnc[..last + 4], dw, last) == true
      requires |dw| == last + 4
      modifies keyDec
      ensures keyDec[..last + 4] == dw
    {
      ghost var w := keyEnc[..last + 4];
      SlotsDiffer(last);
      for i := 0 to 4
        invariant forall j :: 0 <= j < i ==> keyDec[Slot(last, j)] == dw[Slot(last, j)]
        invariant forall j :: last <= j < last + i ==> keyDec[Slot(last, j)] == dw[Slot(last, j)]
      {
        SameWord(w, dw, last, i);
        SameWord(w, dw, last, last + i);
        keyDec[Slot(last, i)] := keyEnc[i];
        keyDec[Slot(last, last + i)] := keyEnc[last + i];
      }
      for i := 4 to last
        invariant forall j :: 0 <= j < i ==> keyDec[Slot(last, j)] == dw[Slot(last, j)]
        invariant forall j :: last <= j < last + 4 ==> keyDec[Slot(last, j)] == dw[Slot(last, j)]
      {
        var word := Mixed(w, dw, last, i, keyEnc[i]);
        keyDec[Slot(last, i)] := word;
      }
      forall j | 0 <= j < last + 4 ensures keyDec[j] == dw[j] {
        SlotTwice(last, j);
        assert keyDec[Slot(last, Slot(last, j))] == dw[Slot(last, Slot(last, j))];
      }
    }

    method ExpandDec()
      requires Valid() && (keyLength == 16 || keyLength == 24 || keyLength == 32)
      modifies keyDec
      ensures keyDec[..4 * Full() + 8] == DecSchedule(keyEnc[..4 * Full() + 8], Full())
    {
      DecScheduleIs(keyEnc[..4 * Full() + 8], Full());
      FillDec(keyLength + 24, DecSchedule(keyEnc[..4 * Full() + 8], Full()));
    }

    /** crypto_aes_expand_key. */
    method ExpandKey(t: Boxes, inKey: seq<bv8>) returns (status: Status)
      requires Valid()
      modifies this`keyLength, keyEnc, keyDec
      ensures Valid() && (status.Done? <==> |inKey| == 16 || |inKey| == 24 || |inKey| == 32)
      ensures status.Done? ==> Expanded(t, KeyWords(inKey)) == true
      ensures status.InvalidKeySize? ==>
                keyLength == old(keyLength) && keyEnc[..] == old(keyEnc[..]) && keyDec[..] == old(keyDec[..])
    {
      if |inKey| != 16 && |inKey| != 24 && |inKey| != 32 {
        return InvalidKeySize;
      }
      keyLength := |inKey|;
      var key := KeyWords(inKey);
      ExpandEnc(t, key);
      ExpandDec();
      return Done;
    }

    /** aes_encrypt. */
    method Encrypt(t: Boxes, input: seq<bv8>) returns (output: seq<bv8>)
      requires Valid() && (keyLength == 16 || keyLength == 24 || keyLength == 32) && |input| == 16
      ensures output == Store(Encrypted(t, keyEnc[..4 * Full() + 8], Full(), Load(input)))
    {
      var b := EncryptBlock(t, keyEnc[..4 * Full() + 8], Full(), Load(input));
      return Store(b);
    }

    /** aes_decrypt. */
    method Decrypt(t: Boxes, input: seq<bv8>) returns (output: seq<bv8>)
      requires Valid() && (keyLength == 16 || keyLength == 24 || keyLength == 32) && |input| == 16
      ensures output == Store(Decrypted(t, keyDec[..4 * Full() + 8], Full(), Load(input)))
    {
      var b := DecryptBlock(t, keyDec[..4 * Full() + 8], Full(), Load(input));
      return Store(b);
    }

    /** Once a key is expanded, Decrypt gives back what Encrypt was given. */
    lemma DecryptsBack(t: Boxes, key: seq<bv32>, s: seq<bv8>)
      requires Inverse(t) == true && Expanded(t, key) && |s| == 16
      ensures Store(Decrypted(t, keyDec[..4 * Full() + 8], Full(),
                              Load(Store(Encrypted(t, keyEnc[..4 * Full() + 8], Full(), Load(s)))))) == s
    {
      AesRoundTrip(t, key, Full(), s);
    }
  }
}
