/** blk_update_request completes exactly the bytes it is told to, however they are split over calls. */
module CompletionExact {
  import opened CompletionModel

  // ---------------------------------------------------------------- bytes

  /** A byte of a page. */
  datatype Byte = Byte(page: nat, offset: nat)

  ghost function VecRun(v: Vec): (r: seq<Byte>)
    ensures |r| == v.len
  {
    seq(v.len, i requires 0 <= i < v.len => Byte(v.page, v.offset + i))
  }

  ghost function VecBytes(vecs: seq<Vec>): seq<Byte> {
    if vecs == [] then [] else VecRun(vecs[0]) + VecBytes(vecs[1..])
  }

  ghost function Bytes(bios: seq<Bio>): seq<Byte> {
    if bios == [] then [] else VecBytes(bios[0].vecs) + Bytes(bios[1..])
  }

  ghost predicate Positive(vecs: seq<Vec>) {
    forall i :: 0 <= i < |vecs| ==> vecs[i].len > 0
  }

  /** A data bio: its size is that of its vectors, none of which is empty. */
  ghost predicate BioOk(b: Bio) {
    b.vecs != [] && Positive(b.vecs) && b.size == |VecBytes(b.vecs)|
  }

  ghost predicate AllOk(bios: seq<Bio>) {
    forall i :: 0 <= i < |bios| ==> BioOk(bios[i])
  }

  ghost predicate ReqOk(r: Req) {
    AllOk(r.bios) && r.dataLen == SizeSum(r.bios)
  }

  lemma Nonempty(b: Bio)
    requires BioOk(b)
    ensures b.size > 0 && b.vecs[0].len <= b.size
  {
  }

  /** All that the walk over the bios needs to know. */
  ghost predicate Sized(bios: seq<Bio>) {
    forall i :: 0 <= i < |bios| ==> bios[i].size > 0
  }

  lemma OkSized(bios: seq<Bio>)
    requires AllOk(bios)
    ensures Sized(bios)
  {
    forall i | 0 <= i < |bios| ensures bios[i].size > 0 {
      Nonempty(bios[i]);
    }
  }

  lemma {:induction false} BytesCount(bios: seq<Bio>)
    requires AllOk(bios)
    ensures |Bytes(bios)| == SizeSum(bios)
  {
    if bios != [] {
      BytesCount(bios[1..]);
    }
  }

  // ---------------------------------------------------------------- vectors

  lemma {:induction false} VecsAfterExact(vecs: seq<Vec>, n: nat)
    requires Positive(vecs) && n <= |VecBytes(vecs)|
    ensures Positive(VecsAfter(vecs, n)) && VecBytes(VecsAfter(vecs, n)) == VecBytes(vecs)[n..]
    ensures n < |VecBytes(vecs)| ==> VecsAfter(vecs, n) != []
  {
    if n > 0 && vecs != [] {
      DropPart(VecRun(vecs[0]), VecBytes(vecs[1..]), n);
      if vecs[0].len > n {
        RunAfter(vecs[0], n);
        assert VecsAfter(vecs, n)[1..] == vecs[1..];
      } else {
        VecsAfterExact(vecs[1..], n - vecs[0].len);
      }
    }
  }

  lemma RunAfter(v: Vec, n: nat)
    requires n <= v.len
    ensures VecRun(Vec(v.page, v.offset + n, v.len - n)) == VecRun(v)[n..]
  {
  }

  lemma {:induction false} VecsAfterTwice(vecs: seq<Vec>, n1: nat, n2: nat)
    requires Positive(vecs)
    ensures VecsAfter(VecsAfter(vecs, n1), n2) == VecsAfter(vecs, n1 + n2)
  {
    if n1 > 0 && vecs != [] {
      if vecs[0].len > n1 {
        assert VecsAfter(vecs, n1)[1..] == vecs[1..];
      } else {
        VecsAfterTwice(vecs[1..], n1 - vecs[0].len, n2);
      }
    }
  }

  lemma BioAfterOk(b: Bio, error: int, n: nat)
    requires BioOk(b) && n < b.size
    ensures BioOk(BioAfter(b, error, n)) && VecBytes(BioAfter(b, error, n).vecs) == VecBytes(b.vecs)[n..]
  {
    VecsAfterExact(b.vecs, n);
  }

  // ---------------------------------------------------------------- bios

  /** The chain left once `n` bytes are done, bio by bio. */
  ghost function After(bios: seq<Bio>, error: int, n: nat): seq<Bio> {
    if bios == [] then []
    else if n < bios[0].size then [BioAfter(bios[0], error, n)] + bios[1..]
    else After(bios[1..], error, n - bios[0].size)
  }

  /** The bios that are done, bio by bio. */
  ghost function Done(bios: seq<Bio>, error: int, n: nat): seq<Ended> {
    if bios == [] || n < bios[0].size then []
    else [Ended(bios[0].id, PassedOn(bios[0], error))] + Done(bios[1..], error, n - bios[0].size)
  }

  /** One bio more for the loop of blk_update_request. */
  lemma WholeNext(bios: seq<Bio>, n: nat)
    requires Sized(bios) && bios != [] && n >= bios[0].size
    ensures var k := Whole(bios[1..], n - bios[0].size);
            Whole(bios, n) == k + 1 && bios[..k + 1][0] == bios[0] && bios[..k + 1][1..] == bios[1..][..k]
  {
  }

  /** The loop of blk_update_request agrees with the walk bio by bio, on the bios it ends... */
  lemma {:induction false} WholeDone(r: Req, bios: seq<Bio>, error: int, n: nat)
    requires Sized(bios)
    ensures (if r.flushSeq then [] else Done(bios, error, n)) == Ends(r, bios[..Whole(bios, n)], error)
  {
    if bios != [] && n >= bios[0].size {
      WholeNext(bios, n);
      WholeDone(r, bios[1..], error, n - bios[0].size);
    }
  }

  /** ...on how far it comes... */
  lemma {:induction false} WholeSpent(bios: seq<Bio>, n: nat)
    requires Sized(bios)
    ensures var k := Whole(bios, n);
            && (k == |bios| <==> n >= SizeSum(bios)) && SizeSum(bios[..k]) <= n
            && (k < |bios| ==> n - SizeSum(bios[..k]) < bios[k].size)
  {
    if bios != [] && n >= bios[0].size {
      WholeNext(bios, n);
      WholeSpent(bios[1..], n - bios[0].size);
    }
  }

  /** ...and on the bios it leaves. */
  lemma {:induction false} WholeAfter(bios: seq<Bio>, error: int, n: nat)
    requires Sized(bios) && Whole(bios, n) < |bios|
    ensures StopsIn(bios, error, n, Whole(bios, n))
  {
    if n >= bios[0].size {
      var rest, m := bios[1..], n - bios[0].size;
      WholeNext(bios, n);
      WholeAfter(rest, error, m);
      StopsLater(bios, error, n, Whole(rest, m));
    }
  }

  /** The walk by bio stops within bio `k`. */
  ghost predicate StopsIn(bios: seq<Bio>, error: int, n: nat, k: nat) {
    && k < |bios|
    && SizeSum(bios[..k]) <= n < SizeSum(bios[..k]) + bios[k].size
    && After(bios, error, n) == [BioAfter(bios[k], error, n - SizeSum(bios[..k]))] + bios[k + 1..]
  }

  lemma StopsLater(bios: seq<Bio>, error: int, n: nat, k: nat)
    requires bios != [] && n >= bios[0].size && StopsIn(bios[1..], error, n - bios[0].size, k)
    ensures StopsIn(bios, error, n, k + 1)
  {
    var rest := bios[1..];
    assert bios[..k + 1][1..] == rest[..k];
    assert SizeSum(bios[..k + 1]) == bios[0].size + SizeSum(rest[..k]);
    assert rest[k] == bios[k + 1] && rest[k + 1..] == bios[k + 2..];
  }

  lemma DropPart(a: seq<Byte>, rest: seq<Byte>, n: nat)
    ensures n <= |a| ==> a[n..] + rest == (a + rest)[n..]
    ensures |a| <= n <= |a| + |rest| ==> rest[n - |a|..] == (a + rest)[n..]
  {
  }

  lemma AfterFirst(bios: seq<Bio>, error: int, n: nat)
    requires AllOk(bios) && bios != [] && n < bios[0].size
    ensures AllOk(After(bios, error, n))
    ensures Bytes(After(bios, error, n)) == VecBytes(bios[0].vecs)[n..] + Bytes(bios[1..])
    ensures SizeSum(After(bios, error, n)) == SizeSum(bios) - n
  {
    BioAfterOk(bios[0], error, n);
    assert After(bios, error, n)[1..] == bios[1..];
  }

  lemma {:induction false} AfterBytes(bios: seq<Bio>, error: int, n: nat)
    requires AllOk(bios) && n <= SizeSum(bios)
    ensures AllOk(After(bios, error, n)) && |Bytes(bios)| == SizeSum(bios)
    ensures Bytes(After(bios, error, n)) == Bytes(bios)[n..]
    ensures SizeSum(After(bios, error, n)) == SizeSum(bios) - n
  {
    BytesCount(bios);
    if bios != [] {
      DropPart(VecBytes(bios[0].vecs), Bytes(bios[1..]), n);
      if n < bios[0].size {
        AfterFirst(bios, error, n);
      } else {
        AfterBytes(bios[1..], error, n - bios[0].size);
      }
    }
  }

  lemma {:induction false} AfterAll(bios: seq<Bio>, error: int, n: nat)
    ensures n >= SizeSum(bios) ==> After(bios, error, n) == []
  {
    if bios != [] && n >= bios[0].size {
      AfterAll(bios[1..], error, n - bios[0].size);
    }
  }

  // ---------------------------------------------------------------- one call

  function Min(a: int, b: int): int {
    if a < b then a else b
  }

  /** What one call does to a data request: no repair of a botched length, and every number exact. */
  ghost function Exact(r: Req, error: int, n: nat): Outcome {
    var more := n < r.dataLen;
    Outcome(Req(After(r.bios, error, n), r.dataLen - Min(n, r.dataLen),
                if r.fs && more then r.sector + n / SECTOR else r.sector, r.fs, r.flushSeq),
            if r.flushSeq then [] else Done(r.bios, error, n), more)
  }

  lemma UpdatedCore(r: Req, error: int, n: nat)
    requires Sized(r.bios) && r.dataLen == SizeSum(r.bios)
    requires n < SizeSum(r.bios) ==>
               After(r.bios, error, n) != [] && CurBytes(After(r.bios, error, n)[0]) <= SizeSum(r.bios) - n
    requires n < SizeSum(r.bios) ==> forall i :: 0 <= i < |r.bios| ==> r.bios[i].vecs != []
    ensures Updated(r, error, n) == Exact(r, error, n)
  {
    WholeDone(r, r.bios, error, n);
    WholeSpent(r.bios, n);
    if n < SizeSum(r.bios) {
      WholeAfter(r.bios, error, n);
    } else {
      AfterAll(r.bios, error, n);
    }
  }

  lemma FirstFits(bios: seq<Bio>)
    requires AllOk(bios) && SizeSum(bios) > 0
    ensures bios != [] && CurBytes(bios[0]) <= SizeSum(bios)
  {
    Nonempty(bios[0]);
  }

  lemma UpdatedIs(r: Req, error: int, n: nat)
    requires ReqOk(r)
    ensures Updated(r, error, n) == Exact(r, error, n)
  {
    OkSized(r.bios);
    if n < SizeSum(r.bios) {
      AfterBytes(r.bios, error, n);
      FirstFits(After(r.bios, error, n));
    }
    UpdatedCore(r, error, n);
  }

  lemma ExactCompletes(r: Req, error: int, n: nat, o: Outcome)
    requires ReqOk(r) && o == Exact(r, error, n)
    ensures ReqOk(o.req) && |Bytes(r.bios)| == r.dataLen
    ensures Bytes(o.req.bios) == Bytes(r.bios)[Min(n, r.dataLen)..]
    ensures o.more <==> o.req.bios != []
  {
    BytesCount(r.bios);
    if n < r.dataLen {
      AfterBytes(r.bios, error, n);
    } else {
      AfterAll(r.bios, error, n);
    }
  }

  /**
   Partial completion is exact: what is left are the bytes after the first `n`, the request stays well formed, and
   the call reports more work exactly while a byte is left.
   */
  lemma CompletesExactly(r: Req, error: int, n: nat, o: Outcome)
    requires ReqOk(r) && o == Updated(r, error, n)
    ensures ReqOk(o.req) && |Bytes(r.bios)| == r.dataLen
    ensures Bytes(o.req.bios) == Bytes(r.bios)[Min(n, r.dataLen)..]
    ensures o.req.dataLen == r.dataLen - Min(n, r.dataLen)
    ensures (o.more <==> o.req.bios != []) && (o.more <==> n < r.dataLen)
  {
    UpdatedIs(r, error, n);
    ExactCompletes(r, error, n, o);
  }

  /**
   The length of any unfinished request, well formed or not, is never below what is left of the vector in hand, or of a
   bio without vectors; it is what is left of the length before, unless that is less.
   */
  lemma LengthIsRepaired(r: Req, error: int, n: nat, o: Outcome)
    requires o == Updated(r, error, n) && o.more
    ensures o.req.bios != []
    ensures var b := o.req.bios[0]; var left := if b.vecs == [] then b.size else b.vecs[0].len;
            && o.req.dataLen >= left
            && (o.req.dataLen > left ==> o.req.dataLen == r.dataLen - n || r.bios[Whole(r.bios, n)].vecs == [])
  {
    WholeFits(r.bios, n);
  }

  /** The bios that are ended are those all of whose bytes are among the first `n`, once each and in order. */
  lemma {:induction false} EndsTheCovered(bios: seq<Bio>, error: int, n: nat, i: nat)
    requires i < |bios|
    ensures |Done(bios, error, n)| <= |bios|
    ensures i < |Done(bios, error, n)| <==> SizeSum(bios[..i + 1]) <= n
    ensures i < |Done(bios, error, n)| ==> Done(bios, error, n)[i] == Ended(bios[i].id, PassedOn(bios[i], error))
    decreases |bios|
  {
    var rest := bios[1..];
    assert bios[..i + 1][1..] == rest[..i];
    DoneCount(bios, error, n);
    if i > 0 && n >= bios[0].size {
      EndsTheCovered(rest, error, n - bios[0].size, i - 1);
    }
  }

  lemma {:induction false} DoneCount(bios: seq<Bio>, error: int, n: nat)
    ensures |Done(bios, error, n)| <= |bios|
  {
    if bios != [] && n >= bios[0].size {
      DoneCount(bios[1..], error, n - bios[0].size);
    }
  }

  // ---------------------------------------------------------------- two calls

  ghost predicate SectorSized(bios: seq<Bio>) {
    forall i :: 0 <= i < |bios| ==> bios[i].size % SECTOR == 0
  }

  /** No sector is lost between the two parts of a completion. */
  predicate Splits(n1: nat, n2: nat) {
    n1 % SECTOR + n2 % SECTOR < SECTOR
  }

  lemma SplitsIff(n1: nat, n2: nat)
    ensures n1 / SECTOR + n2 / SECTOR == (n1 + n2) / SECTOR <==> Splits(n1, n2)
  {
  }

  /** The bio in which the first part stops is completed by the second, or it loses no sector either. */
  ghost predicate BioSplits(bios: seq<Bio>, n1: nat, n2: nat) {
    if bios == [] then true
    else if n1 >= bios[0].size then BioSplits(bios[1..], n1 - bios[0].size, n2)
    else n1 + n2 >= bios[0].size || Splits(n1, n2)
  }

  /** With whole sectors in every bio, what splits the request splits its bios. */
  lemma {:induction false} SectorsSplit(bios: seq<Bio>, n1: nat, n2: nat)
    requires SectorSized(bios) && Splits(n1, n2)
    ensures BioSplits(bios, n1, n2)
  {
    if bios != [] && n1 >= bios[0].size {
      SectorsSplit(bios[1..], n1 - bios[0].size, n2);
    }
  }

  lemma BioAfterTwice(b: Bio, error: int, n1: nat, n2: nat)
    requires BioOk(b) && n1 < b.size && n2 < b.size - n1
    ensures BioAfter(b, error, n1).size == b.size - n1
    ensures BioAfter(BioAfter(b, error, n1), error, n2) == BioAfter(b, error, n1 + n2) <==> Splits(n1, n2)
  {
    BioAfterOk(b, error, n1);
    VecsAfterTwice(b.vecs, n1, n2);
    SplitsIff(n1, n2);
  }

  lemma {:induction false} AfterTwice(bios: seq<Bio>, error: int, n1: nat, n2: nat)
    requires AllOk(bios)
    ensures After(After(bios, error, n1), error, n2) == After(bios, error, n1 + n2) <==> BioSplits(bios, n1, n2)
  {
    if bios != [] {
      var b, rest := bios[0], bios[1..];
      if n1 >= b.size {
        AfterTwice(rest, error, n1 - b.size, n2);
      } else {
        var b' := BioAfter(b, error, n1);
        assert After(bios, error, n1) == [b'] + rest && ([b'] + rest)[1..] == rest;
        assert b'.size == b.size - n1;
        if n2 < b'.size {
          BioAfterTwice(b, error, n1, n2);
          SameHead(BioAfter(b', error, n2), BioAfter(b, error, n1 + n2), rest);
        }
      }
    }
  }

  lemma SameHead(a: Bio, b: Bio, rest: seq<Bio>)
    ensures [a] + rest == [b] + rest <==> a == b
  {
    assert ([a] + rest)[0] == a && ([b] + rest)[0] == b;
  }

  lemma {:induction false} DoneTwice(bios: seq<Bio>, error: int, n1: nat, n2: nat)
    requires AllOk(bios)
    ensures Done(bios, error, n1) + Done(After(bios, error, n1), error, n2) == Done(bios, error, n1 + n2)
  {
    if bios != [] {
      var b, rest := bios[0], bios[1..];
      if n1 >= b.size {
        DoneTwice(rest, error, n1 - b.size, n2);
      } else {
        var b' := BioAfter(b, error, n1);
        assert After(bios, error, n1) == [b'] + rest && ([b'] + rest)[1..] == rest;
        assert b'.size == b.size - n1 && b'.id == b.id && PassedOn(b', error) == PassedOn(b, error);
      }
    }
  }

  lemma SplitLog(r: Req, error: int, n1: nat, n2: nat, o1: Outcome, o2: Outcome, o: Outcome)
    requires ReqOk(r)
    requires o1 == Exact(r, error, n1) && o2 == Exact(o1.req, error, n2) && o == Exact(r, error, n1 + n2)
    ensures o2.more == o.more && o1.log + o2.log == o.log && o2.req.dataLen == o.req.dataLen
  {
    DoneTwice(r.bios, error, n1, n2);
  }

  lemma SplitBytes(r: Req, error: int, n1: nat, n2: nat, o1: Outcome, o2: Outcome, o: Outcome)
    requires ReqOk(r)
    requires o1 == Exact(r, error, n1) && o2 == Exact(o1.req, error, n2) && o == Exact(r, error, n1 + n2)
    ensures Bytes(o2.req.bios) == Bytes(o.req.bios)
  {
    ExactCompletes(r, error, n1, o1);
    ExactCompletes(o1.req, error, n2, o2);
    ExactCompletes(r, error, n1 + n2, o);
  }

  lemma SplitState(r: Req, error: int, n1: nat, n2: nat, o1: Outcome, o2: Outcome, o: Outcome)
    requires ReqOk(r) && n1 + n2 < r.dataLen
    requires o1 == Exact(r, error, n1) && o2 == Exact(o1.req, error, n2) && o == Exact(r, error, n1 + n2)
    ensures o2.req == o.req <==> (r.fs ==> Splits(n1, n2)) && BioSplits(r.bios, n1, n2)
    ensures SectorSized(r.bios) && Splits(n1, n2) ==> BioSplits(r.bios, n1, n2)
  {
    SplitsIff(n1, n2);
    AfterTwice(r.bios, error, n1, n2);
    if SectorSized(r.bios) && Splits(n1, n2) {
      SectorsSplit(r.bios, n1, n2);
    }
  }

  lemma UpdatedTwice(r: Req, error: int, n1: nat, n2: nat, o1: Outcome, o2: Outcome)
    requires ReqOk(r) && o1 == Updated(r, error, n1) && o2 == Updated(o1.req, error, n2)
    ensures o1 == Exact(r, error, n1) && o2 == Exact(o1.req, error, n2)
  {
    CompletesExactly(r, error, n1, o1);
    UpdatedIs(r, error, n1);
    UpdatedIs(o1.req, error, n2);
  }

  /**
   Completing `n1` bytes and then `n2` is completing `n1 + n2`, for every request: the same bios end with the same
   errors, the same bytes are left and the call returns the same. The unfinished request is the same in all its fields
   exactly when neither the position of a file system request nor that of the bio in which both parts stop loses a
   sector to rounding; with whole sectors in every bio, whenever the two parts lose none, and only then for a file
   system request.
   */
  lemma SplitCompletion(r: Req, error: int, n1: nat, n2: nat, o1: Outcome, o2: Outcome, o: Outcome)
    requires ReqOk(r)
    requires o1 == Updated(r, error, n1) && o2 == Updated(o1.req, error, n2) && o == Updated(r, error, n1 + n2)
    ensures o2.more == o.more && o1.log + o2.log == o.log
    ensures Bytes(o2.req.bios) == Bytes(o.req.bios) && o2.req.dataLen == o.req.dataLen
    ensures o.more ==> (o2.req == o.req <==> (r.fs ==> Splits(n1, n2)) && BioSplits(r.bios, n1, n2))
    ensures o.more && SectorSized(r.bios) && Splits(n1, n2) ==> o2.req == o.req
    ensures o.more && SectorSized(r.bios) && r.fs ==> (o2.req == o.req <==> Splits(n1, n2))
  {
    UpdatedTwice(r, error, n1, n2, o1, o2);
    UpdatedIs(r, error, n1 + n2);
    SplitLog(r, error, n1, n2, o1, o2, o);
    SplitBytes(r, error, n1, n2, o1, o2, o);
    if o.more {
      SplitState(r, error, n1, n2, o1, o2, o);
    }
  }

  /** Half a sector twice: the bytes are done, and the position stays behind by the sector they make up. */
  lemma HalfSectors(r: Req, o1: Outcome, o2: Outcome, o: Outcome)
    requires r == Req([Bio(1, 100, 1024, [Vec(7, 0, 1024)], true)], 1024, 100, true, false)
    requires o1 == Updated(r, 0, 256) && o2 == Updated(o1.req, 0, 256) && o == Updated(r, 0, 512)
    ensures ReqOk(r) && SectorSized(r.bios) && !Splits(256, 256)
    ensures o.req.sector == 101 && o2.req.sector == 100 && Bytes(o2.req.bios) == Bytes(o.req.bios)
  {
    OneBioOk(r);
    SplitCompletion(r, 0, 256, 256, o1, o2, o);
    UpdatedTwice(r, 0, 256, 256, o1, o2);
    UpdatedIs(r, 0, 512);
    TwoHalves(r, o1, o2, o);
  }

  lemma OneBioOk(r: Req)
    requires r == Req([Bio(1, 100, 1024, [Vec(7, 0, 1024)], true)], 1024, 100, true, false)
    ensures ReqOk(r) && SectorSized(r.bios)
  {
    assert |VecBytes(r.bios[0].vecs)| == 1024 by {
      assert VecBytes(r.bios[0].vecs[1..]) == [];
    }
    assert SizeSum(r.bios) == 1024 by {
      assert SizeSum(r.bios[1..]) == 0;
    }
  }

  lemma TwoHalves(r: Req, o1: Outcome, o2: Outcome, o: Outcome)
    requires r.fs && r.dataLen == 1024 && r.sector == 100
    requires o1 == Exact(r, 0, 256) && o2 == Exact(o1.req, 0, 256) && o == Exact(r, 0, 512)
    ensures o.req.sector == 101 && o2.req.sector == 100
  {
  }
}
