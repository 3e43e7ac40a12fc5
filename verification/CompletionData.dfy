/** A request that blk_update_request changes in place, in the loop of the source. */
module CompletionInPlace {
  import opened CompletionModel

  ghost function VecLen(vecs: seq<Vec>): nat {
    if vecs == [] then 0 else vecs[0].len + VecLen(vecs[1..])
  }

  /** Bios without vectors, and bios as large as their vectors. */
  ghost predicate Consistent(bios: seq<Bio>) {
    forall i :: 0 <= i < |bios| ==> bios[i].vecs == [] || bios[i].size == VecLen(bios[i].vecs)
  }

  /** The vectors from `idx` on, the first of them advanced by `n` bytes. */
  function Advanced(vecs: seq<Vec>, idx: nat, n: nat): seq<Vec>
    requires idx < |vecs| && n <= vecs[idx].len
  {
    [Vec(vecs[idx].page, vecs[idx].offset + n, vecs[idx].len - n)] + vecs[idx + 1..]
  }

  /** Where the loop stands: `k` bios done, and in the next one `idx` vectors, with `nr` bytes to go. */
  ghost predicate Walking(bios: seq<Bio>, n: nat, k: nat, idx: nat, part: nat, nr: nat) {
    && k <= |bios| && nr <= n && part + nr <= n && SizeSum(bios[..k]) == n - part - nr
    && Whole(bios, n) >= k
    && (idx == 0 ==> part == 0)
    && (idx > 0 ==>
          && k < |bios| && idx <= |bios[k].vecs| && part + nr < bios[k].size
          && part == VecLen(bios[k].vecs[..idx])
          && (part + nr > 0 ==> VecsAfter(bios[k].vecs, part + nr) == VecsAfter(bios[k].vecs[idx..], nr)))
    && (k < |bios| && (k == 0 || part + nr > 0) && part + nr < bios[k].size ==> Whole(bios, n) == k)
    && (k < |bios| && (k == 0 || part + nr > 0) && part + nr >= bios[k].size ==> Whole(bios, n) > k)
    && (k < |bios| && k > 0 && part + nr == 0 ==> Whole(bios, n) == k)
  }

  lemma {:induction false} SumTo(bios: seq<Bio>, k: nat)
    requires k < |bios|
    ensures SizeSum(bios[..k + 1]) == SizeSum(bios[..k]) + bios[k].size
    decreases |bios|
  {
    if k > 0 {
      SumTo(bios[1..], k - 1);
      assert bios[..k + 1][1..] == bios[1..][..k] && bios[..k][1..] == bios[1..][..k - 1];
    } else {
      assert bios[..1][1..] == [];
    }
  }

  /** When the loop takes bio `k`: it was not stopped before, and the bytes suffice. */
  lemma {:induction false} WholeAt(bios: seq<Bio>, n: nat, k: nat)
    requires k < |bios| && Whole(bios, n) >= k && SizeSum(bios[..k]) <= n
    ensures Whole(bios, n) > k <==> n - SizeSum(bios[..k]) >= bios[k].size && (k == 0 || n > SizeSum(bios[..k]))
    decreases |bios|
  {
    if k > 0 {
      assert bios[..k][1..] == bios[1..][..k - 1];
      if n > bios[0].size {
        WholeAt(bios[1..], n - bios[0].size, k - 1);
      }
    }
  }

  lemma WalkStart(bios: seq<Bio>, n: nat)
    ensures Walking(bios, n, 0, 0, 0, n)
  {
    if bios != [] {
      WholeAt(bios, n, 0);
    }
  }

  lemma WalkBio(bios: seq<Bio>, n: nat, k: nat, nr: nat)
    requires k < |bios| && Walking(bios, n, k, 0, 0, nr) && nr >= bios[k].size && (k == 0 || nr > 0)
    ensures Walking(bios, n, k + 1, 0, 0, nr - bios[k].size)
  {
    SumTo(bios, k);
    if k + 1 < |bios| {
      WholeAt(bios, n, k + 1);
    }
  }

  lemma {:induction false} LenTo(vecs: seq<Vec>, i: nat)
    requires i < |vecs|
    ensures VecLen(vecs[..i + 1]) == VecLen(vecs[..i]) + vecs[i].len && VecLen(vecs[..i + 1]) <= VecLen(vecs)
    decreases |vecs|
  {
    assert vecs[..i + 1][1..] == vecs[1..][..i];
    if i > 0 {
      LenTo(vecs[1..], i - 1);
      assert vecs[..i][1..] == vecs[1..][..i - 1];
    }
  }

  lemma WalkVec(bios: seq<Bio>, n: nat, k: nat, idx: nat, part: nat, nr: nat)
    requires k < |bios| && Walking(bios, n, k, idx, part, nr) && part + nr < bios[k].size
    requires idx < |bios[k].vecs| && bios[k].vecs[idx].len <= nr && (k == 0 || part + nr > 0) && (idx > 0 ==> nr > 0)
    ensures Walking(bios, n, k, idx + 1, part + bios[k].vecs[idx].len, nr - bios[k].vecs[idx].len)
  {
    var vecs := bios[k].vecs;
    LenTo(vecs, idx);
    assert vecs[idx..][1..] == vecs[idx + 1..] && (idx == 0 ==> vecs[idx..] == vecs);
  }

  /** The loop has stopped in bio `k`, of which `done` bytes are done, `nr` of them in vector `idx`. */
  ghost predicate Stopped(bios: seq<Bio>, n: nat, k: nat, idx: nat, done: nat, nr: nat) {
    && k < |bios| && k == Whole(bios, n) && SizeSum(bios[..k]) <= n && done <= bios[k].size
    && done == (if bios[k].vecs == [] then 0 else n - SizeSum(bios[..k]))
    && (done > 0 ==> && done < bios[k].size && idx < |bios[k].vecs| && nr <= bios[k].vecs[idx].len
                     && Advanced(bios[k].vecs, idx, nr) == VecsAfter(bios[k].vecs, done))
  }

  predicate CanPass(b: Bio, done: nat, idx: nat, nr: nat) {
    done < b.size && idx < |b.vecs| && nr <= b.vecs[idx].len
  }

  /** A bio of which `done` bytes are done, `nr` of them in vector `idx`. */
  function Passed(b: Bio, error: int, done: nat, idx: nat, nr: nat): Bio
    requires CanPass(b, done, idx, nr)
  {
    Bio(b.id, b.sector + done / SECTOR, b.size - done, Advanced(b.vecs, idx, nr), b.uptodate && error == 0)
  }

  lemma StoppedAfter(bios: seq<Bio>, n: nat, k: nat, idx: nat, done: nat, nr: nat, error: int)
    requires Stopped(bios, n, k, idx, done, nr)
    ensures n - SizeSum(bios[..k]) <= bios[k].size
    ensures BioAfter(bios[k], error, n - SizeSum(bios[..k])) ==
            if done == 0 then bios[k] else Passed(bios[k], error, done, idx, nr)
    ensures SizeSum(bios[..k]) + done == if bios[k].vecs == [] then SizeSum(bios[..k]) else n
  {
    WholeFits(bios, n);
  }

  lemma FullLen(vecs: seq<Vec>, i: nat)
    requires i <= |vecs| && VecLen(vecs[..i]) < VecLen(vecs)
    ensures i < |vecs|
  {
    assert vecs[..|vecs|] == vecs;
  }

  /** A bio with vectors is not left at its end. */
  lemma StopNoVec(bios: seq<Bio>, n: nat, k: nat, idx: nat, part: nat, nr: nat)
    requires Consistent(bios) && k < |bios| && Walking(bios, n, k, idx, part, nr) && (k == 0 || part + nr > 0)
    requires part + nr < bios[k].size && idx >= |bios[k].vecs|
    ensures part == 0 && Stopped(bios, n, k, idx, part, nr)
  {
    if bios[k].vecs != [] {
      FullLen(bios[k].vecs, idx);
    }
  }

  lemma StopInVec(bios: seq<Bio>, n: nat, k: nat, idx: nat, part: nat, nr: nat)
    requires k < |bios| && Walking(bios, n, k, idx, part, nr) && (k == 0 || part + nr > 0)
    requires part + nr < bios[k].size && idx < |bios[k].vecs| && bios[k].vecs[idx].len > nr
    ensures Stopped(bios, n, k, idx, part + nr, nr)
  {
    var vecs := bios[k].vecs;
    assert vecs[idx..][1..] == vecs[idx + 1..] && (idx == 0 ==> vecs[idx..] == vecs);
    if nr == 0 && part > 0 {
      assert Advanced(vecs, idx, 0) == vecs[idx..];
    }
  }

  lemma StopAtZero(bios: seq<Bio>, n: nat, k: nat, idx: nat, part: nat)
    requires Consistent(bios) && k < |bios| && Walking(bios, n, k, idx, part, 0) && (idx == 0 ==> k > 0)
    ensures Stopped(bios, n, k, idx, part, 0)
  {
    if idx > 0 {
      FullLen(bios[k].vecs, idx);
      assert Advanced(bios[k].vecs, idx, 0) == bios[k].vecs[idx..];
    }
  }

  lemma {:induction false} EndsNext(r: Req, bios: seq<Bio>, error: int, k: nat)
    requires k < |bios|
    ensures Ends(r, bios[..k + 1], error) ==
            Ends(r, bios[..k], error) + if r.flushSeq then [] else [Ended(bios[k].id, PassedOn(bios[k], error))]
    decreases |bios|
  {
    assert bios[..k + 1][1..] == bios[1..][..k];
    if k > 0 {
      assert bios[..k][1..] == bios[1..][..k - 1];
      EndsNext(r, bios[1..], error, k - 1);
    }
  }

  class Request {
    var bios: seq<Bio>
    var dataLen: int
    var sector: nat
    var ended: seq<Ended>        // the calls of bio_endio so far
    const fs: bool
    const flushSeq: bool

    ghost function View(): Req
      reads this
    {
      Req(bios, dataLen, sector, fs, flushSeq)
    }

    constructor (bios: seq<Bio>, dataLen: int, sector: nat, fs: bool, flushSeq: bool)
      ensures View() == Req(bios, dataLen, sector, fs, flushSeq) && ended == []
    {
      this.bios, this.dataLen, this.sector, this.fs, this.flushSeq := bios, dataLen, sector, fs, flushSeq;
      ended := [];
    }

    /** req_bio_endio for `nbytes` of a bio; an amount beyond its size is cut. */
    method BioEndio(b: Bio, nbytes: nat, error: int) returns (b': Bio)
      modifies this`ended
      ensures b' == b.(uptodate := b.uptodate && error == 0, size := if nbytes > b.size then 0 else b.size - nbytes,
                       sector := b.sector + (if nbytes > b.size then b.size else nbytes) / SECTOR)
      ensures ended == old(ended) + if b'.size == 0 && !flushSeq then [Ended(b.id, PassedOn(b, error))] else []
    {
      b' := b;
      var err := error;
      if error != 0 {
        b' := b'.(uptodate := false);
      } else if !b.uptodate {
        err := -EIO;
      }
      var done := if nbytes > b.size then b.size else nbytes;
      b' := b'.(size := b.size - done, sector := b.sector + done / SECTOR);
      if b'.size == 0 && !flushSeq {
        ended := ended + [Ended(b.id, err)];
      }
    }

    /** blk_update_request. */
    method UpdateRequest(error: int, nrBytes: nat) returns (more: bool)
      requires Consistent(bios)
      modifies this
      ensures var o := Updated(old(View()), error, nrBytes);
              View() == o.req && ended == old(ended) + o.log && more == o.more
    {
      if bios == [] {
        return false;
      }
      ghost var all := bios;
      var bioNbytes, nextIdx, total, nr := WalkBios(error, nrBytes);
      ghost var k := Whole(all, nrBytes);
      if bios == [] {
        dataLen := 0;
        return false;
      }
      StoppedAfter(all, nrBytes, k, nextIdx, bioNbytes, nr, error);
      Settle(error, bioNbytes, nextIdx, nr, total);
      return true;
    }

    /** The part after the loop, for a request that is not done. */
    method Settle(error: int, bioNbytes: nat, nextIdx: nat, nr: nat, total: nat)
      requires bios != [] && (bioNbytes > 0 ==> CanPass(bios[0], bioNbytes, nextIdx, nr))
      modifies this
      ensures ended == old(ended) && |bios| == |old(bios)| && bios[1..] == old(bios)[1..]
      ensures bios[0] == if bioNbytes == 0 then old(bios)[0] else Passed(old(bios)[0], error, bioNbytes, nextIdx, nr)
      ensures sector == old(sector) + if fs then total / SECTOR else 0
      ensures var len := old(dataLen) - total; dataLen == if len < CurBytes(bios[0]) then CurBytes(bios[0]) else len
    {
      if bioNbytes > 0 {
        var b := BioEndio(bios[0], bioNbytes, error);
        bios := [b.(vecs := Advanced(b.vecs, nextIdx, nr))] + bios[1..];
      }
      dataLen := dataLen - total;
      if fs {
        sector := sector + total / SECTOR;
      }
      if dataLen < CurBytes(bios[0]) {
        dataLen := CurBytes(bios[0]);
      }
    }

    /** A bio that is done is unlinked and ended; it is bio `k` of those the call began with. */
    method EndFirst(error: int, ghost all: seq<Bio>, ghost k: nat, ghost r0: Req, ghost before: seq<Ended>)
      requires k < |all| && bios == all[k..] && r0.flushSeq == flushSeq
      requires ended == before + Ends(r0, all[..k], error)
      modifies this`bios, this`ended
      ensures bios == all[k + 1..] && ended == before + Ends(r0, all[..k + 1], error)
    {
      EndsNext(r0, all, error, k);
      var bio := bios[0];
      bios := bios[1..];
      var _ := BioEndio(bio, bio.size, error);
    }

    /** The loop: whole bios are ended and unlinked, then vectors of the next bio are passed. */
    method WalkBios(error: int, nrBytes: nat) returns (bioNbytes: nat, nextIdx: nat, total: nat, nr: nat)
      requires Consistent(bios) && bios != []
      modifies this`bios, this`ended
      ensures var k := Whole(old(bios), nrBytes);
              && bios == old(bios)[k..] && ended == old(ended) + Ends(old(View()), old(bios)[..k], error)
              && (k < |old(bios)| ==> Stopped(old(bios), nrBytes, k, nextIdx, bioNbytes, nr) == true &&
                                      total == SizeSum(old(bios)[..k]) + bioNbytes)
    {
      ghost var all, k, r0 := bios, 0, View();
      bioNbytes, nextIdx, total, nr := 0, 0, 0, nrBytes;
      WalkStart(all, nrBytes);
      while bios != []
        invariant k <= |all| && bios == all[k..] && ended == old(ended) + Ends(r0, all[..k], error)
        invariant Walking(all, nrBytes, k, nextIdx, bioNbytes, nr) == true && total == nrBytes - nr
        invariant k == |all| || k == 0 || nr > 0
        invariant nextIdx > 0 ==> nr > 0
        decreases |bios|, if bios == [] then 0 else |bios[0].vecs| - nextIdx
      {
        var bio := bios[0];
        var nbytes;
        if nr >= bio.size {
          WalkBio(all, nrBytes, k, nr);
          nbytes := bio.size;
          EndFirst(error, all, k, r0, old(ended));
          k := k + 1;
          nextIdx, bioNbytes := 0, 0;
        } else if nextIdx >= |bio.vecs| {
          StopNoVec(all, nrBytes, k, nextIdx, bioNbytes, nr);
          break;
        } else {
          nbytes := bio.vecs[nextIdx].len;
          if nbytes > nr {
            StopInVec(all, nrBytes, k, nextIdx, bioNbytes, nr);
            bioNbytes, total := bioNbytes + nr, total + nr;
            break;
          }
          WalkVec(all, nrBytes, k, nextIdx, bioNbytes, nr);
          nextIdx, bioNbytes := nextIdx + 1, bioNbytes + nbytes;
        }
        total, nr := total + nbytes, nr - nbytes;
        if bios != [] && nr == 0 {
          StopAtZero(all, nrBytes, k, nextIdx, bioNbytes);
          break;
        }
      }
    }
  }
}
