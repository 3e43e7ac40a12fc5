/** The loops of block/blk-merge.c over bio vectors, and a request whose chain and count its methods update. */
module SegmentInPlace {
  import opened SegmentModel
  import opened SegmentBound
  import opened SegmentMap
  import opened SegmentHistory

  /** The vectors up to vector `j` of bio `i`. */
  function Upto(bios: seq<Bio>, i: nat, j: nat): seq<Bvec>
    requires i < |bios| && j <= |bios[i].vecs|
  {
    Vecs(bios[..i]) + bios[i].vecs[..j]
  }

  lemma UptoNext(bios: seq<Bio>, i: nat, j: nat)
    requires i < |bios| && j < |bios[i].vecs|
    ensures Upto(bios, i, j + 1) == Upto(bios, i, j) + [bios[i].vecs[j]]
    ensures Init(Upto(bios, i, j + 1)) == Upto(bios, i, j) && Last(Upto(bios, i, j + 1)) == bios[i].vecs[j]
  {
  }

  lemma UptoEnd(bios: seq<Bio>, i: nat)
    requires i < |bios|
    ensures Upto(bios, i, |bios[i].vecs|) == Vecs(bios[..i + 1])
  {
    assert Init(bios[..i + 1]) == bios[..i] && bios[i].vecs[..|bios[i].vecs|] == bios[i].vecs;
  }

  lemma UptoStart(bios: seq<Bio>, i: nat)
    requires i < |bios|
    ensures Upto(bios, i, 0) == Vecs(bios[..i])
  {
  }

  /** State of the counting loop after the vectors `done`. */
  ghost predicate Counting(q: Limits, done: seq<Bvec>, nr: nat, size: nat, front: nat, front0: nat, highprv: bool) {
    var cut := Cuts(q, done);
    && nr == GroupCount(cut) && size == LastSize(done, cut)
    && front == (if nr <= 1 then front0 else Max(front0, FirstSize(done, cut)))
    && highprv == (done == [] || High(q, Last(done)))
  }

  lemma CountingJoins(q: Limits, done: seq<Bvec>, b: Bvec, nr: nat, size: nat, front: nat, front0: nat)
    requires Counting(q, done, nr, size, front, front0, false) && !High(q, b)
    requires done != [] && Extends(q, size, Last(done), b)
    ensures Counting(q, done + [b], nr, size + b.len, front, front0, false)
  {
    assert Init(done + [b]) == done;
    assert Init(Cuts(q, done + [b])) == Cuts(q, done);
  }

  lemma CountingStarts(q: Limits, done: seq<Bvec>, b: Bvec, nr: nat, size: nat, front: nat, front0: nat, highprv: bool)
    requires Counting(q, done, nr, size, front, front0, highprv)
    requires High(q, b) || highprv || !Extends(q, size, Last(done), b)
    ensures Counting(q, done + [b], nr + 1, b.len, if nr == 1 then Max(front, size) else front, front0, High(q, b))
  {
    assert Init(done + [b]) == done;
    assert Init(Cuts(q, done + [b])) == Cuts(q, done);
    CutsGroup(q, done);
    FirstFits(q, done, Cuts(q, done));
    if done != [] {
      StartsCut(q, done, Cuts(q, done));
    }
  }

  lemma CountingDone(q: Limits, bvs: seq<Bvec>, nr: nat, size: nat, front: nat, front0: nat, highprv: bool)
    requires Counting(q, bvs, nr, size, front, front0, highprv)
    ensures nr == GroupCount(Cuts(q, bvs)) && size == LastSize(bvs, Cuts(q, bvs))
    ensures Max(front0, FirstSize(bvs, Cuts(q, bvs))) == if nr == 1 && size > front then size else front
  {
    CutsGroup(q, bvs);
    FirstFits(q, bvs, Cuts(q, bvs));
    if bvs != [] {
      StartsCut(q, bvs, Cuts(q, bvs));
    }
  }

  /** The body of the inner loop of __blk_recalc_rq_segments. */
  method CountVec(q: Limits, ghost done: seq<Bvec>, bvprv: Bvec, bv: Bvec, nr0: nat, size0: nat, f0: nat,
                  ghost front0: nat, highprv0: bool)
    returns (nr: nat, size: nat, front: nat, highprv: bool)
    requires Counting(q, done, nr0, size0, f0, front0, highprv0) == true && (done != [] ==> bvprv == Last(done))
    ensures Counting(q, done + [bv], nr, size, front, front0, highprv) == true
  {
    var high := High(q, bv);
    if !high && !highprv0 && Extends(q, size0, bvprv, bv) {
      CountingJoins(q, done, bv, nr0, size0, f0, front0);
      return nr0, size0 + bv.len, f0, highprv0;
    }
    CountingStarts(q, done, bv, nr0, size0, f0, front0, highprv0);
    front := f0;
    if nr0 == 1 && size0 > front {
      front := size0;
    }
    return nr0 + 1, bv.len, front, high;
  }

  /** The inner loop of __blk_recalc_rq_segments, over the vectors of bio `i`. */
  method CountVecs(q: Limits, bios: seq<Bio>, i: nat, nr0: nat, size0: nat, f0: nat, highprv0: bool, bvprv0: Bvec)
    returns (nr: nat, size: nat, front: nat, highprv: bool, bvprv: Bvec)
    requires i < |bios| && Counting(q, Vecs(bios[..i]), nr0, size0, f0, bios[0].front, highprv0) == true
    requires Vecs(bios[..i]) != [] ==> bvprv0 == Last(Vecs(bios[..i]))
    ensures Counting(q, Vecs(bios[..i + 1]), nr, size, front, bios[0].front, highprv) == true
    ensures Vecs(bios[..i + 1]) != [] ==> bvprv == Last(Vecs(bios[..i + 1]))
  {
    nr, size, front, highprv, bvprv := nr0, size0, f0, highprv0, bvprv0;
    var j := 0;
    UptoStart(bios, i);
    ghost var done := Upto(bios, i, 0);
    while j < |bios[i].vecs|
      invariant j <= |bios[i].vecs| && done == Upto(bios, i, j)
      invariant Counting(q, done, nr, size, front, bios[0].front, highprv) == true
      invariant done != [] ==> bvprv == Last(done)
    {
      UptoNext(bios, i, j);
      nr, size, front, highprv := CountVec(q, done, bvprv, bios[i].vecs[j], nr, size, front, bios[0].front, highprv);
      bvprv := bios[i].vecs[j];
      j := j + 1;
      done := Upto(bios, i, j);
    }
    UptoEnd(bios, i);
  }

  /** __blk_recalc_rq_segments. */
  method RecalcSegments(q: Limits, bios: seq<Bio>) returns (nr: nat, bios': seq<Bio>)
    ensures bios == [] ==> nr == 0 && bios' == []
    ensures bios != [] ==> nr == GroupCount(Cuts(q, Vecs(bios))) && bios' == Sized(q, bios)
  {
    if bios == [] {
      return 0, [];
    }
    var size: nat, front: nat, highprv, bvprv;
    nr, size, front, highprv, bvprv := 0, 0, bios[0].front, true, Bvec(0, 0, 0);
    var i := 0;
    while i < |bios|
      invariant i <= |bios| && Counting(q, Vecs(bios[..i]), nr, size, front, bios[0].front, highprv) == true
      invariant Vecs(bios[..i]) != [] ==> bvprv == Last(Vecs(bios[..i]))
    {
      nr, size, front, highprv, bvprv := CountVecs(q, bios, i, nr, size, front, highprv, bvprv);
      i := i + 1;
    }
    assert bios[..i] == bios;
    CountingDone(q, Vecs(bios), nr, size, front, bios[0].front, highprv);
    if nr == 1 && size > front {
      front := size;
    }
    bios' := SetFront(bios, front);
    bios' := SetBack(bios', Max(Last(bios').back, size));
  }

  /** __blk_segment_map_sg: the vector goes on with the last entry, or starts the next one. */
  method MapVec(q: Limits, ghost done: seq<Bvec>, bvprv: Bvec, bvec: Bvec, sglist: array<Sg>, nsegs0: nat)
    returns (nsegs: nat)
    requires nsegs0 <= sglist.Length && sglist[..nsegs0] == Mapped(q, done) && (done != [] ==> bvprv == Last(done))
    requires |Mapped(q, done + [bvec])| <= sglist.Length
    modifies sglist
    ensures nsegs <= sglist.Length && sglist[..nsegs] == Mapped(q, done + [bvec])
  {
    MappedNext(q, done, bvec);
    if nsegs0 > 0 && q.cluster && sglist[nsegs0 - 1].length + bvec.len <= q.maxSegmentSize && Joinable(q, bvprv, bvec) {
      var sg := sglist[nsegs0 - 1];
      sglist[nsegs0 - 1] := sg.(length := sg.length + bvec.len);
      nsegs := nsegs0;
    } else {
      sglist[nsegs0] := Sg(bvec.Phys(), bvec.len);
      nsegs := nsegs0 + 1;
    }
  }

  lemma MappedNext(q: Limits, done: seq<Bvec>, b: Bvec)
    ensures Mapped(q, done + [b]) ==
            if done == [] then [Sg(b.Phys(), b.len)] else MapOne(q, Mapped(q, done), Last(done), b)
  {
    assert Init(done + [b]) == done;
  }

  lemma UptoPrefix(bios: seq<Bio>, i: nat, j: nat)
    requires i < |bios| && j <= |bios[i].vecs|
    ensures |Upto(bios, i, j)| <= |Vecs(bios)| && Vecs(bios)[..|Upto(bios, i, j)|] == Upto(bios, i, j)
  {
    VecsPlus(bios[..i + 1], bios[i + 1..]);
    assert bios == bios[..i + 1] + bios[i + 1..];
    UptoEnd(bios, i);
    assert bios[i].vecs == bios[i].vecs[..j] + bios[i].vecs[j..];
  }

  /** Adding a vector to the entries never needs more room than the whole request does. */
  lemma RoomForNext(q: Limits, bios: seq<Bio>, i: nat, j: nat)
    requires i < |bios| && j < |bios[i].vecs|
    ensures |Mapped(q, Upto(bios, i, j + 1))| <= |Mapped(q, Vecs(bios))|
  {
    UptoPrefix(bios, i, j + 1);
    MapGrows(q, Vecs(bios), |Upto(bios, i, j + 1)|);
  }

  /**
   blk_rq_map_sg before padding and drain. A table with room for nr_phys_segments entries is enough for a request
   whose count is covered by a grouping, so no write goes beyond it.
   */
  method MapSg(q: Limits, r: Req, sglist: array<Sg>, ghost cut: seq<bool>) returns (nsegs: nat)
    requires ReqOk(q, r, cut) && sglist.Length >= r.nr
    modifies sglist
    ensures nsegs <= r.nr && sglist[..nsegs] == Mapped(q, Vecs(r.bios))
  {
    GreedyIsMinimal(q, Vecs(r.bios), cut);
    nsegs := MapVecs(q, r.bios, sglist);
  }

  /** The outer loop of blk_rq_map_sg. */
  method MapVecs(q: Limits, bios: seq<Bio>, sglist: array<Sg>) returns (nsegs: nat)
    requires |Mapped(q, Vecs(bios))| <= sglist.Length
    modifies sglist
    ensures nsegs <= sglist.Length && sglist[..nsegs] == Mapped(q, Vecs(bios))
  {
    nsegs := 0;
    var i, bvprv := 0, Bvec(0, 0, 0);
    while i < |bios|
      invariant i <= |bios| && nsegs <= sglist.Length && sglist[..nsegs] == Mapped(q, Vecs(bios[..i]))
      invariant Vecs(bios[..i]) != [] ==> bvprv == Last(Vecs(bios[..i]))
    {
      nsegs, bvprv := MapBio(q, bios, i, sglist, nsegs, bvprv);
      i := i + 1;
    }
    assert bios[..i] == bios;
  }

  /** The inner loop, over the vectors of bio `i`. */
  method MapBio(q: Limits, bios: seq<Bio>, i: nat, sglist: array<Sg>, nsegs0: nat, bvprv0: Bvec)
    returns (nsegs: nat, bvprv: Bvec)
    requires i < |bios| && |Mapped(q, Vecs(bios))| <= sglist.Length
    requires nsegs0 <= sglist.Length && sglist[..nsegs0] == Mapped(q, Vecs(bios[..i]))
    requires Vecs(bios[..i]) != [] ==> bvprv0 == Last(Vecs(bios[..i]))
    modifies sglist
    ensures nsegs <= sglist.Length && sglist[..nsegs] == Mapped(q, Vecs(bios[..i + 1]))
    ensures Vecs(bios[..i + 1]) != [] ==> bvprv == Last(Vecs(bios[..i + 1]))
  {
    nsegs, bvprv := nsegs0, bvprv0;
    var j := 0;
    UptoStart(bios, i);
    ghost var done := Upto(bios, i, 0);
    while j < |bios[i].vecs|
      invariant j <= |bios[i].vecs| && done == Upto(bios, i, j)
      invariant nsegs <= sglist.Length && sglist[..nsegs] == Mapped(q, done)
      invariant done != [] ==> bvprv == Last(done)
    {
      RoomForNext(q, bios, i, j);
      UptoNext(bios, i, j);
      nsegs := MapVec(q, done, bvprv, bios[i].vecs[j], sglist, nsegs);
      bvprv := bios[i].vecs[j];
      j := j + 1;
      done := Upto(bios, i, j);
    }
    UptoEnd(bios, i);
  }

  lemma PreparedIs(q: Limits, b: Bio, c: Req)
    requires c == CountedAt(q, Req([b], 0), 0)
    ensures Prepared(q, b) == if b.vecs == [] then Req([b], 0) else c.(nr := c.bios[0].segs % U16)
  {
    assert [b][0 := Counted(q, b)] == [Counted(q, b)];
  }

  /** struct request as far as segments go. */
  class Request {
    var bios: seq<Bio>
    var nrPhysSegments: nat

    ghost function View(): Req
      reads this
    {
      Req(bios, nrPhysSegments)
    }

    /** blk_rq_bio_prep. */
    constructor (q: Limits, b: Bio)
      ensures View() == Prepared(q, b)
    {
      bios, nrPhysSegments := [b], 0;
      new;
      Prepare(q, b);
    }

    method Prepare(q: Limits, b: Bio)
      requires bios == [b] && nrPhysSegments == 0
      modifies this
      ensures View() == Prepared(q, b)
    {
      PreparedIs(q, b, CountedAt(q, View(), 0));
      if b.vecs != [] {
        CountBio(q, 0);
        nrPhysSegments := bios[0].segs % U16;
      }
    }

    /** blk_recalc_rq_segments. */
    method Recalc(q: Limits)
      requires bios != []
      modifies this
      ensures View() == Recalculated(q, old(View()))
    {
      var nr, bios' := RecalcSegments(q, bios);
      bios, nrPhysSegments := bios', nr % U16;
    }

    /** bio_phys_segments on the bio `i` of the chain. */
    method CountBio(q: Limits, i: nat)
      requires i < |bios|
      modifies this`bios
      ensures View() == CountedAt(q, old(View()), i)
    {
      if !bios[i].segValid {
        bios := bios[i := Recounted(q, bios[i])];
      }
    }

    /** ll_back_merge_fn, with the link that bio_attempt_back_merge makes. */
    method BackMerge(q: Limits, bio: Bio, early: bool, late: bool) returns (ok: bool)
      requires bios != [] && q.maxSegments < U16
      modifies this
      ensures View() == BackMerged(q, old(View()), bio, early, late) && |bios| == old(|bios|) + if ok then 1 else 0
    {
      if early {
        return false;
      }
      CountBio(q, |bios| - 1);
      var b := Counted(q, bio);
      if nrPhysSegments + b.segs > q.maxSegments || late {
        return false;
      }
      bios, nrPhysSegments := bios + [b], nrPhysSegments + b.segs;
      return true;
    }

    /** ll_front_merge_fn, with the link that bio_attempt_front_merge makes. */
    method FrontMerge(q: Limits, bio: Bio, early: bool, late: bool) returns (ok: bool)
      requires bios != [] && q.maxSegments < U16
      modifies this
      ensures View() == FrontMerged(q, old(View()), bio, early, late) && |bios| == old(|bios|) + if ok then 1 else 0
    {
      if early {
        return false;
      }
      CountBio(q, 0);
      var b := Counted(q, bio);
      if nrPhysSegments + b.segs > q.maxSegments || late {
        return false;
      }
      bios, nrPhysSegments := [b] + bios, b.segs + nrPhysSegments;
      return true;
    }

    /** ll_merge_requests_fn, with the link that attempt_merge makes. */
    method MergeRequests(q: Limits, next: Request, early: bool, late: bool) returns (ok: bool)
      requires next != this && bios != [] && next.bios != [] && (Last(bios).vecs == [] <==> next.bios[0].vecs == [])
      modifies this, next
      ensures Merge(View(), next.View(), ok) == MergedRequests(q, old(View()), old(next.View()), early, late)
    {
      if early {
        return false;
      }
      var size := Last(bios).back + next.bios[0].front;
      var total := nrPhysSegments + next.nrPhysSegments;
      if Contiguous(q, Last(bios), next.bios[0]) {
        if nrPhysSegments == 1 {
          bios := SetFront(bios, size);
        }
        if next.nrPhysSegments == 1 {
          next.bios := SetBack(next.bios, size);
        }
        total := total - 1;
      }
      if total > q.maxSegments || late {
        return false;
      }
      bios, nrPhysSegments := bios + next.bios, total % U16;
      return true;
    }
  }
}
