/**
 Physical segments of requests, block/blk-merge.c: the count kept in nr_phys_segments through bio and request
 merges, and the scatterlist that blk_rq_map_sg builds in the end.

 A grouping of a list of bio vectors is a list of flags of the same length: a set flag starts a new segment.
 */
module SegmentModel {
  const PAGE_SIZE: nat := 4096
  const U16: nat := 0x1_0000

  type Pos = x: int | x > 0 witness 1

  datatype Bvec = Bvec(pfn: nat, offset: nat, len: nat) {
    function Phys(): nat {
      pfn * PAGE_SIZE + offset
    }
  }

  /** Queue limits; `boundary` is the segment boundary mask plus one. */
  datatype Limits = Limits(cluster: bool, maxSegmentSize: nat, boundary: Pos, bouncePfn: nat, maxSegments: nat)

  /** BIOVEC_PHYS_MERGEABLE and BIOVEC_SEG_BOUNDARY. */
  predicate Joinable(q: Limits, a: Bvec, b: Bvec) {
    a.Phys() + a.len == b.Phys() && a.Phys() / q.boundary == (b.Phys() + b.len - 1) / q.boundary
  }

  /** Vector `b` may go on with the segment of `size` bytes that ends in vector `a`. */
  predicate Extends(q: Limits, size: nat, a: Bvec, b: Bvec) {
    q.cluster && size + b.len <= q.maxSegmentSize && Joinable(q, a, b)
  }

  predicate High(q: Limits, b: Bvec) {
    b.pfn > q.bouncePfn
  }

  function Last<T>(s: seq<T>): T
    requires s != []
  {
    s[|s| - 1]
  }

  function Init<T>(s: seq<T>): seq<T>
    requires s != []
  {
    s[..|s| - 1]
  }

  // ---------------------------------------------------------------- groupings

  function GroupCount(cut: seq<bool>): nat {
    if cut == [] then 0 else GroupCount(Init(cut)) + if Last(cut) then 1 else 0
  }

  /** Bytes in the last segment. */
  function LastSize(bvs: seq<Bvec>, cut: seq<bool>): nat
    requires |cut| == |bvs|
  {
    if bvs == [] then 0
    else Last(bvs).len + if Last(cut) then 0 else LastSize(Init(bvs), Init(cut))
  }

  /** Bytes in the first segment. */
  function FirstSize(bvs: seq<Bvec>, cut: seq<bool>): nat
    requires |cut| == |bvs|
  {
    if bvs == [] then 0
    else if GroupCount(cut) <= 1 then LastSize(bvs, cut)
    else FirstSize(Init(bvs), Init(cut))
  }

  /** A grouping the hardware can take: only vectors that may share a segment do. */
  ghost predicate Grouping(q: Limits, bvs: seq<Bvec>, cut: seq<bool>) {
    && |cut| == |bvs|
    && (bvs != [] ==>
          && Grouping(q, Init(bvs), Init(cut))
          && (Last(cut) || (|bvs| > 1 && Extends(q, LastSize(Init(bvs), Init(cut)), bvs[|bvs| - 2], Last(bvs)))))
  }

  // ---------------------------------------------------------------- the two passes over the vectors

  /** The segments __blk_recalc_rq_segments counts: a high page is never joined with another one. */
  function Cuts(q: Limits, bvs: seq<Bvec>): (cut: seq<bool>)
    ensures |cut| == |bvs|
  {
    if bvs == [] then []
    else
      var pre, b := Init(bvs), Last(bvs);
      var goesOn :=
        && pre != [] && !High(q, b) && !High(q, Last(pre))
        && Extends(q, LastSize(pre, Cuts(q, pre)), Last(pre), b);
      Cuts(q, pre) + [!goesOn]
  }

  /** A scatterlist entry. */
  datatype Sg = Sg(phys: nat, length: nat)

  /** __blk_segment_map_sg on the entries so far. */
  function MapOne(q: Limits, sgs: seq<Sg>, prev: Bvec, b: Bvec): seq<Sg>
    requires sgs != []
  {
    if Extends(q, Last(sgs).length, prev, b) then Init(sgs) + [Last(sgs).(length := Last(sgs).length + b.len)]
    else sgs + [Sg(b.Phys(), b.len)]
  }

  /** The entries blk_rq_map_sg sets up before padding and drain. */
  function Mapped(q: Limits, bvs: seq<Bvec>): (sgs: seq<Sg>)
    ensures sgs == [] <==> bvs == []
  {
    if bvs == [] then []
    else if |bvs| == 1 then [Sg(bvs[0].Phys(), bvs[0].len)]
    else MapOne(q, Mapped(q, Init(bvs)), bvs[|bvs| - 2], Last(bvs))
  }

  // ---------------------------------------------------------------- bios and requests

  /** The vectors from bi_idx on, and what blk_recount_segments keeps with a bio. */
  datatype Bio = Bio(vecs: seq<Bvec>, segs: nat, segValid: bool, front: nat, back: nat)

  /** The bio chain and nr_phys_segments, an unsigned short. */
  datatype Req = Req(bios: seq<Bio>, nr: nat)

  function Vecs(bios: seq<Bio>): seq<Bvec> {
    if bios == [] then [] else Vecs(Init(bios)) + Last(bios).vecs
  }

  ghost predicate AllData(bios: seq<Bio>) {
    forall i :: 0 <= i < |bios| ==> bios[i].vecs != []
  }

  function SetFront(bios: seq<Bio>, size: nat): (r: seq<Bio>)
    requires bios != []
    ensures |r| == |bios|
  {
    bios[0 := bios[0].(front := size)]
  }

  function SetBack(bios: seq<Bio>, size: nat): (r: seq<Bio>)
    requires bios != []
    ensures |r| == |bios|
  {
    bios[|bios| - 1 := bios[|bios| - 1].(back := size)]
  }

  function Max(a: nat, b: nat): nat {
    if a > b then a else b
  }

  /** What __blk_recalc_rq_segments leaves in the first and the last bio of a chain. */
  function Sized(q: Limits, bios: seq<Bio>): (r: seq<Bio>)
    requires bios != []
    ensures |r| == |bios|
  {
    var bvs := Vecs(bios);
    var bios1 := SetFront(bios, Max(bios[0].front, FirstSize(bvs, Cuts(q, bvs))));
    SetBack(bios1, Max(Last(bios1).back, LastSize(bvs, Cuts(q, bvs))))
  }

  /** blk_recount_segments: the same on one bio. */
  function Recounted(q: Limits, b: Bio): Bio {
    var cut := Cuts(q, b.vecs);
    Bio(b.vecs, GroupCount(cut), true, Max(b.front, FirstSize(b.vecs, cut)), Max(b.back, LastSize(b.vecs, cut)))
  }

  /** bio_phys_segments: the bio with its count made valid. */
  function Counted(q: Limits, b: Bio): (b': Bio)
    ensures b'.vecs == b.vecs && b'.front >= b.front && b'.back >= b.back
  {
    if b.segValid then b else Recounted(q, b)
  }

  /** blk_rq_bio_prep. */
  function Prepared(q: Limits, b: Bio): Req {
    if b.vecs == [] then Req([b], 0) else Req([Counted(q, b)], Counted(q, b).segs % U16)
  }

  /** blk_recalc_rq_segments. */
  function Recalculated(q: Limits, r: Req): Req
    requires r.bios != []
  {
    Req(Sized(q, r.bios), GroupCount(Cuts(q, Vecs(r.bios))) % U16)
  }

  /** The request with the count of its bio `i` made valid. */
  function CountedAt(q: Limits, r: Req, i: nat): (r': Req)
    requires i < |r.bios|
    ensures |r'.bios| == |r.bios|
  {
    r.(bios := r.bios[i := Counted(q, r.bios[i])])
  }

  /** The first request, the second request and whether they are now one. */
  datatype Merge = Merge(req: Req, next: Req, ok: bool)

  /** The end common to the merge functions: refuse, or add up the counts and link the chains. */
  function Linked(q: Limits, r: Req, n: Req, shared: nat, late: bool): (m: Merge)
    requires r.bios != [] && n.bios != []
    ensures m.req.bios != [] && m.next.bios != []
  {
    var total := r.nr + n.nr - shared;
    if total > q.maxSegments || late then Merge(r, n, false) else Merge(Req(r.bios + n.bios, total % U16), n, true)
  }

  /** ll_back_merge_fn and the link made after it; `early` and `late` are refusals for other reasons. */
  function BackMerged(q: Limits, r: Req, b: Bio, early: bool, late: bool): (r': Req)
    requires r.bios != []
    ensures r'.bios != []
  {
    if early then r
    else Linked(q, CountedAt(q, r, |r.bios| - 1), Req([Counted(q, b)], Counted(q, b).segs), 0, late).req
  }

  /** ll_front_merge_fn and the link made after it. */
  function FrontMerged(q: Limits, r: Req, b: Bio, early: bool, late: bool): (r': Req)
    requires r.bios != []
    ensures r'.bios != []
  {
    if early then r
    else
      var m := Linked(q, Req([Counted(q, b)], Counted(q, b).segs), CountedAt(q, r, 0), 0, late);
      if m.ok then m.req else m.next
  }

  /** blk_phys_contig_segment. */
  predicate Contiguous(q: Limits, a: Bio, b: Bio)
    requires a.vecs == [] <==> b.vecs == []
  {
    && q.cluster
    && a.back + b.front <= q.maxSegmentSize
    && (a.vecs == [] || Joinable(q, Last(a.vecs), b.vecs[0]))
  }

  /** The size ll_merge_requests_fn writes to the outer end of a request that is one segment. */
  function FrontSized(r: Req, size: nat): (r': Req)
    requires r.bios != []
    ensures |r'.bios| == |r.bios|
  {
    if r.nr == 1 then r.(bios := SetFront(r.bios, size)) else r
  }

  function BackSized(r: Req, size: nat): (r': Req)
    requires r.bios != []
    ensures |r'.bios| == |r.bios|
  {
    if r.nr == 1 then r.(bios := SetBack(r.bios, size)) else r
  }

  /** ll_merge_requests_fn and the link made after it. */
  function MergedRequests(q: Limits, r: Req, n: Req, early: bool, late: bool): (m: Merge)
    requires r.bios != [] && n.bios != [] && (Last(r.bios).vecs == [] <==> n.bios[0].vecs == [])
    ensures m.req.bios != [] && m.next.bios != []
  {
    if early then Merge(r, n, false)
    else if Contiguous(q, Last(r.bios), n.bios[0]) then
      var size := Last(r.bios).back + n.bios[0].front;
      Linked(q, FrontSized(r, size), BackSized(n, size), 1, late)
    else Linked(q, r, n, 0, late)
  }
}
