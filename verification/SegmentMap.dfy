/** What the scatterlist says: the same bytes in the same order, in entries the hardware takes. */
module SegmentMap {
  import opened SegmentModel
  import opened SegmentBound

  /** The physical addresses of `len` bytes from `start` on. */
  ghost function Run(start: nat, len: nat): (r: seq<nat>)
    ensures |r| == len
  {
    seq(len, i => start + i)
  }

  ghost function VecBytes(bvs: seq<Bvec>): seq<nat> {
    if bvs == [] then [] else VecBytes(Init(bvs)) + Run(Last(bvs).Phys(), Last(bvs).len)
  }

  ghost function SgBytes(sgs: seq<Sg>): seq<nat> {
    if sgs == [] then [] else SgBytes(Init(sgs)) + Run(Last(sgs).phys, Last(sgs).length)
  }

  lemma RunPlus(start: nat, a: nat, b: nat)
    ensures Run(start, a + b) == Run(start, a) + Run(start + a, b)
  {
  }

  lemma SgBytesOne(sgs: seq<Sg>, s: Sg)
    ensures SgBytes(sgs + [s]) == SgBytes(sgs) + Run(s.phys, s.length)
  {
    assert Init(sgs + [s]) == sgs;
  }

  lemma MapOneBytes(q: Limits, sgs: seq<Sg>, prev: Bvec, b: Bvec)
    requires sgs != [] && Last(sgs).phys + Last(sgs).length == prev.Phys() + prev.len
    ensures SgBytes(MapOne(q, sgs, prev, b)) == SgBytes(sgs) + Run(b.Phys(), b.len)
    ensures Last(MapOne(q, sgs, prev, b)).phys + Last(MapOne(q, sgs, prev, b)).length == b.Phys() + b.len
  {
    var s := Last(sgs);
    if Extends(q, s.length, prev, b) {
      SgBytesOne(Init(sgs), s.(length := s.length + b.len));
      RunPlus(s.phys, s.length, b.len);
    } else {
      SgBytesOne(sgs, Sg(b.Phys(), b.len));
    }
  }

  /** Mapping loses no byte, repeats none and keeps their order; the last entry ends where the last vector does. */
  lemma {:induction false} MapKeepsBytes(q: Limits, bvs: seq<Bvec>)
    ensures SgBytes(Mapped(q, bvs)) == VecBytes(bvs)
    ensures bvs != [] ==> Last(Mapped(q, bvs)).phys + Last(Mapped(q, bvs)).length == Last(bvs).Phys() + Last(bvs).len
  {
    if |bvs| == 1 {
      SgBytesOne([], Mapped(q, bvs)[0]);
      assert Init(bvs) == [] && [] + Mapped(q, bvs) == Mapped(q, bvs);
    } else if bvs != [] {
      MapKeepsBytes(q, Init(bvs));
      assert Last(Init(bvs)) == bvs[|bvs| - 2];
      MapOneBytes(q, Mapped(q, Init(bvs)), bvs[|bvs| - 2], Last(bvs));
    }
  }

  lemma MulMono(a: int, b: int, d: Pos)
    requires a <= b
    ensures a * d <= b * d
  {
  }

  lemma DivMono(a: int, b: int, d: Pos)
    requires a <= b
    ensures a / d <= b / d
  {
    var x, y := a / d, b / d;
    assert a == x * d + a % d && b == y * d + b % d;
    assert (y + 1) * d == y * d + d;
    if x > y {
      MulMono(y + 1, x, d);
    }
  }

  ghost predicate InOneWindow(q: Limits, s: Sg) {
    s.phys / q.boundary == (s.phys + s.length - 1) / q.boundary
  }

  /** An entry is one vector, or it keeps within the size limit and does not cross the boundary. */
  ghost predicate SgFits(q: Limits, bvs: seq<Bvec>, s: Sg) {
    || (exists i :: 0 <= i < |bvs| && s == Sg(bvs[i].Phys(), bvs[i].len))
    || (s.length <= q.maxSegmentSize && InOneWindow(q, s))
  }

  ghost predicate AllFit(q: Limits, bvs: seq<Bvec>, sgs: seq<Sg>) {
    forall k :: 0 <= k < |sgs| ==> SgFits(q, bvs, sgs[k])
  }

  lemma MoreVecs(q: Limits, bvs: seq<Bvec>, s: Sg)
    requires bvs != [] && SgFits(q, Init(bvs), s)
    ensures SgFits(q, bvs, s)
  {
    if i :| 0 <= i < |Init(bvs)| && s == Sg(Init(bvs)[i].Phys(), Init(bvs)[i].len) {
      assert s == Sg(bvs[i].Phys(), bvs[i].len);
    }
  }

  /** How the last entry lies: it is the last vector, or it holds it and lies in one window. */
  ghost predicate Ends(q: Limits, s: Sg, b: Bvec) {
    s == Sg(b.Phys(), b.len) || (s.phys <= b.Phys() && s.length <= q.maxSegmentSize && InOneWindow(q, s))
  }

  lemma ExtendedEnds(q: Limits, s: Sg, prev: Bvec, b: Bvec)
    requires prev.len > 0 && b.len > 0 && Ends(q, s, prev) && s.phys + s.length == prev.Phys() + prev.len
    requires Extends(q, s.length, prev, b)
    ensures Ends(q, s.(length := s.length + b.len), b) && InOneWindow(q, s.(length := s.length + b.len))
    ensures s.length + b.len <= q.maxSegmentSize
  {
    if s != Sg(prev.Phys(), prev.len) {
      DivMono(s.phys, prev.Phys(), q.boundary);
      DivMono(prev.Phys(), prev.Phys() + prev.len - 1, q.boundary);
    }
  }

  lemma {:induction false} EntriesFit(q: Limits, bvs: seq<Bvec>)
    requires forall i :: 0 <= i < |bvs| ==> bvs[i].len > 0
    ensures AllFit(q, bvs, Mapped(q, bvs))
    ensures bvs != [] ==> Ends(q, Last(Mapped(q, bvs)), Last(bvs))
  {
    if |bvs| == 1 {
      assert Mapped(q, bvs)[0] == Sg(bvs[0].Phys(), bvs[0].len);
    } else if bvs != [] {
      EntriesFit(q, Init(bvs));
      MapKeepsBytes(q, Init(bvs));
      var sgs, prev, b := Mapped(q, Init(bvs)), bvs[|bvs| - 2], Last(bvs);
      assert Last(Init(bvs)) == prev;
      forall k | 0 <= k < |sgs| ensures SgFits(q, bvs, sgs[k]) {
        MoreVecs(q, bvs, sgs[k]);
      }
      if Extends(q, Last(sgs).length, prev, b) {
        ExtendedEnds(q, Last(sgs), prev, b);
      } else {
        assert SgFits(q, bvs, Sg(bvs[|bvs| - 1].Phys(), bvs[|bvs| - 1].len));
      }
    }
  }

  /** Without high pages the count is exactly the number of entries. */
  lemma {:induction false} CutsAreGreedy(q: Limits, bvs: seq<Bvec>)
    requires forall i :: 0 <= i < |bvs| ==> !High(q, bvs[i])
    ensures GroupCount(Cuts(q, bvs)) == |Mapped(q, bvs)|
    ensures bvs != [] ==> LastSize(bvs, Cuts(q, bvs)) == Last(Mapped(q, bvs)).length
  {
    if bvs != [] {
      CutsAreGreedy(q, Init(bvs));
      assert Init(Cuts(q, bvs)) == Cuts(q, Init(bvs));
      assert |bvs| > 1 ==> Last(Init(bvs)) == bvs[|bvs| - 2];
    }
  }

  lemma {:induction false} MapGrows(q: Limits, bvs: seq<Bvec>, n: nat)
    requires n <= |bvs|
    ensures |Mapped(q, bvs[..n])| <= |Mapped(q, bvs)|
    decreases |bvs|
  {
    if n < |bvs| {
      MapGrows(q, Init(bvs), n);
      assert Init(bvs)[..n] == bvs[..n];
    } else {
      assert bvs[..n] == bvs;
    }
  }
}
