/** When vectors share a segment and requests share one when they merge, in terms of physical addresses. */
module SegmentPlain {
  import opened SegmentModel
  import opened SegmentMap

  /** No multiple of the boundary lies behind address `from` and not behind address `to`. */
  ghost predicate OneWindow(boundary: Pos, from: int, to: int) {
    forall m: int :: !(from < m * boundary <= to)
  }

  lemma QuotientBounds(x: int, d: Pos)
    ensures x / d * d <= x < (x / d + 1) * d
  {
    assert x == x / d * d + x % d;
    assert (x / d + 1) * d == x / d * d + d;
  }

  lemma WindowIs(boundary: Pos, from: int, to: int)
    requires from <= to
    ensures from / boundary == to / boundary <==> OneWindow(boundary, from, to)
  {
    QuotientBounds(from, boundary);
    QuotientBounds(to, boundary);
    DivMono(from, to, boundary);
    if from / boundary < to / boundary {
      MulMono(from / boundary + 1, to / boundary, boundary);
      assert from < to / boundary * boundary <= to;
    } else {
      forall m: int ensures !(from < m * boundary <= to) {
        if m <= from / boundary {
          MulMono(m, from / boundary, boundary);
        } else {
          MulMono(from / boundary + 1, m, boundary);
        }
      }
    }
  }

  /** Vector `b` begins where `a` ends, and no segment boundary lies within the two. */
  ghost predicate Touch(q: Limits, a: Bvec, b: Bvec) {
    a.Phys() + a.len == b.Phys() && OneWindow(q.boundary, a.Phys(), b.Phys() + b.len - 1)
  }

  lemma JoinableIs(q: Limits, a: Bvec, b: Bvec)
    requires a.len > 0 && b.len > 0
    ensures Joinable(q, a, b) <==> Touch(q, a, b)
  {
    if a.Phys() + a.len == b.Phys() {
      WindowIs(q.boundary, a.Phys(), b.Phys() + b.len - 1);
    }
  }

  /** A vector goes on with the segment before it exactly when both are together small enough and touch. */
  lemma ExtendsExactly(q: Limits, size: nat, a: Bvec, b: Bvec)
    requires a.len > 0 && b.len > 0
    ensures Extends(q, size, a, b) <==> q.cluster && size + b.len <= q.maxSegmentSize && Touch(q, a, b)
  {
    JoinableIs(q, a, b);
  }

  /** An entry of the scatterlist grows exactly with a vector that touches it and fits; any other starts a new one. */
  lemma MapsExactly(q: Limits, bvs: seq<Bvec>, b: Bvec)
    requires bvs != [] && b.len > 0 && Last(bvs).len > 0
    ensures var sgs, sgs' := Mapped(q, bvs), Mapped(q, bvs + [b]);
            if q.cluster && Last(sgs).length + b.len <= q.maxSegmentSize && Touch(q, Last(bvs), b)
            then |sgs'| == |sgs| && Last(sgs').phys == Last(sgs).phys && Last(sgs').length == Last(sgs).length + b.len
            else sgs' == sgs + [Sg(b.Phys(), b.len)]
  {
    assert Init(bvs + [b]) == bvs && (bvs + [b])[|bvs| - 1] == Last(bvs);
    ExtendsExactly(q, Last(Mapped(q, bvs)).length, Last(bvs), b);
  }

  /**
   Two data requests merge exactly when the segments they have together are within the limit, one less than their sum
   when the sizes kept at the seam fit into one segment and the vectors there touch; that is the count they get.
   */
  lemma MergesExactly(q: Limits, r: Req, n: Req)
    requires r.bios != [] && n.bios != [] && Last(r.bios).vecs != [] && n.bios[0].vecs != []
    requires Last(Last(r.bios).vecs).len > 0 && n.bios[0].vecs[0].len > 0
    ensures var a, b, m := Last(r.bios), n.bios[0], MergedRequests(q, r, n, false, false);
            var shared := if q.cluster && a.back + b.front <= q.maxSegmentSize && Touch(q, Last(a.vecs), b.vecs[0])
                          then 1 else 0;
            && (m.ok <==> r.nr + n.nr - shared <= q.maxSegments)
            && (m.ok && r.nr + n.nr >= shared ==> m.req.nr == (r.nr + n.nr - shared) % U16)
  {
    JoinableIs(q, Last(Last(r.bios).vecs), n.bios[0].vecs[0]);
  }
}
