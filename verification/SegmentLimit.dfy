/** When the kept count of a request stays within the queue's limit on segments. */
module SegmentLimit {
  import opened SegmentModel
  import opened SegmentBound
  import opened SegmentMap
  import opened SegmentHistory

  // ---------------------------------------------------------------- what a recount finds

  /** Where the run of low pages at the end begins. */
  function LowStart(q: Limits, bvs: seq<Bvec>): (k: nat)
    ensures k <= |bvs| && (bvs != [] && !High(q, Last(bvs)) ==> k < |bvs|)
  {
    if bvs == [] || High(q, Last(bvs)) then |bvs| else LowStart(q, Init(bvs))
  }

  /** One for every high page, and for every run of low pages between them the entries it is mapped to. */
  function Pieces(q: Limits, bvs: seq<Bvec>): nat
    decreases |bvs|
  {
    if bvs == [] then 0
    else if High(q, Last(bvs)) then Pieces(q, Init(bvs)) + 1
    else
      var k := LowStart(q, bvs);
      Pieces(q, bvs[..k]) + |Mapped(q, bvs[k..])|
  }

  lemma {:induction false} LowRun(q: Limits, bvs: seq<Bvec>)
    ensures var k := LowStart(q, bvs);
            && (forall i :: k <= i < |bvs| ==> !High(q, bvs[i]))
            && (k > 0 ==> High(q, bvs[k - 1]))
  {
    if bvs != [] && !High(q, Last(bvs)) {
      LowRun(q, Init(bvs));
    }
  }

  /** A recount starts afresh behind a high page. */
  lemma {:induction false} CutsBehind(q: Limits, a: seq<Bvec>, b: seq<Bvec>)
    requires a != [] && b != [] && High(q, Last(a))
    ensures Cuts(q, a + b) == Cuts(q, a) + Cuts(q, b)
    decreases |b|
  {
    InitPlus(a, b);
    if |b| == 1 {
      assert a + Init(b) == a && Cuts(q, Init(b)) == [];
    } else {
      CutsBehind(q, a, Init(b));
      SameLastSize(q, a, Init(b));
      SameCut(q, a + Init(b), Init(b), Last(b));
      assert a + b == (a + Init(b)) + [Last(b)] && b == Init(b) + [Last(b)];
    }
  }

  lemma SameLastSize(q: Limits, a: seq<Bvec>, b: seq<Bvec>)
    requires a != [] && b != [] && Cuts(q, a + b) == Cuts(q, a) + Cuts(q, b)
    ensures Last(a + b) == Last(b) && LastSize(a + b, Cuts(q, a + b)) == LastSize(b, Cuts(q, b))
  {
    CutsGroup(q, a);
    CutsGroup(q, b);
    Beside(q, a, b, Cuts(q, a), Cuts(q, b));
  }

  /** Whether a vector goes on depends on the last segment alone. */
  lemma SameCut(q: Limits, a: seq<Bvec>, b: seq<Bvec>, v: Bvec)
    requires a != [] && b != [] && Last(a) == Last(b) && LastSize(a, Cuts(q, a)) == LastSize(b, Cuts(q, b))
    ensures Last(Cuts(q, a + [v])) == Last(Cuts(q, b + [v]))
    ensures Cuts(q, a + [v]) == Cuts(q, a) + [Last(Cuts(q, a + [v]))]
    ensures Cuts(q, b + [v]) == Cuts(q, b) + [Last(Cuts(q, b + [v]))]
  {
    assert Init(a + [v]) == a && Init(b + [v]) == b;
  }

  /** The recount in terms of high pages and scatterlist entries. */
  lemma {:induction false} RecountIs(q: Limits, bvs: seq<Bvec>)
    ensures GroupCount(Cuts(q, bvs)) == Pieces(q, bvs)
    decreases |bvs|
  {
    if bvs != [] {
      if High(q, Last(bvs)) {
        RecountIs(q, Init(bvs));
        InitPlus(Cuts(q, Init(bvs)), [true]);
        assert Init([true]) == [];
      } else {
        var k := LowStart(q, bvs);
        LowRun(q, bvs);
        RecountIs(q, bvs[..k]);
        CutsAreGreedy(q, bvs[k..]);
        assert bvs == bvs[..k] + bvs[k..];
        if k > 0 {
          CutsBehind(q, bvs[..k], bvs[k..]);
          CountPlus(Cuts(q, bvs[..k]), Cuts(q, bvs[k..]));
        } else {
          assert bvs[k..] == bvs;
        }
      }
    }
  }

  // ---------------------------------------------------------------- the limit on the count

  lemma BioMergedLimit(q: Limits, r: Req, b: Bio, early: bool, late: bool)
    requires r.bios != [] && r.nr <= q.maxSegments < U16
    ensures BackMerged(q, r, b, early, late).nr <= q.maxSegments
    ensures FrontMerged(q, r, b, early, late).nr <= q.maxSegments
  {
  }

  lemma MergedRequestsLimit(q: Limits, r: Req, n: Req, early: bool, late: bool)
    requires r.bios != [] && n.bios != [] && (Last(r.bios).vecs == [] <==> n.bios[0].vecs == [])
    requires 1 <= r.nr <= q.maxSegments < U16 && n.nr <= q.maxSegments
    ensures var m := MergedRequests(q, r, n, early, late); m.req.nr <= q.maxSegments && m.next.nr <= q.maxSegments
  {
  }

  lemma StartsCountAtOne(q: Limits, r: Req, cut: seq<bool>)
    requires ReqOk(q, r, cut) == true
    ensures r.nr >= 1
  {
    VecsEnds(r.bios);
    StartsCut(q, Vecs(r.bios), cut);
  }

  lemma BuiltCountAtOne(q: Limits, h: History)
    requires DataOnly(h) && Fits(q, h) && q.maxSegments < U16
    ensures Built(q, h).nr >= 1
  {
    var cut := BuiltOk(q, h);
    StartsCountAtOne(q, Built(q, h), cut);
  }

  /** Every request that the history builds on the way keeps within the limit. */
  ghost predicate WithinLimit(q: Limits, h: History)
    requires DataOnly(h)
  {
    && Built(q, h).nr <= q.maxSegments
    && match h
       case Start(_) => true
       case Back(h1, _, _, _) => WithinLimit(q, h1)
       case Front(h1, _, _, _) => WithinLimit(q, h1)
       case Join(h1, h2, _, _, _) => WithinLimit(q, h1) && WithinLimit(q, h2)
       case Recalc(h1) => WithinLimit(q, h1)
  }

  /** Wherever the count is made anew, high pages and the entries between them are within the limit. */
  ghost predicate RecalcsFit(q: Limits, h: History)
    requires DataOnly(h)
  {
    match h
    case Start(_) => true
    case Back(h1, _, _, _) => RecalcsFit(q, h1)
    case Front(h1, _, _, _) => RecalcsFit(q, h1)
    case Join(h1, h2, _, _, _) => RecalcsFit(q, h1) && RecalcsFit(q, h2)
    case Recalc(h1) => RecalcsFit(q, h1) && Pieces(q, Vecs(Built(q, h1).bios)) <= q.maxSegments
  }

  lemma RecalcIs(q: Limits, h: History)
    requires DataOnly(h) && Fits(q, h) && h.Recalc?
    ensures Built(q, h).nr == Pieces(q, Vecs(Built(q, h.h).bios))
  {
    var r := Built(q, h.h);
    RecountIs(q, Vecs(r.bios));
    RecalculatedIs(q, r);
  }

  /** Merging keeps the limit; a history keeps it throughout exactly when its recounts do. */
  lemma {:induction false} CountKeepsLimit(q: Limits, h: History)
    requires DataOnly(h) && Fits(q, h) && q.maxSegments < U16
    ensures WithinLimit(q, h) <==> RecalcsFit(q, h)
  {
    match h
    case Start(b) =>
    case Back(h1, b, early, late) =>
      CountKeepsLimit(q, h1);
      if WithinLimit(q, h1) {
        BioMergedLimit(q, Built(q, h1), b, early, late);
      }
    case Front(h1, b, early, late) =>
      CountKeepsLimit(q, h1);
      if WithinLimit(q, h1) {
        BioMergedLimit(q, Built(q, h1), b, early, late);
      }
    case Join(h1, h2, early, late, second) =>
      CountKeepsLimit(q, h1);
      CountKeepsLimit(q, h2);
      BuiltCountAtOne(q, h1);
      if WithinLimit(q, h1) && WithinLimit(q, h2) {
        MergedRequestsLimit(q, Built(q, h1), Built(q, h2), early, late);
      }
    case Recalc(h1) =>
      CountKeepsLimit(q, h1);
      RecalcIs(q, h);
  }

  /** A recount of pages that need no bounce buffer never passes the limit the count has kept before. */
  lemma LowRecountFits(q: Limits, h: History)
    requires DataOnly(h) && Fits(q, h) && q.maxSegments < U16 && Built(q, h).nr <= q.maxSegments
    requires forall i :: 0 <= i < |Vecs(Built(q, h).bios)| ==> !High(q, Vecs(Built(q, h).bios)[i])
    ensures Pieces(q, Vecs(Built(q, h).bios)) <= q.maxSegments
  {
    RecountIs(q, Vecs(Built(q, h).bios));
    CutsAreGreedy(q, Vecs(Built(q, h).bios));
    CountBoundsScatterlist(q, h);
  }

  /** Two neighbouring high pages, each in a request of its own, on a queue that takes one segment. */
  lemma HighPages(q: Limits, b0: Bio, b1: Bio, h: History)
    requires q == Limits(true, 65536, 0x1_0000_0000, 10, 1)
    requires b0 == Bio([Bvec(20, 0, 4096)], 0, false, 0, 0) && b1 == Bio([Bvec(21, 0, 4096)], 0, false, 0, 0)
    requires h == Join(Start(b0), Start(b1), false, false, false)
    ensures DataOnly(h) && Fits(q, h) && Built(q, h).nr == 1
    ensures |Built(q, h).bios| == 2 && Built(q, h).bios[0].vecs == b0.vecs && Built(q, h).bios[1].vecs == b1.vecs
  {
    OneVec(q, b0);
    OneVec(q, b1);
    var r, n := Req([Counted(q, b0)], 1), Req([Counted(q, b1)], 1);
    assert Built(q, Start(b0)) == r && Built(q, Start(b1)) == n;
    assert MergedRequests(q, r, n, false, false) == Linked(q, FrontSized(r, 8192), BackSized(n, 8192), 1, false);
  }

  /** The weld of two requests ignores high pages, the recount does not: a recount can pass the limit. */
  lemma RecountPassesLimit()
    ensures exists q, h ::
              && DataOnly(h) && Fits(q, h) && q.maxSegments < U16 && h.Recalc?
              && Built(q, h.h).nr <= q.maxSegments < Built(q, h).nr
  {
    var q := Limits(true, 65536, 0x1_0000_0000, 10, 1);
    var b0, b1 := Bio([Bvec(20, 0, 4096)], 0, false, 0, 0), Bio([Bvec(21, 0, 4096)], 0, false, 0, 0);
    var h := Join(Start(b0), Start(b1), false, false, false);
    HighPages(q, b0, b1, h);
    TwoVecs(q, Built(q, h).bios, b0.vecs[0], b1.vecs[0]);
    assert Built(q, Recalc(h)).nr == 2 && Fits(q, Recalc(h));
  }

  lemma OneVec(q: Limits, b: Bio)
    requires |b.vecs| == 1 && !b.segValid
    ensures Cuts(q, b.vecs) == [true] && Counted(q, b).segs == 1
    ensures Counted(q, b) == Bio(b.vecs, 1, true, Max(b.front, b.vecs[0].len), Max(b.back, b.vecs[0].len))
  {
    assert Init(b.vecs) == [];
    assert Init([true]) == [];
  }

  lemma TwoVecs(q: Limits, bios: seq<Bio>, a: Bvec, b: Bvec)
    requires |bios| == 2 && bios[0].vecs == [a] && bios[1].vecs == [b] && High(q, b)
    ensures Vecs(bios) == [a, b] && GroupCount(Cuts(q, Vecs(bios))) == 2
  {
    assert Init(bios) == [bios[0]];
    VecsOne(bios[0]);
    assert Init([a, b]) == [a] && Init([a]) == [];
    assert Cuts(q, [a]) == [true] && Cuts(q, [a, b]) == [true, true];
    assert Init([true, true]) == [true] && Init([true]) == [];
  }

  /**
   Requests without data, such as discards, have no segment to share, and yet the merge takes one off: exactly when
   the queue clusters and the kept sizes allow it, the count of the merged request wraps around.
   */
  lemma DatalessCountWraps(q: Limits, r: Req, n: Req)
    requires r.bios != [] && n.bios != [] && Last(r.bios).vecs == [] && n.bios[0].vecs == [] && r.nr == 0 && n.nr == 0
    requires q.maxSegments < U16 - 1
    ensures var m := MergedRequests(q, r, n, false, false);
            && m.ok
            && m.req.nr == (if q.cluster && Last(r.bios).back + n.bios[0].front <= q.maxSegmentSize then U16 - 1 else 0)
            && (m.req.nr <= q.maxSegments <==>
                  !(q.cluster && Last(r.bios).back + n.bios[0].front <= q.maxSegmentSize))
  {
    assert -1 % U16 == U16 - 1;
  }
}
