/** Requests built by any history of merges: the kept count bounds the scatterlist. */
module SegmentHistory {
  import opened SegmentModel
  import opened SegmentBound
  import opened SegmentMap

  // ---------------------------------------------------------------- vectors of bio chains

  lemma {:induction false} VecsPlus(a: seq<Bio>, b: seq<Bio>)
    ensures Vecs(a + b) == Vecs(a) + Vecs(b)
  {
    if b == [] {
      assert a + b == a;
    } else {
      InitPlus(a, b);
      VecsPlus(a, Init(b));
    }
  }

  lemma {:induction false} VecsSame(bios: seq<Bio>, i: nat, b: Bio)
    requires i < |bios| && b.vecs == bios[i].vecs
    ensures Vecs(bios[i := b]) == Vecs(bios)
  {
    var bios' := bios[i := b];
    if i == |bios| - 1 {
      assert Init(bios') == Init(bios);
    } else {
      VecsSame(Init(bios), i, b);
      assert Init(bios') == Init(bios)[i := b];
    }
  }

  lemma {:induction false} VecsEnds(bios: seq<Bio>)
    requires bios != [] && AllData(bios)
    ensures Vecs(bios) != [] && Vecs(bios)[0] == bios[0].vecs[0] && Last(Vecs(bios)) == Last(Last(bios).vecs)
  {
    if |bios| > 1 {
      VecsEnds(Init(bios));
    }
  }

  lemma VecsOne(b: Bio)
    ensures Vecs([b]) == b.vecs
  {
    assert Init([b]) == [];
  }

  // ---------------------------------------------------------------- one chain

  /** The count is that of a grouping, whose outer segments are no longer than the sizes kept with the bios. */
  ghost predicate Covered(q: Limits, bios: seq<Bio>, nr: nat, cut: seq<bool>) {
    && bios != [] && Grouping(q, Vecs(bios), cut) && GroupCount(cut) == nr
    && FirstSize(Vecs(bios), cut) <= bios[0].front && LastSize(Vecs(bios), cut) <= Last(bios).back
  }

  lemma CoveredBounds(q: Limits, bios: seq<Bio>, nr: nat, cut: seq<bool>)
    requires Covered(q, bios, nr, cut)
    ensures |Mapped(q, Vecs(bios))| <= nr
  {
    GreedyIsMinimal(q, Vecs(bios), cut);
  }

  /** A valid count is one that blk_recount_segments stored. */
  ghost predicate BioOk(q: Limits, b: Bio) {
    b.segValid ==>
      && b.segs == GroupCount(Cuts(q, b.vecs))
      && FirstSize(b.vecs, Cuts(q, b.vecs)) <= b.front && LastSize(b.vecs, Cuts(q, b.vecs)) <= b.back
  }

  lemma SetFrontVecs(bios: seq<Bio>, size: nat)
    requires bios != []
    ensures Vecs(SetFront(bios, size)) == Vecs(bios)
  {
    VecsSame(bios, 0, bios[0].(front := size));
  }

  lemma SetBackVecs(bios: seq<Bio>, size: nat)
    requires bios != []
    ensures Vecs(SetBack(bios, size)) == Vecs(bios)
  {
    VecsSame(bios, |bios| - 1, Last(bios).(back := size));
  }

  lemma SizedCovers(q: Limits, bios: seq<Bio>)
    requires bios != []
    ensures Vecs(Sized(q, bios)) == Vecs(bios)
    ensures Covered(q, Sized(q, bios), GroupCount(Cuts(q, Vecs(bios))), Cuts(q, Vecs(bios)))
  {
    var bvs := Vecs(bios);
    CutsGroup(q, bvs);
    var f := Max(bios[0].front, FirstSize(bvs, Cuts(q, bvs)));
    SetFrontVecs(bios, f);
    SetBackVecs(SetFront(bios, f), Max(Last(SetFront(bios, f)).back, LastSize(bvs, Cuts(q, bvs))));
  }

  lemma CountedCovers(q: Limits, b: Bio)
    requires BioOk(q, b)
    ensures Covered(q, [Counted(q, b)], Counted(q, b).segs, Cuts(q, b.vecs))
    ensures Counted(q, b).vecs == b.vecs
  {
    VecsOne(Counted(q, b));
    CutsGroup(q, b.vecs);
  }

  lemma SetFrontCovers(q: Limits, bios: seq<Bio>, nr: nat, cut: seq<bool>, size: nat)
    requires Covered(q, bios, nr, cut) && size >= FirstSize(Vecs(bios), cut)
    ensures Covered(q, SetFront(bios, size), nr, cut)
  {
    SetFrontVecs(bios, size);
  }

  lemma SetBackCovers(q: Limits, bios: seq<Bio>, nr: nat, cut: seq<bool>, size: nat)
    requires Covered(q, bios, nr, cut) && size >= LastSize(Vecs(bios), cut)
    ensures Covered(q, SetBack(bios, size), nr, cut)
  {
    SetBackVecs(bios, size);
  }

  /** Chains one behind the other. */
  lemma PlusCovered(q: Limits, a: seq<Bio>, na: nat, ca: seq<bool>, b: seq<Bio>, nb: nat, cb: seq<bool>)
    requires Covered(q, a, na, ca) == true && Covered(q, b, nb, cb) == true && AllData(a) && AllData(b)
    ensures Covered(q, a + b, na + nb, ca + cb) == true
  {
    VecsPlus(a, b);
    VecsEnds(a);
    VecsEnds(b);
    Beside(q, Vecs(a), Vecs(b), ca, cb);
  }

  // ---------------------------------------------------------------- one merge

  ghost predicate ReqOk(q: Limits, r: Req, cut: seq<bool>) {
    Covered(q, r.bios, r.nr, cut) && AllData(r.bios)
  }

  lemma CountedReq(q: Limits, b: Bio)
    requires BioOk(q, b) && b.vecs != []
    ensures ReqOk(q, Req([Counted(q, b)], Counted(q, b).segs), Cuts(q, b.vecs)) == true
  {
    CountedCovers(q, b);
  }

  lemma CountedAtReq(q: Limits, r: Req, cut: seq<bool>, i: nat)
    requires ReqOk(q, r, cut) == true && i < |r.bios|
    ensures ReqOk(q, CountedAt(q, r, i), cut) == true
  {
    ReplacedReq(q, r, cut, i, Counted(q, r.bios[i]));
  }

  /** Another bio with the same vectors and sizes no smaller. */
  lemma ReplacedReq(q: Limits, r: Req, cut: seq<bool>, i: nat, b: Bio)
    requires ReqOk(q, r, cut) == true && i < |r.bios|
    requires b.vecs == r.bios[i].vecs && b.front >= r.bios[i].front && b.back >= r.bios[i].back
    ensures ReqOk(q, r.(bios := r.bios[i := b]), cut) == true
  {
    var bios := r.bios[i := b];
    VecsSame(r.bios, i, b);
    assert bios[0].front >= r.bios[0].front && Last(bios).back >= Last(r.bios).back;
    SameCovered(q, r.bios, bios, r.nr, cut);
  }

  lemma SameCovered(q: Limits, bios: seq<Bio>, bios': seq<Bio>, nr: nat, cut: seq<bool>)
    requires Covered(q, bios, nr, cut) && bios' != [] && Vecs(bios') == Vecs(bios)
    requires bios'[0].front >= bios[0].front && Last(bios').back >= Last(bios).back
    ensures Covered(q, bios', nr, cut)
  {
  }

  lemma PlusReq(q: Limits, r: Req, cr: seq<bool>, n: Req, cn: seq<bool>)
    requires ReqOk(q, r, cr) == true && ReqOk(q, n, cn) == true
    ensures ReqOk(q, Req(r.bios + n.bios, r.nr + n.nr), cr + cn) == true
  {
    PlusCovered(q, r.bios, r.nr, cr, n.bios, n.nr, cn);
  }

  lemma LinkedReq(q: Limits, r: Req, cr: seq<bool>, n: Req, cn: seq<bool>, shared: nat, c: seq<bool>, late: bool)
    returns (m: Merge)
    requires ReqOk(q, r, cr) == true && ReqOk(q, n, cn) == true && q.maxSegments < U16
    requires r.nr + n.nr >= shared && ReqOk(q, Req(r.bios + n.bios, r.nr + n.nr - shared), c) == true
    ensures m == Linked(q, r, n, shared, late)
    ensures ReqOk(q, m.req, if m.ok then c else cr) == true && (!m.ok ==> ReqOk(q, m.next, cn) == true)
  {
    m := Linked(q, r, n, shared, late);
  }

  lemma BackMergedOk(q: Limits, r: Req, cut: seq<bool>, b: Bio, early: bool, late: bool) returns (cut': seq<bool>)
    requires ReqOk(q, r, cut) == true && BioOk(q, b) && b.vecs != [] && q.maxSegments < U16
    ensures ReqOk(q, BackMerged(q, r, b, early, late), cut') == true
  {
    cut' := cut;
    if !early {
      var r1, b1, cb := CountedAt(q, r, |r.bios| - 1), Req([Counted(q, b)], Counted(q, b).segs), Cuts(q, b.vecs);
      CountedAtReq(q, r, cut, |r.bios| - 1);
      CountedReq(q, b);
      PlusReq(q, r1, cut, b1, cb);
      var m := LinkedReq(q, r1, cut, b1, cb, 0, cut + cb, late);
      cut' := if m.ok then cut + cb else cut;
    }
  }

  lemma FrontMergedOk(q: Limits, r: Req, cut: seq<bool>, b: Bio, early: bool, late: bool) returns (cut': seq<bool>)
    requires ReqOk(q, r, cut) == true && BioOk(q, b) && b.vecs != [] && q.maxSegments < U16
    ensures ReqOk(q, FrontMerged(q, r, b, early, late), cut') == true
  {
    cut' := cut;
    if !early {
      var r1, b1, cb := CountedAt(q, r, 0), Req([Counted(q, b)], Counted(q, b).segs), Cuts(q, b.vecs);
      CountedAtReq(q, r, cut, 0);
      CountedReq(q, b);
      PlusReq(q, b1, cb, r1, cut);
      var m := LinkedReq(q, b1, cb, r1, cut, 0, cb + cut, late);
      cut' := if m.ok then cb + cut else cut;
    }
  }

  /** What the sizes kept with two contiguous chains say about their groupings. */
  lemma WeldSizes(q: Limits, r: Req, cr: seq<bool>, n: Req, cn: seq<bool>)
    requires ReqOk(q, r, cr) == true && ReqOk(q, n, cn) == true && Contiguous(q, Last(r.bios), n.bios[0])
    ensures r.nr >= 1 && n.nr >= 1 && |cn| > 0 && WeldedWell(q, Vecs(r.bios), Vecs(n.bios), cr, cn)
    ensures r.nr == 1 ==> FirstSize(Vecs(r.bios), cr) == LastSize(Vecs(r.bios), cr)
    ensures n.nr == 1 ==> FirstSize(Vecs(n.bios), cn) == LastSize(Vecs(n.bios), cn)
  {
    VecsEnds(r.bios);
    VecsEnds(n.bios);
    FirstFits(q, Vecs(r.bios), cr);
    FirstFits(q, Vecs(n.bios), cn);
    StartsCut(q, Vecs(r.bios), cr);
    StartsCut(q, Vecs(n.bios), cn);
    Weld(q, Vecs(r.bios), Vecs(n.bios), cr, cn);
  }

  lemma FrontSizedReq(q: Limits, r: Req, cut: seq<bool>, size: nat)
    requires ReqOk(q, r, cut) == true && (r.nr == 1 ==> size >= FirstSize(Vecs(r.bios), cut))
    ensures ReqOk(q, FrontSized(r, size), cut) == true && Vecs(FrontSized(r, size).bios) == Vecs(r.bios)
  {
    if r.nr == 1 {
      SetFrontVecs(r.bios, size);
      SetFrontCovers(q, r.bios, r.nr, cut, size);
    }
  }

  lemma BackSizedReq(q: Limits, r: Req, cut: seq<bool>, size: nat)
    requires ReqOk(q, r, cut) == true && (r.nr == 1 ==> size >= LastSize(Vecs(r.bios), cut))
    ensures ReqOk(q, BackSized(r, size), cut) == true && Vecs(BackSized(r, size).bios) == Vecs(r.bios)
  {
    if r.nr == 1 {
      SetBackVecs(r.bios, size);
      SetBackCovers(q, r.bios, r.nr, cut, size);
    }
  }

  /** Two requests that are welded, with the sizes that ll_merge_requests_fn writes. */
  lemma WeldReq(q: Limits, r: Req, cr: seq<bool>, n: Req, cn: seq<bool>, r1: Req, n1: Req, size: nat)
    requires ReqOk(q, r, cr) == true && ReqOk(q, n, cn) == true && Contiguous(q, Last(r.bios), n.bios[0])
    requires size == Last(r.bios).back + n.bios[0].front && r1 == FrontSized(r, size) && n1 == BackSized(n, size)
    ensures ReqOk(q, r1, cr) == true && ReqOk(q, n1, cn) == true
    ensures r.nr >= 1 && n.nr >= 1 && |cn| > 0
    ensures ReqOk(q, Req(r1.bios + n1.bios, r.nr + n.nr - 1), Welded(cr, cn)) == true
  {
    WeldSizes(q, r, cr, n, cn);
    FrontSizedReq(q, r, cr, size);
    BackSizedReq(q, n, cn, size);
    VecsPlus(r1.bios, n1.bios);
    assert Last(r1.bios + n1.bios) == Last(n1.bios);
  }

  lemma WeldLinked(q: Limits, r: Req, cr: seq<bool>, n: Req, cn: seq<bool>, size: nat, late: bool)
    returns (m: Merge, cut: seq<bool>)
    requires ReqOk(q, r, cr) == true && ReqOk(q, n, cn) == true && q.maxSegments < U16
    requires Contiguous(q, Last(r.bios), n.bios[0]) && size == Last(r.bios).back + n.bios[0].front
    ensures m == Linked(q, FrontSized(r, size), BackSized(n, size), 1, late)
    ensures ReqOk(q, m.req, cut) == true && (!m.ok ==> ReqOk(q, m.next, cn) == true)
  {
    var r1, n1 := FrontSized(r, size), BackSized(n, size);
    WeldReq(q, r, cr, n, cn, r1, n1, size);
    m := LinkedReq(q, r1, cr, n1, cn, 1, Welded(cr, cn), late);
    cut := if m.ok then Welded(cr, cn) else cr;
  }

  lemma PlusLinked(q: Limits, r: Req, cr: seq<bool>, n: Req, cn: seq<bool>, late: bool)
    returns (m: Merge, cut: seq<bool>)
    requires ReqOk(q, r, cr) == true && ReqOk(q, n, cn) == true && q.maxSegments < U16
    ensures m == Linked(q, r, n, 0, late)
    ensures ReqOk(q, m.req, cut) == true && (!m.ok ==> ReqOk(q, m.next, cn) == true)
  {
    PlusReq(q, r, cr, n, cn);
    m := LinkedReq(q, r, cr, n, cn, 0, cr + cn, late);
    cut := if m.ok then cr + cn else cr;
  }

  lemma MergedRequestsOk(q: Limits, r: Req, cr: seq<bool>, n: Req, cn: seq<bool>, early: bool, late: bool)
    returns (m: Merge, cut: seq<bool>)
    requires ReqOk(q, r, cr) == true && ReqOk(q, n, cn) == true && q.maxSegments < U16
    ensures m == MergedRequests(q, r, n, early, late)
    ensures ReqOk(q, m.req, cut) == true && (!m.ok ==> ReqOk(q, m.next, cn) == true)
  {
    DataEnds(q, r, cr);
    DataEnds(q, n, cn);
    var size := Last(r.bios).back + n.bios[0].front;
    MergedIs(q, r, n, early, late, size);
    if early {
      m, cut := Merge(r, n, false), cr;
    } else if Contiguous(q, Last(r.bios), n.bios[0]) {
      m, cut := WeldLinked(q, r, cr, n, cn, size, late);
    } else {
      m, cut := PlusLinked(q, r, cr, n, cn, late);
    }
  }

  lemma DataEnds(q: Limits, r: Req, cut: seq<bool>)
    requires ReqOk(q, r, cut) == true
    ensures r.bios != [] && r.bios[0].vecs != [] && Last(r.bios).vecs != []
  {
  }

  lemma MergedIs(q: Limits, r: Req, n: Req, early: bool, late: bool, size: nat)
    requires r.bios != [] && n.bios != [] && Last(r.bios).vecs != [] && n.bios[0].vecs != []
    requires size == Last(r.bios).back + n.bios[0].front
    ensures MergedRequests(q, r, n, early, late) ==
            if early then Merge(r, n, false)
            else if Contiguous(q, Last(r.bios), n.bios[0])
            then Linked(q, FrontSized(r, size), BackSized(n, size), 1, late)
            else Linked(q, r, n, 0, late)
  {
  }

  // ---------------------------------------------------------------- histories

  /** How a request came to be; a failed request merge leaves either of the two requests. */
  datatype History =
    | Start(bio: Bio)
    | Back(h: History, bio: Bio, early: bool, late: bool)
    | Front(h: History, bio: Bio, early: bool, late: bool)
    | Join(h: History, next: History, early: bool, late: bool, second: bool)
    | Recalc(h: History)

  ghost predicate DataOnly(h: History) {
    match h
    case Start(b) => b.vecs != []
    case Back(h1, b, _, _) => DataOnly(h1) && b.vecs != []
    case Front(h1, b, _, _) => DataOnly(h1) && b.vecs != []
    case Join(h1, h2, _, _, _) => DataOnly(h1) && DataOnly(h2)
    case Recalc(h1) => DataOnly(h1)
  }

  lemma SizedData(q: Limits, r: Req, size: nat)
    requires r.bios != [] && AllData(r.bios)
    ensures AllData(FrontSized(r, size).bios) && AllData(BackSized(r, size).bios) && AllData(Recalculated(q, r).bios)
  {
  }

  lemma CountedAtData(q: Limits, r: Req, i: nat)
    requires i < |r.bios| && AllData(r.bios)
    ensures AllData(CountedAt(q, r, i).bios)
  {
  }

  lemma LinkedData(q: Limits, r: Req, n: Req, shared: nat, late: bool)
    requires r.bios != [] && n.bios != [] && AllData(r.bios) && AllData(n.bios)
    ensures AllData(Linked(q, r, n, shared, late).req.bios) && AllData(Linked(q, r, n, shared, late).next.bios)
  {
  }

  lemma BackMergedData(q: Limits, r: Req, b: Bio, early: bool, late: bool)
    requires r.bios != [] && AllData(r.bios) && b.vecs != []
    ensures AllData(BackMerged(q, r, b, early, late).bios)
  {
    if !early {
      CountedAtData(q, r, |r.bios| - 1);
      LinkedData(q, CountedAt(q, r, |r.bios| - 1), Req([Counted(q, b)], Counted(q, b).segs), 0, late);
    }
  }

  lemma FrontMergedData(q: Limits, r: Req, b: Bio, early: bool, late: bool)
    requires r.bios != [] && AllData(r.bios) && b.vecs != []
    ensures AllData(FrontMerged(q, r, b, early, late).bios)
  {
    if !early {
      CountedAtData(q, r, 0);
      LinkedData(q, Req([Counted(q, b)], Counted(q, b).segs), CountedAt(q, r, 0), 0, late);
    }
  }

  lemma MergedRequestsData(q: Limits, r: Req, n: Req, early: bool, late: bool)
    requires r.bios != [] && n.bios != [] && AllData(r.bios) && AllData(n.bios)
    ensures var m := MergedRequests(q, r, n, early, late); AllData(m.req.bios) && AllData(m.next.bios)
  {
    var size := Last(r.bios).back + n.bios[0].front;
    SizedData(q, r, size);
    SizedData(q, n, size);
    LinkedData(q, FrontSized(r, size), BackSized(n, size), 1, late);
    LinkedData(q, r, n, 0, late);
  }

  ghost function Built(q: Limits, h: History): (r: Req)
    requires DataOnly(h)
    ensures r.bios != [] && AllData(r.bios)
  {
    match h
    case Start(b) => Prepared(q, b)
    case Back(h1, b, early, late) =>
      BackMergedData(q, Built(q, h1), b, early, late);
      BackMerged(q, Built(q, h1), b, early, late)
    case Front(h1, b, early, late) =>
      FrontMergedData(q, Built(q, h1), b, early, late);
      FrontMerged(q, Built(q, h1), b, early, late)
    case Join(h1, h2, early, late, second) =>
      MergedRequestsData(q, Built(q, h1), Built(q, h2), early, late);
      var m := MergedRequests(q, Built(q, h1), Built(q, h2), early, late);
      if m.ok || !second then m.req else m.next
    case Recalc(h1) =>
      SizedData(q, Built(q, h1), 0);
      Recalculated(q, Built(q, h1))
  }

  /** Bios come with a count that is right or not yet valid and within the limit; counts fit their field. */
  ghost predicate Fits(q: Limits, h: History)
    requires DataOnly(h)
  {
    match h
    case Start(b) => BioOk(q, b) && Counted(q, b).segs <= q.maxSegments
    case Back(h1, b, _, _) => Fits(q, h1) && BioOk(q, b)
    case Front(h1, b, _, _) => Fits(q, h1) && BioOk(q, b)
    case Join(h1, h2, _, _, _) => Fits(q, h1) && Fits(q, h2)
    case Recalc(h1) => Fits(q, h1) && GroupCount(Cuts(q, Vecs(Built(q, h1).bios))) < U16
  }

  lemma StartOk(q: Limits, b: Bio)
    requires b.vecs != [] && BioOk(q, b) && Counted(q, b).segs <= q.maxSegments < U16
    ensures ReqOk(q, Prepared(q, b), Cuts(q, b.vecs)) == true
  {
    CountedReq(q, b);
  }

  lemma RecalculatedOk(q: Limits, r: Req)
    requires r.bios != [] && AllData(r.bios) && GroupCount(Cuts(q, Vecs(r.bios))) < U16
    ensures ReqOk(q, Recalculated(q, r), Cuts(q, Vecs(r.bios))) == true
  {
    SizedCovers(q, r.bios);
    SizedAll(q, r.bios);
    RecalculatedIs(q, r);
  }

  lemma SizedAll(q: Limits, bios: seq<Bio>)
    requires bios != [] && AllData(bios)
    ensures AllData(Sized(q, bios))
  {
  }

  lemma RecalculatedIs(q: Limits, r: Req)
    requires r.bios != [] && GroupCount(Cuts(q, Vecs(r.bios))) < U16
    ensures Recalculated(q, r) == Req(Sized(q, r.bios), GroupCount(Cuts(q, Vecs(r.bios))))
  {
  }

  lemma {:induction false} BuiltOk(q: Limits, h: History) returns (cut: seq<bool>)
    requires DataOnly(h) && Fits(q, h) && q.maxSegments < U16
    ensures ReqOk(q, Built(q, h), cut) == true
  {
    match h
    case Start(b) =>
      StartOk(q, b);
      cut := Cuts(q, b.vecs);
    case Back(h1, b, early, late) =>
      cut := BuiltOk(q, h1);
      cut := BackMergedOk(q, Built(q, h1), cut, b, early, late);
    case Front(h1, b, early, late) =>
      cut := BuiltOk(q, h1);
      cut := FrontMergedOk(q, Built(q, h1), cut, b, early, late);
    case Join(h1, h2, early, late, second) =>
      cut := BuiltOk(q, h1);
      var cn := BuiltOk(q, h2);
      var m: Merge;
      m, cut := MergedRequestsOk(q, Built(q, h1), cut, Built(q, h2), cn, early, late);
      cut := if m.ok || !second then cut else cn;
    case Recalc(h1) =>
      RecalculatedOk(q, Built(q, h1));
      cut := Cuts(q, Vecs(Built(q, h1).bios));
  }

  /** nr_phys_segments is at least the number of scatterlist entries, whatever merges made the request. */
  lemma CountBoundsScatterlist(q: Limits, h: History)
    requires DataOnly(h) && Fits(q, h) && q.maxSegments < U16
    ensures |Mapped(q, Vecs(Built(q, h).bios))| <= Built(q, h).nr
  {
    var cut := BuiltOk(q, h);
    CoveredBounds(q, Built(q, h).bios, Built(q, h).nr, cut);
  }
}
