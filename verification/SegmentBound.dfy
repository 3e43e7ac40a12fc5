/** The kept count bounds the scatterlist over every merge history. */
module SegmentBound {
  import opened SegmentModel

  // ---------------------------------------------------------------- greedy grouping is minimal

  /** No grouping has fewer segments than the scatterlist, nor as many with a shorter last one. */
  lemma {:induction false} GreedyIsMinimal(q: Limits, bvs: seq<Bvec>, cut: seq<bool>)
    requires Grouping(q, bvs, cut)
    ensures |Mapped(q, bvs)| <= GroupCount(cut)
    ensures bvs != [] && |Mapped(q, bvs)| == GroupCount(cut) ==> Last(Mapped(q, bvs)).length <= LastSize(bvs, cut)
  {
    if |bvs| == 1 {
      assert Last(cut) && GroupCount(Init(cut)) == 0;
    } else if bvs != [] {
      GreedyIsMinimal(q, Init(bvs), Init(cut));
    }
  }

  lemma {:induction false} CutsGroup(q: Limits, bvs: seq<Bvec>)
    ensures Grouping(q, bvs, Cuts(q, bvs))
  {
    if bvs != [] {
      CutsGroup(q, Init(bvs));
      assert Init(Cuts(q, bvs)) == Cuts(q, Init(bvs));
    }
  }

  // ---------------------------------------------------------------- joining groupings

  lemma InitPlus<T>(a: seq<T>, b: seq<T>)
    requires b != []
    ensures Init(a + b) == a + Init(b) && Last(a + b) == Last(b) && |a + b| == |a| + |b|
  {
  }

  lemma {:induction false} CountPlus(a: seq<bool>, b: seq<bool>)
    ensures GroupCount(a + b) == GroupCount(a) + GroupCount(b)
  {
    if b == [] {
      assert a + b == a;
    } else {
      InitPlus(a, b);
      CountPlus(a, Init(b));
    }
  }

  lemma {:induction false} StartsCut(q: Limits, bvs: seq<Bvec>, cut: seq<bool>)
    requires Grouping(q, bvs, cut) && bvs != []
    ensures cut[0] && GroupCount(cut) >= 1
  {
    if |bvs| > 1 {
      StartsCut(q, Init(bvs), Init(cut));
    }
  }

  lemma {:induction false} FirstFits(q: Limits, bvs: seq<Bvec>, cut: seq<bool>)
    requires Grouping(q, bvs, cut)
    ensures GroupCount(cut) <= 1 ==> FirstSize(bvs, cut) == LastSize(bvs, cut)
    ensures bvs != [] ==> FirstSize(Init(bvs), Init(cut)) <= FirstSize(bvs, cut)
  {
    if |bvs| == 1 {
      assert FirstSize(Init(bvs), Init(cut)) == 0;
    } else if bvs != [] {
      StartsCut(q, bvs, cut);
      StartsCut(q, Init(bvs), Init(cut));
      FirstFits(q, Init(bvs), Init(cut));
    }
  }

  /** Two groupings side by side. */
  lemma {:induction false} Beside(q: Limits, a: seq<Bvec>, b: seq<Bvec>, ca: seq<bool>, cb: seq<bool>)
    requires Grouping(q, a, ca) && Grouping(q, b, cb) && a != [] && b != []
    ensures Grouping(q, a + b, ca + cb) && GroupCount(ca + cb) == GroupCount(ca) + GroupCount(cb)
    ensures FirstSize(a + b, ca + cb) == FirstSize(a, ca) && LastSize(a + b, ca + cb) == LastSize(b, cb)
    decreases |b|
  {
    CountPlus(ca, cb);
    StartsCut(q, a, ca);
    StartsCut(q, b, cb);
    InitPlus(a, b);
    InitPlus(ca, cb);
    if |b| == 1 {
      assert a + Init(b) == a && ca + Init(cb) == ca;
    } else {
      Beside(q, a, Init(b), ca, Init(cb));
    }
  }

  function Welded(ca: seq<bool>, cb: seq<bool>): seq<bool>
    requires cb != []
  {
    ca + cb[0 := false]
  }

  /** What is known when the last segment of `a` and the first of `b` become one. */
  ghost predicate WeldedWell(q: Limits, a: seq<Bvec>, b: seq<Bvec>, ca: seq<bool>, cb: seq<bool>)
    requires |ca| == |a| && |cb| == |b| && b != []
  {
    var c := Welded(ca, cb);
    && Grouping(q, a + b, c) && GroupCount(c) == GroupCount(ca) + GroupCount(cb) - 1
    && FirstSize(a + b, c) == (if GroupCount(ca) == 1 then LastSize(a, ca) + FirstSize(b, cb) else FirstSize(a, ca))
    && LastSize(a + b, c) == (if GroupCount(cb) == 1 then LastSize(a, ca) else 0) + LastSize(b, cb)
  }

  lemma {:induction false} Weld(q: Limits, a: seq<Bvec>, b: seq<Bvec>, ca: seq<bool>, cb: seq<bool>)
    requires Grouping(q, a, ca) && Grouping(q, b, cb) && a != [] && b != []
    requires q.cluster && Joinable(q, Last(a), b[0]) && LastSize(a, ca) + FirstSize(b, cb) <= q.maxSegmentSize
    ensures WeldedWell(q, a, b, ca, cb)
    decreases |b|
  {
    StartsCut(q, a, ca);
    StartsCut(q, b, cb);
    FirstFits(q, a, ca);
    FirstFits(q, b, cb);
    InitPlus(a, b);
    InitPlus(ca, cb[0 := false]);
    var c := Welded(ca, cb);
    assert (a + b)[|a| + |b| - 2] == if |b| == 1 then Last(a) else b[|b| - 2];
    if |b| == 1 {
      assert a + Init(b) == a && ca + Init(cb[0 := false]) == ca;
    } else {
      StartsCut(q, Init(b), Init(cb));
      Weld(q, a, Init(b), ca, Init(cb));
      assert Init(c) == Welded(ca, Init(cb)) by {
        assert Init(cb[0 := false]) == Init(cb)[0 := false];
      }
    }
    assert Grouping(q, a + b, c);
    assert GroupCount(c) == GroupCount(ca) + GroupCount(cb) - 1;
    assert LastSize(a + b, c) == (if GroupCount(cb) == 1 then LastSize(a, ca) else 0) + LastSize(b, cb);
  }
}
