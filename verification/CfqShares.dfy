/**
 The shares of the groups on the service tree never add up to more than the whole disk, although each share is
 rounded down at every level of the hierarchy.
 */
module CfqShares {
  import opened Lists
  import opened CfqModel
  import opened CfqWeights

  // ---------------------------------------------------------------- arithmetic

  lemma MulMono(a: real, b: real, c: real)
    requires a <= b && c >= 0.0
    ensures a * c <= b * c
  {
  }

  /** The part `a` of `cw` gets of the fraction `t`. */
  ghost function Part(t: real, a: nat, cw: nat): real
    requires cw > 0
  {
    t * (a as real / cw as real)
  }

  /** Reduction modulo 2^32 and integer division round down. */
  lemma FloorLe(a: nat, b: nat, c: nat)
    requires c > 0
    ensures (a * b % U32 / c) as real <= Part(a as real, b, c)
  {
    var q := a * b % U32 / c;
    assert q * c <= a * b % U32 <= a * b;
    assert (q * c) as real == q as real * c as real;
    assert (a * b) as real == a as real * b as real;
    DivLe(q as real, a as real * b as real, c as real);
    assert a as real * b as real / c as real == a as real * (b as real / c as real);
  }

  lemma DivLe(q: real, n: real, c: real)
    requires c > 0.0 && q * c <= n
    ensures q <= n / c
  {
    assert n / c * c == n;
  }

  // ---------------------------------------------------------------- exact shares

  /** An active group has active ancestors, each counting the weight of the one below. */
  lemma ActiveParent(gs: Groups, c: nat)
    requires Inv(gs, true) && c < |gs| <= MOST_GROUPS && gs[c].Active() && gs[c].parent.Some?
    ensures var p := gs[c].parent.value;
            p < c && gs[p].Active() && gs[p].childrenWeight >= gs[c].weight > 0
  {
    assert GroupOk(gs[c], c);
    ActiveChildCounts(gs, c, |gs|);
    assert Counted(gs, gs[c].parent.value, true);
    PlainSum(gs, gs[c].parent.value);
  }

  lemma ActiveWeighs(gs: Groups, x: nat)
    requires Inv(gs, true) && x < |gs| <= MOST_GROUPS && gs[x].onTree
    ensures gs[x].Active() && gs[x].childrenWeight >= gs[x].leafWeight > 0
  {
    assert Counted(gs, x, true) && GroupOk(gs[x], x);
    PlainSum(gs, x);
  }

  /** The exact fraction of the disk an active group gets, for itself and everything below it. */
  ghost function Top(gs: Groups, x: nat): real
    requires Shape(gs) && x < |gs|
    decreases x
  {
    if gs[x].parent.None? then 1.0
    else
      var p := gs[x].parent.value;
      if gs[p].childrenWeight == 0 then 0.0
      else Part(Top(gs, p), gs[x].weight, gs[p].childrenWeight)
  }

  /** The exact fraction for the tasks of the group itself. */
  ghost function Leaf(gs: Groups, x: nat): real
    requires Shape(gs) && x < |gs|
  {
    if gs[x].childrenWeight == 0 then 0.0
    else Part(Top(gs, x), gs[x].leafWeight, gs[x].childrenWeight)
  }

  lemma PartNonNegative(t: real, a: nat, cw: nat)
    requires t >= 0.0 && cw > 0
    ensures Part(t, a, cw) >= 0.0
  {
    assert a as real / cw as real >= 0.0;
  }

  lemma PartSwap(a: real, t: real, w: nat, cw: nat)
    requires cw > 0
    ensures Part(a, w, cw) * t == a * Part(t, w, cw)
  {
    var r := w as real / cw as real;
    assert a * r * t == a * (t * r);
  }

  lemma {:induction false} TopNonNegative(gs: Groups, x: nat)
    requires Shape(gs) && x < |gs|
    ensures Top(gs, x) >= 0.0
    decreases x
  {
    if gs[x].parent.Some? {
      var p := gs[x].parent.value;
      TopNonNegative(gs, p);
      if gs[p].childrenWeight > 0 {
        PartNonNegative(Top(gs, p), gs[x].weight, gs[p].childrenWeight);
      }
    }
  }

  /** The rounded walk to the root never exceeds the exact fraction. */
  lemma {:induction false} CompoundLe(gs: Groups, vfr: nat, pos: nat)
    requires Shape(gs) && pos < |gs|
    ensures Compound(gs, vfr, pos).Some? ==> Compound(gs, vfr, pos).value as real <= vfr as real * Top(gs, pos)
    decreases pos
  {
    if gs[pos].parent.Some? {
      var p := gs[pos].parent.value;
      if gs[p].childrenWeight > 0 {
        var w, cw := gs[pos].weight, gs[p].childrenWeight;
        var v := vfr * w % U32 / cw;
        CompoundLe(gs, v, p);
        FloorLe(vfr, w, cw);
        TopNonNegative(gs, p);
        MulMono(v as real, Part(vfr as real, w, cw), Top(gs, p));
        PartSwap(vfr as real, Top(gs, p), w, cw);
      }
    }
  }

  lemma ShareLe(gs: Groups, g: nat)
    requires Shape(gs) && g < |gs|
    ensures Share(gs, g).Some? ==> Share(gs, g).value as real <= ONE as real * Leaf(gs, g)
  {
    if gs[g].childrenWeight > 0 {
      var l, cw := gs[g].leafWeight, gs[g].childrenWeight;
      var v := ONE * l % U32 / cw;
      CompoundLe(gs, v, g);
      FloorLe(ONE, l, cw);
      TopNonNegative(gs, g);
      MulMono(v as real, Part(ONE as real, l, cw), Top(gs, g));
      PartSwap(ONE as real, Top(gs, g), l, cw);
    }
  }

  // ---------------------------------------------------------------- the exact fractions add up

  /** What the active children of `x` among the first `m` groups get together. */
  ghost function ChildTop(gs: Groups, x: nat, m: nat): real
    requires Shape(gs) && m <= |gs|
  {
    if m == 0 then 0.0
    else ChildTop(gs, x, m - 1) + if gs[m - 1].parent == Some(x) && gs[m - 1].Active() then Top(gs, m - 1) else 0.0
  }

  lemma PartsAdd(t: real, a: nat, b: nat, cw: nat)
    requires cw > 0
    ensures Part(t, a, cw) + Part(t, b, cw) == Part(t, a + b, cw)
    ensures Part(t, 0, cw) == 0.0 && Part(t, cw, cw) == t
  {
    var x, y, z := a as real, b as real, cw as real;
    assert x / z + y / z == (x + y) / z;
    assert t * (x / z + y / z) == t * (x / z) + t * (y / z);
    assert z / z == 1.0;
  }

  lemma {:induction false} ChildTopIs(gs: Groups, x: nat, m: nat)
    requires Shape(gs) && x < |gs| && m <= |gs| && gs[x].childrenWeight > 0
    ensures ChildTop(gs, x, m) == Part(Top(gs, x), ChildWeight(gs, x, m), gs[x].childrenWeight)
  {
    if m == 0 {
      PartsAdd(Top(gs, x), 0, 0, gs[x].childrenWeight);
    } else {
      ChildTopIs(gs, x, m - 1);
      if gs[m - 1].parent == Some(x) && gs[m - 1].Active() {
        PartsAdd(Top(gs, x), ChildWeight(gs, x, m - 1), gs[m - 1].weight, gs[x].childrenWeight);
      }
    }
  }

  /** A group's fraction is split between its own tasks and its active children, without remainder. */
  lemma Split(gs: Groups, x: nat)
    requires Inv(gs, true) && x < |gs| <= MOST_GROUPS && gs[x].Active()
    ensures Top(gs, x) == (if gs[x].onTree then Leaf(gs, x) else 0.0) + ChildTop(gs, x, |gs|)
  {
    assert Counted(gs, x, true) && GroupOk(gs[x], x);
    PlainSum(gs, x);
    PositiveSum(gs, x, |gs|);
    ChildTopIs(gs, x, |gs|);
    PartsAdd(Top(gs, x), if gs[x].onTree then gs[x].leafWeight else 0, ChildWeight(gs, x, |gs|), gs[x].childrenWeight);
  }

  lemma {:induction false} PositiveSum(gs: Groups, x: nat, m: nat)
    requires Shape(gs) && m <= |gs|
    ensures ChildCount(gs, x, m) > 0 ==> ChildWeight(gs, x, m) > 0
  {
    if m > 0 {
      PositiveSum(gs, x, m - 1);
      assert GroupOk(gs[m - 1], m - 1);
    }
  }

  ghost function SumTop(gs: Groups, n: nat): real
    requires Shape(gs) && n <= |gs|
  {
    if n == 0 then 0.0 else SumTop(gs, n - 1) + if gs[n - 1].Active() then Top(gs, n - 1) else 0.0
  }

  ghost function SumLeaf(gs: Groups, n: nat): real
    requires Shape(gs) && n <= |gs|
  {
    if n == 0 then 0.0 else SumLeaf(gs, n - 1) + if gs[n - 1].onTree then Leaf(gs, n - 1) else 0.0
  }

  /** What the first `n` groups pass on to their active children among the first `m`. */
  ghost function SumChild(gs: Groups, n: nat, m: nat): real
    requires Shape(gs) && n <= |gs| && m <= |gs|
  {
    if n == 0 then 0.0 else SumChild(gs, n - 1, m) + ChildTop(gs, n - 1, m)
  }

  lemma {:induction false} SumChildNone(gs: Groups, n: nat)
    requires Shape(gs) && n <= |gs|
    ensures SumChild(gs, n, 0) == 0.0
  {
    if n > 0 {
      SumChildNone(gs, n - 1);
    }
  }

  /** Group `m` receives its fraction from exactly one group. */
  lemma {:induction false} SumChildStep(gs: Groups, n: nat, m: nat)
    requires Shape(gs) && n <= |gs| && m < |gs|
    ensures SumChild(gs, n, m + 1) == SumChild(gs, n, m) +
            if gs[m].Active() && gs[m].parent.Some? && gs[m].parent.value < n then Top(gs, m) else 0.0
  {
    if n > 0 {
      SumChildStep(gs, n - 1, m);
    }
  }

  lemma {:induction false} SumChildIs(gs: Groups, m: nat)
    requires Shape(gs) && 0 < m <= |gs| && gs[0].parent.None?
    ensures SumChild(gs, |gs|, m) == SumTop(gs, m) - if gs[0].Active() then 1.0 else 0.0
  {
    SumChildStep(gs, |gs|, m - 1);
    if m == 1 {
      SumChildNone(gs, |gs|);
      assert SumTop(gs, 0) == 0.0;
    } else {
      SumChildIs(gs, m - 1);
    }
  }

  lemma {:induction false} SumLeafIs(gs: Groups, n: nat)
    requires Inv(gs, true) && n <= |gs| <= MOST_GROUPS
    ensures SumLeaf(gs, n) == SumTop(gs, n) - SumChild(gs, n, |gs|)
  {
    if n > 0 {
      SumLeafIs(gs, n - 1);
      var x := n - 1;
      if gs[x].Active() {
        Split(gs, x);
      } else {
        InactiveIsEmpty(gs, x, true);
        NoChildTop(gs, x, |gs|);
      }
    }
  }

  lemma {:induction false} NoChildTop(gs: Groups, x: nat, m: nat)
    requires Shape(gs) && m <= |gs| && forall c :: 0 <= c < |gs| && gs[c].parent == Some(x) ==> !gs[c].Active()
    ensures ChildTop(gs, x, m) == 0.0
  {
    if m > 0 {
      NoChildTop(gs, x, m - 1);
    }
  }

  // ---------------------------------------------------------------- the rounded shares

  /** The shares of the groups on the tree among the first `n`. */
  function SumShare(gs: Groups, n: nat): nat
    requires Shape(gs) && n <= |gs|
  {
    if n == 0 then 0
    else SumShare(gs, n - 1) + if gs[n - 1].onTree && Share(gs, n - 1).Some? then Share(gs, n - 1).value else 0
  }

  lemma LeafNonNegative(gs: Groups, x: nat)
    requires Shape(gs) && x < |gs|
    ensures Leaf(gs, x) >= 0.0
  {
    TopNonNegative(gs, x);
    if gs[x].childrenWeight > 0 {
      PartNonNegative(Top(gs, x), gs[x].leafWeight, gs[x].childrenWeight);
    }
  }

  lemma {:induction false} SumShareLe(gs: Groups, n: nat)
    requires Shape(gs) && n <= |gs|
    ensures SumShare(gs, n) as real <= ONE as real * SumLeaf(gs, n)
  {
    if n > 0 {
      SumShareLe(gs, n - 1);
      ShareLe(gs, n - 1);
      LeafNonNegative(gs, n - 1);
    }
  }

  /** The vfractions of all groups on the service tree add up to at most 1 in fixed point. */
  lemma SharesFit(gs: Groups)
    requires Inv(gs, true) && |gs| <= MOST_GROUPS
    ensures SumShare(gs, |gs|) <= ONE
  {
    if |gs| > 0 {
      SumShareLe(gs, |gs|);
      SumLeafIs(gs, |gs|);
      assert gs[0].parent.None?;
      SumChildIs(gs, |gs|);
      assert SumLeaf(gs, |gs|) <= 1.0;
    }
  }

  // ---------------------------------------------------------------- no division by zero

  lemma TimesMono(a: nat, b: nat, c: nat)
    requires a <= b
    ensures a * c <= b * c && c * a <= c * b
  {
  }

  lemma QuotientMost(n: nat, v: nat, sum: nat)
    requires sum > 0 && n <= v * sum
    ensures n / sum <= v
  {
    var q := n / sum;
    if q > v {
      TimesMono(v + 1, q, sum);
    }
  }

  lemma ScaledLess(vfr: nat, w: nat, sum: nat)
    requires vfr <= ONE && 0 < w <= sum && w <= WEIGHT_MAX
    ensures Scaled(vfr, w, sum) == Some(vfr * w / sum) && vfr * w / sum <= vfr
  {
    TimesMono(vfr, ONE, w);
    TimesMono(w, sum, vfr);
    QuotientMost(vfr * w, vfr, sum);
  }

  /** The walk from an active group neither divides by zero nor leaves the range of fractions. */
  lemma {:induction false} CompoundDefined(gs: Groups, vfr: nat, pos: nat)
    requires Inv(gs, true) && pos < |gs| <= MOST_GROUPS && gs[pos].Active() && vfr <= ONE
    ensures Compound(gs, vfr, pos).Some? && Compound(gs, vfr, pos).value <= vfr
    decreases pos
  {
    if gs[pos].parent.Some? {
      var p := gs[pos].parent.value;
      ActiveParent(gs, pos);
      assert GroupOk(gs[pos], pos);
      ScaledLess(vfr, gs[pos].weight, gs[p].childrenWeight);
      CompoundDefined(gs, vfr * gs[pos].weight / gs[p].childrenWeight, p);
    }
  }

  /** While the sums are right every group on the tree has a share, and it is a fraction. */
  lemma ShareDefined(gs: Groups, g: nat)
    requires Inv(gs, true) && g < |gs| <= MOST_GROUPS && gs[g].onTree
    ensures Share(gs, g).Some? && Share(gs, g).value <= ONE
  {
    ActiveWeighs(gs, g);
    assert GroupOk(gs[g], g);
    ScaledLess(ONE, gs[g].leafWeight, gs[g].childrenWeight);
    CompoundDefined(gs, ONE * gs[g].leafWeight / gs[g].childrenWeight, g);
  }

  // ---------------------------------------------------------------- what rounding takes off

  /** The levels above a group. */
  function Depth(gs: Groups, x: nat): nat
    requires Shape(gs) && x < |gs|
    decreases x
  {
    if gs[x].parent.None? then 0 else 1 + Depth(gs, gs[x].parent.value)
  }

  lemma PartLe(t: real, a: nat, cw: nat)
    requires 0.0 <= t <= 1.0 && a <= cw && cw > 0
    ensures Part(t, a, cw) <= 1.0
  {
    var r := a as real / cw as real;
    assert r * cw as real == a as real;
    assert r <= 1.0;
    MulMono(t, 1.0, r);
  }

  lemma {:induction false} TopLeOne(gs: Groups, x: nat)
    requires Inv(gs, true) && x < |gs| <= MOST_GROUPS && gs[x].Active()
    ensures 0.0 <= Top(gs, x) <= 1.0
    decreases x
  {
    if gs[x].parent.Some? {
      var p := gs[x].parent.value;
      ActiveParent(gs, x);
      TopLeOne(gs, p);
      PartLe(Top(gs, p), gs[x].weight, gs[p].childrenWeight);
      PartNonNegative(Top(gs, p), gs[x].weight, gs[p].childrenWeight);
    }
  }

  /** Integer division takes off less than 1. */
  lemma FloorGe(a: nat, b: nat, c: nat)
    requires c > 0
    ensures (a * b / c) as real > Part(a as real, b, c) - 1.0
  {
    var q := a * b / c;
    assert a * b < (q + 1) * c;
    assert ((q + 1) * c) as real == (q + 1) as real * c as real;
    assert (a * b) as real == a as real * b as real;
    DivLess(a as real * b as real, (q + 1) as real, c as real);
    assert a as real * b as real / c as real == a as real * (b as real / c as real);
  }

  lemma DivLess(n: real, q: real, c: real)
    requires c > 0.0 && n < q * c
    ensures n / c < q
  {
    assert n / c * c == n;
    if n / c >= q {
      MulMono(q, n / c, c);
    }
  }

  /** A step that takes off less than 1 takes off less than 1 of the product with a fraction. */
  lemma LossAtMostOne(v: real, e: real, t: real)
    requires v > e - 1.0 && 0.0 <= t <= 1.0
    ensures v * t >= e * t - 1.0
  {
    calc >= {
      v * t;
      { MulMono(e - 1.0, v, t); }
      (e - 1.0) * t;
      e * t - t;
      e * t - 1.0;
    }
  }

  /** Every level of the walk to the root takes off at most 1. */
  lemma {:induction false} CompoundGe(gs: Groups, vfr: nat, pos: nat)
    requires Inv(gs, true) && pos < |gs| <= MOST_GROUPS && gs[pos].Active() && vfr <= ONE
    ensures Compound(gs, vfr, pos).Some?
    ensures Compound(gs, vfr, pos).value as real >= vfr as real * Top(gs, pos) - Depth(gs, pos) as real
    decreases pos
  {
    if gs[pos].parent.Some? {
      var p := gs[pos].parent.value;
      ActiveParent(gs, pos);
      assert GroupOk(gs[pos], pos);
      var w, cw := gs[pos].weight, gs[p].childrenWeight;
      ScaledLess(vfr, w, cw);
      var v := vfr * w / cw;
      CompoundGe(gs, v, p);
      TopLeOne(gs, p);
      FloorGe(vfr, w, cw);
      LossAtMostOne(v as real, Part(vfr as real, w, cw), Top(gs, p));
      PartSwap(vfr as real, Top(gs, p), w, cw);
    }
  }

  /** The share of a group is its exact fraction, less at most 1 for its own level and each above it. */
  lemma ShareIsFraction(gs: Groups, g: nat)
    requires Inv(gs, true) && g < |gs| <= MOST_GROUPS && gs[g].onTree
    ensures Share(gs, g).Some?
    ensures ONE as real * Leaf(gs, g) - (Depth(gs, g) + 1) as real <= Share(gs, g).value as real
    ensures Share(gs, g).value as real <= ONE as real * Leaf(gs, g)
  {
    ActiveWeighs(gs, g);
    assert GroupOk(gs[g], g);
    var l, cw := gs[g].leafWeight, gs[g].childrenWeight;
    ScaledLess(ONE, l, cw);
    var v := ONE * l / cw;
    CompoundGe(gs, v, g);
    TopLeOne(gs, g);
    FloorGe(ONE, l, cw);
    LossAtMostOne(v as real, Part(ONE as real, l, cw), Top(gs, g));
    PartSwap(ONE as real, Top(gs, g), l, cw);
    ShareLe(gs, g);
  }
}
