/**
 nr_active and children_weight of every group. The count is right in every reachable state; the sum is as long as no
 group that its parent already counts takes up a new weight, which the flag `sums` of the predicates stands for.
 */
module CfqWeights {
  import opened Lists
  import opened CfqModel

  /** The active children of `x` among the first `m` groups, and the sum of their weights. */
  function ChildCount(gs: Groups, x: nat, m: nat): nat
    requires m <= |gs|
  {
    if m == 0 then 0
    else ChildCount(gs, x, m - 1) + if gs[m - 1].parent == Some(x) && gs[m - 1].Active() then 1 else 0
  }

  function ChildWeight(gs: Groups, x: nat, m: nat): nat
    requires m <= |gs|
  {
    if m == 0 then 0
    else ChildWeight(gs, x, m - 1) + if gs[m - 1].parent == Some(x) && gs[m - 1].Active() then gs[m - 1].weight else 0
  }

  /** What nr_active and children_weight of `x` have to be. */
  function WantCount(gs: Groups, x: nat): nat
    requires x < |gs|
  {
    (if gs[x].onTree then 1 else 0) + ChildCount(gs, x, |gs|)
  }

  function WantWeight(gs: Groups, x: nat): nat
    requires x < |gs|
  {
    (if gs[x].onTree then gs[x].leafWeight else 0) + ChildWeight(gs, x, |gs|)
  }

  ghost predicate Counted(gs: Groups, x: nat, sums: bool)
    requires x < |gs|
  {
    gs[x].nrActive == WantCount(gs, x) && (sums ==> gs[x].childrenWeight == WantWeight(gs, x) % U32)
  }

  ghost predicate Inv(gs: Groups, sums: bool) {
    Shape(gs) && forall x :: 0 <= x < |gs| ==> Counted(gs, x, sums)
  }

  /** The counts alone. */
  lemma InvCounts(gs: Groups)
    requires Inv(gs, true)
    ensures Inv(gs, false)
  {
    forall x | 0 <= x < |gs| ensures Counted(gs, x, false) {
      assert Counted(gs, x, true);
    }
  }

  lemma AddWraps(want: nat, w: nat)
    ensures Add32(want % U32, w) == (want + w) % U32
  {
  }

  lemma SubWraps(want: nat, w: nat)
    ensures Sub32((want + w) % U32, w) == want % U32
  {
  }

  /** `gs'` is `gs` with group `y` changed, but not its place, weights or tree membership. */
  ghost predicate Changed(gs: Groups, gs': Groups, y: nat) {
    && y < |gs| && |gs'| == |gs| && gs' == gs[y := gs'[y]]
    && gs'[y].parent == gs[y].parent && gs'[y].weight == gs[y].weight && gs'[y].leafWeight == gs[y].leafWeight
  }

  lemma {:induction false} ChildrenChange(gs: Groups, gs': Groups, y: nat, x: nat, m: nat)
    requires Changed(gs, gs', y) && m <= |gs|
    ensures var mine := gs[y].parent == Some(x) && y < m;
            var before, after := mine && gs[y].Active(), mine && gs'[y].Active();
            && ChildCount(gs', x, m) + (if before then 1 else 0) == ChildCount(gs, x, m) + (if after then 1 else 0)
            && ChildWeight(gs', x, m) + (if before then gs[y].weight else 0)
               == ChildWeight(gs, x, m) + (if after then gs[y].weight else 0)
  {
    if m > 0 {
      ChildrenChange(gs, gs', y, x, m - 1);
    }
  }

  /** A group that stays active, or inactive, leaves the counts of all others as they were. */
  lemma SameActivity(gs: Groups, gs': Groups, y: nat)
    requires Changed(gs, gs', y) && gs'[y].Active() == gs[y].Active()
    ensures forall x :: 0 <= x < |gs| ==> ChildCount(gs', x, |gs|) == ChildCount(gs, x, |gs|)
    ensures forall x :: 0 <= x < |gs| ==> ChildWeight(gs', x, |gs|) == ChildWeight(gs, x, |gs|)
  {
    forall x | 0 <= x < |gs|
      ensures ChildCount(gs', x, |gs|) == ChildCount(gs, x, |gs|)
      ensures ChildWeight(gs', x, |gs|) == ChildWeight(gs, x, |gs|)
    {
      ChildrenChange(gs, gs', y, x, |gs|);
    }
  }

  /** Group `x` counts right, except that the parent of `pos` has not heard of the activation of `pos`. */
  ghost predicate OwingAt(gs: Groups, pos: nat, x: nat, sums: bool)
    requires pos < |gs| && x < |gs|
  {
    if gs[pos].parent == Some(x)
    then
      && gs[x].nrActive + 1 == WantCount(gs, x)
      && (sums ==> Add32(gs[x].childrenWeight, gs[pos].weight) == WantWeight(gs, x) % U32)
    else Counted(gs, x, sums)
  }

  ghost predicate Owing(gs: Groups, pos: nat, sums: bool) {
    && Shape(gs) && pos < |gs| && gs[pos].Active()
    && forall x :: 0 <= x < |gs| ==> OwingAt(gs, pos, x, sums)
  }

  ghost predicate SameButCounts(gs: Groups, gs': Groups) {
    && |gs'| == |gs|
    && forall x :: 0 <= x < |gs| ==>
         gs'[x] == gs[x].(nrActive := gs'[x].nrActive, childrenWeight := gs'[x].childrenWeight,
                          vfraction := gs'[x].vfraction)
  }

  /** One turn of the propagating loop of cfq_group_service_tree_add. */
  function RaiseOne(gs: Groups, pos: nat): Groups
    requires Shape(gs) && pos < |gs| && gs[pos].parent.Some?
  {
    var p := gs[pos].parent.value;
    gs[p := gs[p].(nrActive := gs[p].nrActive + 1, childrenWeight := Add32(gs[p].childrenWeight, gs[pos].weight))]
  }

  lemma OneRaise(gs: Groups, pos: nat, x: nat, sums: bool)
    requires Shape(gs) && pos < |gs| && gs[pos].parent.Some? && gs[pos].Active() && x < |gs|
    requires OwingAt(gs, pos, x, sums) && OwingAt(gs, pos, gs[pos].parent.value, sums)
    ensures var p, up := gs[pos].parent.value, RaiseOne(gs, pos);
            && |up| == |gs| && up[p].Active()
            && if gs[p].nrActive != 0 then Counted(up, x, sums) else OwingAt(up, p, x, sums)
  {
    var p, up := gs[pos].parent.value, RaiseOne(gs, pos);
    assert GroupOk(gs[pos], pos) && GroupOk(gs[p], p);
    ActiveChildCounts(gs, pos, |gs|);
    assert Changed(gs, up, p);
    ChildrenChange(gs, up, p, x, |gs|);
    AddWraps(WantWeight(gs, x), gs[p].weight);
  }

  /** An active group is counted by its parent. */
  lemma {:induction false} ActiveChildCounts(gs: Groups, c: nat, m: nat)
    requires c < m <= |gs| && gs[c].Active() && gs[c].parent.Some?
    ensures ChildCount(gs, gs[c].parent.value, m) >= 1
    ensures ChildWeight(gs, gs[c].parent.value, m) >= gs[c].weight
  {
    if c < m - 1 {
      ActiveChildCounts(gs, c, m - 1);
    }
  }

  lemma RaisedShape(gs: Groups, pos: nat)
    requires Shape(gs) && pos < |gs| && gs[pos].parent.Some?
    ensures gs[pos].parent.value < pos && Shape(RaiseOne(gs, pos))
  {
    var p, up := gs[pos].parent.value, RaiseOne(gs, pos);
    assert GroupOk(gs[pos], pos);
    forall i | 0 <= i < |up| ensures GroupOk(up[i], i) {
      assert GroupOk(gs[i], i);
    }
  }

  lemma {:induction false} RaisedInv(gs: Groups, pos: nat, sums: bool)
    requires Owing(gs, pos, sums)
    ensures Inv(Raised(gs, pos), sums) && SameButCounts(gs, Raised(gs, pos))
    decreases pos
  {
    if gs[pos].parent.Some? {
      var p, up := gs[pos].parent.value, RaiseOne(gs, pos);
      RaisedShape(gs, pos);
      assert OwingAt(gs, pos, p, sums);
      forall x | 0 <= x < |gs| ensures if gs[p].nrActive != 0 then Counted(up, x, sums) else OwingAt(up, p, x, sums) {
        assert OwingAt(gs, pos, x, sums);
        OneRaise(gs, pos, x, sums);
      }
      OneRaise(gs, pos, p, sums);
      if gs[p].nrActive == 0 {
        RaisedInv(up, p, sums);
      }
    } else {
      forall x | 0 <= x < |gs| ensures Counted(gs, x, sums) {
        assert OwingAt(gs, pos, x, sums);
      }
    }
  }

  /** The group's own part of cfq_group_service_tree_add. */
  function Joined(gs: Groups, g: nat): Groups
    requires g < |gs|
  {
    gs[g := gs[g].(onTree := true, nrActive := gs[g].nrActive + 1,
                   childrenWeight := Add32(gs[g].childrenWeight, gs[g].leafWeight))]
  }

  lemma JoinedAt(gs: Groups, g: nat, x: nat, sums: bool)
    requires g < |gs| && x < |gs| && !gs[g].onTree && gs[g].parent != Some(g)
    requires Counted(gs, x, sums) && Counted(gs, g, sums)
    ensures |Joined(gs, g)| == |gs| && Joined(gs, g)[g].Active()
    ensures if gs[g].nrActive != 0 then Counted(Joined(gs, g), x, sums) else OwingAt(Joined(gs, g), g, x, sums)
  {
    var own := Joined(gs, g);
    assert Changed(gs, own, g);
    ChildrenChange(gs, own, g, x, |gs|);
    AddWraps(WantWeight(gs, g), gs[g].leafWeight);
    if gs[g].parent == Some(x) {
      AddWraps(WantWeight(gs, x), gs[g].weight);
    }
  }

  /** A change that keeps place and weights keeps the shape. */
  lemma ChangedShape(gs: Groups, gs': Groups, y: nat)
    requires Shape(gs) && Changed(gs, gs', y)
    requires gs'[y].newWeight == gs[y].newWeight && gs'[y].newLeafWeight == gs[y].newLeafWeight
    ensures Shape(gs')
  {
    forall i | 0 <= i < |gs'| ensures GroupOk(gs'[i], i) {
      assert GroupOk(gs[i], i);
    }
  }

  /** Activating a group keeps every count right, and changes nothing but counts and its own membership. */
  lemma ActivatedInv(gs: Groups, g: nat, sums: bool)
    requires Inv(gs, sums) && g < |gs| && !gs[g].onTree
    ensures Inv(Activated(gs, g), sums) && SameButCounts(gs[g := gs[g].(onTree := true)], Activated(gs, g))
  {
    var own := Joined(gs, g);
    ChangedShape(gs, own, g);
    assert GroupOk(gs[g], g) && Counted(gs, g, sums);
    JoinedAt(gs, g, g, sums);
    forall x | 0 <= x < |gs| ensures if gs[g].nrActive != 0 then Counted(own, x, sums) else OwingAt(own, g, x, sums) {
      assert Counted(gs, x, sums);
      JoinedAt(gs, g, x, sums);
    }
    if gs[g].nrActive == 0 {
      RaisedInv(own, g, sums);
    }
  }

  /** Group `x` counts right, except that the parent of `pos` still counts `pos`, which is inactive. */
  ghost predicate ExcessAt(gs: Groups, pos: nat, x: nat, sums: bool)
    requires pos < |gs| && x < |gs|
  {
    if gs[pos].parent == Some(x)
    then
      && gs[x].nrActive == WantCount(gs, x) + 1
      && (sums ==> gs[x].childrenWeight == (WantWeight(gs, x) + gs[pos].weight) % U32)
    else Counted(gs, x, sums)
  }

  ghost predicate Excess(gs: Groups, pos: nat, sums: bool) {
    && Shape(gs) && pos < |gs| && !gs[pos].Active()
    && forall x :: 0 <= x < |gs| ==> ExcessAt(gs, pos, x, sums)
  }

  function Cleared(gs: Groups, pos: nat): Groups
    requires pos < |gs|
  {
    gs[pos := gs[pos].(vfraction := 0)]
  }

  /** One turn of the loop of cfq_group_service_tree_del. */
  function LowerOne(gs: Groups, pos: nat): Groups
    requires Shape(gs) && pos < |gs| && gs[pos].parent.Some?
  {
    var p := gs[pos].parent.value;
    Cleared(gs, pos)[p := gs[p].(nrActive := gs[p].nrActive - 1,
                                 childrenWeight := Sub32(gs[p].childrenWeight, gs[pos].weight))]
  }

  lemma OneLower(gs: Groups, pos: nat, x: nat, sums: bool)
    requires Shape(gs) && pos < |gs| && gs[pos].parent.Some? && x < |gs|
    requires ExcessAt(gs, pos, x, sums) && ExcessAt(gs, pos, gs[pos].parent.value, sums)
    ensures var p, down := gs[pos].parent.value, LowerOne(gs, pos);
            && |down| == |gs| && down[p].nrActive >= 0
            && if down[p].Active() then Counted(down, x, sums) else ExcessAt(down, p, x, sums)
  {
    var p, down := gs[pos].parent.value, LowerOne(gs, pos);
    var cleared := Cleared(gs, pos);
    assert GroupOk(gs[pos], pos) && GroupOk(gs[p], p);
    assert Changed(gs, cleared, pos) && Changed(cleared, down, p);
    ChildrenChange(gs, cleared, pos, x, |gs|);
    ChildrenChange(cleared, down, p, x, |gs|);
    SubWraps(WantWeight(gs, p), gs[pos].weight);
  }

  lemma LoweredShape(gs: Groups, pos: nat)
    requires Shape(gs) && pos < |gs| && gs[pos].parent.Some?
    ensures gs[pos].parent.value < pos && Shape(LowerOne(gs, pos))
  {
    var p, down := gs[pos].parent.value, LowerOne(gs, pos);
    assert GroupOk(gs[pos], pos);
    forall i | 0 <= i < |down| ensures GroupOk(down[i], i) {
      assert GroupOk(gs[i], i);
    }
  }

  lemma {:induction false} LoweredInv(gs: Groups, pos: nat, sums: bool)
    requires Excess(gs, pos, sums)
    ensures Inv(Lowered(gs, pos), sums) && SameButCounts(gs, Lowered(gs, pos))
    decreases pos
  {
    if gs[pos].parent.Some? {
      var p, down := gs[pos].parent.value, LowerOne(gs, pos);
      LoweredShape(gs, pos);
      assert ExcessAt(gs, pos, p, sums);
      forall x | 0 <= x < |gs| ensures if down[p].Active() then Counted(down, x, sums) else ExcessAt(down, p, x, sums) {
        assert ExcessAt(gs, pos, x, sums);
        OneLower(gs, pos, x, sums);
      }
      OneLower(gs, pos, p, sums);
      if !down[p].Active() {
        LoweredInv(down, p, sums);
      }
    } else {
      var cleared := Cleared(gs, pos);
      assert Changed(gs, cleared, pos);
      ChangedShape(gs, cleared, pos);
      SameActivity(gs, cleared, pos);
      forall x | 0 <= x < |gs| ensures Counted(cleared, x, sums) {
        assert ExcessAt(gs, pos, x, sums);
      }
    }
  }

  /** The group's own part of cfq_group_service_tree_del. */
  function Parted(gs: Groups, g: nat): Groups
    requires g < |gs|
  {
    gs[g := gs[g].(onTree := false, nrActive := gs[g].nrActive - 1,
                   childrenWeight := Sub32(gs[g].childrenWeight, gs[g].leafWeight))]
  }

  lemma PartedAt(gs: Groups, g: nat, x: nat, sums: bool)
    requires g < |gs| && x < |gs| && gs[g].onTree && gs[g].parent != Some(g) && Counted(gs, x, sums)
    requires Counted(gs, g, sums)
    ensures |Parted(gs, g)| == |gs| && Parted(gs, g)[g].nrActive >= 0
    ensures if Parted(gs, g)[g].Active() then Counted(Parted(gs, g), x, sums) else ExcessAt(Parted(gs, g), g, x, sums)
  {
    var own := Parted(gs, g);
    assert Changed(gs, own, g);
    ChildrenChange(gs, own, g, x, |gs|);
    SubWraps(ChildWeight(gs, g, |gs|), gs[g].leafWeight);
  }

  /** Deactivating a group keeps every count right. */
  lemma DeactivatedInv(gs: Groups, g: nat, sums: bool)
    requires Inv(gs, sums) && g < |gs| && gs[g].onTree
    ensures Inv(Deactivated(gs, g), sums) && SameButCounts(gs[g := gs[g].(onTree := false)], Deactivated(gs, g))
  {
    var own := Parted(gs, g);
    ChangedShape(gs, own, g);
    assert GroupOk(gs[g], g) && Counted(gs, g, sums);
    PartedAt(gs, g, g, sums);
    forall x | 0 <= x < |gs| ensures if own[g].Active() then Counted(own, x, sums) else ExcessAt(own, g, x, sums) {
      assert Counted(gs, x, sums);
      PartedAt(gs, g, x, sums);
    }
    if !own[g].Active() {
      LoweredInv(own, g, sums);
    }
  }

  // ---------------------------------------------------------------- what the counts are determined by

  ghost predicate SameTree(gs: Groups, gs': Groups) {
    && |gs'| == |gs|
    && forall x :: 0 <= x < |gs| ==>
         && gs'[x].parent == gs[x].parent && gs'[x].onTree == gs[x].onTree
         && gs'[x].weight == gs[x].weight && gs'[x].leafWeight == gs[x].leafWeight
  }

  lemma {:induction false} SameChildren(gs: Groups, gs': Groups, x: nat, m: nat)
    requires SameTree(gs, gs') && Shape(gs) && x < |gs| && m <= |gs|
    requires forall y :: x < y < |gs| ==> gs'[y].nrActive == gs[y].nrActive
    ensures ChildCount(gs', x, m) == ChildCount(gs, x, m) && ChildWeight(gs', x, m) == ChildWeight(gs, x, m)
  {
    if m > 0 {
      SameChildren(gs, gs', x, m - 1);
    }
  }

  /** The counts follow from weights and tree membership alone, whatever happened before. */
  lemma {:induction false} CountsDetermined(gs: Groups, gs': Groups, x: nat)
    requires Inv(gs, true) && Inv(gs', true) && SameTree(gs, gs') && x <= |gs|
    ensures forall y :: x <= y < |gs| ==>
              gs'[y].nrActive == gs[y].nrActive && gs'[y].childrenWeight == gs[y].childrenWeight
    decreases |gs| - x
  {
    if x < |gs| {
      CountsDetermined(gs, gs', x + 1);
      SameChildren(gs, gs', x, |gs|);
      assert Counted(gs, x, true) && Counted(gs', x, true);
    }
  }

  // ---------------------------------------------------------------- deletion undoes addition

  /** children_weight of every group is a 32-bit number. */
  ghost predicate Narrow(gs: Groups) {
    forall x :: 0 <= x < |gs| ==> gs[x].childrenWeight < U32
  }

  lemma SubUndoesAdd(a: nat, b: nat)
    requires a < U32
    ensures Sub32(Add32(a, b), b) == a
  {
  }

  /** Activation changes nothing at or below the group it starts from. */
  lemma {:induction false} RaisedKeeps(gs: Groups, pos: nat)
    requires Shape(gs) && pos < |gs|
    ensures forall x :: pos <= x < |gs| ==> Raised(gs, pos)[x] == gs[x]
    decreases pos
  {
    if gs[pos].parent.Some? {
      RaisedShape(gs, pos);
    }
    if gs[pos].parent.Some? && gs[gs[pos].parent.value].nrActive == 0 {
      RaisedKeeps(RaiseOne(gs, pos), gs[pos].parent.value);
    }
  }

  /** Activation neither moves a group nor changes its weights. */
  lemma {:induction false} ShapeRaised(gs: Groups, pos: nat)
    requires Shape(gs) && pos < |gs|
    ensures Shape(Raised(gs, pos)) && SameButCounts(gs, Raised(gs, pos))
    ensures forall x :: 0 <= x < |gs| ==> Raised(gs, pos)[x].vfraction == gs[x].vfraction
    decreases pos
  {
    if gs[pos].parent.Some? {
      RaisedShape(gs, pos);
    }
    if gs[pos].parent.Some? && gs[gs[pos].parent.value].nrActive == 0 {
      ShapeRaised(RaiseOne(gs, pos), gs[pos].parent.value);
    }
  }

  /** `gs'` is what addition above `pos` has made of `gs`, whatever else happened from `pos` on. */
  ghost predicate RaisedAbove(gs: Groups, gs': Groups, pos: nat) {
    && Shape(gs) && Shape(gs') && Narrow(gs) && pos < |gs| == |gs'|
    && gs'[pos].parent == gs[pos].parent && gs'[pos].weight == gs[pos].weight
    && forall x :: 0 <= x < pos ==> gs'[x] == Raised(gs, pos)[x]
  }

  /** One turn of the loop of the deletion takes back one turn of the addition. */
  lemma TurnBack(gs: Groups, gs': Groups, pos: nat)
    requires RaisedAbove(gs, gs', pos) && gs[pos].parent.Some?
    ensures var p, down := gs[pos].parent.value, LowerOne(gs', pos);
            && p < pos && Shape(down) && |down| == |gs| && down[p] == gs[p]
            && down[pos] == gs'[pos].(vfraction := 0)
            && (forall x :: p < x < |gs| && x != pos ==> down[x] == gs'[x])
            && (forall x :: p < x < pos ==> gs'[x] == gs[x])
            && (if gs[p].nrActive != 0 then forall x :: 0 <= x < p ==> down[x] == gs[x]
                else RaisedAbove(RaiseOne(gs, pos), down, p))
  {
    var p, up := gs[pos].parent.value, RaiseOne(gs, pos);
    RaisedShape(gs, pos);
    LoweredShape(gs', pos);
    if gs[p].nrActive == 0 {
      RaisedKeeps(up, p);
    }
    assert gs'[p] == up[p];
    SubUndoesAdd(gs[p].childrenWeight, gs[pos].weight);
  }

  /** The loop of the deletion gives back what the addition put on the groups above, and leaves the others alone. */
  lemma {:induction false} LoweredUndoes(gs: Groups, gs': Groups, pos: nat)
    requires RaisedAbove(gs, gs', pos)
    ensures var back := Lowered(gs', pos);
            && (forall x :: 0 <= x < pos ==> back[x] == gs[x].(vfraction := back[x].vfraction))
            && (forall x :: pos <= x < |gs| ==> back[x] == gs'[x].(vfraction := back[x].vfraction))
    decreases pos
  {
    if gs[pos].parent.Some? {
      TurnBack(gs, gs', pos);
      var p := gs[pos].parent.value;
      if gs[p].nrActive == 0 {
        LoweredUndoes(RaiseOne(gs, pos), LowerOne(gs', pos), p);
      }
    }
  }

  /** The same whatever share of the disk the addition has worked out for the group. */
  lemma DelUndoesShare(gs: Groups, g: nat, added: Groups)
    requires Shape(gs) && Narrow(gs) && g < |gs| && !gs[g].onTree && |added| == |gs|
    requires added == Activated(gs, g)[g := Activated(gs, g)[g].(vfraction := added[g].vfraction)]
    ensures Shape(added) && SameButVfraction(gs, Deactivated(added, g))
  {
    var own := Joined(gs, g);
    ChangedShape(gs, own, g);
    SubUndoesAdd(gs[g].childrenWeight, gs[g].leafWeight);
    if gs[g].nrActive == 0 {
      RaisedKeeps(own, g);
      ShapeRaised(own, g);
    }
    ChangedShape(Activated(gs, g), added, g);
    ChangedShape(added, Parted(added, g), g);
    if gs[g].nrActive == 0 {
      LoweredUndoes(own, Parted(added, g), g);
    }
  }

  /**
   cfq_group_service_tree_del undoes cfq_group_service_tree_add, whether or not the weight sums are right: it takes
   off exactly the weights the addition has put on.
   */
  lemma DelUndoesAdd(gs: Groups, g: nat)
    requires Shape(gs) && Narrow(gs) && g < |gs| && !gs[g].onTree
    ensures Shape(Activated(gs, g))
    ensures SameButVfraction(gs, Deactivated(Activated(gs, g), g))
  {
    DelUndoesShare(gs, g, Activated(gs, g));
  }

  ghost predicate SameButVfraction(gs: Groups, gs': Groups) {
    && |gs'| == |gs|
    && forall x :: 0 <= x < |gs| ==> gs'[x] == gs[x].(vfraction := gs'[x].vfraction)
  }

  /** An inactive group is off the tree, counts no weight and has no active child. */
  lemma InactiveIsEmpty(gs: Groups, x: nat, sums: bool)
    requires Inv(gs, sums) && x < |gs| && !gs[x].Active()
    ensures !gs[x].onTree && (sums ==> gs[x].childrenWeight == 0)
    ensures forall c :: 0 <= c < |gs| && gs[c].parent == Some(x) ==> !gs[c].Active()
  {
    assert Counted(gs, x, sums);
    NoActiveChild(gs, x, |gs|);
  }

  /** `d` is `x` or a descendant of it. */
  predicate Below(gs: Groups, d: nat, x: nat)
    requires Shape(gs) && d < |gs|
    decreases d
  {
    d == x || (gs[d].parent.Some? && gs[d].parent.value < d && Below(gs, gs[d].parent.value, x))
  }

  lemma {:induction false} BelowTrans(gs: Groups, d: nat, c: nat, x: nat)
    requires Shape(gs) && d < |gs| && c < |gs| && Below(gs, d, c) && Below(gs, c, x)
    ensures Below(gs, d, x)
    decreases d
  {
    if d != c {
      BelowTrans(gs, gs[d].parent.value, c, x);
    }
  }

  /** A group is active exactly when it or a descendant is on the tree. */
  lemma ActiveExactly(gs: Groups, x: nat)
    requires Inv(gs, false) && x < |gs|
    ensures gs[x].Active() <==> exists d :: 0 <= d < |gs| && Below(gs, d, x) && gs[d].onTree
  {
    if gs[x].Active() {
      var d := ActiveBelow(gs, x);
    }
    forall d | 0 <= d < |gs| && Below(gs, d, x) && gs[d].onTree ensures gs[x].Active() {
      assert Counted(gs, d, false);
      ActiveAbove(gs, d, x);
    }
  }

  lemma {:induction false} ActiveAbove(gs: Groups, d: nat, x: nat)
    requires Inv(gs, false) && d < |gs| && Below(gs, d, x) && gs[d].Active()
    ensures x < |gs| && gs[x].Active()
    decreases d
  {
    if d != x {
      ActiveChildCounts(gs, d, |gs|);
      assert Counted(gs, gs[d].parent.value, false);
      ActiveAbove(gs, gs[d].parent.value, x);
    }
  }

  lemma {:induction false} ActiveBelow(gs: Groups, x: nat) returns (d: nat)
    requires Inv(gs, false) && x < |gs| && gs[x].Active()
    ensures d < |gs| && Below(gs, d, x) && gs[d].onTree
    decreases |gs| - x
  {
    assert Counted(gs, x, false);
    if gs[x].onTree {
      d := x;
    } else {
      var c := ActiveChild(gs, x, |gs|);
      assert GroupOk(gs[c], c);
      d := ActiveBelow(gs, c);
      assert Below(gs, c, x);
      BelowTrans(gs, d, c, x);
    }
  }

  lemma {:induction false} ActiveChild(gs: Groups, x: nat, m: nat) returns (c: nat)
    requires m <= |gs| && ChildCount(gs, x, m) > 0
    ensures c < m && gs[c].parent == Some(x) && gs[c].Active()
  {
    if gs[m - 1].parent == Some(x) && gs[m - 1].Active() {
      c := m - 1;
    } else {
      c := ActiveChild(gs, x, m - 1);
    }
  }

  lemma {:induction false} NoActiveChild(gs: Groups, x: nat, m: nat)
    requires m <= |gs| && ChildCount(gs, x, m) == 0
    ensures ChildWeight(gs, x, m) == 0
    ensures forall c :: 0 <= c < m && gs[c].parent == Some(x) ==> !gs[c].Active()
  {
    if m > 0 {
      NoActiveChild(gs, x, m - 1);
    }
  }

  // ---------------------------------------------------------------- pending weights

  /** cfq_group_service_tree_add as far as the hierarchy is concerned. */
  function ServiceAdded(gs: Groups, g: nat): Groups
    requires Shape(gs) && g < |gs|
  {
    Activated(gs[g := Reweighted(gs[g])], g)
  }

  /** A new weight is pending for a group that its parent already counts with the old one. */
  ghost predicate StaleWeight(gs: Groups, g: nat)
    requires g < |gs|
  {
    gs[g].Active() && gs[g].parent.Some? && gs[g].newWeight != 0 && gs[g].newWeight != gs[g].weight
  }

  lemma {:induction false} WeightChange(gs: Groups, g: nat, x: nat, m: nat)
    requires g < |gs| && m <= |gs|
    ensures var gs' := gs[g := Reweighted(gs[g])];
            && ChildCount(gs', x, m) == ChildCount(gs, x, m)
            && (if gs[g].parent == Some(x) && g < m && gs[g].Active()
                then ChildWeight(gs', x, m) + gs[g].weight == ChildWeight(gs, x, m) + gs'[g].weight
                else ChildWeight(gs', x, m) == ChildWeight(gs, x, m))
  {
    if m > 0 {
      WeightChange(gs, g, x, m - 1);
    }
  }

  /** Taking up the pending weights of a group off the tree. */
  lemma ReweightedInv(gs: Groups, g: nat, sums: bool)
    requires Inv(gs, sums) && g < |gs| && !gs[g].onTree
    ensures Shape(gs[g := Reweighted(gs[g])])
    ensures Inv(gs[g := Reweighted(gs[g])], false)
    ensures !StaleWeight(gs, g) ==> Inv(gs[g := Reweighted(gs[g])], sums)
  {
    var gs' := gs[g := Reweighted(gs[g])];
    forall i | 0 <= i < |gs'| ensures GroupOk(gs'[i], i) {
      assert GroupOk(gs[i], i);
    }
    forall x | 0 <= x < |gs| ensures Counted(gs', x, false) && (!StaleWeight(gs, g) ==> Counted(gs', x, sums)) {
      assert Counted(gs, x, sums);
      WeightChange(gs, g, x, |gs|);
    }
  }

  /** Two weights in range that differ, differ modulo 2^32 as parts of a sum. */
  lemma SumsDiffer(a: nat, b: nat, v: nat, w: nat)
    requires a + v == b + w && v != w && v <= WEIGHT_MAX && w <= WEIGHT_MAX
    ensures a % U32 != b % U32
  {
  }

  lemma StaleMiscounts(gs: Groups, g: nat)
    requires Inv(gs, true) && g < |gs| && !gs[g].onTree && StaleWeight(gs, g)
    ensures !Inv(ServiceAdded(gs, g), true)
  {
    var gs1, p := gs[g := Reweighted(gs[g])], gs[g].parent.value;
    assert GroupOk(gs[g], g) && Counted(gs, p, true) && Counted(gs, g, true);
    ReweightedInv(gs, g, true);
    WeightChange(gs, g, p, |gs|);
    SumsDiffer(ChildWeight(gs1, p, |gs|), ChildWeight(gs, p, |gs|), gs[g].weight, gs1[g].weight);
    var gs2 := ServiceAdded(gs, g);
    assert gs2 == Joined(gs1, g) && Changed(gs1, gs2, g);
    ChildrenChange(gs1, gs2, g, p, |gs|);
    SumsDiffer(WantWeight(gs1, p), WantWeight(gs, p), gs[g].weight, gs1[g].weight);
    assert !Counted(gs2, p, true);
  }

  /**
   cfq_group_service_tree_add always keeps the counts right, and keeps the weight sums right exactly when it does not
   take up a new weight for a group that is off the tree but active through its descendants.
   */
  lemma AddKeepsSums(gs: Groups, g: nat)
    requires Inv(gs, false) && g < |gs| && !gs[g].onTree
    ensures Inv(ServiceAdded(gs, g), false)
    ensures Inv(gs, true) ==> (Inv(ServiceAdded(gs, g), true) <==> !StaleWeight(gs, g))
  {
    var gs1 := gs[g := Reweighted(gs[g])];
    ReweightedInv(gs, g, false);
    ActivatedInv(gs1, g, false);
    if Inv(gs, true) {
      if StaleWeight(gs, g) {
        StaleMiscounts(gs, g);
      } else {
        ReweightedInv(gs, g, true);
        ActivatedInv(gs1, g, true);
      }
    }
  }

  // ---------------------------------------------------------------- sums that fit into 32 bits

  /** Up to this many groups the sums of weights stay below 2^32. */
  const MOST_GROUPS: nat := 4_294_967

  lemma {:induction false} ChildWeightMost(gs: Groups, x: nat, m: nat)
    requires Shape(gs) && m <= |gs|
    ensures ChildWeight(gs, x, m) <= WEIGHT_MAX * if x < m then m - 1 else m
  {
    if m > 0 {
      ChildWeightMost(gs, x, m - 1);
      assert GroupOk(gs[m - 1], m - 1);
    }
  }

  /** With that many groups at most, children_weight is the plain sum of weights. */
  lemma PlainSum(gs: Groups, x: nat)
    requires Inv(gs, true) && x < |gs| <= MOST_GROUPS
    ensures gs[x].childrenWeight == WantWeight(gs, x)
  {
    assert Counted(gs, x, true) && GroupOk(gs[x], x);
    ChildWeightMost(gs, x, |gs|);
  }
}
