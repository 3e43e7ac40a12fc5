/** The group service tree: virtual time, the cached leftmost group, and the spread of virtual times. */
module CfqTime {
  import opened Lists
  import opened CfqModel
  import opened CfqWeights
  import opened CfqShares

  const IDLE_DELAY: nat := 40    // CFQ_IDLE_DELAY = HZ / 5

  /** struct cfq_rb_root of the groups, with the groups it orders. */
  datatype Tree = Tree(groups: Groups, order: seq<nat>, left: Option<nat>, minVdisktime: nat)

  ghost predicate InRange(s: seq<nat>, gs: Groups) {
    forall i :: 0 <= i < |s| ==> s[i] < |gs|
  }

  ghost predicate Ordered(s: seq<nat>, gs: Groups)
    requires InRange(s, gs)
  {
    forall i, j :: 0 <= i < j < |s| ==> gs[s[i]].vdisktime <= gs[s[j]].vdisktime
  }

  /** __cfq_group_service_tree_add: behind every group whose virtual time is not later. */
  function Insert(s: seq<nat>, gs: Groups, g: nat): seq<nat>
    requires InRange(s, gs) && g < |gs|
  {
    if s == [] then [g]
    else if gs[g].vdisktime < gs[s[0]].vdisktime then [g] + s
    else [s[0]] + Insert(s[1..], gs, g)
  }

  /** cfqg_scale_charge; `charge << CFQ_SERVICE_SHIFT` is taken in a 32-bit unsigned long. */
  function ScaleCharge(charge: nat, vfraction: nat): nat
    requires vfraction > 0
  {
    charge * ONE % U32 * ONE / vfraction
  }

  /** cfq_group_service_tree_add; None when a division by zero stops it. */
  function TreeAdded(t: Tree, g: nat): Option<Tree>
    requires Shape(t.groups) && InRange(t.order, t.groups) && g < |t.groups|
  {
    var gs := ServiceAdded(t.groups, g);
    var order := Insert(t.order, t.groups, g);
    ShapeAdded(t.groups, g);
    match Share(gs, g)
    case None => None
    case Some(vfr) =>
      Some(t.(groups := gs[g := gs[g].(vfraction := if vfr < 1 then 1 else vfr)],
              order := order,
              left := if order[0] == g then Some(g) else t.left))
  }

  /** cfq_group_service_tree_del. */
  function TreeDeleted(t: Tree, g: nat): Tree
    requires Shape(t.groups) && g < |t.groups|
  {
    t.(groups := Deactivated(t.groups, g),
       order := Without(t.order, g),
       left := if t.left == Some(g) then None else t.left)
  }

  lemma ShapeAdded(gs: Groups, g: nat)
    requires Shape(gs) && g < |gs|
    ensures Shape(ServiceAdded(gs, g))
    ensures SameButCounts(gs[g := Reweighted(gs[g]).(onTree := true)], ServiceAdded(gs, g))
    ensures forall x :: 0 <= x < |gs| ==> ServiceAdded(gs, g)[x].vfraction == gs[x].vfraction
  {
    var gs1 := gs[g := Reweighted(gs[g])];
    forall i | 0 <= i < |gs1| ensures GroupOk(gs1[i], i) {
      assert GroupOk(gs[i], i);
    }
    ChangedShape(gs1, Joined(gs1, g), g);
    if gs1[g].nrActive == 0 {
      ShapeRaised(Joined(gs1, g), g);
    }
  }

  /** Tree, flags, cache and minimum agree. */
  ghost predicate TimeInv(t: Tree) {
    && Inv(t.groups, false)
    && InRange(t.order, t.groups) && Ordered(t.order, t.groups) && NoDup(t.order)
    && (forall g :: 0 <= g < |t.groups| ==> (g in t.order <==> t.groups[g].onTree))
    && (forall g :: 0 <= g < |t.groups| && t.groups[g].onTree ==>
          t.minVdisktime <= t.groups[g].vdisktime && t.groups[g].vfraction >= 1)
    && (t.left.Some? ==> t.order != [] && t.order[0] == t.left.value)
  }

  lemma {:induction false} InsertMembers(s: seq<nat>, gs: Groups, g: nat)
    requires InRange(s, gs) && g < |gs|
    ensures forall x :: x in Insert(s, gs, g) <==> x == g || x in s
    ensures InRange(Insert(s, gs, g), gs) && Insert(s, gs, g) != []
    ensures Insert(s, gs, g)[0] == g || (s != [] && Insert(s, gs, g)[0] == s[0])
  {
    if s != [] && gs[g].vdisktime >= gs[s[0]].vdisktime {
      InsertMembers(s[1..], gs, g);
      assert s == [s[0]] + s[1..];
    }
  }

  lemma {:induction false} InsertNoDup(s: seq<nat>, gs: Groups, g: nat)
    requires InRange(s, gs) && g < |gs| && NoDup(s) && g !in s
    ensures NoDup(Insert(s, gs, g))
  {
    if s != [] && gs[g].vdisktime >= gs[s[0]].vdisktime {
      InsertNoDup(s[1..], gs, g);
      InsertMembers(s[1..], gs, g);
      assert s[0] !in s[1..];
    }
  }

  lemma FirstIsLeast(s: seq<nat>, gs: Groups, x: nat)
    requires InRange(s, gs) && Ordered(s, gs) && x in s
    ensures gs[s[0]].vdisktime <= gs[x].vdisktime
  {
    var i :| 0 <= i < |s| && s[i] == x;
  }

  lemma ConsOrdered(s: seq<nat>, gs: Groups, g: nat)
    requires InRange(s, gs) && Ordered(s, gs) && g < |gs| && forall x :: x in s ==> gs[g].vdisktime <= gs[x].vdisktime
    ensures InRange([g] + s, gs) && Ordered([g] + s, gs)
  {
  }

  lemma {:induction false} InsertOrdered(s: seq<nat>, gs: Groups, g: nat)
    requires InRange(s, gs) && Ordered(s, gs) && g < |gs|
    ensures InRange(Insert(s, gs, g), gs) && Ordered(Insert(s, gs, g), gs)
  {
    InsertMembers(s, gs, g);
    if s != [] && gs[g].vdisktime < gs[s[0]].vdisktime {
      forall x | x in s ensures gs[g].vdisktime <= gs[x].vdisktime {
        FirstIsLeast(s, gs, x);
      }
      ConsOrdered(s, gs, g);
    } else if s != [] {
      InsertMembers(s[1..], gs, g);
      InsertOrdered(s[1..], gs, g);
      var t := Insert(s[1..], gs, g);
      forall x | x in t ensures gs[s[0]].vdisktime <= gs[x].vdisktime {
        if x != g {
          FirstIsLeast(s, gs, x);
        }
      }
      ConsOrdered(t, gs, s[0]);
    }
  }

  /** A group is put behind all whose virtual time is not later, and before all others. */
  lemma {:induction false} InsertAt(s: seq<nat>, gs: Groups, g: nat) returns (i: nat)
    requires InRange(s, gs) && Ordered(s, gs) && g < |gs|
    ensures i <= |s| && Insert(s, gs, g) == s[..i] + [g] + s[i..]
    ensures forall j :: 0 <= j < i ==> gs[s[j]].vdisktime <= gs[g].vdisktime
    ensures forall j :: i <= j < |s| ==> gs[s[j]].vdisktime > gs[g].vdisktime
  {
    if s == [] || gs[g].vdisktime < gs[s[0]].vdisktime {
      i := 0;
    } else {
      var k := InsertAt(s[1..], gs, g);
      i := k + 1;
      assert s[..i] == [s[0]] + s[1..][..k] && s[i..] == s[1..][k..];
      forall j | 0 <= j < i ensures gs[s[j]].vdisktime <= gs[g].vdisktime {
        if j > 0 {
          assert s[j] == s[1..][j - 1];
        }
      }
    }
  }

  /** Virtual times other than that of a group off the list may change freely. */
  lemma SameOrder(s: seq<nat>, gs: Groups, gs': Groups)
    requires InRange(s, gs) && Ordered(s, gs) && |gs'| == |gs|
    requires forall x :: x in s ==> x < |gs| && gs'[x].vdisktime == gs[x].vdisktime
    ensures InRange(s, gs') && Ordered(s, gs')
  {
    forall i | 0 <= i < |s| ensures gs'[s[i]].vdisktime == gs[s[i]].vdisktime {
      assert s[i] in s;
    }
  }

  lemma KeptOrder(s: seq<nat>, gs: Groups, gs': Groups)
    requires InRange(s, gs) && Ordered(s, gs) && |gs'| == |gs|
    requires forall x :: 0 <= x < |gs| ==> gs'[x].vdisktime == gs[x].vdisktime
    ensures InRange(s, gs') && Ordered(s, gs')
  {
  }

  lemma WithoutOrdered(s: seq<nat>, gs: Groups, g: nat)
    requires InRange(s, gs) && Ordered(s, gs) && NoDup(s)
    ensures InRange(Without(s, g), gs) && Ordered(Without(s, g), gs) && NoDup(Without(s, g))
    ensures s != [] && s[0] != g ==> Without(s, g) != [] && Without(s, g)[0] == s[0]
  {
    WithoutNoDup(s, g);
    if g in s {
      var i :| 0 <= i < |s| && s[i] == g;
      WithoutAt(s, i);
      PickOrdered(s, Without(s, g), gs, i);
    }
  }

  lemma PickOrdered(s: seq<nat>, t: seq<nat>, gs: Groups, i: nat)
    requires InRange(s, gs) && Ordered(s, gs) && i < |s| && t == s[..i] + s[i + 1..]
    ensures InRange(t, gs) && Ordered(t, gs)
    ensures i > 0 ==> t != [] && t[0] == s[0]
  {
    forall a | 0 <= a < |t| ensures t[a] == s[if a < i then a else a + 1] {
    }
  }

  /** cfq_group_service_tree_add keeps all of it, whatever becomes of the weight sums. */
  lemma TreeAddedInv(t: Tree, g: nat)
    requires TimeInv(t) && g < |t.groups| && !t.groups[g].onTree && t.minVdisktime <= t.groups[g].vdisktime
    requires TreeAdded(t, g).Some?
    ensures TimeInv(TreeAdded(t, g).value)
  {
    var t' := TreeAdded(t, g).value;
    AddKeepsSums(t.groups, g);
    VfractionInv(ServiceAdded(t.groups, g), g, t'.groups[g].vfraction, false);
    TreeAddedGroups(t, g);
    InsertMembers(t.order, t.groups, g);
    InsertNoDup(t.order, t.groups, g);
    InsertOrdered(t.order, t.groups, g);
    SameOrder(t'.order, t.groups, t'.groups);
  }

  /** While the sums are right, the addition divides by nothing but positive sums. */
  lemma TreeAddedDefined(t: Tree, g: nat)
    requires TimeInv(t) && g < |t.groups| <= MOST_GROUPS && !t.groups[g].onTree
    requires Inv(t.groups, true) && !StaleWeight(t.groups, g)
    ensures TreeAdded(t, g).Some?
  {
    AddKeepsSums(t.groups, g);
    ShapeAdded(t.groups, g);
    ShareDefined(ServiceAdded(t.groups, g), g);
  }

  /** The sums after an addition are right exactly when it takes up no stale weight. */
  lemma TreeAddedSums(t: Tree, g: nat)
    requires TimeInv(t) && g < |t.groups| && !t.groups[g].onTree && TreeAdded(t, g).Some? && Inv(t.groups, true)
    ensures Inv(TreeAdded(t, g).value.groups, true) <==> !StaleWeight(t.groups, g)
  {
    var gs, gs' := ServiceAdded(t.groups, g), TreeAdded(t, g).value.groups;
    AddKeepsSums(t.groups, g);
    if Inv(gs', true) {
      VfractionInv(gs', g, gs[g].vfraction, true);
      assert gs'[g := gs'[g].(vfraction := gs[g].vfraction)] == gs;
    }
    if Inv(gs, true) {
      VfractionInv(gs, g, gs'[g].vfraction, true);
    }
  }

  lemma TreeAddedGroups(t: Tree, g: nat)
    requires Shape(t.groups) && InRange(t.order, t.groups) && g < |t.groups| && TreeAdded(t, g).Some?
    ensures var gs, gs' := t.groups, TreeAdded(t, g).value.groups;
            && |gs'| == |gs| && gs'[g].onTree && gs'[g].vfraction >= 1
            && (forall x :: 0 <= x < |gs| ==> gs'[x].vdisktime == gs[x].vdisktime)
            && (forall x :: 0 <= x < |gs| && x != g ==>
                  gs'[x].onTree == gs[x].onTree && gs'[x].vfraction == gs[x].vfraction)
  {
    ShapeAdded(t.groups, g);
  }

  lemma VfractionInv(gs: Groups, g: nat, v: nat, sums: bool)
    requires Inv(gs, sums) && g < |gs|
    ensures Inv(gs[g := gs[g].(vfraction := v)], sums)
  {
    var gs' := gs[g := gs[g].(vfraction := v)];
    assert Changed(gs, gs', g);
    ChangedShape(gs, gs', g);
    SameActivity(gs, gs', g);
    forall x | 0 <= x < |gs| ensures Counted(gs', x, sums) {
      assert Counted(gs, x, sums);
    }
  }

  /** vfraction is only cleared on groups that become inactive. */
  lemma {:induction false} LoweredVfraction(gs: Groups, pos: nat, x: nat)
    requires Excess(gs, pos, false) && x < |gs| && gs[x].onTree
    ensures Lowered(gs, pos)[x].vfraction == gs[x].vfraction
    decreases pos
  {
    assert GroupOk(gs[pos], pos) && ExcessAt(gs, pos, pos, false);
    if gs[pos].parent.Some? {
      var p, down := gs[pos].parent.value, LowerOne(gs, pos);
      LoweredShape(gs, pos);
      assert ExcessAt(gs, pos, p, false);
      forall y | 0 <= y < |gs|
        ensures if down[p].Active() then Counted(down, y, false) else ExcessAt(down, p, y, false)
      {
        assert ExcessAt(gs, pos, y, false);
        OneLower(gs, pos, y, false);
      }
      OneLower(gs, pos, p, false);
      if !down[p].Active() {
        LoweredVfraction(down, p, x);
      }
    }
  }

  lemma DeactivatedVfraction(gs: Groups, g: nat, x: nat)
    requires Inv(gs, false) && g < |gs| && gs[g].onTree && x < |gs| && x != g && gs[x].onTree
    ensures Deactivated(gs, g)[x].vfraction == gs[x].vfraction
  {
    var own := Parted(gs, g);
    ChangedShape(gs, own, g);
    assert GroupOk(gs[g], g) && Counted(gs, g, false);
    PartedAt(gs, g, g, false);
    forall y | 0 <= y < |gs| ensures if own[g].Active() then Counted(own, y, false) else ExcessAt(own, g, y, false) {
      assert Counted(gs, y, false);
      PartedAt(gs, g, y, false);
    }
    if !own[g].Active() {
      LoweredVfraction(own, g, x);
    }
  }

  lemma TreeDeletedInv(t: Tree, g: nat)
    requires TimeInv(t) && g < |t.groups| && t.groups[g].onTree
    ensures TimeInv(TreeDeleted(t, g))
  {
    var t' := TreeDeleted(t, g);
    DeactivatedInv(t.groups, g, false);
    WithoutOrdered(t.order, t.groups, g);
    KeptOrder(t'.order, t.groups, t'.groups);
    forall x | 0 <= x < |t.groups| && t'.groups[x].onTree
      ensures t.minVdisktime <= t'.groups[x].vdisktime && t'.groups[x].vfraction >= 1
    {
      DeactivatedVfraction(t.groups, g, x);
    }
  }

  // ---------------------------------------------------------------- the walk up, and where it divides by zero

  /** The groups once the loop of cfq_group_service_tree_add is through, from the group `pos` on. */
  function Settled(gs: Groups, pos: nat, propagate: bool): Groups
    requires Shape(gs) && pos < |gs|
  {
    if propagate then Raised(gs, pos) else gs
  }

  lemma SettledKeeps(gs: Groups, pos: nat, propagate: bool)
    requires Shape(gs) && pos < |gs|
    ensures |Settled(gs, pos, propagate)| == |gs| && Shape(Settled(gs, pos, propagate))
    ensures forall x :: pos <= x < |gs| ==> Settled(gs, pos, propagate)[x] == gs[x]
    ensures forall x :: 0 <= x < |gs| ==> Settled(gs, pos, propagate)[x].parent == gs[x].parent
  {
    RaisedKeeps(gs, pos);
    ShapeRaised(gs, pos);
  }

  /** One turn of the loop keeps its outcome, and the weights it reads are the final ones. */
  lemma OneTurn(gs: Groups, pos: nat, propagate: bool, next: Groups, target: Groups)
    requires Shape(gs) && pos < |gs| && gs[pos].parent.Some? && target == Settled(gs, pos, propagate)
    requires next == if propagate then RaiseOne(gs, pos) else gs
    ensures var p := gs[pos].parent.value;
            && p < pos && |next| == |target| && Shape(next)
            && target == Settled(next, p, propagate && gs[p].nrActive == 0)
            && target[p].parent == next[p].parent
            && next[pos].weight == target[pos].weight && next[p].childrenWeight == target[p].childrenWeight
  {
    SettledKeeps(gs, pos, propagate);
    RaisedShape(gs, pos);
    var p := gs[pos].parent.value;
    SettledKeeps(next, p, propagate && gs[p].nrActive == 0);
  }

  /**
   On the way up from `pos` there is a level whose weight sum will be 0 when the walk divides by it: a level that is
   about to count the group below it, as long as the activation propagates, or any other with a sum of 0.
   */
  ghost predicate ZeroAhead(gs: Groups, pos: nat, propagate: bool)
    requires Shape(gs) && pos < |gs|
    decreases pos
  {
    gs[pos].parent.Some? &&
      var p := gs[pos].parent.value;
      && p < pos
      && (|| (if propagate then Add32(gs[p].childrenWeight, gs[pos].weight) else gs[p].childrenWeight) == 0
          || ZeroAhead(gs, p, propagate && gs[p].nrActive == 0))
  }

  lemma {:induction false} SameAhead(gs: Groups, gs': Groups, pos: nat, propagate: bool)
    requires Shape(gs) && Shape(gs') && pos < |gs| == |gs'| && forall x :: 0 <= x < pos ==> gs'[x] == gs[x]
    requires gs'[pos].parent == gs[pos].parent && gs'[pos].weight == gs[pos].weight
    ensures ZeroAhead(gs', pos, propagate) == ZeroAhead(gs, pos, propagate)
    decreases pos
  {
    if gs[pos].parent.Some? && gs[pos].parent.value < pos {
      var p := gs[pos].parent.value;
      SameAhead(gs, gs', p, propagate && gs[p].nrActive == 0);
    }
  }

  lemma {:induction false} WalkFaults(gs: Groups, pos: nat, propagate: bool, vfr: nat)
    requires Shape(gs) && pos < |gs|
    ensures |Settled(gs, pos, propagate)| == |gs| && Shape(Settled(gs, pos, propagate))
    ensures Compound(Settled(gs, pos, propagate), vfr, pos).None? <==> ZeroAhead(gs, pos, propagate)
    decreases pos
  {
    var target := Settled(gs, pos, propagate);
    SettledKeeps(gs, pos, propagate);
    if gs[pos].parent.Some? {
      var p, next := gs[pos].parent.value, if propagate then RaiseOne(gs, pos) else gs;
      OneTurn(gs, pos, propagate, next, target);
      if target[p].childrenWeight != 0 {
        WalkFaults(next, p, propagate && gs[p].nrActive == 0,
                   Scaled(vfr, gs[pos].weight, target[p].childrenWeight).value);
        SameAhead(gs, next, p, propagate && gs[p].nrActive == 0);
      }
    }
  }

  /** The sum of the group itself, or of a level above, will be 0. */
  ghost predicate AddDivides(gs: Groups, g: nat)
    requires Shape(gs) && g < |gs| && Shape(gs[g := Reweighted(gs[g])])
  {
    || Add32(gs[g].childrenWeight, Reweighted(gs[g]).leafWeight) == 0
    || ZeroAhead(gs[g := Reweighted(gs[g])], g, gs[g].nrActive == 0)
  }

  lemma ReweightedShape(gs: Groups, g: nat)
    requires Shape(gs) && g < |gs|
    ensures Shape(gs[g := Reweighted(gs[g])]) && Shape(Joined(gs[g := Reweighted(gs[g])], g))
  {
    var gs1 := gs[g := Reweighted(gs[g])];
    forall i | 0 <= i < |gs1| ensures GroupOk(gs1[i], i) {
      assert GroupOk(gs[i], i);
    }
    ChangedShape(gs1, Joined(gs1, g), g);
  }

  /** Addition divides by zero exactly when the state before it says so. */
  lemma AddFaultsExactly(t: Tree, g: nat)
    requires Shape(t.groups) && InRange(t.order, t.groups) && g < |t.groups|
    ensures Shape(t.groups[g := Reweighted(t.groups[g])])
    ensures TreeAdded(t, g).None? <==> AddDivides(t.groups, g)
  {
    var gs1 := t.groups[g := Reweighted(t.groups[g])];
    ReweightedShape(t.groups, g);
    ShapeAdded(t.groups, g);
    var own, propagate := Joined(gs1, g), gs1[g].nrActive == 0;
    assert ServiceAdded(t.groups, g) == Settled(own, g, propagate);
    SettledKeeps(own, g, propagate);
    if own[g].childrenWeight != 0 {
      WalkFaults(own, g, propagate, Scaled(ONE, own[g].leafWeight, own[g].childrenWeight).value);
      SameAhead(gs1, own, g, propagate);
    }
  }
}
