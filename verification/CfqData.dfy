/** The group part of struct cfq_data, updated in place with the upward loops of the source. */
module CfqInPlace {
  import opened Lists
  import opened CfqModel
  import opened CfqWeights
  import opened CfqShares
  import opened CfqTime
  import opened CfqRuns

  /** A group that gets its first queue is fit to be added. */
  lemma JoinMiddle(t: Tree, g: nat) returns (t1: Tree)
    requires QueuesInv(t) && g < |t.groups| && !t.groups[g].onTree
    ensures t1 == WithGroup(t, g, t.groups[g].(nrCfqq := t.groups[g].nrCfqq + 1, vdisktime := JoinTime(t)))
    ensures TimeInv(t1) == true && |t1.groups| == |t.groups| && !t1.groups[g].onTree
    ensures t1.minVdisktime <= t1.groups[g].vdisktime
    ensures TreeAdded(t1, g) == QueueAdded(t, g)
    ensures TreeAdded(t1, g).Some? ==> QueuesInv(TreeAdded(t1, g).value) == true
  {
    t1 := JoinReady(t, g);
    if QueueAdded(t, g).Some? {
      QueueAddedInv(t, g);
    }
  }

  /** Between its removal and its return a group that was served is fit to be added. */
  lemma ServedMiddle(t: Tree, g: nat, scaled: nat) returns (t1: Tree)
    requires QueuesInv(t) && g < |t.groups| && t.groups[g].onTree
    ensures |TreeDeleted(t, g).groups| == |t.groups| && t1 == Charged(TreeDeleted(t, g), g, scaled)
    ensures TimeInv(t1) == true && |t1.groups| == |t.groups| && !t1.groups[g].onTree
    ensures t1.minVdisktime <= t1.groups[g].vdisktime
    ensures TreeAdded(t1, g) == Served(t, g, scaled)
    ensures TreeAdded(t1, g).Some? ==> QueuesInv(TreeAdded(t1, g).value) == true
  {
    t1 := ServeReady(t, g, scaled);
    if Served(t, g, scaled).Some? {
      ServedInv(t, g, scaled);
    }
  }

  lemma JoinedShape(gs: Groups, g: nat, gs': Groups)
    requires Shape(gs) && g < |gs| && gs' == Joined(gs[g := Reweighted(gs[g])], g)
    ensures Shape(gs')
  {
    forall i | 0 <= i < |gs'| ensures GroupOk(gs'[i], i) {
      assert GroupOk(gs[i], i);
    }
  }

  class CfqData {
    var groups: Groups
    var order: seq<nat>
    var left: Option<nat>
    var minVdisktime: nat

    ghost function View(): Tree
      reads this
    {
      Tree(groups, order, left, minVdisktime)
    }

    ghost predicate Valid()
      reads this
    {
      QueuesInv(View()) == true
    }

    /** The scheduler with the root group only. */
    constructor (weight: nat, leafWeight: nat)
      requires WeightOk(weight) && WeightOk(leafWeight)
      ensures Valid() && groups == [Cfqg(None, weight, 0, leafWeight, 0, 0, 0, 0, 0, false, 0)]
    {
      groups := [Cfqg(None, weight, 0, leafWeight, 0, 0, 0, 0, 0, false, 0)];
      order, left, minVdisktime := [], None, 0;
      new;
      InitInv(View());
    }

    /**
     The activation and vfraction loop of cfq_group_service_tree_add; `pos` is the group just entered. None is a
     division by zero, on which the loop goes no further.
     */
    method WalkUp(g: nat, propagated: bool, start: nat) returns (vfr: Option<nat>)
      requires Shape(groups) && g < |groups|
      modifies this`groups
      ensures |Settled(old(groups), g, propagated)| == |old(groups)| && Shape(Settled(old(groups), g, propagated))
      ensures vfr == Compound(Settled(old(groups), g, propagated), start, g)
      ensures vfr.Some? ==> groups == Settled(old(groups), g, propagated)
    {
      ghost var target := Settled(groups, g, propagated);
      SettledKeeps(groups, g, propagated);
      var v: nat := start;
      var pos: nat, propagate := g, propagated;
      while groups[pos].parent.Some?
        invariant pos < |groups| == |target| && Shape(groups) && Settled(groups, pos, propagate) == target
        invariant target[pos].parent == groups[pos].parent
        invariant Compound(target, v, pos) == Compound(target, start, g)
        decreases pos
      {
        var p := groups[pos].parent.value;
        OneTurn(groups, pos, propagate, if propagate then RaiseOne(groups, pos) else groups, target);
        if propagate {
          propagate := groups[p].nrActive == 0;
          groups := groups[p := groups[p].(nrActive := groups[p].nrActive + 1,
                                           childrenWeight := Add32(groups[p].childrenWeight, groups[pos].weight))];
        }
        if groups[p].childrenWeight == 0 {
          return None;
        }
        v := v * groups[pos].weight % U32 / groups[p].childrenWeight;
        pos := p;
      }
      SettledKeeps(groups, pos, propagate);
      return Some(v);
    }

    /** cfq_group_service_tree_add; false is a division by zero. */
    method ServiceTreeAdd(g: nat) returns (ok: bool)
      requires TimeInv(View()) == true && g < |groups| && !groups[g].onTree && minVdisktime <= groups[g].vdisktime
      modifies this`groups, this`order, this`left
      ensures Shape(old(groups)) && InRange(old(order), old(groups)) && ok == TreeAdded(old(View()), g).Some?
      ensures ok ==> View() == TreeAdded(old(View()), g).value && TimeInv(View()) == true
    {
      ghost var t := View();
      if TreeAdded(t, g).Some? {
        TreeAddedInv(t, g);
      }
      ok := LinkAndWalk(g);
    }

    /** The body of cfq_group_service_tree_add. */
    method LinkAndWalk(g: nat) returns (ok: bool)
      requires Shape(groups) && InRange(order, groups) && g < |groups|
      modifies this`groups, this`order, this`left
      ensures ok == TreeAdded(old(View()), g).Some?
      ensures ok ==> View() == TreeAdded(old(View()), g).value
    {
      ghost var target := ServiceAdded(groups, g);
      ShapeAdded(groups, g);
      InsertMembers(order, groups, g);
      order := Insert(order, groups, g);
      if order[0] == g {
        left := Some(g);
      }
      var vfr := Activate(g);
      if vfr.None? {
        return false;
      }
      groups := groups[g := groups[g].(vfraction := if vfr.value < 1 then 1 else vfr.value)];
      return true;
    }

    /** Weights, activation and vfraction. */
    method Activate(g: nat) returns (vfr: Option<nat>)
      requires Shape(groups) && g < |groups|
      modifies this`groups
      ensures Shape(ServiceAdded(old(groups), g)) && |ServiceAdded(old(groups), g)| == |old(groups)|
      ensures vfr == Share(ServiceAdded(old(groups), g), g)
      ensures vfr.Some? ==> groups == ServiceAdded(old(groups), g)
    {
      ghost var target := ServiceAdded(groups, g);
      ShapeAdded(groups, g);
      ghost var was := groups;
      groups := groups[g := Reweighted(groups[g])];
      var propagate := groups[g].nrActive == 0;
      groups := groups[g := groups[g].(onTree := true, nrActive := groups[g].nrActive + 1,
                                       childrenWeight := Add32(groups[g].childrenWeight, groups[g].leafWeight))];
      JoinedShape(was, g, groups);
      assert Settled(groups, g, propagate) == target;
      SettledKeeps(groups, g, propagate);
      if groups[g].childrenWeight == 0 {
        return None;
      }
      vfr := WalkUp(g, propagate, ONE * groups[g].leafWeight % U32 / groups[g].childrenWeight);
    }

    /** The loop of cfq_group_service_tree_del from a group that has just become inactive. */
    method WalkDown(g: nat)
      requires Shape(groups) && g < |groups|
      modifies this`groups
      ensures |groups| == |old(groups)| && groups == Lowered(old(groups), g)
    {
      ghost var target := Lowered(groups, g);
      var pos: nat, propagate := g, true;
      while propagate
        invariant pos < |groups| == |target| && Shape(groups)
        invariant (if propagate then Lowered(groups, pos) else groups) == target
        decreases propagate, pos
      {
        if groups[pos].parent.Some? {
          LoweredShape(groups, pos);
        }
        groups := groups[pos := groups[pos].(vfraction := 0)];
        if groups[pos].parent.None? {
          break;
        }
        var p := groups[pos].parent.value;
        var n := groups[p].nrActive - 1;
        groups := groups[p := groups[p].(nrActive := n,
                                         childrenWeight := Sub32(groups[p].childrenWeight, groups[pos].weight))];
        propagate := n == 0;
        pos := p;
      }
    }

    /** cfq_group_service_tree_del. */
    method ServiceTreeDel(g: nat)
      requires TimeInv(View()) == true && g < |groups| && groups[g].onTree
      modifies this`groups, this`order, this`left
      ensures Shape(old(groups)) && View() == TreeDeleted(old(View()), g) && TimeInv(View()) == true
    {
      TreeDeletedInv(View(), g);
      Unlink(g);
    }

    method Unlink(g: nat)
      requires Shape(groups) && g < |groups|
      modifies this`groups, this`order, this`left
      ensures View() == TreeDeleted(old(View()), g)
    {
      ChangedShape(groups, Parted(groups, g), g);
      var n := groups[g].nrActive - 1;
      groups := groups[g := groups[g].(onTree := false, nrActive := n,
                                       childrenWeight := Sub32(groups[g].childrenWeight, groups[g].leafWeight))];
      if n == 0 {
        WalkDown(g);
      }
      if left == Some(g) {
        left := None;
      }
      order := Without(order, g);
    }

    /** The virtual time behind the last group. */
    method LastKey() returns (key: nat)
      requires InRange(order, groups)
      ensures key == JoinTime(View())
    {
      key := if order == [] then minVdisktime else groups[order[|order| - 1]].vdisktime + IDLE_DELAY;
    }

    /** cfq_group_notify_queue_add; false is a division by zero. */
    method NotifyQueueAdd(g: nat) returns (ok: bool)
      requires Valid() && g < |groups|
      modifies this
      ensures Shape(old(groups)) && InRange(old(order), old(groups)) && ok == QueueAdded(old(View()), g).Some?
      ensures ok ==> Valid() && View() == QueueAdded(old(View()), g).value
    {
      var x := groups[g].(nrCfqq := groups[g].nrCfqq + 1);
      if x.onTree {
        QueueAddedInv(View(), g);
        groups := groups[g := x];
        return true;
      }
      ghost var t1 := JoinMiddle(View(), g);
      var key := LastKey();
      groups := groups[g := x.(vdisktime := key)];
      assert View() == t1;
      ok := ServiceTreeAdd(g);
    }

    /** cfq_group_notify_queue_del. */
    method NotifyQueueDel(g: nat)
      requires Valid() && g < |groups| && groups[g].nrCfqq >= 1
      modifies this
      ensures Valid() && Shape(old(groups)) && InRange(old(order), old(groups))
      ensures View() == QueueDeleted(old(View()), g)
    {
      QueueDeletedInv(View(), g);
      ghost var t1 := LeaveReady(View(), g);
      groups := groups[g := groups[g].(nrCfqq := groups[g].nrCfqq - 1)];
      if groups[g].nrCfqq == 0 {
        ServiceTreeDel(g);
      }
    }

    /** cfq_group_served, with the charge worked out by the caller; false is a division by zero. */
    method GroupServed(g: nat, charge: nat) returns (ok: bool)
      requires Valid() && g < |groups| && groups[g].onTree
      modifies this
      ensures TimeInv(old(View())) && old(groups)[g].vfraction > 0
      ensures ok == Served(old(View()), g, ScaleCharge(charge, old(groups)[g].vfraction)).Some?
      ensures ok ==> Valid() && View() == Served(old(View()), g, ScaleCharge(charge, old(groups)[g].vfraction)).value
    {
      var scaled := ScaleCharge(charge, groups[g].vfraction);
      ghost var t1 := ServedMiddle(View(), g, scaled);
      ServiceTreeDel(g);
      groups := groups[g := groups[g].(vdisktime := groups[g].vdisktime + scaled)];
      assert View() == t1;
      ok := ServiceTreeAdd(g);
    }

    /** cfq_get_next_cfqg. */
    method GetNext() returns (g: Option<nat>)
      requires Valid()
      modifies this`left, this`minVdisktime
      ensures Valid() && minVdisktime >= old(minVdisktime)
      ensures order == [] ==> g.None? && left == old(left) && minVdisktime == old(minVdisktime)
      ensures order != [] ==>
                && g == Some(order[0]) == left && order[0] < |groups|
                && minVdisktime == (if groups[order[0]].vdisktime > old(minVdisktime)
                                    then groups[order[0]].vdisktime else old(minVdisktime))
                && forall x :: x in order && x < |groups| ==> groups[order[0]].vdisktime <= groups[x].vdisktime
    {
      ChosenInv(View());
      if order == [] {
        return None;
      }
      if left.None? {
        left := Some(order[0]);
      }
      forall x | x in order && x < |groups| ensures groups[order[0]].vdisktime <= groups[x].vdisktime {
        FirstIsLeast(order, groups, x);
      }
      var v := groups[left.value].vdisktime;
      minVdisktime := if v > minVdisktime then v else minVdisktime;
      return left;
    }
  }
}
