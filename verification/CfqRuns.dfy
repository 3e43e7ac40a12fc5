/** Whole runs of the group scheduler. */
module CfqRuns {
  import opened Lists
  import opened CfqModel
  import opened CfqWeights
  import opened CfqShares
  import opened CfqTime

  function WithGroup(t: Tree, g: nat, x: Cfqg): Tree
    requires g < |t.groups|
  {
    t.(groups := t.groups[g := x])
  }

  /** The virtual time cfq_group_notify_queue_add gives a group that joins the tree. */
  function JoinTime(t: Tree): nat
    requires InRange(t.order, t.groups)
  {
    if t.order == [] then t.minVdisktime else t.groups[t.order[|t.order| - 1]].vdisktime + IDLE_DELAY
  }

  /** cfq_group_notify_queue_add; None when a division by zero stops it. */
  function QueueAdded(t: Tree, g: nat): Option<Tree>
    requires Shape(t.groups) && InRange(t.order, t.groups) && g < |t.groups|
  {
    var x := t.groups[g].(nrCfqq := t.groups[g].nrCfqq + 1);
    if x.onTree then Some(WithGroup(t, g, x))
    else
      SameShape(t, g, x.(vdisktime := JoinTime(t)));
      TreeAdded(WithGroup(t, g, x.(vdisktime := JoinTime(t))), g)
  }

  /** Queues and virtual time are no concern of the shape. */
  lemma SameShape(t: Tree, g: nat, x: Cfqg)
    requires Shape(t.groups) && InRange(t.order, t.groups) && g < |t.groups|
    requires x.(nrCfqq := 0, vdisktime := 0) == t.groups[g].(nrCfqq := 0, vdisktime := 0)
    ensures Shape(WithGroup(t, g, x).groups) && InRange(t.order, WithGroup(t, g, x).groups)
  {
    ChangedShape(t.groups, t.groups[g := x], g);
  }

  /** cfq_group_notify_queue_del. */
  function QueueDeleted(t: Tree, g: nat): Tree
    requires Shape(t.groups) && InRange(t.order, t.groups) && g < |t.groups| && t.groups[g].nrCfqq >= 1
  {
    var t1 := WithGroup(t, g, t.groups[g].(nrCfqq := t.groups[g].nrCfqq - 1));
    SameShape(t, g, t1.groups[g]);
    if t1.groups[g].nrCfqq > 0 then t1 else TreeDeleted(t1, g)
  }

  /** cfq_group_served, with the charge worked out by the caller. */
  function Charged(t: Tree, g: nat, scaled: nat): Tree
    requires g < |t.groups|
  {
    WithGroup(t, g, t.groups[g].(vdisktime := t.groups[g].vdisktime + scaled))
  }

  /** cfq_get_next_cfqg: the group, the cache filled, the minimum moved up. */
  function Chosen(t: Tree): Tree
    requires InRange(t.order, t.groups) && (t.left.Some? ==> t.left.value < |t.groups|)
  {
    if t.order == [] then t
    else
      var left := if t.left.None? then t.order[0] else t.left.value;
      var v := t.groups[left].vdisktime;
      t.(left := Some(left), minVdisktime := if v > t.minVdisktime then v else t.minVdisktime)
  }

  ghost predicate QueuesInv(t: Tree) {
    TimeInv(t) && forall g :: 0 <= g < |t.groups| ==> (t.groups[g].onTree <==> t.groups[g].nrCfqq > 0)
  }

  /** Changes to a group that concern neither the hierarchy nor its key while it is on the tree. */
  lemma NeutralChange(t: Tree, g: nat, x: Cfqg)
    requires TimeInv(t) && g < |t.groups| && GroupOk(x, g)
    requires x.(nrCfqq := 0, vdisktime := 0, newWeight := 0, newLeafWeight := 0)
             == t.groups[g].(nrCfqq := 0, vdisktime := 0, newWeight := 0, newLeafWeight := 0)
    requires x.onTree ==> x.vdisktime == t.groups[g].vdisktime
    ensures TimeInv(WithGroup(t, g, x))
    ensures Inv(WithGroup(t, g, x).groups, true) <==> Inv(t.groups, true)
  {
    var gs' := t.groups[g := x];
    assert Changed(t.groups, gs', g);
    SameActivity(t.groups, gs', g);
    forall i | 0 <= i < |gs'| ensures GroupOk(gs'[i], i) {
      assert GroupOk(t.groups[i], i);
    }
    forall y | 0 <= y < |gs'|
      ensures Counted(gs', y, false) && (Counted(gs', y, true) <==> Counted(t.groups, y, true))
    {
      assert Counted(t.groups, y, false);
    }
    SameOrder(t.order, t.groups, gs');
  }

  lemma GroupFits(t: Tree, g: nat)
    requires Shape(t.groups) && g < |t.groups|
    ensures GroupOk(t.groups[g], g)
  {
  }

  lemma JoinAdds(t: Tree, g: nat, t1: Tree)
    requires Shape(t.groups) && InRange(t.order, t.groups) && g < |t.groups| && !t.groups[g].onTree
    requires t1 == WithGroup(t, g, t.groups[g].(nrCfqq := t.groups[g].nrCfqq + 1, vdisktime := JoinTime(t)))
    ensures Shape(t1.groups) && InRange(t1.order, t1.groups) && QueueAdded(t, g) == TreeAdded(t1, g)
  {
    SameShape(t, g, t1.groups[g]);
  }

  /** The group made ready for cfq_group_service_tree_add by cfq_group_notify_queue_add. */
  lemma JoinReady(t: Tree, g: nat) returns (t1: Tree)
    requires QueuesInv(t) && g < |t.groups| && !t.groups[g].onTree
    ensures t1 == WithGroup(t, g, t.groups[g].(nrCfqq := t.groups[g].nrCfqq + 1, vdisktime := JoinTime(t)))
    ensures TimeInv(t1) && (Inv(t1.groups, true) <==> Inv(t.groups, true))
    ensures t1.minVdisktime <= t1.groups[g].vdisktime && QueueAdded(t, g) == TreeAdded(t1, g)
    ensures StaleWeight(t1.groups, g) == StaleWeight(t.groups, g)
  {
    var x := t.groups[g].(nrCfqq := t.groups[g].nrCfqq + 1, vdisktime := JoinTime(t));
    t1 := WithGroup(t, g, x);
    JoinAdds(t, g, t1);
    JoinsLate(t);
    GroupFits(t, g);
    NeutralChange(t, g, x);
  }

  lemma QueueAddedInv(t: Tree, g: nat)
    requires QueuesInv(t) && g < |t.groups| && QueueAdded(t, g).Some?
    ensures QueuesInv(QueueAdded(t, g).value) && QueueAdded(t, g).value.minVdisktime == t.minVdisktime
  {
    if t.groups[g].onTree {
      GroupFits(t, g);
      NeutralChange(t, g, t.groups[g].(nrCfqq := t.groups[g].nrCfqq + 1));
    } else {
      var t1 := JoinReady(t, g);
      TreeAddedInv(t1, g);
      TreeAddedGroups(t1, g);
      TreeAddedQueues(t1, g);
    }
  }

  lemma JoinsLate(t: Tree)
    requires TimeInv(t)
    ensures JoinTime(t) >= t.minVdisktime
  {
    if t.order != [] {
      assert t.order[|t.order| - 1] in t.order;
    }
  }

  lemma TreeAddedQueues(t: Tree, g: nat)
    requires Shape(t.groups) && InRange(t.order, t.groups) && g < |t.groups| && TreeAdded(t, g).Some?
    ensures var gs' := TreeAdded(t, g).value.groups;
            |gs'| == |t.groups| && forall x :: 0 <= x < |gs'| ==> gs'[x].nrCfqq == t.groups[x].nrCfqq
  {
    ShapeAdded(t.groups, g);
  }

  lemma QueueDeletedInv(t: Tree, g: nat)
    requires QueuesInv(t) && g < |t.groups| && t.groups[g].nrCfqq >= 1
    ensures QueuesInv(QueueDeleted(t, g)) && QueueDeleted(t, g).minVdisktime == t.minVdisktime
  {
    var t1 := LeaveReady(t, g);
    if t1.groups[g].nrCfqq == 0 {
      TreeDeletedInv(t1, g);
      DeactivatedInv(t1.groups, g, false);
    }
  }

  /** The group with one queue less, not yet off the tree. */
  lemma LeaveReady(t: Tree, g: nat) returns (t1: Tree)
    requires QueuesInv(t) && g < |t.groups| && t.groups[g].nrCfqq >= 1
    ensures t1 == WithGroup(t, g, t.groups[g].(nrCfqq := t.groups[g].nrCfqq - 1))
    ensures TimeInv(t1) && (Inv(t1.groups, true) <==> Inv(t.groups, true)) && t1.groups[g].onTree
    ensures QueueDeleted(t, g) == if t1.groups[g].nrCfqq > 0 then t1 else TreeDeleted(t1, g)
  {
    t1 := WithGroup(t, g, t.groups[g].(nrCfqq := t.groups[g].nrCfqq - 1));
    GroupFits(t, g);
    NeutralChange(t, g, t1.groups[g]);
  }

  lemma QueueDeletedSums(t: Tree, g: nat)
    requires QueuesInv(t) && g < |t.groups| && t.groups[g].nrCfqq >= 1 && Inv(t.groups, true)
    ensures Inv(QueueDeleted(t, g).groups, true)
  {
    var t1 := LeaveReady(t, g);
    if t1.groups[g].nrCfqq == 0 {
      DeactivatedInv(t1.groups, g, true);
    }
  }

  /** cfq_group_served: off the tree, charged, and on again; None when a division by zero stops it. */
  function Served(t: Tree, g: nat, scaled: nat): Option<Tree>
    requires TimeInv(t) && g < |t.groups| && t.groups[g].onTree
  {
    TreeDeletedInv(t, g);
    var t1 := Charged(TreeDeleted(t, g), g, scaled);
    SameShape(TreeDeleted(t, g), g, t1.groups[g]);
    TreeAdded(t1, g)
  }

  /** The group between its removal and its return in cfq_group_served. */
  lemma ServeReady(t: Tree, g: nat, scaled: nat) returns (t1: Tree)
    requires QueuesInv(t) && g < |t.groups| && t.groups[g].onTree
    ensures |TreeDeleted(t, g).groups| == |t.groups| && t1 == Charged(TreeDeleted(t, g), g, scaled)
    ensures TimeInv(t1) && (Inv(t.groups, true) ==> Inv(t1.groups, true))
    ensures !t1.groups[g].onTree && t1.minVdisktime <= t1.groups[g].vdisktime
    ensures Served(t, g, scaled) == TreeAdded(t1, g)
    ensures StaleWeight(t1.groups, g) == StaleWeight(TreeDeleted(t, g).groups, g)
    ensures t1.groups[g].vdisktime == t.groups[g].vdisktime + scaled
    ensures forall x :: 0 <= x < |t.groups| ==> t1.groups[x].nrCfqq == t.groups[x].nrCfqq
    ensures forall x :: 0 <= x < |t.groups| && x != g ==>
              t1.groups[x].vdisktime == t.groups[x].vdisktime && t1.groups[x].onTree == t.groups[x].onTree
  {
    TreeDeletedInv(t, g);
    DeactivatedInv(t.groups, g, false);
    if Inv(t.groups, true) {
      DeactivatedInv(t.groups, g, true);
    }
    var t0 := TreeDeleted(t, g);
    t1 := Charged(t0, g, scaled);
    GroupFits(t0, g);
    NeutralChange(t0, g, t1.groups[g]);
  }

  lemma ServedInv(t: Tree, g: nat, scaled: nat)
    requires QueuesInv(t) && g < |t.groups| && t.groups[g].onTree && Served(t, g, scaled).Some?
    ensures var t' := Served(t, g, scaled).value;
            && QueuesInv(t') && t'.minVdisktime == t.minVdisktime && |t'.groups| == |t.groups|
            && t'.groups[g].vdisktime == t.groups[g].vdisktime + scaled
            && (forall x :: 0 <= x < |t.groups| ==> t'.groups[x].onTree == t.groups[x].onTree)
            && (forall x :: 0 <= x < |t.groups| && x != g ==> t'.groups[x].vdisktime == t.groups[x].vdisktime)
  {
    var t1 := ServeReady(t, g, scaled);
    TreeAddedInv(t1, g);
    TreeAddedGroups(t1, g);
    TreeAddedQueues(t1, g);
  }

  lemma ChosenInv(t: Tree)
    requires QueuesInv(t)
    ensures QueuesInv(Chosen(t)) && Chosen(t).minVdisktime >= t.minVdisktime
    ensures t.order != [] ==> Chosen(t).left == Some(t.order[0])
  {
    if t.order != [] {
      forall g | 0 <= g < |t.groups| && t.groups[g].onTree
        ensures t.groups[t.order[0]].vdisktime <= t.groups[g].vdisktime
      {
        FirstIsLeast(t.order, t.groups, g);
      }
    }
  }

  // ---------------------------------------------------------------- runs

  datatype Action =
    | AddQueue(g: nat)
    | DelQueue(g: nat)
    | Serve(g: nat, charge: nat)
    | Choose
    | SetWeight(g: nat, weight: nat)
    | SetLeafWeight(g: nat, leafWeight: nat)
    | NewGroup(parent: nat, weight: nat, leafWeight: nat)

  function NewCfqg(parent: nat, weight: nat, leafWeight: nat): Cfqg {
    Cfqg(Some(parent), weight, 0, leafWeight, 0, 0, 0, 0, 0, false, 0)
  }

  /** What the callers of the locked operations see to. */
  predicate Enabled(t: Tree, a: Action) {
    match a
    case AddQueue(g) => g < |t.groups|
    case DelQueue(g) => g < |t.groups| && t.groups[g].nrCfqq >= 1
    case Serve(g, charge) => g < |t.groups| && t.groups[g].onTree
    case Choose => true
    case SetWeight(g, weight) => g < |t.groups| && WeightOk(weight)
    case SetLeafWeight(g, leafWeight) => g < |t.groups| && WeightOk(leafWeight)
    case NewGroup(parent, weight, leafWeight) => parent < |t.groups| && WeightOk(weight) && WeightOk(leafWeight)
  }

  /** One locked operation; None when it divides by zero. */
  ghost function After(t: Tree, a: Action): Option<Tree>
    requires QueuesInv(t) && Enabled(t, a)
  {
    match a
    case AddQueue(g) => QueueAdded(t, g)
    case DelQueue(g) => Some(QueueDeleted(t, g))
    case Serve(g, charge) => Served(t, g, ScaleCharge(charge, t.groups[g].vfraction))
    case Choose => Some(Chosen(t))
    case SetWeight(g, weight) => Some(WithGroup(t, g, t.groups[g].(newWeight := weight)))
    case SetLeafWeight(g, leafWeight) => Some(WithGroup(t, g, t.groups[g].(newLeafWeight := leafWeight)))
    case NewGroup(parent, weight, leafWeight) => Some(t.(groups := t.groups + [NewCfqg(parent, weight, leafWeight)]))
  }

  ghost predicate Step(t: Tree, a: Action, t': Tree)
    requires QueuesInv(t)
  {
    Enabled(t, a) && After(t, a) == Some(t')
  }

  /** The operation takes up a new weight for a group that its parent counts with the old one. */
  ghost predicate TakesStale(t: Tree, a: Action)
    requires QueuesInv(t) && Enabled(t, a)
  {
    match a
    case AddQueue(g) => !t.groups[g].onTree && StaleWeight(t.groups, g)
    case Serve(g, charge) => StaleWeight(TreeDeleted(t, g).groups, g)
    case _ => false
  }

  lemma {:induction false} NewGroupCounts(gs: Groups, n: Cfqg, x: nat, m: nat)
    requires m <= |gs| && !n.Active()
    ensures ChildCount(gs + [n], x, m) == ChildCount(gs, x, m) && ChildWeight(gs + [n], x, m) == ChildWeight(gs, x, m)
  {
    if m > 0 {
      NewGroupCounts(gs, n, x, m - 1);
    }
  }

  lemma {:induction false} NoChildYet(gs: Groups, x: nat, m: nat)
    requires Shape(gs) && m <= |gs| && |gs| <= x
    ensures ChildCount(gs, x, m) == 0 && ChildWeight(gs, x, m) == 0
  {
    if m > 0 {
      NoChildYet(gs, x, m - 1);
      assert GroupOk(gs[m - 1], m - 1);
    }
  }

  lemma NewGroupCounted(gs: Groups, n: Cfqg, sums: bool)
    requires Inv(gs, sums) && GroupOk(n, |gs|) && n.nrActive == 0 && n.childrenWeight == 0 && !n.onTree
    ensures Inv(gs + [n], sums)
  {
    var gs' := gs + [n];
    forall i | 0 <= i < |gs'| ensures GroupOk(gs'[i], i) {
    }
    forall x | 0 <= x < |gs'| ensures Counted(gs', x, sums) {
      NewGroupCounts(gs, n, x, |gs|);
      if x < |gs| {
        assert Counted(gs, x, sums);
      } else {
        NoChildYet(gs, x, |gs|);
      }
    }
  }

  lemma NewGroupInv(t: Tree, n: Cfqg)
    requires QueuesInv(t) && GroupOk(n, |t.groups|)
    requires n.nrActive == 0 && n.childrenWeight == 0 && !n.onTree && n.nrCfqq == 0
    ensures QueuesInv(t.(groups := t.groups + [n]))
  {
    NewGroupCounted(t.groups, n, false);
    forall x | x in t.order ensures x < |t.groups| {
    }
    OrderKept(t.order, t.groups, t.groups + [n]);
  }

  lemma OrderKept(s: seq<nat>, gs: Groups, gs': Groups)
    requires InRange(s, gs) && Ordered(s, gs) && gs <= gs'
    ensures InRange(s, gs') && Ordered(s, gs')
  {
  }

  /** Every operation keeps counts, order, cache and minimum right, and the minimum never goes down. */
  lemma StepInv(t: Tree, a: Action, t': Tree)
    requires QueuesInv(t) && Step(t, a, t')
    ensures QueuesInv(t') && t'.minVdisktime >= t.minVdisktime
  {
    match a
    case AddQueue(g) => QueueAddedInv(t, g);
    case DelQueue(g) => QueueDeletedInv(t, g);
    case Serve(g, charge) => ServedInv(t, g, ScaleCharge(charge, t.groups[g].vfraction));
    case Choose => ChosenInv(t);
    case SetWeight(g, weight) =>
      GroupFits(t, g);
      NeutralChange(t, g, t.groups[g].(newWeight := weight));
    case SetLeafWeight(g, leafWeight) =>
      GroupFits(t, g);
      NeutralChange(t, g, t.groups[g].(newLeafWeight := leafWeight));
    case NewGroup(parent, weight, leafWeight) => NewGroupInv(t, NewCfqg(parent, weight, leafWeight));
  }

  /** Right sums stay right exactly when no stale weight is taken up. */
  lemma StepSums(t: Tree, a: Action, t': Tree)
    requires QueuesInv(t) && Inv(t.groups, true) && Step(t, a, t')
    ensures Inv(t'.groups, true) <==> !TakesStale(t, a)
  {
    match a
    case AddQueue(g) =>
      if t.groups[g].onTree {
        GroupFits(t, g);
        NeutralChange(t, g, t.groups[g].(nrCfqq := t.groups[g].nrCfqq + 1));
      } else {
        var t1 := JoinReady(t, g);
        TreeAddedSums(t1, g);
      }
    case DelQueue(g) => QueueDeletedSums(t, g);
    case Serve(g, charge) =>
      var t1 := ServeReady(t, g, ScaleCharge(charge, t.groups[g].vfraction));
      TreeAddedSums(t1, g);
    case Choose =>
    case SetWeight(g, weight) =>
      GroupFits(t, g);
      NeutralChange(t, g, t.groups[g].(newWeight := weight));
    case SetLeafWeight(g, leafWeight) =>
      GroupFits(t, g);
      NeutralChange(t, g, t.groups[g].(newLeafWeight := leafWeight));
    case NewGroup(parent, weight, leafWeight) => NewGroupCounted(t.groups, NewCfqg(parent, weight, leafWeight), true);
  }

  /** With right sums an operation that takes up no stale weight does not divide by zero. */
  lemma StepDefined(t: Tree, a: Action)
    requires QueuesInv(t) && Inv(t.groups, true) && Enabled(t, a) && !TakesStale(t, a) && |t.groups| <= MOST_GROUPS
    ensures After(t, a).Some?
  {
    match a
    case AddQueue(g) =>
      if !t.groups[g].onTree {
        var t1 := JoinReady(t, g);
        TreeAddedDefined(t1, g);
      }
    case Serve(g, charge) =>
      var t1 := ServeReady(t, g, ScaleCharge(charge, t.groups[g].vfraction));
      TreeAddedDefined(t1, g);
    case _ =>
  }

  ghost predicate Init(t: Tree) {
    && |t.groups| == 1 && t.order == [] && t.left == None && t.minVdisktime == 0
    && t.groups[0] == Cfqg(None, t.groups[0].weight, 0, t.groups[0].leafWeight, 0, 0, 0, 0, 0, false, 0)
    && WeightOk(t.groups[0].weight) && WeightOk(t.groups[0].leafWeight)
  }

  /** A run from a tree with the root group only, up to any point before a division by zero. */
  ghost predicate Run(states: seq<Tree>, actions: seq<Action>) {
    && |states| == |actions| + 1
    && Init(states[0])
    && forall i :: 0 <= i < |actions| ==> QueuesInv(states[i]) ==> Step(states[i], actions[i], states[i + 1])
  }

  lemma InitInv(t: Tree)
    requires Init(t)
    ensures QueuesInv(t) && Inv(t.groups, true)
  {
    var gs := t.groups;
    assert ChildCount(gs, 0, 0) == 0 && ChildWeight(gs, 0, 0) == 0;
    assert gs[0].parent != Some(0);
    assert ChildCount(gs, 0, 1) == 0 && ChildWeight(gs, 0, 1) == 0;
    assert Counted(gs, 0, true) && Counted(gs, 0, false);
  }

  lemma {:induction false} RunInv(states: seq<Tree>, actions: seq<Action>, n: nat)
    requires Run(states, actions) && n < |states|
    ensures QueuesInv(states[n])
    ensures n < |actions| ==> Step(states[n], actions[n], states[n + 1])
  {
    if n == 0 {
      InitInv(states[0]);
    } else {
      RunInv(states, actions, n - 1);
      StepInv(states[n - 1], actions[n - 1], states[n]);
    }
  }

  // ---------------------------------------------------------------- the hierarchy over runs

  /** The weight sums of the first `n + 1` states are right. */
  ghost predicate SumsRight(states: seq<Tree>, n: nat)
    requires n < |states|
  {
    forall i :: 0 <= i <= n ==> Inv(states[i].groups, true)
  }

  ghost predicate TookStale(states: seq<Tree>, actions: seq<Action>, i: nat)
    requires i < |states| && i < |actions|
  {
    QueuesInv(states[i]) && Enabled(states[i], actions[i]) && TakesStale(states[i], actions[i])
  }

  /** None of the first `n` steps takes up a stale weight. */
  ghost predicate NoStale(states: seq<Tree>, actions: seq<Action>, n: nat)
    requires n <= |actions| && n < |states|
  {
    forall i :: 0 <= i < n ==> !TookStale(states, actions, i)
  }

  /** Along every run the sums are right up to a state exactly when no step before it takes up a stale weight. */
  lemma {:induction false} SumsRightExactly(states: seq<Tree>, actions: seq<Action>, n: nat)
    requires Run(states, actions) && n < |states|
    ensures SumsRight(states, n) <==> NoStale(states, actions, n)
  {
    if n == 0 {
      InitInv(states[0]);
    } else {
      SumsRightExactly(states, actions, n - 1);
      RunInv(states, actions, n - 1);
      if NoStale(states, actions, n - 1) {
        assert Inv(states[n - 1].groups, true);
        StepSums(states[n - 1], actions[n - 1], states[n]);
        assert TookStale(states, actions, n - 1) == TakesStale(states[n - 1], actions[n - 1]);
      } else {
        var i :| 0 <= i < n - 1 && TookStale(states, actions, i);
        assert !NoStale(states, actions, n);
      }
    }
  }

  /** In every reachable state nr_active counts own tree membership plus active children. */
  lemma CountsHold(states: seq<Tree>, actions: seq<Action>, n: nat, x: nat)
    requires Run(states, actions) && n < |states| && x < |states[n].groups|
    ensures var gs := states[n].groups;
            && Shape(gs) && gs[x].nrActive == (if gs[x].onTree then 1 else 0) + ChildCount(gs, x, |gs|)
            && (gs[x].nrActive > 0 <==> exists d :: 0 <= d < |gs| && Below(gs, d, x) && gs[d].onTree)
  {
    RunInv(states, actions, n);
    assert Counted(states[n].groups, x, false);
    ActiveExactly(states[n].groups, x);
  }

  /**
   As long as no step takes up a stale weight, children_weight is the sum of the matching weights, and the shares of
   the groups on the tree fit into the whole disk.
   */
  lemma HierarchyHolds(states: seq<Tree>, actions: seq<Action>, n: nat, x: nat)
    requires Run(states, actions) && n < |states| && x < |states[n].groups| && NoStale(states, actions, n)
    ensures var gs := states[n].groups;
            && Shape(gs)
            && gs[x].childrenWeight == ((if gs[x].onTree then gs[x].leafWeight else 0) + ChildWeight(gs, x, |gs|)) % U32
            && (|gs| <= MOST_GROUPS ==>
                  && gs[x].childrenWeight == (if gs[x].onTree then gs[x].leafWeight else 0) + ChildWeight(gs, x, |gs|)
                  && SumShare(gs, |gs|) <= ONE)
  {
    SumsRightExactly(states, actions, n);
    var gs := states[n].groups;
    assert Counted(gs, x, true);
    if |gs| <= MOST_GROUPS {
      PlainSum(gs, x);
      SharesFit(gs);
    }
  }

  /** As long as no step takes up a stale weight, no operation divides by zero. */
  lemma NeverDividesByZero(states: seq<Tree>, actions: seq<Action>, n: nat, a: Action)
    requires Run(states, actions) && n < |states| && NoStale(states, actions, n)
    requires |states[n].groups| <= MOST_GROUPS && Enabled(states[n], a)
    ensures QueuesInv(states[n])
    ensures !TakesStale(states[n], a) ==> After(states[n], a).Some?
  {
    RunInv(states, actions, n);
    SumsRightExactly(states, actions, n);
    assert Inv(states[n].groups, true);
    if !TakesStale(states[n], a) {
      StepDefined(states[n], a);
    }
  }

  // ---------------------------------------------------------------- deletion undoes addition over runs

  lemma {:induction false} RaisedNarrow(gs: Groups, pos: nat)
    requires Shape(gs) && pos < |gs| && Narrow(gs)
    ensures Narrow(Raised(gs, pos))
    decreases pos
  {
    if gs[pos].parent.Some? {
      RaisedShape(gs, pos);
      if gs[gs[pos].parent.value].nrActive == 0 {
        RaisedNarrow(RaiseOne(gs, pos), gs[pos].parent.value);
      }
    }
  }

  lemma {:induction false} LoweredNarrow(gs: Groups, pos: nat)
    requires Shape(gs) && pos < |gs| && Narrow(gs)
    ensures Narrow(Lowered(gs, pos))
    decreases pos
  {
    if gs[pos].parent.Some? {
      LoweredShape(gs, pos);
      if gs[gs[pos].parent.value].nrActive == 1 {
        LoweredNarrow(LowerOne(gs, pos), gs[pos].parent.value);
      }
    }
  }

  lemma TreeAddedNarrow(t: Tree, g: nat)
    requires Shape(t.groups) && InRange(t.order, t.groups) && g < |t.groups| && TreeAdded(t, g).Some?
    requires Narrow(t.groups)
    ensures Narrow(TreeAdded(t, g).value.groups)
  {
    var gs1 := t.groups[g := Reweighted(t.groups[g])];
    ReweightedShape(t.groups, g);
    ShapeAdded(t.groups, g);
    if gs1[g].nrActive == 0 {
      RaisedNarrow(Joined(gs1, g), g);
    }
  }

  lemma TreeDeletedNarrow(t: Tree, g: nat)
    requires Shape(t.groups) && g < |t.groups| && Narrow(t.groups)
    ensures Narrow(TreeDeleted(t, g).groups)
  {
    var own := Parted(t.groups, g);
    ChangedShape(t.groups, own, g);
    if own[g].nrActive == 0 {
      LoweredNarrow(own, g);
    }
  }

  lemma StepNarrow(t: Tree, a: Action, t': Tree)
    requires QueuesInv(t) && Narrow(t.groups) && Step(t, a, t')
    ensures Narrow(t'.groups)
  {
    match a
    case AddQueue(g) =>
      if !t.groups[g].onTree {
        var t1 := JoinReady(t, g);
        TreeAddedNarrow(t1, g);
      }
    case DelQueue(g) =>
      var t1 := LeaveReady(t, g);
      TreeDeletedNarrow(t1, g);
    case Serve(g, charge) =>
      TreeDeletedNarrow(t, g);
      var t1 := ServeReady(t, g, ScaleCharge(charge, t.groups[g].vfraction));
      TreeAddedNarrow(t1, g);
    case _ =>
  }

  lemma {:induction false} RunNarrow(states: seq<Tree>, actions: seq<Action>, n: nat)
    requires Run(states, actions) && n < |states|
    ensures Narrow(states[n].groups)
  {
    if n > 0 {
      RunNarrow(states, actions, n - 1);
      RunInv(states, actions, n - 1);
      StepNarrow(states[n - 1], actions[n - 1], states[n]);
    }
  }

  lemma {:induction false} InsertUndone(s: seq<nat>, gs: Groups, g: nat)
    requires InRange(s, gs) && g < |gs| && g !in s
    ensures Without(Insert(s, gs, g), g) == s
  {
    if s != [] && gs[g].vdisktime >= gs[s[0]].vdisktime {
      assert s[0] in s && forall x :: x in s[1..] ==> x in s;
      InsertUndone(s[1..], gs, g);
    } else {
      assert ([g] + s)[1..] == s;
    }
  }

  /**
   In every reachable state, stale weights or not, cfq_group_service_tree_del after cfq_group_service_tree_add restores
   the groups with the new weights of the one that was added, the tree and the minimum; the cache is as it was or empty.
   */
  lemma DelUndoesAddInRun(states: seq<Tree>, actions: seq<Action>, n: nat, g: nat)
    requires Run(states, actions) && n < |states| && g < |states[n].groups| && !states[n].groups[g].onTree
    ensures QueuesInv(states[n])
    ensures var t := states[n];
            TreeAdded(t, g).Some? ==>
              var added := TreeAdded(t, g).value;
              && Shape(added.groups) && |added.groups| == |t.groups|
              && var t' := TreeDeleted(added, g);
                 && SameButVfraction(t.groups[g := Reweighted(t.groups[g])], t'.groups)
                 && t'.order == t.order && t'.minVdisktime == t.minVdisktime
                 && (t'.left == t.left || t'.left == None)
  {
    RunInv(states, actions, n);
    RunNarrow(states, actions, n);
    var t := states[n];
    if TreeAdded(t, g).Some? {
      var gs1 := t.groups[g := Reweighted(t.groups[g])];
      ReweightedShape(t.groups, g);
      ShapeAdded(t.groups, g);
      DelUndoesShare(gs1, g, TreeAdded(t, g).value.groups);
      InsertUndone(t.order, t.groups, g);
    }
  }

  // ---------------------------------------------------------------- virtual time over runs

  /** min_vdisktime never passes a group on the tree, and a cached leftmost group is the first in line. */
  lemma VirtualTimeHolds(states: seq<Tree>, actions: seq<Action>, n: nat, x: nat)
    requires Run(states, actions) && n < |states|
    requires x < |states[n].groups| && states[n].groups[x].onTree
    ensures states[n].minVdisktime <= states[n].groups[x].vdisktime
    ensures states[n].left.Some? ==>
              && states[n].left.value < |states[n].groups| && states[n].groups[states[n].left.value].onTree
              && states[n].groups[states[n].left.value].vdisktime <= states[n].groups[x].vdisktime
  {
    RunInv(states, actions, n);
    var t := states[n];
    if t.left.Some? {
      FirstIsLeast(t.order, t.groups, x);
      assert t.order[0] in t.order;
    }
  }

  lemma {:induction false} MinNeverDecreases(states: seq<Tree>, actions: seq<Action>, i: nat, j: nat)
    requires Run(states, actions) && i <= j < |states|
    ensures states[i].minVdisktime <= states[j].minVdisktime
    decreases j
  {
    if i < j {
      MinNeverDecreases(states, actions, i, j - 1);
      RunInv(states, actions, j - 1);
      StepInv(states[j - 1], actions[j - 1], states[j]);
    }
  }

  // ---------------------------------------------------------------- the spread of virtual times

  /** No two groups on the tree are further apart than `d`. */
  ghost predicate Within(t: Tree, d: nat) {
    forall a, b :: 0 <= a < |t.groups| && 0 <= b < |t.groups| && t.groups[a].onTree && t.groups[b].onTree ==>
      t.groups[a].vdisktime <= t.groups[b].vdisktime + d
  }

  function MaxOf(a: nat, b: nat): nat {
    if a < b then b else a
  }

  /** No group joins the tree, and only the first in line is served, for a scaled charge of at most `most`. */
  ghost predicate Calm(t: Tree, a: Action, most: nat)
    requires QueuesInv(t) && Enabled(t, a)
  {
    match a
    case AddQueue(g) => t.groups[g].onTree
    case Serve(g, charge) =>
      t.order != [] && g == t.order[0] && ScaleCharge(charge, t.groups[g].vfraction) <= most
    case _ => true
  }

  lemma ServeWithin(t: Tree, g: nat, scaled: nat, d: nat)
    requires QueuesInv(t) && t.order != [] && g == t.order[0] < |t.groups| && t.groups[g].onTree && Within(t, d)
    requires Served(t, g, scaled).Some?
    ensures Within(Served(t, g, scaled).value, MaxOf(d, scaled))
  {
    ServedInv(t, g, scaled);
    var t' := Served(t, g, scaled).value;
    forall a, b | 0 <= a < |t'.groups| && 0 <= b < |t'.groups| && t'.groups[a].onTree && t'.groups[b].onTree
      ensures t'.groups[a].vdisktime <= t'.groups[b].vdisktime + MaxOf(d, scaled)
    {
      FirstIsLeast(t.order, t.groups, b);
      assert t.groups[a].vdisktime <= t.groups[b].vdisktime + d;
    }
  }

  lemma DeleteWithin(t: Tree, g: nat, d: nat)
    requires QueuesInv(t) && g < |t.groups| && t.groups[g].nrCfqq >= 1 && Within(t, d)
    ensures Within(QueueDeleted(t, g), d)
  {
    var t1 := LeaveReady(t, g);
    FewerWithin(t, t1, d);
    if t1.groups[g].nrCfqq == 0 {
      DeactivatedInv(t1.groups, g, false);
      FewerWithin(t1, TreeDeleted(t1, g), d);
    }
  }

  lemma WiderWithin(t: Tree, d: nat, e: nat)
    requires Within(t, d) && d <= e
    ensures Within(t, e)
  {
  }

  lemma FewerWithin(t: Tree, t': Tree, d: nat)
    requires Within(t, d) && |t'.groups| == |t.groups|
    requires forall x :: 0 <= x < |t.groups| && t'.groups[x].onTree ==>
               t.groups[x].onTree && t'.groups[x].vdisktime == t.groups[x].vdisktime
    ensures Within(t', d)
  {
  }

  lemma CalmWithin(t: Tree, a: Action, t': Tree, most: nat, d: nat)
    requires QueuesInv(t) && Step(t, a, t') && Calm(t, a, most) && Within(t, d)
    ensures Within(t', MaxOf(d, most))
  {
    match a
    case Serve(g, charge) =>
      var scaled := ScaleCharge(charge, t.groups[g].vfraction);
      ServeWithin(t, g, scaled, d);
      WiderWithin(t', MaxOf(d, scaled), MaxOf(d, most));
    case DelQueue(g) => DeleteWithin(t, g, d);
    case NewGroup(_, _, _) => NewWithin(t, t', d);
    case _ => FewerWithin(t, t', d);
  }

  lemma NewWithin(t: Tree, t': Tree, d: nat)
    requires Within(t, d) && |t'.groups| == |t.groups| + 1 && t'.groups[..|t.groups|] == t.groups
    requires !t'.groups[|t.groups|].onTree
    ensures Within(t', d)
  {
    forall x | 0 <= x < |t.groups| ensures t'.groups[x] == t.groups[x] {
    }
  }

  /** Steps from any state the invariant allows, all of them calm. */
  ghost predicate CalmRun(states: seq<Tree>, actions: seq<Action>, most: nat) {
    && |states| == |actions| + 1
    && QueuesInv(states[0])
    && forall i :: 0 <= i < |actions| && QueuesInv(states[i]) ==>
         Step(states[i], actions[i], states[i + 1]) && Calm(states[i], actions[i], most)
  }

  /**
   While no group joins, whatever leaves, is served or gets new weights, the spread of virtual times stays within the
   larger of the initial spread and the largest scaled charge.
   */
  lemma {:induction false} SpreadBounded(states: seq<Tree>, actions: seq<Action>, most: nat, d: nat, n: nat)
    requires CalmRun(states, actions, most) && Within(states[0], d) && n < |states|
    ensures QueuesInv(states[n]) && Within(states[n], MaxOf(d, most))
  {
    if n > 0 {
      SpreadBounded(states, actions, most, d, n - 1);
      StepInv(states[n - 1], actions[n - 1], states[n]);
      CalmWithin(states[n - 1], actions[n - 1], states[n], most, MaxOf(d, most));
    }
  }
}
