/** When the weights that are set for a group take effect. */
module CfqSettings {
  import opened Lists
  import opened CfqModel
  import opened CfqWeights
  import opened CfqTime
  import opened CfqRuns

  /** A weight in use and the one that waits, 0 for none. */
  datatype Setting = Setting(now: nat, next: nat)

  function Of(g: Cfqg, leaf: bool): Setting {
    if leaf then Setting(g.leafWeight, g.newLeafWeight) else Setting(g.weight, g.newWeight)
  }

  /** The group joins the tree, or leaves and joins it again. */
  ghost predicate Joins(t: Tree, a: Action, g: nat) {
    && g < |t.groups|
    && ((a.AddQueue? && a.g == g && !t.groups[g].onTree) || (a.Serve? && a.g == g))
  }

  /** The weight, or leaf weight, of `g` is set. */
  predicate Sets(a: Action, g: nat, leaf: bool) {
    if leaf then a.SetLeafWeight? && a.g == g else a.SetWeight? && a.g == g
  }

  function SetTo(a: Action): nat
    requires a.SetWeight? || a.SetLeafWeight?
  {
    if a.SetWeight? then a.weight else a.leafWeight
  }

  lemma AddedSetting(t: Tree, g: nat, x: nat, leaf: bool)
    requires Shape(t.groups) && InRange(t.order, t.groups) && g < |t.groups| && x < |t.groups| && TreeAdded(t, g).Some?
    ensures |TreeAdded(t, g).value.groups| == |t.groups|
    ensures var s, s' := Of(t.groups[x], leaf), Of(TreeAdded(t, g).value.groups[x], leaf);
            s' == if x == g && s.next != 0 then Setting(s.next, 0) else s
  {
    ShapeAdded(t.groups, g);
  }

  lemma DeletedSetting(t: Tree, g: nat, x: nat, leaf: bool)
    requires TimeInv(t) && g < |t.groups| && x < |t.groups| && t.groups[g].onTree
    ensures |TreeDeleted(t, g).groups| == |t.groups|
    ensures Of(TreeDeleted(t, g).groups[x], leaf) == Of(t.groups[x], leaf)
  {
    DeactivatedInv(t.groups, g, false);
  }

  lemma ServedSetting(t: Tree, g: nat, scaled: nat, x: nat, leaf: bool)
    requires QueuesInv(t) && g < |t.groups| && x < |t.groups| && t.groups[g].onTree && Served(t, g, scaled).Some?
    ensures |Served(t, g, scaled).value.groups| == |t.groups|
    ensures var s, s' := Of(t.groups[x], leaf), Of(Served(t, g, scaled).value.groups[x], leaf);
            s' == if x == g && s.next != 0 then Setting(s.next, 0) else s
  {
    DeletedSetting(t, g, x, leaf);
    var t1 := ServeReady(t, g, scaled);
    AddedSetting(t1, g, x, leaf);
  }

  /** What a step does to the weights of a group. */
  lemma StepSetting(t: Tree, a: Action, t': Tree, x: nat, leaf: bool)
    requires QueuesInv(t) && Step(t, a, t') && x < |t.groups|
    ensures x < |t'.groups|
    ensures var s, s' := Of(t.groups[x], leaf), Of(t'.groups[x], leaf);
            s' == if Sets(a, x, leaf) then s.(next := SetTo(a))
                  else if Joins(t, a, x) && s.next != 0 then Setting(s.next, 0)
                  else s
  {
    match a
    case AddQueue(g) =>
      if !t.groups[g].onTree {
        var t1 := JoinReady(t, g);
        AddedSetting(t1, g, x, leaf);
      }
    case DelQueue(g) =>
      var t1 := LeaveReady(t, g);
      if t1.groups[g].nrCfqq == 0 {
        DeletedSetting(t1, g, x, leaf);
      }
    case Serve(g, charge) => ServedSetting(t, g, ScaleCharge(charge, t.groups[g].vfraction), x, leaf);
    case _ =>
  }

  /** The group joins the tree in one of the steps from `i` to before `j`. */
  ghost predicate JoinsBetween(states: seq<Tree>, actions: seq<Action>, i: nat, j: nat, g: nat)
    requires j <= |actions| && j <= |states|
  {
    exists k :: i <= k < j && Joins(states[k], actions[k], g)
  }

  /**
   A weight that is set takes effect when the group next joins the tree, and not before, in every run; until then the
   group keeps the weight it had when it was set.
   */
  lemma {:induction false} SettingTakesEffect(states: seq<Tree>, actions: seq<Action>, i: nat, j: nat, g: nat,
                                              leaf: bool)
    requires Run(states, actions) && i < j < |states| && g < |states[i].groups| && Sets(actions[i], g, leaf)
    requires forall k :: i < k < j ==> !Sets(actions[k], g, leaf)
    ensures g < |states[j].groups| && SetTo(actions[i]) != 0
    ensures Of(states[j].groups[g], leaf) ==
            if JoinsBetween(states, actions, i + 1, j, g) then Setting(SetTo(actions[i]), 0)
            else Setting(Of(states[i].groups[g], leaf).now, SetTo(actions[i]))
    decreases j
  {
    if j == i + 1 {
      RunInv(states, actions, i);
      StepSetting(states[i], actions[i], states[j], g, leaf);
    } else {
      SettingTakesEffect(states, actions, i, j - 1, g, leaf);
      RunInv(states, actions, j - 1);
      StepSetting(states[j - 1], actions[j - 1], states[j], g, leaf);
      JoinsMore(states, actions, i + 1, j, g);
    }
  }

  lemma JoinsMore(states: seq<Tree>, actions: seq<Action>, i: nat, j: nat, g: nat)
    requires i < j <= |actions| && j <= |states|
    ensures JoinsBetween(states, actions, i, j, g) <==>
            JoinsBetween(states, actions, i, j - 1, g) || Joins(states[j - 1], actions[j - 1], g)
  {
  }
}
