/**
 A run in which a group takes up a new weight while its parent counts it with the old one, and the division by zero
 that the wrong sum leads to.
 */
module CfqStale {
  import opened Lists
  import opened CfqModel
  import opened CfqWeights
  import opened CfqShares
  import opened CfqTime
  import opened CfqRuns

  function Group(parent: Option<nat>, weight: nat, newWeight: nat, nrActive: int, childrenWeight: nat,
                 vfraction: nat): Cfqg {
    Cfqg(parent, weight, newWeight, 500, 0, nrActive, childrenWeight, vfraction, 0, false, 0)
  }

  function Running(g: Cfqg, vdisktime: nat): Cfqg {
    g.(onTree := true, nrCfqq := 1, vdisktime := vdisktime)
  }

  /** The root group, group 1 below it and group 2 below that. */
  function Root(): Cfqg { Group(None, 1000, 0, 0, 0, 0) }
  function Upper(): Cfqg { Group(Some(0), 500, 0, 0, 0, 0) }
  function Lower(): Cfqg { Group(Some(1), 500, 0, 0, 0, 0) }

  /** The root with group 1 active, and group 2 with a queue. */
  function BusyRoot(): Cfqg { Group(None, 1000, 0, 1, 500, 0) }
  function BusyLower(): Cfqg { Running(Group(Some(1), 500, 0, 1, 500, 4096), 0) }

  /** The root once group 1, counted with weight 500, has been taken off with weight 900. */
  function OffRoot(): Cfqg { Group(None, 1000, 0, 0, 0xFFFF_FE70, 0) }

  function Start(): Tree { Tree([Root()], [], None, 0) }
  function OneGroup(): Tree { Tree([Root(), Upper()], [], None, 0) }
  function TwoGroups(): Tree { Tree([Root(), Upper(), Lower()], [], None, 0) }
  function LowerIn(): Tree { Tree([BusyRoot(), Group(Some(0), 500, 0, 1, 500, 0), BusyLower()], [2], Some(2), 0) }
  function Pending(): Tree { Tree([BusyRoot(), Group(Some(0), 500, 900, 1, 500, 0), BusyLower()], [2], Some(2), 0) }
  function BothIn(): Tree {
    Tree([BusyRoot(), Running(Group(Some(0), 900, 0, 2, 1000, 3686), 40), BusyLower()], [2, 1], Some(2), 0)
  }
  function UpperOut(): Tree {
    Tree([BusyRoot(), Group(Some(0), 900, 0, 1, 500, 3686).(vdisktime := 40), BusyLower()], [2], Some(2), 0)
  }
  function BothOut(): Tree {
    Tree([OffRoot(), Group(Some(0), 900, 0, 0, 0, 0).(vdisktime := 40), Lower()], [], None, 0)
  }
  function Lighter(): Tree {
    Tree([OffRoot(), Group(Some(0), 900, 400, 0, 0, 0).(vdisktime := 40), Lower()], [], None, 0)
  }

  lemma Prepared()
    ensures Init(Start())
    ensures QueuesInv(Start()) ==> Step(Start(), NewGroup(0, 500, 500), OneGroup())
    ensures QueuesInv(OneGroup()) ==> Step(OneGroup(), NewGroup(1, 500, 500), TwoGroups())
  {
    assert Start().groups + [NewCfqg(0, 500, 500)] == OneGroup().groups;
    assert OneGroup().groups + [NewCfqg(1, 500, 500)] == TwoGroups().groups;
  }

  lemma WeightsSet()
    ensures QueuesInv(LowerIn()) ==> Step(LowerIn(), SetWeight(1, 900), Pending())
    ensures QueuesInv(BothOut()) ==> Step(BothOut(), SetWeight(1, 400), Lighter())
  {
    var g, h := LowerIn().groups, BothOut().groups;
    assert g[1 := g[1].(newWeight := 900)] == Pending().groups;
    assert h[1 := h[1].(newWeight := 400)] == Lighter().groups;
  }

  // ---------------------------------------------------------------- group 2 gets a queue

  function LowerReady(): Groups { [Root(), Upper(), Lower().(nrCfqq := 1)] }
  function LowerOwn(): Groups { [Root(), Upper(), BusyLower().(vfraction := 0)] }
  function LowerHalf(): Groups { [Root(), Group(Some(0), 500, 0, 1, 500, 0), BusyLower().(vfraction := 0)] }
  function LowerUp(): Groups { [BusyRoot(), Group(Some(0), 500, 0, 1, 500, 0), BusyLower().(vfraction := 0)] }

  /** It activates both groups above it. */
  lemma LowerActivates()
    ensures Shape(LowerReady()) && Shape(LowerUp()) && ServiceAdded(LowerReady(), 2) == LowerUp()
  {
    var gs := LowerReady();
    assert gs[2 := Reweighted(gs[2])] == gs;
    assert Joined(gs, 2) == LowerOwn();
    assert RaiseOne(LowerOwn(), 2) == LowerHalf();
    assert RaiseOne(LowerHalf(), 1) == LowerUp();
    assert Raised(LowerHalf(), 1) == LowerUp();
  }

  lemma LowerShare()
    ensures Shape(LowerUp()) && Share(LowerUp(), 2) == Some(4096)
  {
    var gs := LowerUp();
    assert Compound(gs, 4096, 0) == Some(4096);
    assert Compound(gs, 4096, 1) == Some(4096);
  }

  lemma LowerAdded()
    ensures Shape(LowerReady())
    ensures TreeAdded(Tree(LowerReady(), [], None, 0), 2) == Some(LowerIn())
  {
    LowerActivates();
    LowerShare();
    var gs := LowerUp();
    assert gs[2 := gs[2].(vfraction := 4096)] == LowerIn().groups;
  }

  lemma LowerJoins()
    ensures QueuesInv(TwoGroups()) ==> Step(TwoGroups(), AddQueue(2), LowerIn())
  {
    var t := TwoGroups();
    LowerAdded();
    assert t.groups[2 := t.groups[2].(nrCfqq := 1, vdisktime := 0)] == LowerReady();
  }

  // ---------------------------------------------------------------- group 1 gets a queue and takes up the new weight

  function UpperReady(): Groups {
    [BusyRoot(), Group(Some(0), 500, 900, 1, 500, 0).(nrCfqq := 1, vdisktime := 40), BusyLower()]
  }
  function UpperUp(): Groups { [BusyRoot(), Running(Group(Some(0), 900, 0, 2, 1000, 0), 40), BusyLower()] }

  /** It is active already, so its parent keeps the old weight. */
  lemma UpperAdded()
    ensures Shape(UpperReady())
    ensures TreeAdded(Tree(UpperReady(), [2], Some(2), 0), 1) == Some(BothIn())
  {
    var gs := UpperReady();
    var gs1 := gs[1 := Reweighted(gs[1])];
    assert Joined(gs1, 1) == UpperUp();
    assert ServiceAdded(gs, 1) == UpperUp();
    assert Compound(UpperUp(), 3686, 0) == Some(3686);
    assert Compound(UpperUp(), 2048, 1) == Some(3686);
    assert Insert([2], gs, 1) == [2, 1] by {
      assert Insert([], gs, 1) == [1];
    }
    assert UpperUp()[1 := UpperUp()[1].(vfraction := 3686)] == BothIn().groups;
  }

  lemma UpperJoins()
    ensures QueuesInv(Pending()) ==> Step(Pending(), AddQueue(1), BothIn())
  {
    var t := Pending();
    UpperAdded();
    assert t.groups[1 := t.groups[1].(nrCfqq := 1, vdisktime := 40)] == UpperReady();
  }

  // ---------------------------------------------------------------- both queues go

  lemma UpperLeaves()
    ensures QueuesInv(BothIn()) ==> Step(BothIn(), DelQueue(1), UpperOut())
  {
    var t := BothIn();
    var gs := t.groups[1 := t.groups[1].(nrCfqq := 0)];
    assert Parted(gs, 1) == UpperOut().groups;
    assert Without([2, 1], 1) == [2] by {
      assert Without([1], 1) == [];
    }
  }

  function LowerGone(): Groups {
    [BusyRoot(), Group(Some(0), 900, 0, 1, 500, 3686).(vdisktime := 40), Lower().(vfraction := 4096)]
  }
  function UpperGone(): Groups { [BusyRoot(), Group(Some(0), 900, 0, 0, 0, 3686).(vdisktime := 40), Lower()] }

  /** The weight 900 is taken from a sum that holds 500. */
  lemma LowerLowers()
    ensures Shape(LowerGone()) && Lowered(LowerGone(), 2) == BothOut().groups
  {
    assert LowerOne(LowerGone(), 2) == UpperGone();
    assert LowerOne(UpperGone(), 1) == BothOut().groups;
    var gs := BothOut().groups;
    assert gs[0 := gs[0].(vfraction := 0)] == gs;
    assert Lowered(gs, 0) == gs;
    assert Lowered(UpperGone(), 1) == gs;
  }

  lemma LowerLeaves()
    ensures QueuesInv(UpperOut()) ==> Step(UpperOut(), DelQueue(2), BothOut())
  {
    var t := UpperOut();
    var gs := t.groups[2 := t.groups[2].(nrCfqq := 0)];
    assert Parted(gs, 2) == LowerGone();
    LowerLowers();
    assert Without([2], 2) == [];
  }

  // ---------------------------------------------------------------- the division by zero

  function LastReady(): Groups {
    [OffRoot(), Group(Some(0), 900, 400, 0, 0, 0).(nrCfqq := 1, vdisktime := 0), Lower()]
  }
  function LastUp(): Groups {
    [Group(None, 1000, 0, 1, 0, 0), Running(Group(Some(0), 400, 0, 1, 500, 0), 0), Lower()]
  }

  /** Adding group 1 with weight 400 makes the sum of the root 0. */
  lemma LastAdded()
    ensures Shape(LastReady()) && TreeAdded(Tree(LastReady(), [], None, 0), 1) == None
  {
    var gs := LastReady();
    var gs1 := gs[1 := Reweighted(gs[1])];
    assert RaiseOne(Joined(gs1, 1), 1) == LastUp();
    assert ServiceAdded(gs, 1) == LastUp();
    assert Compound(LastUp(), 4096, 1) == None;
  }

  lemma LastFaults()
    ensures QueuesInv(Lighter()) ==> After(Lighter(), AddQueue(1)) == None
  {
    var t := Lighter();
    LastAdded();
    assert t.groups[1 := t.groups[1].(nrCfqq := 1, vdisktime := 0)] == LastReady();
  }

  // ---------------------------------------------------------------- the run

  function States(): seq<Tree> {
    [Start(), OneGroup(), TwoGroups(), LowerIn(), Pending(), BothIn(), UpperOut(), BothOut(), Lighter()]
  }

  function Actions(): seq<Action> {
    [NewGroup(0, 500, 500), NewGroup(1, 500, 500), AddQueue(2), SetWeight(1, 900), AddQueue(1), DelQueue(1),
     DelQueue(2), SetWeight(1, 400)]
  }

  lemma IsRun()
    ensures Run(States(), Actions())
  {
    Prepared();
    WeightsSet();
    LowerJoins();
    UpperJoins();
    UpperLeaves();
    LowerLeaves();
  }

  lemma FirstFour()
    ensures NoStale(States(), Actions(), 4)
  {
    forall i | 0 <= i < 4 ensures !TookStale(States(), Actions(), i) {
      if i == 2 {
        assert !StaleWeight(TwoGroups().groups, 2);
      }
    }
  }

  lemma FifthIsStale()
    requires QueuesInv(Pending())
    ensures Enabled(Pending(), AddQueue(1)) && TakesStale(Pending(), AddQueue(1))
  {
  }

  /** A run whose fifth step takes up a weight the parent does not count, and the sums with it go wrong. */
  lemma StaleIsReachable() returns (states: seq<Tree>, actions: seq<Action>)
    ensures Run(states, actions) && |actions| >= 5
    ensures NoStale(states, actions, 4) && TookStale(states, actions, 4)
    ensures Inv(states[4].groups, true) && !Inv(states[5].groups, true)
  {
    IsRun();
    FirstFour();
    states, actions := States(), Actions();
    RunInv(states, actions, 4);
    FifthIsStale();
    SumsRightExactly(states, actions, 4);
    StepSums(Pending(), AddQueue(1), BothIn());
  }

  /** A run after which a queue that arrives makes cfq_group_service_tree_add divide by zero. */
  lemma DivisionByZeroIsReachable() returns (states: seq<Tree>, actions: seq<Action>)
    ensures Run(states, actions) && |actions| == 8 && |states[8].groups| == 3
    ensures QueuesInv(states[8]) && Enabled(states[8], AddQueue(1)) && After(states[8], AddQueue(1)) == None
  {
    IsRun();
    states, actions := States(), Actions();
    RunInv(states, actions, 8);
    LastFaults();
  }
}
