/**
 Group scheduling of block/cfq-iosched.c: the hierarchy of weights and the service tree ordered by virtual time.

 Groups are numbered so that a parent comes before its children; group 0 is the root group.
 */
module CfqModel {
  import opened Lists

  const SERVICE_SHIFT: nat := 12
  const ONE: nat := 4096            // 1 << CFQ_SERVICE_SHIFT
  const U32: nat := 0x1_0000_0000
  const WEIGHT_MIN: nat := 10       // CFQ_WEIGHT_MIN
  const WEIGHT_MAX: nat := 1000     // CFQ_WEIGHT_MAX

  datatype Cfqg = Cfqg(
    parent: Option<nat>,
    weight: nat, newWeight: nat,
    leafWeight: nat, newLeafWeight: nat,
    nrActive: int, childrenWeight: nat,
    vfraction: nat,
    vdisktime: nat,
    onTree: bool,                   // !RB_EMPTY_NODE(&cfqg->rb_node)
    nrCfqq: nat)
  {
    predicate Active() {
      nrActive > 0
    }
  }

  type Groups = seq<Cfqg>

  /** What __cfq_set_weight and __cfqg_set_weight_device accept. */
  predicate WeightOk(w: nat) {
    WEIGHT_MIN <= w <= WEIGHT_MAX
  }

  ghost predicate GroupOk(g: Cfqg, i: nat) {
    && (g.parent.Some? ==> g.parent.value < i)
    && (i > 0 ==> g.parent.Some?)
    && WeightOk(g.weight) && (g.newWeight != 0 ==> WeightOk(g.newWeight))
    && WeightOk(g.leafWeight) && (g.newLeafWeight != 0 ==> WeightOk(g.newLeafWeight))
  }

  /** Parents come first, and weights are within their limits. */
  ghost predicate Shape(gs: Groups) {
    forall i :: 0 <= i < |gs| ==> GroupOk(gs[i], i)
  }

  /** Sums and differences of 32-bit unsigned integers. */
  function Add32(a: nat, b: nat): nat {
    (a + b) % U32
  }

  function Sub32(a: nat, b: nat): nat {
    (a - b) % U32
  }

  /** cfq_update_group_weight. */
  function Reweighted(g: Cfqg): Cfqg {
    g.(weight := if g.newWeight != 0 then g.newWeight else g.weight, newWeight := 0,
       leafWeight := if g.newLeafWeight != 0 then g.newLeafWeight else g.leafWeight, newLeafWeight := 0)
  }

  /** The upward loop of cfq_group_service_tree_add while it propagates: `pos` has just become active. */
  function Raised(gs: Groups, pos: nat): (r: Groups)
    requires Shape(gs) && pos < |gs|
    ensures |r| == |gs|
    decreases pos
  {
    if gs[pos].parent.None? then gs
    else
      var p := gs[pos].parent.value;
      var up := gs[p := gs[p].(nrActive := gs[p].nrActive + 1,
                               childrenWeight := Add32(gs[p].childrenWeight, gs[pos].weight))];
      if gs[p].nrActive != 0 then up else Raised(up, p)
  }

  /** Activation of group `g` by cfq_group_service_tree_add, with its weights already updated. */
  function Activated(gs: Groups, g: nat): (r: Groups)
    requires Shape(gs) && g < |gs|
    ensures |r| == |gs|
  {
    var own := gs[g := gs[g].(onTree := true, nrActive := gs[g].nrActive + 1,
                              childrenWeight := Add32(gs[g].childrenWeight, gs[g].leafWeight))];
    if gs[g].nrActive != 0 then own else Raised(own, g)
  }

  /** The loop of cfq_group_service_tree_del: `pos` has just become inactive. */
  function Lowered(gs: Groups, pos: nat): (r: Groups)
    requires Shape(gs) && pos < |gs|
    ensures |r| == |gs|
    decreases pos
  {
    var cleared := gs[pos := gs[pos].(vfraction := 0)];
    if gs[pos].parent.None? then cleared
    else
      var p := gs[pos].parent.value;
      var n := gs[p].nrActive - 1;
      var down := cleared[p := gs[p].(nrActive := n, childrenWeight := Sub32(gs[p].childrenWeight, gs[pos].weight))];
      if n != 0 then down else Lowered(down, p)
  }

  /** Deactivation of group `g` by cfq_group_service_tree_del. */
  function Deactivated(gs: Groups, g: nat): (r: Groups)
    requires Shape(gs) && g < |gs|
    ensures |r| == |gs|
  {
    var n := gs[g].nrActive - 1;
    var own := gs[g := gs[g].(onTree := false, nrActive := n,
                              childrenWeight := Sub32(gs[g].childrenWeight, gs[g].leafWeight))];
    if n != 0 then own else Lowered(own, g)
  }

  /** `vfr * weight / sum` of unsigned ints; None is the fault of a division by zero. */
  function Scaled(vfr: nat, weight: nat, sum: nat): (r: Option<nat>) {
    if sum == 0 then None else Some(vfr * weight % U32 / sum)
  }

  /** The vfraction loop: `vfr` compounded with the weights from `pos` up to the root. */
  function Compound(gs: Groups, vfr: nat, pos: nat): Option<nat>
    requires Shape(gs) && pos < |gs|
    decreases pos
  {
    if gs[pos].parent.None? then Some(vfr)
    else
      var p := gs[pos].parent.value;
      match Scaled(vfr, gs[pos].weight, gs[p].childrenWeight)
      case None => None
      case Some(v) => Compound(gs, v, p)
  }

  /** The share of the disk time a group on the tree is entitled to, before the clamp to 1. */
  function Share(gs: Groups, g: nat): Option<nat>
    requires Shape(gs) && g < |gs|
  {
    match Scaled(ONE, gs[g].leafWeight, gs[g].childrenWeight)
    case None => None
    case Some(v) => Compound(gs, v, g)
  }
}
