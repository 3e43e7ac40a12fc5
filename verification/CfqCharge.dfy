/**
 What a group is charged for disk time: the time divided by its share, so that groups that stay on the tree get disk
 time in proportion to their shares.
 */
module CfqCharge {
  import opened Lists
  import opened CfqModel
  import opened CfqWeights
  import opened CfqShares
  import opened CfqTime
  import opened CfqRuns

  lemma QuotientIs(x: nat, f: nat)
    requires f > 0
    ensures x / f * f <= x < (x / f + 1) * f
  {
    assert x == x / f * f + x % f;
  }

  /** cfqg_scale_charge divides the charge by the share, rounding down, exactly when it fits into 32 bits shifted. */
  lemma ScaleExactly(charge: nat, vfraction: nat)
    requires 0 < vfraction < U32
    ensures var c := ScaleCharge(charge, vfraction);
            (c * vfraction <= charge * ONE * ONE < (c + 1) * vfraction) <==> charge * ONE < U32
  {
    var x := charge * ONE % U32 * ONE;
    QuotientIs(x, vfraction);
  }

  /** `charge` jiffies of disk time divided by a share of `vfraction` in fixed point. */
  ghost function PerShare(charge: nat, vfraction: nat): real
    requires vfraction > 0
  {
    (charge * ONE) as real / vfraction as real
  }

  lemma RatioBounds(x: nat, c: nat, f: nat)
    requires f > 0 && c * f <= x
    ensures c as real <= x as real / f as real
    ensures x < (c + 1) * f ==> x as real / f as real < (c + 1) as real
  {
    assert (c * f) as real == c as real * f as real;
    assert ((c + 1) * f) as real == (c + 1) as real * f as real;
    DivLe(c as real, x as real, f as real);
    if x < (c + 1) * f {
      DivLess(x as real, (c + 1) as real, f as real);
    }
  }

  lemma Fixed(charge: nat, vfraction: nat)
    requires vfraction > 0
    ensures (charge * ONE * ONE) as real / vfraction as real == ONE as real * PerShare(charge, vfraction)
  {
    var n, f := (charge * ONE) as real, vfraction as real;
    assert (charge * ONE * ONE) as real == n * ONE as real;
    assert n * ONE as real / f == ONE as real * (n / f);
  }

  /** The scaled charge is the time per share in fixed point, rounded down; a charge that wraps only lowers it. */
  lemma ScaleBounds(charge: nat, vfraction: nat)
    requires vfraction > 0
    ensures ScaleCharge(charge, vfraction) as real <= ONE as real * PerShare(charge, vfraction)
    ensures charge * ONE < U32 ==>
              ONE as real * PerShare(charge, vfraction) < (ScaleCharge(charge, vfraction) + 1) as real
  {
    var x := charge * ONE % U32 * ONE;
    QuotientIs(x, vfraction);
    RatioBounds(charge * ONE * ONE, x / vfraction, vfraction);
    Fixed(charge, vfraction);
  }

  /**
   The vfraction a group gets when it joins the tree, while the sums are right: its exact fraction in the hierarchy it
   has joined, in fixed point, less at most 1 for its own level and each above, and no less than 1.
   */
  lemma VfractionIsFraction(t: Tree, g: nat)
    requires TimeInv(t) && g < |t.groups| <= MOST_GROUPS && !t.groups[g].onTree
    requires Inv(t.groups, true) && !StaleWeight(t.groups, g)
    ensures var gs := ServiceAdded(t.groups, g);
            && Shape(gs) && TreeAdded(t, g).Some? && |TreeAdded(t, g).value.groups| == |gs| == |t.groups|
            && var v := TreeAdded(t, g).value.groups[g].vfraction as real;
               && 1.0 <= v && ONE as real * Leaf(gs, g) - (Depth(gs, g) + 1) as real <= v
               && (v <= ONE as real * Leaf(gs, g) || v == 1.0)
  {
    AddKeepsSums(t.groups, g);
    ShapeAdded(t.groups, g);
    TreeAddedDefined(t, g);
    ShareIsFraction(ServiceAdded(t.groups, g), g);
  }

  // ---------------------------------------------------------------- what runs charge

  ghost predicate Serves(t: Tree, a: Action, g: nat) {
    a.Serve? && a.g == g && g < |t.groups| && t.groups[g].vfraction > 0
  }

  /** What a step adds to the virtual time of `g`, how often it serves it, and the disk time per share it gets. */
  ghost function ScaledIn(t: Tree, a: Action, g: nat): nat {
    if Serves(t, a, g) then ScaleCharge(a.charge, t.groups[g].vfraction) else 0
  }

  ghost function ServedIn(t: Tree, a: Action, g: nat): nat {
    if Serves(t, a, g) then 1 else 0
  }

  ghost function PerShareIn(t: Tree, a: Action, g: nat): real {
    if Serves(t, a, g) then PerShare(a.charge, t.groups[g].vfraction) else 0.0
  }

  ghost function ScaledSum(states: seq<Tree>, actions: seq<Action>, g: nat, n: nat): nat
    requires n <= |actions| && n <= |states|
  {
    if n == 0 then 0 else ScaledSum(states, actions, g, n - 1) + ScaledIn(states[n - 1], actions[n - 1], g)
  }

  /** How often the first `n` steps serve `g`. */
  ghost function ServedSum(states: seq<Tree>, actions: seq<Action>, g: nat, n: nat): nat
    requires n <= |actions| && n <= |states|
  {
    if n == 0 then 0 else ServedSum(states, actions, g, n - 1) + ServedIn(states[n - 1], actions[n - 1], g)
  }

  /** The disk time charged to `g` in the first `n` steps, each charge divided by the share `g` had then. */
  ghost function PerShareSum(states: seq<Tree>, actions: seq<Action>, g: nat, n: nat): real
    requires n <= |actions| && n <= |states|
  {
    if n == 0 then 0.0 else PerShareSum(states, actions, g, n - 1) + PerShareIn(states[n - 1], actions[n - 1], g)
  }

  /** No charge of `g` wraps around when it is shifted. */
  ghost predicate Unwrapped(actions: seq<Action>, g: nat) {
    forall i :: 0 <= i < |actions| && actions[i].Serve? && actions[i].g == g ==> actions[i].charge * ONE < U32
  }

  lemma {:induction false} SumsBound(states: seq<Tree>, actions: seq<Action>, g: nat, n: nat)
    requires n <= |actions| && n <= |states|
    ensures ScaledSum(states, actions, g, n) as real <= ONE as real * PerShareSum(states, actions, g, n)
    ensures Unwrapped(actions, g) ==>
              ONE as real * PerShareSum(states, actions, g, n) <=
              (ScaledSum(states, actions, g, n) + ServedSum(states, actions, g, n)) as real
  {
    if n > 0 {
      SumsBound(states, actions, g, n - 1);
      var t, a := states[n - 1], actions[n - 1];
      if Serves(t, a, g) {
        ScaleBounds(a.charge, t.groups[g].vfraction);
      }
    }
  }

  /** In a calm step a group that is on the tree afterwards was there before, and its time grows by its charge. */
  lemma CalmTime(t: Tree, a: Action, t': Tree, most: nat, g: nat)
    requires QueuesInv(t) && Step(t, a, t') && Calm(t, a, most) && g < |t'.groups| && t'.groups[g].onTree
    ensures g < |t.groups| && t.groups[g].onTree
    ensures t'.groups[g].vdisktime == t.groups[g].vdisktime + ScaledIn(t, a, g)
  {
    match a
    case Serve(x, charge) => ServedInv(t, x, ScaleCharge(charge, t.groups[x].vfraction));
    case DelQueue(x) =>
      var t1 := LeaveReady(t, x);
      if t1.groups[x].nrCfqq == 0 {
        DeactivatedInv(t1.groups, x, false);
      }
    case NewGroup(_, _, _) =>
    case _ =>
  }

  /** Over a calm run the virtual time of a group grows by exactly what it is charged. */
  lemma {:induction false} TimeIsCharged(states: seq<Tree>, actions: seq<Action>, most: nat, d: nat, n: nat, g: nat)
    requires CalmRun(states, actions, most) && Within(states[0], d) && n < |states|
    requires g < |states[n].groups| && states[n].groups[g].onTree
    ensures g < |states[0].groups| && states[0].groups[g].onTree
    ensures states[n].groups[g].vdisktime == states[0].groups[g].vdisktime + ScaledSum(states, actions, g, n)
  {
    if n > 0 {
      SpreadBounded(states, actions, most, d, n - 1);
      CalmTime(states[n - 1], actions[n - 1], states[n], most, g);
      TimeIsCharged(states, actions, most, d, n - 1, g);
    }
  }

  lemma ScaledApart(t0: Tree, t: Tree, a: nat, b: nat, sa: nat, sb: nat, d: nat, e: nat)
    requires Within(t0, d) && Within(t, e) && a < |t0.groups| && b < |t0.groups| && a < |t.groups| && b < |t.groups|
    requires t0.groups[a].onTree && t0.groups[b].onTree && t.groups[a].onTree && t.groups[b].onTree
    requires t.groups[a].vdisktime == t0.groups[a].vdisktime + sa
    requires t.groups[b].vdisktime == t0.groups[b].vdisktime + sb
    ensures sa <= sb + d + e
  {
  }

  /**
   Disk time goes by shares: over a calm run two groups that are on the tree at its end have been charged, each charge
   divided by the share at the time, the same up to the initial spread, the bound on the spread at the end, and 1 for
   each time the first was served. `ONE` is a jiffy of a group with the whole disk.
   */
  lemma ChargedByShare(states: seq<Tree>, actions: seq<Action>, most: nat, d: nat, n: nat, a: nat, b: nat)
    requires CalmRun(states, actions, most) && Within(states[0], d) && n < |states|
    requires a < |states[n].groups| && b < |states[n].groups|
    requires states[n].groups[a].onTree && states[n].groups[b].onTree && Unwrapped(actions, a)
    ensures ONE as real * PerShareSum(states, actions, a, n) <=
            ONE as real * PerShareSum(states, actions, b, n)
            + (d + MaxOf(d, most) + ServedSum(states, actions, a, n)) as real
  {
    SpreadBounded(states, actions, most, d, n);
    TimeIsCharged(states, actions, most, d, n, a);
    TimeIsCharged(states, actions, most, d, n, b);
    ScaledApart(states[0], states[n], a, b, ScaledSum(states, actions, a, n), ScaledSum(states, actions, b, n), d,
                MaxOf(d, most));
    SumsBound(states, actions, a, n);
    SumsBound(states, actions, b, n);
  }
}
