/**
 Groups of a block cgroup on a queue, block/blk-cgroup.c: lookup with a hint, creation from the root down, removal.

 Cgroups are numbered, a parent before its children. A queue stands for its id, which the tree of a cgroup is keyed by.
 */
module BlkgModel {
  import opened Lists

  /** struct blkcg_gq: the cgroup and queue it joins and its parent group. */
  datatype Blkg = Blkg(cg: nat, q: nat, parent: Option<nat>)

  datatype Key = Key(cg: nat, q: nat)

  /** Cgroups with their parents, whether they are online, their trees and hints, and all groups ever made. */
  datatype State = State(parent: seq<Option<nat>>, live: seq<bool>, tree: map<Key, nat>, hint: seq<Option<nat>>,
                         blkgs: seq<Blkg>)

  ghost predicate Shape(s: State) {
    && |s.live| == |s.parent| == |s.hint|
    && forall c :: 0 <= c < |s.parent| && s.parent[c].Some? ==> s.parent[c].value < c
  }

  /** A group in a tree is of that cgroup and queue, and linked to the older group of the parent, which is online. */
  ghost predicate EntryOk(s: State, k: Key)
    requires Shape(s) && k in s.tree
  {
    var b := s.tree[k];
    && k.cg < |s.parent| && b < |s.blkgs| && s.blkgs[b].cg == k.cg && s.blkgs[b].q == k.q
    && match s.parent[k.cg]
       case None => s.blkgs[b].parent == None
       case Some(p) =>
         && Key(p, k.q) in s.tree && s.tree[Key(p, k.q)] < b
         && s.blkgs[b].parent == Some(s.tree[Key(p, k.q)]) && s.live[p]
  }

  /** The hint of a cgroup is one of the groups in its tree. */
  ghost predicate HintOk(s: State, c: nat)
    requires Shape(s) && c < |s.hint|
  {
    s.hint[c].Some? ==>
      var b := s.hint[c].value;
      b < |s.blkgs| && s.blkgs[b].cg == c && Key(c, s.blkgs[b].q) in s.tree && s.tree[Key(c, s.blkgs[b].q)] == b
  }

  ghost predicate Inv(s: State) {
    && Shape(s)
    && (forall c :: 0 <= c < |s.parent| && s.live[c] && s.parent[c].Some? ==> s.live[s.parent[c].value])
    && (forall k :: k in s.tree ==> EntryOk(s, k))
    && (forall c :: 0 <= c < |s.hint| ==> HintOk(s, c))
  }

  // ---------------------------------------------------------------- lookup

  /** radix_tree_lookup. */
  function TreeLookup(s: State, c: nat, q: nat): Option<nat> {
    if Key(c, q) in s.tree then Some(s.tree[Key(c, q)]) else None
  }

  /** __blkg_lookup. */
  function Lookup(s: State, c: nat, q: nat): Option<nat>
    requires c < |s.hint|
  {
    if s.hint[c].Some? && s.hint[c].value < |s.blkgs| && s.blkgs[s.hint[c].value].q == q then s.hint[c]
    else
      var b := TreeLookup(s, c, q);
      if b.Some? && b.value < |s.blkgs| && s.blkgs[b.value].q == q then b else None
  }

  /** Whatever the hint is, the lookup gives what the tree holds. */
  lemma LookupIsTree(s: State, c: nat, q: nat)
    requires Inv(s) && c < |s.hint|
    ensures Lookup(s, c, q) == TreeLookup(s, c, q)
  {
    assert HintOk(s, c);
    if Key(c, q) in s.tree {
      assert EntryOk(s, Key(c, q));
    }
  }

  // ---------------------------------------------------------------- ancestors

  /** `a` is `c` or above it. */
  ghost predicate Above(s: State, a: nat, c: nat)
    requires Shape(s) && c < |s.parent|
    decreases c
  {
    a == c || (s.parent[c].Some? && Above(s, a, s.parent[c].value))
  }

  /** How many cgroups from `c` up have no group on `q`. */
  ghost function Missing(s: State, c: nat, q: nat): nat
    requires Shape(s) && c < |s.parent|
    decreases c
  {
    (if Key(c, q) in s.tree then 0 else 1) + if s.parent[c].Some? then Missing(s, s.parent[c].value, q) else 0
  }

  /** A cgroup that has a group has one all the way up. */
  lemma {:induction false} PresentAbove(s: State, a: nat, c: nat, q: nat)
    requires Inv(s) && c < |s.parent| && Key(c, q) in s.tree && Above(s, a, c)
    ensures Key(a, q) in s.tree
    decreases c
  {
    if a != c {
      assert EntryOk(s, Key(c, q));
      PresentAbove(s, a, s.parent[c].value, q);
    }
  }

  lemma {:induction false} LiveAbove(s: State, a: nat, c: nat)
    requires Inv(s) && c < |s.parent| && s.live[c] && Above(s, a, c)
    ensures a < |s.parent| && s.live[a]
    decreases c
  {
    if a != c {
      LiveAbove(s, a, s.parent[c].value);
    }
  }

  lemma {:induction false} AboveTransitive(s: State, a: nat, b: nat, c: nat)
    requires Shape(s) && c < |s.parent| && b < |s.parent| && Above(s, a, b) && Above(s, b, c)
    ensures Above(s, a, c)
    decreases c
  {
    if b != c {
      AboveTransitive(s, a, b, s.parent[c].value);
    }
  }

  // ---------------------------------------------------------------- creation

  /** blkg_create once nothing fails: the new group, linked to the parent's. */
  function Created(s: State, c: nat, q: nat): State
    requires c < |s.parent| && (s.parent[c].Some? ==> Key(s.parent[c].value, q) in s.tree)
  {
    var parent := if s.parent[c].None? then None else Some(s.tree[Key(s.parent[c].value, q)]);
    s.(blkgs := s.blkgs + [Blkg(c, q, parent)], tree := s.tree[Key(c, q) := |s.blkgs|])
  }

  lemma CreatedEntry(s: State, c: nat, q: nat, k: Key)
    requires Inv(s) && c < |s.parent| && s.live[c] && Key(c, q) !in s.tree
    requires s.parent[c].Some? ==> Key(s.parent[c].value, q) in s.tree
    requires k in Created(s, c, q).tree
    ensures EntryOk(Created(s, c, q), k)
  {
    if k != Key(c, q) {
      assert EntryOk(s, k);
    }
  }

  lemma CreatedInv(s: State, c: nat, q: nat)
    requires Inv(s) && c < |s.parent| && s.live[c] && Key(c, q) !in s.tree
    requires s.parent[c].Some? ==> Key(s.parent[c].value, q) in s.tree
    ensures Inv(Created(s, c, q))
  {
    var s' := Created(s, c, q);
    forall k | k in s'.tree ensures EntryOk(s', k) {
      CreatedEntry(s, c, q, k);
    }
    forall x | 0 <= x < |s'.hint| ensures HintOk(s', x) {
      assert HintOk(s, x);
    }
  }

  /** Each creation on the way leaves one cgroup less without a group. */
  lemma {:induction false} CreatedMissing(s: State, a: nat, c: nat, q: nat)
    requires Shape(s) && c < |s.parent| && a < |s.parent| && Key(a, q) !in s.tree
    requires s.parent[a].Some? ==> Key(s.parent[a].value, q) in s.tree
    ensures Shape(Created(s, a, q))
    ensures Missing(Created(s, a, q), c, q) == Missing(s, c, q) - if Above(s, a, c) then 1 else 0
    decreases c
  {
    if s.parent[c].Some? {
      CreatedMissing(s, a, s.parent[c].value, q);
      if a == c {
        NotAboveItself(s, a, s.parent[c].value);
      }
    }
  }

  lemma {:induction false} NotAboveItself(s: State, a: nat, c: nat)
    requires Shape(s) && c < |s.parent| && c < a
    ensures !Above(s, a, c)
    decreases c
  {
    if s.parent[c].Some? {
      NotAboveItself(s, a, s.parent[c].value);
    }
  }

  /** __blkg_lookup with update_hint, on a group that is there. */
  lemma HintedInv(s: State, c: nat, q: nat)
    requires Inv(s) && c < |s.hint| && Key(c, q) in s.tree
    ensures Inv(s.(hint := s.hint[c := Some(s.tree[Key(c, q)])]))
  {
    var s' := s.(hint := s.hint[c := Some(s.tree[Key(c, q)])]);
    forall k | k in s'.tree ensures EntryOk(s', k) {
      assert EntryOk(s, k);
    }
    assert EntryOk(s, Key(c, q));
    forall x | 0 <= x < |s'.hint| ensures HintOk(s', x) {
      assert HintOk(s, x);
    }
  }

  // ---------------------------------------------------------------- removal

  /** blkg_destroy on the group of `c` on `q`. */
  function Destroyed(s: State, c: nat, q: nat): State
    requires Key(c, q) in s.tree && c < |s.hint|
  {
    s.(tree := s.tree - {Key(c, q)}, hint := if s.hint[c] == Some(s.tree[Key(c, q)]) then s.hint[c := None] else s.hint)
  }

  /** No cgroup below `c` has a group on `q`. */
  ghost predicate Bottom(s: State, c: nat, q: nat) {
    forall d :: 0 <= d < |s.parent| && s.parent[d] == Some(c) ==> Key(d, q) !in s.tree
  }

  /** Removing a group keeps everything true exactly when no child cgroup has one on that queue. */
  lemma DestroyedInv(s: State, c: nat, q: nat)
    requires Inv(s) && c < |s.hint| && Key(c, q) in s.tree
    ensures Inv(Destroyed(s, c, q)) <==> Bottom(s, c, q)
  {
    var s' := Destroyed(s, c, q);
    assert EntryOk(s, Key(c, q));
    if Bottom(s, c, q) {
      forall k | k in s'.tree ensures EntryOk(s', k) {
        assert EntryOk(s, k);
      }
      forall x | 0 <= x < |s'.hint| ensures HintOk(s', x) {
        assert HintOk(s, x);
      }
    } else {
      var d :| 0 <= d < |s.parent| && s.parent[d] == Some(c) && Key(d, q) in s.tree;
      assert Key(d, q) in s'.tree && !EntryOk(s', Key(d, q));
    }
  }

  // ---------------------------------------------------------------- runs

  datatype Action =
    | NewCgroup(p: nat)
    | Hint(c: nat, q: nat)
    | Create(c: nat, q: nat)
    | GoOffline(c: nat)
    | Destroy(c: nat, q: nat)

  /** Cgroups go offline children first: those below are offline and have lost their groups. */
  ghost predicate ChildrenGone(s: State, c: nat) {
    Shape(s) && forall d :: 0 <= d < |s.parent| && s.parent[d] == Some(c) ==>
      !s.live[d] && forall q :: Key(d, q) !in s.tree
  }

  /**
   One change under the locks. A group goes when its cgroup is offline, or when its queue goes and the groups below it
   on that queue are gone already.
   */
  ghost predicate Step(s: State, a: Action, s': State) {
    match a
    case NewCgroup(p) =>
      && Shape(s) && p < |s.parent| && s.live[p]
      && s' == s.(parent := s.parent + [Some(p)], live := s.live + [true], hint := s.hint + [None])
    case Hint(c, q) =>
      c < |s.hint| && Key(c, q) in s.tree && s' == s.(hint := s.hint[c := Some(s.tree[Key(c, q)])])
    case Create(c, q) =>
      && Shape(s) && c < |s.parent| && s.live[c] && Key(c, q) !in s.tree
      && (s.parent[c].Some? ==> Key(s.parent[c].value, q) in s.tree) && s' == Created(s, c, q)
    case GoOffline(c) =>
      c < |s.live| && ChildrenGone(s, c) && s' == s.(live := s.live[c := false])
    case Destroy(c, q) =>
      Shape(s) && c < |s.hint| && Key(c, q) in s.tree && (!s.live[c] || Bottom(s, c, q)) && s' == Destroyed(s, c, q)
  }

  lemma OfflineIsBottom(s: State, c: nat, q: nat)
    requires Inv(s) && c < |s.live| && !s.live[c]
    ensures Bottom(s, c, q)
  {
    forall d | 0 <= d < |s.parent| && s.parent[d] == Some(c) ensures Key(d, q) !in s.tree {
      assert Key(d, q) in s.tree ==> EntryOk(s, Key(d, q));
    }
  }

  lemma NewCgroupInv(s: State, p: nat, s': State)
    requires Inv(s) && Step(s, NewCgroup(p), s')
    ensures Inv(s')
  {
    forall k | k in s'.tree ensures EntryOk(s', k) {
      assert EntryOk(s, k);
    }
    forall c | 0 <= c < |s'.hint| ensures HintOk(s', c) {
      assert c < |s.hint| ==> HintOk(s, c);
    }
  }

  lemma GoOfflineInv(s: State, c: nat, s': State)
    requires Inv(s) && Step(s, GoOffline(c), s')
    ensures Inv(s')
  {
    forall k | k in s'.tree ensures EntryOk(s', k) {
      assert EntryOk(s, k);
    }
    forall x | 0 <= x < |s'.hint| ensures HintOk(s', x) {
      assert HintOk(s, x);
    }
  }

  lemma StepInv(s: State, a: Action, s': State)
    requires Inv(s) && Step(s, a, s')
    ensures Inv(s')
  {
    match a
    case NewCgroup(p) => NewCgroupInv(s, p, s');
    case Hint(c, q) => HintedInv(s, c, q);
    case Create(c, q) => CreatedInv(s, c, q);
    case GoOffline(c) => GoOfflineInv(s, c, s');
    case Destroy(c, q) =>
      if !s.live[c] {
        OfflineIsBottom(s, c, q);
      }
      DestroyedInv(s, c, q);
  }

  ghost predicate Run(states: seq<State>, actions: seq<Action>) {
    && |states| == |actions| + 1
    && states[0] == State([None], [true], map[], [None], [])
    && forall i, j :: 0 <= i < |actions| && j == i + 1 ==> Step(states[i], actions[i], states[j])
  }

  lemma {:induction false} RunInv(states: seq<State>, actions: seq<Action>, i: nat)
    requires Run(states, actions) && i < |states|
    ensures Inv(states[i])
  {
    if i > 0 {
      RunInv(states, actions, i - 1);
      StepInv(states[i - 1], actions[i - 1], states[i]);
    }
  }

  /** In every reachable state hinted lookup and tree agree, and a group has a group of every ancestor above it. */
  lemma ReachableLookup(states: seq<State>, actions: seq<Action>, i: nat, c: nat, q: nat, a: nat)
    requires Run(states, actions) && i < |states| && c < |states[i].hint|
    ensures Lookup(states[i], c, q) == TreeLookup(states[i], c, q)
    ensures Shape(states[i])
    ensures Lookup(states[i], c, q).Some? && Above(states[i], a, c) ==> TreeLookup(states[i], a, q).Some?
  {
    RunInv(states, actions, i);
    LookupIsTree(states[i], c, q);
    if Key(c, q) in states[i].tree && Above(states[i], a, c) {
      PresentAbove(states[i], a, c, q);
    }
  }
}
