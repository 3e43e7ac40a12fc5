/** The cgroups and their groups, changed in place. */
module BlkgInPlace {
  import opened Lists
  import opened BlkgModel

  /** Errors of blkg_create and blkg_lookup_create; `Unset` is the code not set when the parent group is missing. */
  datatype Failure = EINVAL | ENOMEM | EEXIST | EBUSY | Unset

  datatype Result = Ok(blkg: nat) | Err(failure: Failure)

  lemma MissingNone(s: State, c: nat, q: nat)
    requires Shape(s) && c < |s.parent|
    ensures Key(c, q) !in s.tree ==> Missing(s, c, q) > 0
  {
  }

  lemma LinksUp(s: State, a: nat, c: nat, q: nat)
    requires Inv(s) && c < |s.parent| && Key(c, q) in s.tree && Above(s, a, c)
    ensures a < |s.parent| && Key(a, q) in s.tree && EntryOk(s, Key(a, q))
  {
    PresentAbove(s, a, c, q);
    assert EntryOk(s, Key(a, q));
  }

  class Blkcgs {
    var parent: seq<Option<nat>>
    var live: seq<bool>
    var tree: map<Key, nat>
    var hint: seq<Option<nat>>
    var blkgs: seq<Blkg>

    ghost function View(): State
      reads this
    {
      State(parent, live, tree, hint, blkgs)
    }

    ghost predicate Valid()
      reads this
    {
      Inv(View()) == true
    }

    /** The root cgroup alone. */
    constructor ()
      ensures Valid() && View() == State([None], [true], map[], [None], [])
    {
      parent, live, tree, hint, blkgs := [None], [true], map[], [None], [];
    }

    /** __blkg_lookup. */
    method Lookup(c: nat, q: nat, updateHint: bool) returns (b: Option<nat>)
      requires Valid() && c < |hint|
      modifies this`hint
      ensures Valid() && |hint| == |old(hint)| && b == TreeLookup(View(), c, q)
      ensures hint == if updateHint && b.Some? then old(hint)[c := b] else old(hint)
    {
      LookupIsTree(View(), c, q);
      assert HintOk(View(), c);
      if hint[c].Some? && blkgs[hint[c].value].q == q {
        return hint[c];
      }
      if Key(c, q) in tree && blkgs[tree[Key(c, q)]].q == q {
        b := Some(tree[Key(c, q)]);
        if updateHint {
          HintedInv(View(), c, q);
          hint := hint[c := b];
        }
        return;
      }
      return None;
    }

    /** blkg_create; `alloc` and `insert` say whether memory can be had for the group and for the tree. */
    method Create(c: nat, q: nat, alloc: bool, insert: bool) returns (r: Result)
      requires Valid() && c < |parent|
      modifies this
      ensures Valid() && parent == old(parent) && live == old(live) && hint == old(hint)
      ensures r.Ok? ==> Key(c, q) !in old(tree)
      ensures r.Ok? && old(parent)[c].Some? ==> Key(old(parent)[c].value, q) in old(tree)
      ensures r.Ok? ==> View() == Created(old(View()), c, q) && r.blkg == tree[Key(c, q)]
      ensures r.Err? ==> View() == old(View())
      ensures r == Err(EINVAL) <==> !live[c]
      ensures r == Err(Unset) <==> live[c] && alloc && parent[c].Some? && Key(parent[c].value, q) !in tree
      ensures r.Ok? ==> alloc && insert
      ensures r == Err(ENOMEM) ==> !alloc || !insert
      ensures r == Err(EEXIST) ==> Key(c, q) in tree
      ensures r != Err(EBUSY)
    {
      if !live[c] {
        return Err(EINVAL);
      }
      if !alloc {
        return Err(ENOMEM);
      }
      var up: Option<nat> := None;
      if parent[c].Some? {
        up := Lookup(parent[c].value, q, false);
        if up.None? {
          return Err(Unset);
        }
      }
      if Key(c, q) in tree {
        return Err(EEXIST);
      }
      if !insert {
        return Err(ENOMEM);
      }
      CreatedInv(View(), c, q);
      var b := |blkgs|;
      tree := tree[Key(c, q) := b];
      blkgs := blkgs + [Blkg(c, q, up)];
      return Ok(b);
    }

    /** The inner loop of blkg_lookup_create: the topmost cgroup from `c` up without a group, whose parent has one. */
    method Topmost(c: nat, q: nat) returns (pos: nat)
      requires Valid() && c < |parent| && Key(c, q) !in tree
      modifies this`hint
      ensures View() == old(View())
      ensures pos < |parent| && Above(View(), pos, c) && Key(pos, q) !in tree
      ensures parent[pos].Some? ==> Key(parent[pos].value, q) in tree
    {
      pos := c;
      var up := parent[c];
      while up.Some?
        invariant View() == old(View()) && Valid() && pos < |parent| && Above(View(), pos, c) && Key(pos, q) !in tree
        invariant up == parent[pos]
        decreases pos
      {
        var b := Lookup(up.value, q, false);
        if b.Some? {
          break;
        }
        AboveTransitive(View(), up.value, pos, c);
        pos := up.value;
        up := parent[pos];
      }
    }

    /**
     blkg_lookup_create with memory for `budget` groups. Success leaves the cgroup and all above it with a group on the
     queue, each linked to the one above, and nothing else is added. It is had whenever the queue is in use, the cgroup
     is online and memory suffices; the missing parent group that blkg_create warns of is never met.
     */
    method LookupCreate(c: nat, q: nat, bypass: bool, dying: bool, budget: nat) returns (r: Result)
      requires Valid() && c < |parent|
      modifies this
      ensures Valid() && parent == old(parent) && live == old(live)
      ensures bypass ==> r == Err(if dying then EINVAL else EBUSY) && View() == old(View())
      ensures r.Ok? ==> Key(c, q) in tree && tree[Key(c, q)] == r.blkg
      ensures r.Ok? ==> forall a ::
                0 <= a <= c && Above(View(), a, c) ==> Key(a, q) in tree && EntryOk(View(), Key(a, q))
      ensures r != Err(Unset) && r != Err(EEXIST)
      ensures Shape(old(View())) && Extra(old(View()), tree, c, q)
      ensures hint == if !bypass && Key(c, q) in old(tree) then old(hint)[c := Some(old(tree)[Key(c, q)])]
                      else old(hint)
      ensures !bypass && live[c] && budget >= old(Missing(View(), c, q)) ==> r.Ok?
      ensures !bypass && r.Err? ==>
                if r.failure == EINVAL then !live[c] else r.failure == ENOMEM && budget < old(Missing(View(), c, q))
      ensures forall k :: k in old(tree) ==> k in tree && tree[k] == old(tree)[k]
    {
      if bypass {
        return Err(if dying then EINVAL else EBUSY);
      }
      var b := Lookup(c, q, true);
      if b.Some? {
        AllLinked(View(), c, q);
        return Ok(b.value);
      }
      SameMissing(old(View()), View(), c, q);
      r := CreateDown(c, q, budget);
    }

    /** The outer loop, from the topmost missing group down to that of `c`. */
    method CreateDown(c: nat, q: nat, budget: nat) returns (r: Result)
      requires Valid() && c < |parent| && Key(c, q) !in tree
      modifies this
      ensures Valid() && parent == old(parent) && live == old(live)
      ensures r.Ok? ==> Key(c, q) in tree && tree[Key(c, q)] == r.blkg
      ensures r.Ok? ==> forall a ::
                0 <= a <= c && Above(View(), a, c) ==> Key(a, q) in tree && EntryOk(View(), Key(a, q))
      ensures r != Err(Unset) && r != Err(EEXIST)
      ensures Shape(old(View())) && Extra(old(View()), tree, c, q) && hint == old(hint)
      ensures live[c] && budget >= old(Missing(View(), c, q)) ==> r.Ok?
      ensures r.Err? ==>
                if r.failure == EINVAL then !live[c] else r.failure == ENOMEM && budget < old(Missing(View(), c, q))
      ensures forall k :: k in old(tree) ==> k in tree && tree[k] == old(tree)[k]
    {
      var left := budget;
      while true
        invariant Valid() && parent == old(parent) && live == old(live) && c < |parent| && Key(c, q) !in tree
        invariant Extra(old(View()), tree, c, q) == true && hint == old(hint)
        invariant left - Missing(View(), c, q) == budget - old(Missing(View(), c, q))
        invariant forall k :: k in old(tree) ==> k in tree && tree[k] == old(tree)[k]
        decreases Missing(View(), c, q)
      {
        MissingNone(View(), c, q);
        ghost var before := View();
        var pos;
        r, pos := CreateTop(c, q, left > 0);
        ExtraMore(old(View()), before, tree, c, q, pos);
        if pos == c || r.Err? {
          if r.Ok? {
            AllLinked(View(), c, q);
          }
          return;
        }
        left := left - 1;
      }
    }

    /** One turn of it. */
    method CreateTop(c: nat, q: nat, alloc: bool) returns (r: Result, pos: nat)
      requires Valid() && c < |parent| && Key(c, q) !in tree
      modifies this
      ensures Valid() && parent == old(parent) && live == old(live) && hint == old(hint)
      ensures Shape(old(View())) && Above(old(View()), pos, c)
      ensures forall k :: k in tree ==> k in old(tree) || k == Key(pos, q)
      ensures r.Ok? ==> alloc && Missing(View(), c, q) == old(Missing(View(), c, q)) - 1
      ensures r.Ok? ==> (Key(c, q) in tree <==> pos == c) && (pos == c ==> tree[Key(c, q)] == r.blkg)
      ensures r.Err? ==> View() == old(View()) && (r.failure == EINVAL || r.failure == ENOMEM) && (!live[c] || !alloc)
      ensures r.Err? ==> if r.failure == EINVAL then !live[c] else !alloc
      ensures forall k :: k in old(tree) ==> k in tree && tree[k] == old(tree)[k]
    {
      pos := Topmost(c, q);
      TopCreated(View(), pos, c, q);
      if live[c] {
        LiveAbove(View(), pos, c);
      }
      r := Create(pos, q, alloc, true);
    }

    /** blkg_destroy. */
    method Destroy(c: nat, q: nat)
      requires Valid() && c < |hint| && Key(c, q) in tree && Bottom(View(), c, q)
      modifies this`tree, this`hint
      ensures Valid() && View() == Destroyed(old(View()), c, q)
    {
      DestroyedInv(View(), c, q);
      var b := tree[Key(c, q)];
      tree := tree - {Key(c, q)};
      if hint[c] == Some(b) {
        hint := hint[c := None];
      }
    }

    /** blkg_destroy_all: the groups on a queue go, the newest first, so no group goes before one below it. */
    method DestroyAll(q: nat)
      requires Valid()
      modifies this`tree, this`hint
      ensures Valid()
      ensures forall k :: k in tree <==> k in old(tree) && k.q != q
      ensures forall k :: k in tree ==> tree[k] == old(tree)[k]
    {
      for b := |blkgs| downto 0
        invariant Valid() && Older(tree, q, b) && Kept(old(tree), tree, q)
      {
        DestroyNewest(q, b);
      }
    }

    method DestroyNewest(q: nat, b: nat)
      requires Valid() && b < |blkgs| && Older(tree, q, b + 1)
      modifies this`tree, this`hint
      ensures Valid() && Older(tree, q, b) && Kept(old(tree), tree, q)
    {
      var k := Key(blkgs[b].cg, q);
      if blkgs[b].q == q && k in tree && tree[k] == b {
        NewestIsBottom(View(), k.cg, q, b);
        Destroy(k.cg, q);
      }
      OnlyItsKey(old(View()), q, b);
    }
  }

  /** The groups on `q` that are left are older than group `b`. */
  ghost predicate Older(tree: map<Key, nat>, q: nat, b: nat) {
    forall k :: k in tree && k.q == q ==> tree[k] < b
  }

  /** Only groups on `q` have gone. */
  ghost predicate Kept(tree: map<Key, nat>, tree': map<Key, nat>, q: nat) {
    && (forall k :: k in tree && k.q != q ==> k in tree')
    && (forall k :: k in tree' ==> k in tree && tree'[k] == tree[k])
  }

  /** What the tree holds beyond that of `s` are groups on `q` of `c` and of cgroups above it. */
  ghost predicate Extra(s: State, tree: map<Key, nat>, c: nat, q: nat)
    requires Shape(s) && c < |s.parent|
  {
    forall k :: k in tree && k !in s.tree ==> k.q == q && Above(s, k.cg, c)
  }

  lemma {:induction false} SameAbove(s: State, s': State, a: nat, c: nat)
    requires Shape(s) && Shape(s') && c < |s.parent| && s'.parent == s.parent
    ensures Above(s, a, c) == Above(s', a, c)
    decreases c
  {
    if s.parent[c].Some? {
      SameAbove(s, s', a, s.parent[c].value);
    }
  }

  lemma ExtraMore(s: State, s': State, tree: map<Key, nat>, c: nat, q: nat, pos: nat)
    requires Shape(s) && Shape(s') && c < |s.parent| && s'.parent == s.parent && Extra(s, s'.tree, c, q) == true
    requires Above(s', pos, c) && forall k :: k in tree ==> k in s'.tree || k == Key(pos, q)
    ensures Extra(s, tree, c, q) == true
  {
    SameAbove(s, s', pos, c);
  }

  lemma TopCreated(s: State, pos: nat, c: nat, q: nat)
    requires Shape(s) && c < |s.parent| && pos < |s.parent| && Above(s, pos, c) && Key(pos, q) !in s.tree
    requires Key(c, q) !in s.tree
    requires s.parent[pos].Some? ==> Key(s.parent[pos].value, q) in s.tree
    ensures var s' := Created(s, pos, q);
            && Shape(s') && Missing(s', c, q) == Missing(s, c, q) - 1 && (Key(c, q) in s'.tree <==> pos == c)
            && (forall k :: k in s'.tree ==> k in s.tree || k == Key(pos, q))
            && (forall k :: k in s.tree ==> k in s'.tree && s'.tree[k] == s.tree[k])
  {
    CreatedMissing(s, pos, c, q);
  }

  lemma AllLinked(s: State, c: nat, q: nat)
    requires Inv(s) && c < |s.parent| && Key(c, q) in s.tree
    ensures forall a :: 0 <= a <= c && Above(s, a, c) ==> Key(a, q) in s.tree && EntryOk(s, Key(a, q))
  {
    forall a | 0 <= a <= c && Above(s, a, c) ensures Key(a, q) in s.tree && EntryOk(s, Key(a, q)) {
      LinksUp(s, a, c, q);
    }
  }

  lemma {:induction false} SameMissing(s: State, s': State, c: nat, q: nat)
    requires Shape(s) && Shape(s') && c < |s.parent| && s'.parent == s.parent && s'.tree == s.tree
    ensures Missing(s, c, q) == Missing(s', c, q)
    decreases c
  {
    if s.parent[c].Some? {
      SameMissing(s, s', s.parent[c].value, q);
    }
  }

  lemma NewestIsBottom(s: State, c: nat, q: nat, b: nat)
    requires Inv(s) && Key(c, q) in s.tree && s.tree[Key(c, q)] == b && Older(s.tree, q, b + 1)
    ensures c < |s.hint| && Bottom(s, c, q)
  {
    assert EntryOk(s, Key(c, q));
    forall d | 0 <= d < |s.parent| && s.parent[d] == Some(c) ensures Key(d, q) !in s.tree {
      assert Key(d, q) in s.tree ==> EntryOk(s, Key(d, q));
    }
  }

  /** A group stands in the trees under its own cgroup and queue only. */
  lemma OnlyItsKey(s: State, q: nat, b: nat)
    requires Inv(s) && b < |s.blkgs|
    ensures forall k :: k in s.tree && k.q == q && s.tree[k] == b ==> k == Key(s.blkgs[b].cg, s.blkgs[b].q)
  {
    forall k | k in s.tree && k.q == q && s.tree[k] == b ensures k == Key(s.blkgs[b].cg, s.blkgs[b].q) {
      assert EntryOk(s, k);
    }
  }
}
