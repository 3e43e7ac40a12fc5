/**
 Instances built on algorithms, crypto/algapi.c: taking an algorithm away takes away all that is built on it.

 Algorithms and spawns are numbered. A spawn stands in the list of users of the algorithm it is built on and belongs
 to an instance, which is itself an algorithm.
 */
module SpawnModel {
  import opened Lists

  datatype Graph = Graph(users: seq<seq<nat>>, inst: seq<nat>)

  /** Spawns and instances exist, and a spawn stands in one list of users, once. */
  ghost predicate WellFormed(g: Graph) {
    && (forall a, i :: 0 <= a < |g.users| && 0 <= i < |g.users[a]| ==> g.users[a][i] < |g.inst|)
    && (forall s :: 0 <= s < |g.inst| ==> g.inst[s] < |g.users|)
    && (forall a, i, b, j ::
          && 0 <= a < |g.users| && 0 <= i < |g.users[a]| && 0 <= b < |g.users| && 0 <= j < |g.users[b]|
          && (a != b || i != j) ==>
          g.users[a][i] != g.users[b][j])
  }

  /** Spawn `s` is in the list of users of `a`. */
  ghost predicate Uses(g: Graph, s: nat, a: nat) {
    a < |g.users| && s in g.users[a]
  }

  /** Spawn `y` is built on the instance of spawn `x`. */
  ghost predicate Above(g: Graph, x: nat, y: nat) {
    x < |g.inst| && Uses(g, y, g.inst[x])
  }

  /** A chain of spawns, each built on the instance of the one before, that begins at `alg`. */
  ghost predicate Chain(g: Graph, alg: nat, path: seq<nat>) {
    && path != [] && Uses(g, path[0], alg)
    && forall i, j :: 0 <= i < |path| && 0 <= j < |path| && j == i + 1 ==> Above(g, path[i], path[j])
  }

  /** Spawn `s` is built on `alg`, perhaps through other instances. */
  ghost predicate BuiltOn(g: Graph, alg: nat, s: nat) {
    exists path :: Chain(g, alg, path) && path[|path| - 1] == s
  }

  lemma DirectlyBuilt(g: Graph, alg: nat, s: nat)
    requires Uses(g, s, alg)
    ensures BuiltOn(g, alg, s)
  {
    assert Chain(g, alg, [s]);
  }

  lemma BuiltFurther(g: Graph, alg: nat, s: nat, s': nat)
    requires BuiltOn(g, alg, s) && Above(g, s, s')
    ensures BuiltOn(g, alg, s')
  {
    var path :| Chain(g, alg, path) && path[|path| - 1] == s;
    var path' := path + [s'];
    assert Chain(g, alg, path') && path'[|path'| - 1] == s';
  }

  /** A set of spawns that holds the users of `alg` and is closed under building on holds all that is built on `alg`. */
  lemma ClosedHoldsAll(g: Graph, alg: nat, done: seq<nat>, s: nat)
    requires BuiltOn(g, alg, s)
    requires forall x :: Uses(g, x, alg) ==> x in done
    requires forall x, y :: x in done && Above(g, x, y) ==> y in done
    ensures s in done
  {
    var path :| Chain(g, alg, path) && path[|path| - 1] == s;
    PathHeld(g, alg, done, path, |path| - 1);
  }

  lemma {:induction false} PathHeld(g: Graph, alg: nat, done: seq<nat>, path: seq<nat>, i: nat)
    requires Chain(g, alg, path) && i < |path|
    requires forall x :: Uses(g, x, alg) ==> x in done
    requires forall x, y :: x in done && Above(g, x, y) ==> y in done
    ensures path[i] in done
  {
    if i > 0 {
      PathHeld(g, alg, done, path, i - 1);
      assert Above(g, path[i - 1], path[i]);
    }
  }

  // ---------------------------------------------------------------- the walk

  /** The lists of crypto_remove_spawns while it walks; the stack and the list of spawns done have their head first. */
  datatype Walk = Walk(users: seq<seq<nat>>, top: seq<nat>, stack: seq<nat>, done: seq<nat>)

  function Reversed(s: seq<nat>): (r: seq<nat>)
    ensures |r| == |s|
  {
    seq(|s|, i requires 0 <= i < |s| => s[|s| - 1 - i])
  }

  /** What the list of users of `a` held at the beginning, in the order the walk takes it. */
  function Whole(g: Graph, alg: nat, a: nat): seq<nat>
    requires a < |g.users|
  {
    if a == alg then Reversed(g.users[a]) else g.users[a]
  }

  /** What is left of it. */
  function Rest(w: Walk, alg: nat, a: nat): seq<nat>
    requires a < |w.users|
  {
    if a == alg then w.top else w.users[a]
  }

  ghost predicate Visited(w: Walk, s: nat) {
    s in w.stack || s in w.done
  }

  /** The walk takes the lists from the front, and has visited what it took. */
  ghost predicate ListOk(g: Graph, alg: nat, w: Walk, a: nat)
    requires a < |g.users| == |w.users|
  {
    var all, rest := Whole(g, alg, a), Rest(w, alg, a);
    && |rest| <= |all| && rest == all[|all| - |rest|..]
    && (forall i :: 0 <= i < |all| ==> (Visited(w, all[i]) <==> i < |all| - |rest|))
  }

  ghost predicate WalkOk(g: Graph, alg: nat, w: Walk) {
    && |w.users| == |g.users| && alg < |g.users| && w.users[alg] == []
    && (forall a :: 0 <= a < |g.users| ==> ListOk(g, alg, w, a))
    && NoDup(w.stack + w.done)
    && (forall s: nat :: Visited(w, s) ==> s < |g.inst| && BuiltOn(g, alg, s))
    && (forall s: nat :: s in w.done && s < |g.inst| && g.inst[s] < |w.users| ==> Rest(w, alg, g.inst[s]) == [])
  }

  /** The lists at the beginning of the walk: the users of the algorithm have moved to `top`, each to its head. */
  function Begun(g: Graph, alg: nat): Walk
    requires alg < |g.users|
  {
    Walk(g.users[alg := []], Reversed(g.users[alg]), [], [])
  }

  lemma BegunOk(g: Graph, alg: nat)
    requires WellFormed(g) && alg < |g.users|
    ensures WalkOk(g, alg, Begun(g, alg))
  {
  }

  /** The first spawn of the list in hand goes on the stack. */
  function Pushed(w: Walk, alg: nat, a: nat): Walk
    requires a < |w.users| && Rest(w, alg, a) != []
  {
    var s := Rest(w, alg, a)[0];
    var w1 := w.(stack := [s] + w.stack);
    if a == alg then w1.(top := w.top[1..]) else w1.(users := w.users[a := w.users[a][1..]])
  }

  /** crypto_more_spawns: the spawn on top of the stack is done. */
  function Popped(w: Walk): Walk
    requires w.stack != []
  {
    w.(stack := w.stack[1..], done := [w.stack[0]] + w.done)
  }

  /** The list in hand: the users of the instance on top of the stack, or the users of the algorithm itself. */
  function InHand(g: Graph, alg: nat, w: Walk): nat
    requires w.stack != [] ==> w.stack[0] < |g.inst|
  {
    if w.stack == [] then alg else g.inst[w.stack[0]]
  }

  lemma WholeIs(g: Graph, alg: nat, a: nat, s: nat)
    requires a < |g.users|
    ensures s in Whole(g, alg, a) <==> Uses(g, s, a)
  {
    if a == alg {
      if s in g.users[a] {
        var i :| 0 <= i < |g.users[a]| && g.users[a][i] == s;
        assert Reversed(g.users[a])[|g.users[a]| - 1 - i] == s;
      }
    }
  }

  lemma WholeApart(g: Graph, alg: nat, a: nat, i: nat, b: nat, j: nat)
    requires WellFormed(g) && a < |g.users| && b < |g.users| && i < |Whole(g, alg, a)| && j < |Whole(g, alg, b)|
    requires a != b || i != j
    ensures Whole(g, alg, a)[i] != Whole(g, alg, b)[j]
  {
  }

  /** No spawn of an instance built on `alg` is `alg` itself, as the source's BUG_ON demands. */
  ghost predicate NotOnItself(g: Graph, alg: nat) {
    forall s: nat :: s < |g.inst| && BuiltOn(g, alg, s) ==> g.inst[s] != alg
  }

  lemma PushedList(g: Graph, alg: nat, w: Walk, a: nat, b: nat)
    requires WellFormed(g) && WalkOk(g, alg, w) && a < |w.users| && b < |w.users| && Rest(w, alg, a) != []
    ensures |Pushed(w, alg, a).users| == |g.users| && ListOk(g, alg, Pushed(w, alg, a), b)
  {
    var w', s := Pushed(w, alg, a), Rest(w, alg, a)[0];
    assert ListOk(g, alg, w, a) && ListOk(g, alg, w, b);
    var all, at := Whole(g, alg, a), |Whole(g, alg, a)| - |Rest(w, alg, a)|;
    assert all[at] == s;
    forall i | 0 <= i < |Whole(g, alg, b)|
      ensures Visited(w', Whole(g, alg, b)[i]) <==> Visited(w, Whole(g, alg, b)[i]) || (a == b && i == at)
    {
      if a != b || i != at {
        WholeApart(g, alg, a, at, b, i);
      }
    }
  }

  /** The spawn that is pushed is a new one, and built on the algorithm. */
  lemma PushedSpawn(g: Graph, alg: nat, w: Walk, a: nat, s: nat)
    requires WellFormed(g) && WalkOk(g, alg, w) && (w.stack != [] ==> w.stack[0] < |g.inst|)
    requires a == InHand(g, alg, w) < |w.users| && Rest(w, alg, a) != [] && s == Rest(w, alg, a)[0]
    ensures !Visited(w, s) && s < |g.inst| && BuiltOn(g, alg, s)
  {
    assert ListOk(g, alg, w, a);
    var all, at := Whole(g, alg, a), |Whole(g, alg, a)| - |Rest(w, alg, a)|;
    assert all[at] == s && s in all;
    WholeIs(g, alg, a, s);
    if w.stack == [] {
      DirectlyBuilt(g, alg, s);
    } else {
      assert Visited(w, w.stack[0]);
      BuiltFurther(g, alg, w.stack[0], s);
    }
  }

  lemma PushedSets(g: Graph, alg: nat, w: Walk, a: nat, s: nat)
    requires a < |w.users| && Rest(w, alg, a) != [] && s == Rest(w, alg, a)[0]
    ensures var w' := Pushed(w, alg, a);
            && w'.stack == [s] + w.stack && w'.done == w.done && |w'.users| == |w.users|
            && (forall x :: Visited(w', x) <==> x == s || Visited(w, x))
            && (forall b :: 0 <= b < |w.users| && Rest(w, alg, b) == [] ==> Rest(w', alg, b) == [])
            && (alg < |w.users| && w.users[alg] == [] ==> w'.users[alg] == [])
  {
    var w' := Pushed(w, alg, a);
    forall x ensures Visited(w', x) <==> x == s || Visited(w, x) {
    }
  }

  lemma PushedNoDup(w: Walk, s: nat)
    requires NoDup(w.stack + w.done) && !Visited(w, s)
    ensures NoDup([s] + w.stack + w.done)
  {
    assert [s] + w.stack + w.done == [s] + (w.stack + w.done);
    PrependNoDup(s, w.stack + w.done);
  }

  lemma PushedOk(g: Graph, alg: nat, w: Walk)
    requires WellFormed(g) && WalkOk(g, alg, w) && NotOnItself(g, alg) && (w.stack != [] ==> w.stack[0] < |g.inst|)
    requires InHand(g, alg, w) < |w.users| && Rest(w, alg, InHand(g, alg, w)) != []
    ensures WalkOk(g, alg, Pushed(w, alg, InHand(g, alg, w)))
  {
    var a := InHand(g, alg, w);
    var w', s := Pushed(w, alg, a), Rest(w, alg, a)[0];
    PushedSpawn(g, alg, w, a, s);
    PushedSets(g, alg, w, a, s);
    PushedNoDup(w, s);
    forall b | 0 <= b < |g.users| ensures ListOk(g, alg, w', b) {
      PushedList(g, alg, w, a, b);
    }
  }

  lemma PrependNoDup(x: nat, s: seq<nat>)
    requires NoDup(s) && x !in s
    ensures NoDup([x] + s)
  {
  }

  lemma PoppedOk(g: Graph, alg: nat, w: Walk)
    requires WellFormed(g) && WalkOk(g, alg, w) && w.stack != [] && w.stack[0] < |g.inst|
    requires g.inst[w.stack[0]] < |w.users|
    requires Rest(w, alg, g.inst[w.stack[0]]) == []
    ensures WalkOk(g, alg, Popped(w))
  {
    var w' := Popped(w);
    assert forall s :: Visited(w', s) <==> Visited(w, s);
    forall b | 0 <= b < |g.users| ensures ListOk(g, alg, w', b) {
      assert ListOk(g, alg, w, b);
    }
    forall i, j | 0 <= i < j < |w'.stack + w'.done| ensures (w'.stack + w'.done)[i] != (w'.stack + w'.done)[j] {
      var n := |w.stack|;
      var i0 := if i < n - 1 then i + 1 else if i == n - 1 then 0 else i;
      var j0 := if j < n - 1 then j + 1 else if j == n - 1 then 0 else j;
      assert (w'.stack + w'.done)[i] == (w.stack + w.done)[i0] && (w'.stack + w'.done)[j] == (w.stack + w.done)[j0];
    }
  }

  /** The walk has visited exactly the spawns built on the algorithm, and taken exactly their instances' users. */
  lemma WalkEnds(g: Graph, alg: nat, w: Walk)
    requires WellFormed(g) && WalkOk(g, alg, w) && w.stack == [] && w.top == [] && NotOnItself(g, alg)
    ensures NoDup(w.done) && forall s: nat :: s in w.done <==> BuiltOn(g, alg, s)
    ensures forall s: nat :: s < |g.inst| && BuiltOn(g, alg, s) && g.inst[s] < |w.users| ==> w.users[g.inst[s]] == []
  {
    assert w.stack + w.done == w.done;
    forall x: nat | Uses(g, x, alg) ensures x in w.done {
      WholeIs(g, alg, alg, x);
      assert ListOk(g, alg, w, alg);
    }
    forall x: nat, y: nat | x in w.done && Above(g, x, y) ensures y in w.done {
      assert Visited(w, x);
      WholeIs(g, alg, g.inst[x], y);
      assert ListOk(g, alg, w, g.inst[x]);
    }
    forall s: nat ensures s in w.done <==> BuiltOn(g, alg, s) {
      if BuiltOn(g, alg, s) {
        ClosedHoldsAll(g, alg, w.done, s);
      } else {
        assert !Visited(w, s);
      }
    }
  }

  lemma UsesOne(g: Graph, s: nat, a: nat, b: nat)
    requires WellFormed(g) && Uses(g, s, a) && Uses(g, s, b)
    ensures a == b
  {
    var i :| 0 <= i < |g.users[a]| && g.users[a][i] == s;
    var j :| 0 <= j < |g.users[b]| && g.users[b][j] == s;
  }

  /** A spawn built on `alg` is a user of `alg` or of an instance that is built on it. */
  lemma BuiltThrough(g: Graph, alg: nat, s: nat, a: nat)
    requires WellFormed(g) && BuiltOn(g, alg, s) && Uses(g, s, a)
    ensures a == alg || exists x: nat :: x < |g.inst| && BuiltOn(g, alg, x) && g.inst[x] == a
  {
    var path :| Chain(g, alg, path) && path[|path| - 1] == s;
    if |path| == 1 {
      UsesOne(g, s, a, alg);
    } else {
      var x := path[|path| - 2];
      assert Above(g, x, s);
      UsesOne(g, s, a, g.inst[x]);
      assert Chain(g, alg, path[..|path| - 1]);
      assert BuiltOn(g, alg, x);
    }
  }

  /** Algorithms that have nothing to do with the one taken away keep their users. */
  lemma OthersKeepUsers(g: Graph, alg: nat, w: Walk, a: nat)
    requires WellFormed(g) && WalkOk(g, alg, w) && a < |g.users| && a != alg
    requires forall s: nat :: s < |g.inst| && BuiltOn(g, alg, s) ==> g.inst[s] != a
    ensures w.users[a] == g.users[a]
  {
    assert ListOk(g, alg, w, a);
    if |w.users[a]| < |g.users[a]| {
      var s := g.users[a][0];
      assert Visited(w, s);
      BuiltThrough(g, alg, s, a);
    }
  }
}
