/** The registry of algorithms with its lists, which crypto_remove_alg changes in place. */
module SpawnInPlace {
  import opened Lists
  import opened SpawnModel

  /** The number of spawns that wait in lists of users. */
  ghost function Waiting(users: seq<seq<nat>>): nat {
    if users == [] then 0 else |users[0]| + Waiting(users[1..])
  }

  lemma {:induction false} WaitingLess(users: seq<seq<nat>>, a: nat)
    requires a < |users| && users[a] != []
    ensures Waiting(users[a := users[a][1..]]) == Waiting(users) - 1
  {
    var users' := users[a := users[a][1..]];
    if a == 0 {
      assert users'[1..] == users[1..];
    } else {
      WaitingLess(users[1..], a - 1);
      assert users'[1..] == users[1..][a - 1 := users[a][1..]];
    }
  }

  lemma ReversedNext(s: seq<nat>, i: nat)
    requires i < |s|
    ensures Reversed(s[..i + 1]) == [s[i]] + Reversed(s[..i])
  {
  }

  /** Instances of the spawns in a list. */
  ghost function Instances(inst: seq<nat>, spawns: seq<nat>): set<nat> {
    set s | s in spawns && s < |inst| :: inst[s]
  }

  /** Every spawn in a list of users points at the algorithm whose list it is. */
  ghost predicate Pointing(users: seq<seq<nat>>, spawnAlg: seq<Option<nat>>) {
    forall a, i :: 0 <= a < |users| && 0 <= i < |users[a]| && users[a][i] < |spawnAlg| ==>
      spawnAlg[users[a][i]] == Some(a)
  }

  class Registry {
    var users: seq<seq<nat>>          // cra_users of each algorithm
    const inst: seq<nat>              // the instance each spawn belongs to
    var spawnAlg: seq<Option<nat>>    // what each spawn is built on
    var dead: set<nat>                // algorithms flagged CRYPTO_ALG_DEAD
    var hashed: set<nat>              // instances on the list of their template
    const pinnable: set<nat>          // instances whose template can be held
    var algList: seq<nat>             // crypto_alg_list

    ghost function G(): Graph
      reads this
    {
      Graph(users, inst)
    }

    ghost predicate Valid()
      reads this
    {
      WellFormed(G()) && |spawnAlg| == |inst| && NoDup(algList) && Pointing(users, spawnAlg) == true
    }

    /** The first loop of crypto_remove_spawns: all users are on the algorithm itself, so their types agree. */
    method TakeUsers(alg: nat) returns (top: seq<nat>)
      requires alg < |users|
      modifies this`users
      ensures users == old(users)[alg := []] && top == Reversed(old(users)[alg])
    {
      top := [];
      var spawns := users[alg];
      for i := 0 to |spawns|
        invariant top == Reversed(spawns[..i]) && users == old(users)[alg := spawns[i..]]
      {
        ReversedNext(spawns, i);
        top := [spawns[i]] + top;
        users := users[alg := users[alg][1..]];
      }
      assert spawns[..|spawns|] == spawns && spawns[|spawns|..] == [];
    }

    /** The walk over all that is built on `alg`; `top` holds its users. */
    method WalkSpawns(alg: nat, top0: seq<nat>, ghost g: Graph) returns (secondary: seq<nat>)
      requires WellFormed(g) && alg < |g.users| && NotOnItself(g, alg) && inst == g.inst
      requires Walk(users, top0, [], []) == Begun(g, alg) && |spawnAlg| == |inst|
      modifies this`users, this`spawnAlg
      ensures WalkOk(g, alg, Walk(users, [], [], secondary)) == true
      ensures |spawnAlg| == |inst|
      ensures forall s :: 0 <= s < |inst| ==> spawnAlg[s] == if s in secondary then None else old(spawnAlg)[s]
    {
      var stack: seq<nat>, top, spawns := [], top0, alg;
      secondary := [];
      BegunOk(g, alg);
      while true
        invariant WalkOk(g, alg, Walk(users, top, stack, secondary)) == true && |spawnAlg| == |inst|
        invariant stack != [] ==> stack[0] < |inst|
        invariant spawns == InHand(g, alg, Walk(users, top, stack, secondary)) < |users|
        invariant forall s :: 0 <= s < |inst| ==>
                    spawnAlg[s] == if s in stack || s in secondary then None else old(spawnAlg)[s]
        decreases Waiting(users) + |top|, |stack|
      {
        ghost var w := Walk(users, top, stack, secondary);
        if Rest(Walk(users, top, stack, secondary), alg, spawns) != [] {
          PushedOk(g, alg, w);
          var spawn := if spawns == alg then top[0] else users[spawns][0];
          assert WalkOk(g, alg, Pushed(w, alg, spawns)) && Visited(Pushed(w, alg, spawns), spawn);
          if spawns == alg {
            top := top[1..];
          } else {
            WaitingLess(users, spawns);
            users := users[spawns := users[spawns][1..]];
          }
          stack := [spawn] + stack;
          spawnAlg := spawnAlg[spawn := None];
          spawns := inst[spawn];
        } else {
          if stack == [] {
            break;
          }
          PoppedOk(g, alg, w);
          secondary := [stack[0]] + secondary;
          stack := stack[1..];
          assert stack != [] ==> Visited(Popped(w), stack[0]);
          spawns := if stack == [] then alg else inst[stack[0]];
        }
      }
    }

    /** crypto_remove_spawn; the test that nothing uses the instance any more never fails. */
    method RemoveSpawn(spawn: nat, list0: seq<nat>) returns (list: seq<nat>)
      requires spawn < |inst| && inst[spawn] < |users| && users[inst[spawn]] == []
      modifies this`dead, this`hashed, this`algList
      ensures dead == old(dead) + {inst[spawn]}
      ensures var a := inst[spawn];
              if a !in old(dead) && a in old(hashed) && a in pinnable
              then list == [a] + list0 && hashed == old(hashed) - {a} && algList == Without(old(algList), a)
              else list == list0 && hashed == old(hashed) && algList == old(algList)
      ensures NoDup(old(algList)) ==> NoDup(algList)
    {
      var a := inst[spawn];
      list := list0;
      if a in dead {
        return;
      }
      dead := dead + {a};
      if a !in hashed || a !in pinnable {
        return;
      }
      if NoDup(algList) {
        WithoutNoDup(algList, a);
      }
      algList := Without(algList, a);
      list := [a] + list;
      hashed := hashed - {a};
      assert users[a] == [];
    }

    /** The last loop: the instances of all spawns visited. */
    method RemoveInstances(spawns: seq<nat>) returns (list: seq<nat>)
      requires forall i :: 0 <= i < |spawns| ==>
                 spawns[i] < |inst| && inst[spawns[i]] < |users| && users[inst[spawns[i]]] == []
      modifies this`dead, this`hashed, this`algList
      ensures dead == old(dead) + Instances(inst, spawns)
      ensures NoDup(list) && forall a :: a in list <==>
                a in Instances(inst, spawns) && a !in old(dead) && a in old(hashed) && a in pinnable
      ensures forall a :: a in hashed <==> a in old(hashed) && a !in list
      ensures forall a :: a in algList <==> a in old(algList) && a !in list
      ensures NoDup(old(algList)) ==> NoDup(algList)
    {
      list := [];
      for i := 0 to |spawns|
        invariant dead == old(dead) + Instances(inst, spawns[..i])
        invariant NoDup(list) && forall a :: a in list <==>
                    a in Instances(inst, spawns[..i]) && a !in old(dead) && a in old(hashed) && a in pinnable
        invariant forall a :: a in hashed <==> a in old(hashed) && a !in list
        invariant forall a :: a in algList <==> a in old(algList) && a !in list
        invariant NoDup(old(algList)) ==> NoDup(algList)
      {
        InstancesNext(inst, spawns, i);
        list := RemoveSpawn(spawns[i], list);
      }
      assert spawns[..|spawns|] == spawns;
    }

    /**
     crypto_remove_alg, which calls crypto_remove_spawns without a replacement: the algorithm and exactly the instances
     built on it, at any depth, are dead and without users. Those that were registered with a template and not dead
     before are handed over, each once. Everything else is as it was.
     */
    method RemoveAlg(alg: nat) returns (found: bool, list: seq<nat>)
      requires Valid() && alg < |users| && NotOnItself(G(), alg)
      modifies this
      ensures Valid() && |users| == |old(users)|
      ensures found <==> alg in old(algList)
      ensures !found ==> list == [] && users == old(users) && dead == old(dead) && hashed == old(hashed) &&
                         algList == old(algList) && spawnAlg == old(spawnAlg)
      ensures found ==> forall a :: 0 <= a < |users| ==>
                users[a] == if a == alg || Doomed(old(G()), alg, a) then [] else old(users)[a]
      ensures found ==> forall s :: 0 <= s < |inst| ==>
                spawnAlg[s] == if BuiltOn(old(G()), alg, s) then None else old(spawnAlg)[s]
      ensures found ==> forall a: nat :: a in dead <==> a in old(dead) || a == alg || Doomed(old(G()), alg, a)
      ensures found ==> NoDup(list) && forall a: nat :: a in list <==>
                Doomed(old(G()), alg, a) && a !in old(dead) && a in old(hashed) && a in pinnable
      ensures found ==> forall a: nat :: a in hashed <==> a in old(hashed) && a !in list
      ensures found ==> forall a: nat :: a in algList <==> a in old(algList) && a != alg && a !in list
    {
      if alg !in algList {
        return false, [];
      }
      ghost var g := G();
      dead := dead + {alg};
      WithoutNoDup(algList, alg);
      algList := Without(algList, alg);
      var top := TakeUsers(alg);
      var secondary := WalkSpawns(alg, top, g);
      Taken(g, alg, Walk(users, [], [], secondary));
      NotDoomedItself(g, alg);
      list := RemoveInstances(secondary);
      StillWellFormed(g, alg, users);
      StillPointing(g, alg, users, old(spawnAlg), spawnAlg);
      found := true;
    }
  }

  /** An instance that is built on `alg`. */
  ghost predicate Doomed(g: Graph, alg: nat, a: nat) {
    exists s: nat :: s < |g.inst| && BuiltOn(g, alg, s) && g.inst[s] == a
  }

  /** What the walk has done, list by list. */
  lemma Taken(g: Graph, alg: nat, w: Walk)
    requires WellFormed(g) && WalkOk(g, alg, w) && w.stack == [] && w.top == [] && NotOnItself(g, alg)
    ensures |w.users| == |g.users| && forall s: nat :: s in w.done <==> BuiltOn(g, alg, s)
    ensures forall a :: 0 <= a < |w.users| ==> w.users[a] == if a == alg || Doomed(g, alg, a) then [] else g.users[a]
    ensures forall i :: 0 <= i < |w.done| ==>
              w.done[i] < |g.inst| && g.inst[w.done[i]] < |w.users| && w.users[g.inst[w.done[i]]] == []
    ensures forall a: nat :: a in Instances(g.inst, w.done) <==> Doomed(g, alg, a)
  {
    WalkEnds(g, alg, w);
    forall i | 0 <= i < |w.done|
      ensures w.done[i] < |g.inst| && g.inst[w.done[i]] < |w.users| && w.users[g.inst[w.done[i]]] == []
    {
      assert Visited(w, w.done[i]);
    }
    forall a | 0 <= a < |w.users| ensures w.users[a] == if a == alg || Doomed(g, alg, a) then [] else g.users[a] {
      if a != alg && !Doomed(g, alg, a) {
        OthersKeepUsers(g, alg, w, a);
      }
    }
    forall a: nat ensures a in Instances(g.inst, w.done) <==> Doomed(g, alg, a) {
      if Doomed(g, alg, a) {
        var s: nat :| s < |g.inst| && BuiltOn(g, alg, s) && g.inst[s] == a;
        assert s in w.done;
      }
    }
  }

  lemma NotDoomedItself(g: Graph, alg: nat)
    requires NotOnItself(g, alg)
    ensures !Doomed(g, alg, alg)
  {
  }

  lemma StillPointing(g: Graph, alg: nat, users: seq<seq<nat>>, before: seq<Option<nat>>, after: seq<Option<nat>>)
    requires |users| == |g.users| && |before| == |after| == |g.inst| && Pointing(g.users, before) == true
    requires forall a :: 0 <= a < |users| ==> users[a] == [] || users[a] == g.users[a]
    requires forall a, i :: 0 <= a < |users| && 0 <= i < |users[a]| ==> !BuiltOn(g, alg, users[a][i])
    requires forall s :: 0 <= s < |after| && !BuiltOn(g, alg, s) ==> after[s] == before[s]
    ensures Pointing(users, after) == true
  {
    forall a, i | 0 <= a < |users| && 0 <= i < |users[a]| && users[a][i] < |after|
      ensures after[users[a][i]] == Some(a)
    {
      assert before[g.users[a][i]] == Some(a);
    }
  }

  /** The lists that are left are lists of the old graph, and none of their spawns is built on `alg`. */
  lemma StillWellFormed(g: Graph, alg: nat, users: seq<seq<nat>>)
    requires WellFormed(g) && |users| == |g.users|
    requires forall a :: 0 <= a < |users| ==> users[a] == if a == alg || Doomed(g, alg, a) then [] else g.users[a]
    ensures WellFormed(Graph(users, g.inst))
    ensures forall a, i :: 0 <= a < |users| && 0 <= i < |users[a]| ==> !BuiltOn(g, alg, users[a][i])
  {
    forall a, i | 0 <= a < |users| && 0 <= i < |users[a]| ensures !BuiltOn(g, alg, users[a][i]) {
      if BuiltOn(g, alg, users[a][i]) {
        BuiltThrough(g, alg, users[a][i], a);
      }
    }
  }

  lemma InstancesNext(inst: seq<nat>, spawns: seq<nat>, i: nat)
    requires i < |spawns| && spawns[i] < |inst|
    ensures Instances(inst, spawns[..i + 1]) == Instances(inst, spawns[..i]) + {inst[spawns[i]]}
  {
    assert spawns[..i + 1] == spawns[..i] + [spawns[i]];
  }
}
