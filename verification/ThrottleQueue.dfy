/**
 The groups of block/blk-throttle.c: their bio lists, the service tree ordered by dispatch time, and the loops that
 dispatch from it. Every side of a group carries the history of what was checked and charged on it.
 */
module ThrottleQueue {
  import opened Lists
  import opened ThrottleModel

  const GRP_QUANTUM: nat := 8
  const QUANTUM: nat := 32
  const MAX_READS: nat := GRP_QUANTUM * 3 / 4
  const MAX_WRITES: nat := GRP_QUANTUM - MAX_READS

  datatype Bio = Bio(id: nat, size: nat)

  /** One direction of a group: its limits, its slice, bio_lists[rw] and nr_queued[rw]. */
  datatype Side = Side(lim: Limits, dir: Dir, bios: seq<Bio>, nrQueued: nat)

  datatype Group = Group(read: Side, write: Side, disptime: nat, onRr: bool) {
    function Get(rw: bool): Side {
      if rw then write else read
    }
    function Set(rw: bool, s: Side): Group {
      if rw then this.(write := s) else this.(read := s)
    }
    predicate HasBios() {
      read.bios != [] || write.bios != []
    }
  }

  /** A bio leaving the queue: its group, its direction and itself. */
  datatype Sent = Sent(group: nat, rw: bool, bio: Bio)

  function Tag(g: nat, rw: bool, bios: seq<Bio>): (out: seq<Sent>)
    ensures |out| == |bios|
  {
    if bios == [] then [] else Tag(g, rw, bios[..|bios| - 1]) + [Sent(g, rw, bios[|bios| - 1])]
  }

  /** The bios of one side of one group in `out`, in the order they left. */
  function Of(out: seq<Sent>, g: nat, rw: bool): seq<Bio> {
    if out == [] then []
    else
      var x := out[|out| - 1];
      Of(out[..|out| - 1], g, rw) + if x.group == g && x.rw == rw then [x.bio] else []
  }

  lemma OfAppend(out: seq<Sent>, x: Sent, g: nat, rw: bool)
    ensures Of(out + [x], g, rw) == Of(out, g, rw) + if x.group == g && x.rw == rw then [x.bio] else []
  {
    assert (out + [x])[..|out|] == out;
  }

  lemma {:induction false} OfTagged(out: seq<Sent>, h: nat, rh: bool, bios: seq<Bio>, g: nat, rw: bool)
    ensures Of(out + Tag(h, rh, bios), g, rw) == Of(out, g, rw) + if h == g && rh == rw then bios else []
    decreases |bios|
  {
    if bios == [] {
      assert out + Tag(h, rh, bios) == out;
    } else {
      var n := |bios| - 1;
      OfTagged(out, h, rh, bios[..n], g, rw);
      TagNext(out, h, rh, bios);
      OfAppend(out + Tag(h, rh, bios[..n]), Sent(h, rh, bios[n]), g, rw);
      OneMore(Of(out, g, rw), bios);
    }
  }

  lemma TagNext(out: seq<Sent>, h: nat, rh: bool, bios: seq<Bio>)
    requires bios != []
    ensures var n := |bios| - 1;
            out + Tag(h, rh, bios) == (out + Tag(h, rh, bios[..n])) + [Sent(h, rh, bios[n])]
  {
  }

  lemma OneMore(a: seq<Bio>, bios: seq<Bio>)
    requires bios != []
    ensures a + bios == (a + bios[..|bios| - 1]) + [bios[|bios| - 1]]
    ensures a + [] == a
  {
  }

  function TotalBytes(bios: seq<Bio>): nat {
    if bios == [] then 0 else TotalBytes(bios[..|bios| - 1]) + bios[|bios| - 1].size
  }

  /** The number of bios queued in direction `rw`, over all groups. */
  function Queued(groups: seq<Group>, rw: bool): nat {
    if groups == [] then 0
    else Queued(groups[..|groups| - 1], rw) + |groups[|groups| - 1].Get(rw).bios|
  }

  lemma {:induction false} QueuedUpdate(groups: seq<Group>, g: nat, x: Group, rw: bool)
    requires g < |groups|
    ensures Queued(groups[g := x], rw) == Queued(groups, rw) - |groups[g].Get(rw).bios| + |x.Get(rw).bios|
    ensures Queued(groups, rw) >= |groups[g].Get(rw).bios|
  {
    var n := |groups| - 1;
    if g < n {
      QueuedUpdate(groups[..n], g, x, rw);
      assert groups[g := x][..n] == groups[..n][g := x];
    } else {
      assert groups[g := x][..n] == groups[..n];
    }
  }

  // ---------------------------------------------------------------- the service tree

  ghost predicate InRange(tree: seq<nat>, groups: seq<Group>) {
    forall i :: 0 <= i < |tree| ==> tree[i] < |groups|
  }

  /** tg_service_tree_add: after every group that is not due later. */
  function TreeInsert(tree: seq<nat>, groups: seq<Group>, g: nat): seq<nat>
    requires InRange(tree, groups) && g < |groups|
  {
    if tree == [] then [g]
    else if groups[g].disptime < groups[tree[0]].disptime then [g] + tree
    else [tree[0]] + TreeInsert(tree[1..], groups, g)
  }

  ghost predicate Sorted(tree: seq<nat>, groups: seq<Group>)
    requires InRange(tree, groups)
  {
    forall i, j :: 0 <= i < j < |tree| ==> groups[tree[i]].disptime <= groups[tree[j]].disptime
  }

  /** A group is put behind all that are due no later, and before all others. */
  lemma {:induction false} TreeInsertAt(tree: seq<nat>, groups: seq<Group>, g: nat) returns (i: nat)
    requires InRange(tree, groups) && Sorted(tree, groups) && g < |groups|
    ensures i <= |tree| && TreeInsert(tree, groups, g) == tree[..i] + [g] + tree[i..]
    ensures forall j :: 0 <= j < i ==> groups[tree[j]].disptime <= groups[g].disptime
    ensures forall j :: i <= j < |tree| ==> groups[tree[j]].disptime > groups[g].disptime
  {
    if tree == [] || groups[g].disptime < groups[tree[0]].disptime {
      i := 0;
    } else {
      var k := TreeInsertAt(tree[1..], groups, g);
      i := k + 1;
      assert tree[..i] == [tree[0]] + tree[1..][..k] && tree[i..] == tree[1..][k..];
      forall j | 0 <= j < i ensures groups[tree[j]].disptime <= groups[g].disptime {
        if j > 0 {
          assert tree[j] == tree[1..][j - 1];
        }
      }
    }
  }

  lemma SortedHead(tree: seq<nat>, groups: seq<Group>, x: nat)
    requires InRange(tree, groups) && Sorted(tree, groups) && x in tree
    ensures groups[tree[0]].disptime <= groups[x].disptime
  {
    var i :| 0 <= i < |tree| && tree[i] == x;
  }

  lemma SortedCons(tree: seq<nat>, groups: seq<Group>, g: nat)
    requires InRange(tree, groups) && Sorted(tree, groups) && g < |groups|
    requires forall x :: x in tree ==> groups[g].disptime <= groups[x].disptime
    ensures InRange([g] + tree, groups) && Sorted([g] + tree, groups)
  {
  }

  lemma {:induction false} TreeInsertMembers(tree: seq<nat>, groups: seq<Group>, g: nat)
    requires InRange(tree, groups) && g < |groups|
    ensures forall x :: x in TreeInsert(tree, groups, g) <==> x == g || x in tree
    ensures InRange(TreeInsert(tree, groups, g), groups)
  {
    if tree != [] && groups[g].disptime >= groups[tree[0]].disptime {
      TreeInsertMembers(tree[1..], groups, g);
      assert tree == [tree[0]] + tree[1..];
    }
  }

  lemma {:induction false} TreeInsertNoDup(tree: seq<nat>, groups: seq<Group>, g: nat)
    requires InRange(tree, groups) && NoDup(tree) && g !in tree && g < |groups|
    ensures NoDup(TreeInsert(tree, groups, g))
  {
    if tree != [] && groups[g].disptime >= groups[tree[0]].disptime {
      TreeInsertNoDup(tree[1..], groups, g);
      TreeInsertMembers(tree[1..], groups, g);
      assert tree[0] !in tree[1..];
    }
  }

  lemma {:induction false} TreeInsertSorted(tree: seq<nat>, groups: seq<Group>, g: nat)
    requires InRange(tree, groups) && Sorted(tree, groups) && g < |groups|
    ensures InRange(TreeInsert(tree, groups, g), groups) && Sorted(TreeInsert(tree, groups, g), groups)
  {
    TreeInsertMembers(tree, groups, g);
    if tree != [] && groups[g].disptime < groups[tree[0]].disptime {
      forall x | x in tree ensures groups[g].disptime <= groups[x].disptime {
        SortedHead(tree, groups, x);
      }
      SortedCons(tree, groups, g);
    } else if tree != [] {
      var t := TreeInsert(tree[1..], groups, g);
      TreeInsertMembers(tree[1..], groups, g);
      TreeInsertSorted(tree[1..], groups, g);
      forall x | x in t ensures groups[tree[0]].disptime <= groups[x].disptime {
        if x != g {
          SortedHead(tree, groups, x);
        }
      }
      SortedCons(t, groups, tree[0]);
    }
  }

  lemma TreeInsertOk(tree: seq<nat>, groups: seq<Group>, g: nat)
    requires InRange(tree, groups) && Sorted(tree, groups) && NoDup(tree) && g !in tree && g < |groups|
    ensures var t := TreeInsert(tree, groups, g);
            && (forall x :: x in t <==> x == g || x in tree)
            && InRange(t, groups) && Sorted(t, groups) && NoDup(t)
  {
    TreeInsertMembers(tree, groups, g);
    TreeInsertNoDup(tree, groups, g);
    TreeInsertSorted(tree, groups, g);
  }

  /** Membership of the tree, the on_rr flag and holding bios agree; `x` has been taken off the tree to be served. */
  ghost predicate TreeOk(groups: seq<Group>, tree: seq<nat>, x: Option<nat>) {
    && InRange(tree, groups) && Sorted(tree, groups) && NoDup(tree)
    && (forall g :: 0 <= g < |groups| ==> (g in tree <==> groups[g].onRr))
    && (forall g :: 0 <= g < |groups| && Some(g) != x ==> (groups[g].onRr <==> groups[g].HasBios()))
    && (x.Some? ==> x.value < |groups| && !groups[x.value].onRr)
  }

  lemma SortedWithout(tree: seq<nat>, groups: seq<Group>)
    requires tree != [] && InRange(tree, groups) && Sorted(tree, groups) && NoDup(tree)
    ensures Without(tree, tree[0]) == tree[1..] && InRange(tree[1..], groups) && Sorted(tree[1..], groups)
  {
    WithoutHead(tree);
  }

  // ---------------------------------------------------------------- one side

  ghost predicate SideOk(s: Side, h: seq<Op>) {
    && s.lim.Valid()
    && s.nrQueued == |s.bios| && (forall b :: b in s.bios ==> b.size < U32)
    && History(s.lim, IDLE, h, 0) && s.dir == Replay(s.lim, IDLE, h)
  }

  lemma HistoryMore(lim: Limits, h: seq<Op>, op: Op)
    requires lim.Valid() && History(lim, IDLE, h, 0) && OpOk(lim, Replay(lim, IDLE, h), op, EndTime(h, 0))
    ensures History(lim, IDLE, h + [op], 0) && Replay(lim, IDLE, h + [op]) == After(lim, Replay(lim, IDLE, h), op)
    ensures EndTime(h + [op], 0) == OpEnd(op)
    ensures Bytes(h + [op]) == Bytes(h) + (if op.Send? then op.size else 0)
    ensures Ios(h + [op]) == Ios(h) + (if op.Send? then 1 else 0)
  {
    assert (h + [op])[..|h|] == h;
  }

  /** A check that follows a check at the same time changes nothing more. */
  lemma CheckAgain(lim: Limits, d: Dir, size: nat, now: nat)
    requires lim.Valid()
    ensures var v := MayDispatch(lim, d, size, now);
            var w := MayDispatch(lim, v.dir, size, now);
            w.ok == v.ok && w.wait == v.wait && (v.ok ==> w == v)
  {
    var v := MayDispatch(lim, d, size, now);
    if !lim.NoRule() {
      var r := Renewed(lim, d, now);
      RenewedReaches(lim, d, now);
      assert v.dir == r.(end := v.dir.end) && v.dir.end >= r.end;
      RenewedAgain(lim, v.dir, now);
      SameVerdict(lim, r, v.dir, size, now);
    }
  }

  lemma RenewedReaches(lim: Limits, d: Dir, now: nat)
    requires lim.Valid()
    ensures var r := Renewed(lim, d, now); r.start <= now && now + lim.Slice() <= r.end
  {
  }

  lemma RenewedAgain(lim: Limits, d: Dir, now: nat)
    requires lim.Valid() && d.start <= now && now + lim.Slice() <= d.end
    ensures Renewed(lim, d, now) == d
  {
  }

  /** The end of the slice does not enter into the answer. */
  lemma SameVerdict(lim: Limits, r: Dir, d: Dir, size: nat, now: nat)
    requires lim.Valid() && r.start <= now && d == r.(end := d.end)
    ensures WithinBps(lim, d, size, now) == WithinBps(lim, r, size, now)
    ensures WithinIops(lim, d, now) == WithinIops(lim, r, now)
    ensures BpsWait(lim, d, size, now) == BpsWait(lim, r, size, now) && IopsWait(lim, d, now) == IopsWait(lim, r, now)
  {
  }

  /** The bio is over the byte limit, and the time that takes is short of a multiple of 2^32 by the padding. */
  predicate WaitWraps(lim: Limits, d: Dir, size: nat, now: nat)
    requires lim.Valid()
  {
    var r := Renewed(lim, d, now);
    !WithinBps(lim, r, size, now) && OverTime(lim, r, size, now) % U32 + Padding(lim, r, now) == U32
  }

  /** A refusal reports a wait of at least one tick exactly when the wait does not wrap around to 0. */
  lemma RefusalWaits(lim: Limits, d: Dir, size: nat, now: nat)
    requires lim.Valid() && !MayDispatch(lim, d, size, now).ok
    ensures MayDispatch(lim, d, size, now).wait >= 1 <==> !WaitWraps(lim, d, size, now)
  {
    var r := Renewed(lim, d, now);
    RenewedReaches(lim, d, now);
    if !WithinBps(lim, r, size, now) {
      CutWait(OverTime(lim, r, size, now), Padding(lim, r, now), lim.Slice());
    }
  }

  lemma CutWait(over: nat, padding: nat, slice: nat)
    requires padding <= 2 * slice && slice <= U32 / 10
    ensures var wait := Wrap(over, U32);
            Wrap((if wait == 0 then 1 else wait) + padding, U32) == 0 <==> over % U32 + padding == U32
  {
  }

  function Looked(s: Side, size: nat, now: nat): Side
    requires s.lim.Valid()
  {
    s.(dir := MayDispatch(s.lim, s.dir, size, now).dir)
  }

  lemma LookedOk(s: Side, h: seq<Op>, size: nat, now: nat)
    requires SideOk(s, h) && EndTime(h, 0) <= now && size < U32
    ensures SideOk(Looked(s, size, now), h + [Look(size, now)]) && EndTime(h + [Look(size, now)], 0) == now
    ensures Bytes(h + [Look(size, now)]) == Bytes(h) && Ios(h + [Look(size, now)]) == Ios(h)
  {
    HistoryMore(s.lim, h, Look(size, now));
  }

  /** The head of the list, and it may go now. */
  predicate Clear(s: Side, now: nat) {
    s.lim.Valid() && s.bios != [] && MayDispatch(s.lim, s.dir, s.bios[0].size, now) == Verdict(true, 0, s.dir)
  }

  predicate Refused(s: Side, now: nat) {
    s.lim.Valid() && (s.bios != [] ==> !MayDispatch(s.lim, s.dir, s.bios[0].size, now).ok)
  }

  function Popped(s: Side, now: nat): Side
    requires s.lim.Valid() && s.bios != [] && s.nrQueued > 0
  {
    s.(bios := s.bios[1..], nrQueued := s.nrQueued - 1, dir := Trimmed(s.lim, Charged(s.dir, s.bios[0].size), now))
  }

  lemma PoppedOk(s: Side, h: seq<Op>, now: nat)
    requires SideOk(s, h) && EndTime(h, 0) <= now && Clear(s, now)
    ensures s.nrQueued > 0 && SideOk(Popped(s, now), h + [Send(s.bios[0].size, now, now)])
    ensures EndTime(h + [Send(s.bios[0].size, now, now)], 0) == now
    ensures Bytes(h + [Send(s.bios[0].size, now, now)]) == Bytes(h) + s.bios[0].size
    ensures Ios(h + [Send(s.bios[0].size, now, now)]) == Ios(h) + 1
  {
    assert s.bios[0] in s.bios;
    HistoryMore(s.lim, h, Send(s.bios[0].size, now, now));
  }

  /** From (s, h) to (s', h') exactly the bios `taken` left the front of the list, and exactly they were charged. */
  ghost predicate Moved(s: Side, h: seq<Op>, s': Side, h': seq<Op>, taken: seq<Bio>) {
    && s'.lim == s.lim && s.bios == taken + s'.bios && h <= h'
    && Bytes(h') == Bytes(h) + TotalBytes(taken) && Ios(h') == Ios(h) + |taken|
  }

  lemma {:induction false} TotalBytesAppend(a: seq<Bio>, b: seq<Bio>)
    ensures TotalBytes(a + b) == TotalBytes(a) + TotalBytes(b)
    decreases |b|
  {
    if b == [] {
      assert a + b == a;
    } else {
      TotalBytesAppend(a, b[..|b| - 1]);
      assert (a + b)[..|a + b| - 1] == a + b[..|b| - 1];
    }
  }

  lemma MovedTrans(s: Side, h: seq<Op>, s': Side, h': seq<Op>, s'': Side, h'': seq<Op>, a: seq<Bio>, b: seq<Bio>)
    requires Moved(s, h, s', h', a) && Moved(s', h', s'', h'', b)
    ensures Moved(s, h, s'', h'', a + b)
  {
    TotalBytesAppend(a, b);
  }

  lemma LookedMoved(s: Side, h: seq<Op>, size: nat, now: nat)
    requires SideOk(s, h) && EndTime(h, 0) <= now && size < U32
    ensures Moved(s, h, Looked(s, size, now), h + [Look(size, now)], [])
  {
    LookedOk(s, h, size, now);
  }

  lemma PoppedMoved(s: Side, h: seq<Op>, now: nat)
    requires SideOk(s, h) && EndTime(h, 0) <= now && Clear(s, now)
    ensures s.nrQueued > 0 && Moved(s, h, Popped(s, now), h + [Send(s.bios[0].size, now, now)], [s.bios[0]])
  {
    PoppedOk(s, h, now);
    assert s.bios == [s.bios[0]] + s.bios[1..];
    assert [s.bios[0]][..0] == [];
    assert TotalBytes([s.bios[0]]) == s.bios[0].size;
  }

  // ---------------------------------------------------------------- all groups

  type Histories = map<(nat, bool), seq<Op>>

  ghost predicate AllSides(groups: seq<Group>, hist: Histories, clock: nat) {
    forall g: nat, rw: bool :: g < |groups| ==>
      && (g, rw) in hist
      && SideOk(groups[g].Get(rw), hist[(g, rw)])
      && EndTime(hist[(g, rw)], 0) <= clock
  }

  lemma SidesKept(groups: seq<Group>, hist: Histories, clock: nat, g: nat, rw: bool, s: Side, h: seq<Op>, now: nat)
    requires AllSides(groups, hist, clock) && g < |groups| && SideOk(s, h) && EndTime(h, 0) <= now && clock <= now
    ensures AllSides(groups[g := groups[g].Set(rw, s)], hist[(g, rw) := h], now)
  {
  }

  lemma TreeKept(groups: seq<Group>, tree: seq<nat>, x: Option<nat>, g: nat, y: Group)
    requires TreeOk(groups, tree, x) && g < |groups|
    requires y.disptime == groups[g].disptime && y.onRr == groups[g].onRr
    requires Some(g) == x || (y.HasBios() <==> groups[g].HasBios())
    ensures TreeOk(groups[g := y], tree, x)
  {
  }

  /** struct throtl_data as a value. */
  datatype Td = Td(groups: seq<Group>, tree: seq<nat>, nrReads: nat, nrWrites: nat)

  /** The invariant; `x` is a group that is off the tree because it is being served. */
  ghost predicate Consistent(td: Td, hist: Histories, clock: nat, x: Option<nat>) {
    && AllSides(td.groups, hist, clock)
    && td.nrReads == Queued(td.groups, false) && td.nrWrites == Queued(td.groups, true)
    && TreeOk(td.groups, td.tree, x)
  }

  /** A new group, idle and empty. */
  lemma NewGroupKeeps(td: Td, hist: Histories, clock: nat, x: Group)
    requires Consistent(td, hist, clock, None) && x.read.lim.Valid() && x.write.lim.Valid()
    requires x == Group(Side(x.read.lim, IDLE, [], 0), Side(x.write.lim, IDLE, [], 0), 0, false)
    ensures var g := |td.groups|;
            Consistent(td.(groups := td.groups + [x]), hist[(g, false) := []][(g, true) := []], clock, None) == true
  {
    var g := |td.groups|;
    assert (td.groups + [x])[..g] == td.groups;
  }

  lemma LookKeepsAll(td: Td, hist: Histories, clock: nat, x: Option<nat>, g: nat, rw: bool, size: nat, now: nat)
    requires Consistent(td, hist, clock, x) && g < |td.groups| && clock <= now && size < U32
    ensures var s := td.groups[g].Get(rw);
            && s.lim.Valid() && SideOk(s, hist[(g, rw)]) && EndTime(hist[(g, rw)], 0) <= now
            && Consistent(td.(groups := td.groups[g := td.groups[g].Set(rw, Looked(s, size, now))]),
                          hist[(g, rw) := hist[(g, rw)] + [Look(size, now)]], now, x)
  {
    var s := td.groups[g].Get(rw);
    var y := td.groups[g].Set(rw, Looked(s, size, now));
    LookedOk(s, hist[(g, rw)], size, now);
    SidesKept(td.groups, hist, clock, g, rw, Looked(s, size, now), hist[(g, rw)] + [Look(size, now)], now);
    TreeKept(td.groups, td.tree, x, g, y);
    QueuedUpdate(td.groups, g, y, false);
    QueuedUpdate(td.groups, g, y, true);
  }

  lemma SideFacts(td: Td, hist: Histories, clock: nat, x: Option<nat>, g: nat, rw: bool)
    requires Consistent(td, hist, clock, x) && g < |td.groups|
    ensures var s := td.groups[g].Get(rw);
            && (g, rw) in hist && SideOk(s, hist[(g, rw)]) && EndTime(hist[(g, rw)], 0) <= clock
            && (s.bios != [] ==> s.bios[0].size < U32)
  {
    var s := td.groups[g].Get(rw);
    assert (g, rw) in hist && SideOk(s, hist[(g, rw)]);
    if s.bios != [] {
      assert s.bios[0] in s.bios;
    }
  }

  lemma OkMeansClear(s: Side, size: nat, now: nat)
    requires s.lim.Valid() && s.bios != [] && s.bios[0].size == size && MayDispatch(s.lim, s.dir, size, now).ok
    ensures Clear(Looked(s, size, now), now)
  {
    CheckAgain(s.lim, s.dir, size, now);
  }

  /** Only side `rw` of group `g`, and its history, differ. */
  ghost predicate OnlySide(groups: seq<Group>, hist: Histories, groups': seq<Group>, hist': Histories, g: nat,
                           rw: bool) {
    && g < |groups| && |groups'| == |groups|
    && (g, rw) in hist && (g, rw) in hist'
    && groups' == groups[g := groups[g].Set(rw, groups'[g].Get(rw))]
    && hist' == hist[(g, rw) := hist'[(g, rw)]]
  }

  lemma OnlySideTrans(groups: seq<Group>, hist: Histories, groups': seq<Group>, hist': Histories,
                      groups'': seq<Group>, hist'': Histories, g: nat, rw: bool)
    requires OnlySide(groups, hist, groups', hist', g, rw) && OnlySide(groups', hist', groups'', hist'', g, rw)
    ensures OnlySide(groups, hist, groups'', hist'', g, rw)
  {
  }

  lemma OnlySideRefl(groups: seq<Group>, hist: Histories, g: nat, rw: bool)
    requires g < |groups| && (g, rw) in hist
    ensures OnlySide(groups, hist, groups, hist, g, rw)
  {
  }

  function CountDown(td: Td, rw: bool): Td
    requires if rw then td.nrWrites > 0 else td.nrReads > 0
  {
    if rw then td.(nrWrites := td.nrWrites - 1) else td.(nrReads := td.nrReads - 1)
  }

  lemma PopKeepsAll(td: Td, hist: Histories, clock: nat, g: nat, rw: bool, now: nat)
    requires Consistent(td, hist, clock, Some(g)) && clock <= now && Clear(td.groups[g].Get(rw), now)
    ensures var s := td.groups[g].Get(rw);
            && s.nrQueued > 0 && SideOk(s, hist[(g, rw)]) && EndTime(hist[(g, rw)], 0) <= now
            && (if rw then td.nrWrites > 0 else td.nrReads > 0)
            && Consistent(CountDown(td, rw).(groups := td.groups[g := td.groups[g].Set(rw, Popped(s, now))]),
                          hist[(g, rw) := hist[(g, rw)] + [Send(s.bios[0].size, now, now)]], now, Some(g))
  {
    var s := td.groups[g].Get(rw);
    PoppedOk(s, hist[(g, rw)], now);
    var y := td.groups[g].Set(rw, Popped(s, now));
    SidesKept(td.groups, hist, clock, g, rw, Popped(s, now), hist[(g, rw)] + [Send(s.bios[0].size, now, now)], now);
    TreeKept(td.groups, td.tree, Some(g), g, y);
    QueuedUpdate(td.groups, g, y, false);
    QueuedUpdate(td.groups, g, y, true);
  }

  // ---------------------------------------------------------------- moving a group on and off the tree

  /** throtl_dequeue_tg. */
  function Dequeued(td: Td, g: nat): Td
    requires g < |td.groups|
  {
    if td.groups[g].onRr
    then td.(tree := Without(td.tree, g), groups := td.groups[g := td.groups[g].(onRr := false)])
    else td
  }

  /** `tg->disptime = disptime` and throtl_enqueue_tg, for a group that is off the tree. */
  function Enqueued(td: Td, g: nat, disptime: nat): Td
    requires g < |td.groups| && InRange(td.tree, td.groups)
  {
    var groups := td.groups[g := td.groups[g].(onRr := true, disptime := disptime)];
    td.(groups := groups, tree := TreeInsert(td.tree, groups, g))
  }

  lemma SortedWithoutAny(tree: seq<nat>, groups: seq<Group>, g: nat)
    requires InRange(tree, groups) && Sorted(tree, groups) && NoDup(tree)
    ensures var t := Without(tree, g); InRange(t, groups) && Sorted(t, groups) && NoDup(t)
  {
    WithoutNoDup(tree, g);
    if g in tree {
      var i :| 0 <= i < |tree| && tree[i] == g;
      WithoutAt(tree, i);
      PickSorted(tree, Without(tree, g), groups, i);
    }
  }

  lemma PickSorted(tree: seq<nat>, t: seq<nat>, groups: seq<Group>, i: nat)
    requires InRange(tree, groups) && Sorted(tree, groups) && i < |tree| && t == tree[..i] + tree[i + 1..]
    ensures InRange(t, groups) && Sorted(t, groups)
  {
    forall a | 0 <= a < |t| ensures t[a] == tree[if a < i then a else a + 1] {
    }
  }

  lemma SameSides(groups: seq<Group>, hist: Histories, clock: nat, g: nat, y: Group)
    requires AllSides(groups, hist, clock) && g < |groups|
    requires y.read == groups[g].read && y.write == groups[g].write
    ensures AllSides(groups[g := y], hist, clock)
    ensures forall rw :: Queued(groups[g := y], rw) == Queued(groups, rw)
  {
    forall rw ensures Queued(groups[g := y], rw) == Queued(groups, rw) {
      QueuedUpdate(groups, g, y, rw);
    }
  }

  lemma DequeueKeepsAll(td: Td, hist: Histories, clock: nat, x: Option<nat>, g: nat)
    requires Consistent(td, hist, clock, x) && (x == None || x == Some(g)) && g < |td.groups|
    ensures Consistent(Dequeued(td, g), hist, clock, Some(g))
  {
    if td.groups[g].onRr {
      SameSides(td.groups, hist, clock, g, td.groups[g].(onRr := false));
    }
    DequeuedTree(td, x, g);
  }

  lemma DequeuedTree(td: Td, x: Option<nat>, g: nat)
    requires TreeOk(td.groups, td.tree, x) && (x == None || x == Some(g)) && g < |td.groups|
    ensures TreeOk(Dequeued(td, g).groups, Dequeued(td, g).tree, Some(g)) == true
  {
    if td.groups[g].onRr {
      SortedWithoutAny(td.tree, td.groups, g);
    }
  }

  lemma RetimedTree(tree: seq<nat>, groups: seq<Group>, g: nat, y: Group)
    requires InRange(tree, groups) && Sorted(tree, groups) && g < |groups| && g !in tree
    ensures InRange(tree, groups[g := y]) && Sorted(tree, groups[g := y])
  {
  }

  lemma EnqueueKeepsAll(td: Td, hist: Histories, clock: nat, g: nat, disptime: nat)
    requires Consistent(td, hist, clock, Some(g)) && td.groups[g].HasBios()
    ensures Consistent(Enqueued(td, g, disptime), hist, clock, None)
  {
    var y := td.groups[g].(onRr := true, disptime := disptime);
    SameSides(td.groups, hist, clock, g, y);
    RetimedTree(td.tree, td.groups, g, y);
    TreeInsertOk(td.tree, td.groups[g := y], g);
  }

  /** A group left without bios stays off the tree. */
  lemma ServedEmpty(td: Td, hist: Histories, clock: nat, g: nat)
    requires Consistent(td, hist, clock, Some(g)) && !td.groups[g].HasBios()
    ensures Consistent(td, hist, clock, None)
  {
  }

  /** min(read_wait, write_wait) over the lists that hold bios. */
  function MinWait(g: Group, now: nat): nat
    requires g.read.lim.Valid() && g.write.lim.Valid() && g.HasBios()
  {
    if g.write.bios == [] then HeadWait(g.read, now)
    else if g.read.bios == [] then HeadWait(g.write, now)
    else if HeadWait(g.read, now) <= HeadWait(g.write, now) then HeadWait(g.read, now)
    else HeadWait(g.write, now)
  }

  /** A group of valid limits, and its wait. */
  ghost predicate WaitIs(g: Group, now: nat, wait: int) {
    g.read.lim.Valid() && g.write.lim.Valid() && g.HasBios() && wait == MinWait(g, now)
  }

  function HeadWait(s: Side, now: nat): nat
    requires s.lim.Valid() && s.bios != []
  {
    MayDispatch(s.lim, s.dir, s.bios[0].size, now).wait
  }

  /** What looking at the head of a list does to the side. */
  function Peeked(s: Side, now: nat): Side
    requires s.lim.Valid()
  {
    if s.bios == [] then s else Looked(s, s.bios[0].size, now)
  }

  /** Looking at a head does not change the wait it is told. */
  lemma PeekedWait(s: Side, now: nat)
    requires s.lim.Valid() && s.bios != []
    ensures HeadWait(Peeked(s, now), now) == HeadWait(s, now)
  {
    CheckAgain(s.lim, s.dir, s.bios[0].size, now);
  }

  /** The group is due when the first of its list heads may go, as far as can be told at `now`. */
  ghost predicate DueInTime(g: Group, now: nat) {
    WaitIs(g, now, g.disptime - now)
  }

  lemma PeekedDue(g: Group, g': Group, now: nat)
    requires WaitIs(g, now, g'.disptime - now)
    requires g'.read == Peeked(g.read, now) && g'.write == Peeked(g.write, now)
    ensures DueInTime(g', now) == true
  {
    if g.read.bios != [] {
      PeekedWait(g.read, now);
    }
    if g.write.bios != [] {
      PeekedWait(g.write, now);
    }
  }

  /** No other group has changed. */
  ghost predicate OthersSame(groups: seq<Group>, groups': seq<Group>, g: nat) {
    |groups'| == |groups| && forall o :: 0 <= o < |groups| && o != g ==> groups'[o] == groups[o]
  }

  lemma OthersSameTrans(groups: seq<Group>, groups1: seq<Group>, groups2: seq<Group>, g: nat)
    requires OthersSame(groups, groups1, g) == true && OthersSame(groups1, groups2, g) == true
    ensures OthersSame(groups, groups2, g) == true
  {
  }

  lemma OnlySideSame(groups: seq<Group>, hist: Histories, groups': seq<Group>, hist': Histories, g: nat, rw: bool)
    requires OnlySide(groups, hist, groups', hist', g, rw)
    ensures OthersSame(groups, groups', g) == true
  {
  }

  // ---------------------------------------------------------------- serving groups

  /** Group `g` had `rd` and `wr` taken from its lists; no other group was touched. */
  ghost predicate Served(groups: seq<Group>, hist: Histories, groups': seq<Group>, hist': Histories,
                         g: nat, rd: seq<Bio>, wr: seq<Bio>) {
    && |groups'| == |groups| && g < |groups|
    && (forall o: nat, rw: bool :: o < |groups| ==> (o, rw) in hist && (o, rw) in hist')
    && (forall o: nat, rw: bool :: o < |groups| && o != g ==>
          groups'[o].Get(rw) == groups[o].Get(rw) && hist'[(o, rw)] == hist[(o, rw)])
    && Moved(groups[g].read, hist[(g, false)], groups'[g].read, hist'[(g, false)], rd)
    && Moved(groups[g].write, hist[(g, true)], groups'[g].write, hist'[(g, true)], wr)
  }

  /** What `out` holds of every side is what left that side's list, in order, and what was charged to it. */
  ghost predicate AllMoved(groups: seq<Group>, hist: Histories, groups': seq<Group>, hist': Histories, out: seq<Sent>) {
    && |groups'| == |groups|
    && (forall o: nat, rw: bool :: o < |groups| ==> (o, rw) in hist && (o, rw) in hist')
    && (forall o: nat, rw: bool :: o < |groups| ==>
          Moved(groups[o].Get(rw), hist[(o, rw)], groups'[o].Get(rw), hist'[(o, rw)], Of(out, o, rw)))
  }

  lemma NothingMoved(groups: seq<Group>, hist: Histories)
    requires forall o: nat, rw: bool :: o < |groups| ==> (o, rw) in hist
    ensures AllMoved(groups, hist, groups, hist, [])
  {
    forall o: nat, rw: bool | o < |groups|
      ensures Moved(groups[o].Get(rw), hist[(o, rw)], groups[o].Get(rw), hist[(o, rw)], Of([], o, rw))
    {
      var s := groups[o].Get(rw);
      assert s.bios == [] + s.bios;
    }
  }

  lemma ServedMoves(groups0: seq<Group>, hist0: Histories, groups: seq<Group>, hist: Histories,
                    groups': seq<Group>, hist': Histories, out: seq<Sent>, g: nat, rd: seq<Bio>, wr: seq<Bio>)
    requires AllMoved(groups0, hist0, groups, hist, out) && Served(groups, hist, groups', hist', g, rd, wr)
    ensures AllMoved(groups0, hist0, groups', hist', out + Tag(g, false, rd) + Tag(g, true, wr))
  {
    var out' := out + Tag(g, false, rd) + Tag(g, true, wr);
    forall o: nat, rw: bool | o < |groups0|
      ensures Moved(groups0[o].Get(rw), hist0[(o, rw)], groups'[o].Get(rw), hist'[(o, rw)], Of(out', o, rw))
    {
      OfTagged(out, g, false, rd, o, rw);
      OfTagged(out + Tag(g, false, rd), g, true, wr, o, rw);
      var taken := if o != g then [] else if rw then wr else rd;
      assert Of(out', o, rw) == Of(out, o, rw) + taken;
      if o == g {
        MovedTrans(groups0[o].Get(rw), hist0[(o, rw)], groups[o].Get(rw), hist[(o, rw)],
                   groups'[o].Get(rw), hist'[(o, rw)], Of(out, o, rw), taken);
      } else {
        assert Of(out', o, rw) == Of(out, o, rw);
      }
    }
  }

  /** The groups whose dispatch time has come. */
  ghost function Due(groups: seq<Group>, tree: seq<nat>, now: nat): set<nat> {
    set g | g in tree && g < |groups| && groups[g].disptime <= now
  }

  /** No group but `g` changed its place or its dispatch time. */
  ghost predicate OthersStay(td: Td, td': Td, g: nat) {
    && |td'.groups| == |td.groups|
    && forall o: nat :: o < |td.groups| && o != g ==>
         (o in td'.tree <==> o in td.tree) && td'.groups[o].disptime == td.groups[o].disptime
  }

  lemma OthersStayTrans(td: Td, td1: Td, td2: Td, g: nat)
    requires OthersStay(td, td1, g) == true && OthersStay(td1, td2, g) == true
    ensures OthersStay(td, td2, g) == true
  {
  }

  lemma DueShrinks(td: Td, td': Td, g: nat, now: nat)
    requires OthersStay(td, td', g) && g in Due(td.groups, td.tree, now)
    requires g in td'.tree && g < |td'.groups| ==> td'.groups[g].disptime > now
    ensures Due(td'.groups, td'.tree, now) < Due(td.groups, td.tree, now)
  {
    assert g !in Due(td'.groups, td'.tree, now);
  }

  lemma BothSides(groups: seq<Group>, hist: Histories, groups1: seq<Group>, hist1: Histories,
                  groups2: seq<Group>, hist2: Histories, clock: nat, g: nat, rd: seq<Bio>, wr: seq<Bio>)
    requires AllSides(groups, hist, clock)
    requires OnlySide(groups, hist, groups1, hist1, g, false) && OnlySide(groups1, hist1, groups2, hist2, g, true)
    requires Moved(groups[g].Get(false), hist[(g, false)], groups1[g].Get(false), hist1[(g, false)], rd)
    requires Moved(groups1[g].Get(true), hist1[(g, true)], groups2[g].Get(true), hist2[(g, true)], wr)
    ensures Served(groups, hist, groups2, hist2, g, rd, wr)
    ensures groups2[g].read == groups1[g].read
    ensures forall o: nat :: o < |groups| ==>
              groups2[o].disptime == groups[o].disptime && groups2[o].onRr == groups[o].onRr
    ensures OthersSame(groups, groups2, g) == true
  {
  }

  lemma ServedTrans(groups: seq<Group>, hist: Histories, groups1: seq<Group>, hist1: Histories,
                    groups2: seq<Group>, hist2: Histories, g: nat, rd: seq<Bio>, wr: seq<Bio>)
    requires Served(groups, hist, groups1, hist1, g, rd, wr) == true
    requires Served(groups1, hist1, groups2, hist2, g, [], []) == true
    ensures Served(groups, hist, groups2, hist2, g, rd, wr) == true
  {
    MovedTrans(groups[g].read, hist[(g, false)], groups1[g].read, hist1[(g, false)], groups2[g].read,
               hist2[(g, false)], rd, []);
    MovedTrans(groups[g].write, hist[(g, true)], groups1[g].write, hist1[(g, true)], groups2[g].write,
               hist2[(g, true)], wr, []);
    assert rd + [] == rd && wr + [] == wr;
  }

  /** Taking a group off the tree or putting it back serves nothing. */
  lemma MovedNothing(groups: seq<Group>, hist: Histories, clock: nat, groups': seq<Group>, g: nat)
    requires AllSides(groups, hist, clock) && |groups'| == |groups| && g < |groups|
    requires forall o: nat, rw: bool :: o < |groups| ==> groups'[o].Get(rw) == groups[o].Get(rw)
    ensures Served(groups, hist, groups', hist, g, [], [])
  {
    assert groups'[g].Get(false) == groups[g].read && groups'[g].Get(true) == groups[g].write;
    assert groups[g].read.bios == [] + groups[g].read.bios && groups[g].write.bios == [] + groups[g].write.bios;
  }

  /** The wait of neither head wraps around to 0. */
  predicate WaitsFit(g: Group, now: nat) {
    && g.read.lim.Valid() && g.write.lim.Valid()
    && (g.read.bios != [] ==> !WaitWraps(g.read.lim, g.read.dir, g.read.bios[0].size, now))
    && (g.write.bios != [] ==> !WaitWraps(g.write.lim, g.write.dir, g.write.bios[0].size, now))
  }

  lemma RefusedWaits(g: Group, now: nat)
    requires g.HasBios() && Refused(g.read, now) && Refused(g.write, now) && WaitsFit(g, now)
    ensures MinWait(g, now) >= 1
  {
    if g.read.bios != [] {
      RefusalWaits(g.read.lim, g.read.dir, g.read.bios[0].size, now);
    }
    if g.write.bios != [] {
      RefusalWaits(g.write.lim, g.write.dir, g.write.bios[0].size, now);
    }
  }

  lemma RetimedPlace(td: Td, hist: Histories, clock: nat, g: nat, disptime: nat)
    requires Consistent(td, hist, clock, Some(g))
    ensures var td' := Enqueued(td, g, disptime);
            && OthersStay(td, td', g) == true && g in td'.tree
            && td'.groups[g] == td.groups[g].(onRr := true, disptime := disptime)
            && OthersSame(td.groups, td'.groups, g) == true
            && Served(td.groups, hist, td'.groups, hist, g, [], []) == true
  {
    var y := td.groups[g].(onRr := true, disptime := disptime);
    RetimedTree(td.tree, td.groups, g, y);
    TreeInsertOk(td.tree, td.groups[g := y], g);
    MovedNothing(td.groups, hist, clock, td.groups[g := y], g);
  }

  lemma DequeuedPlace(td: Td, hist: Histories, clock: nat, x: Option<nat>, g: nat)
    requires Consistent(td, hist, clock, x) && g < |td.groups|
    ensures var td' := Dequeued(td, g);
            && OthersStay(td, td', g) == true && td'.groups[g] == td.groups[g].(onRr := td'.groups[g].onRr)
            && OthersSame(td.groups, td'.groups, g) == true
            && Served(td.groups, hist, td'.groups, hist, g, [], []) == true
  {
    MovedNothing(td.groups, hist, clock, Dequeued(td, g).groups, g);
  }

  lemma ServedAfter(groups: seq<Group>, hist: Histories, groups1: seq<Group>, hist1: Histories,
                    groups2: seq<Group>, hist2: Histories, g: nat, rd: seq<Bio>, wr: seq<Bio>)
    requires Served(groups, hist, groups1, hist1, g, [], []) == true
    requires Served(groups1, hist1, groups2, hist2, g, rd, wr) == true
    ensures Served(groups, hist, groups2, hist2, g, rd, wr) == true
  {
    MovedTrans(groups[g].read, hist[(g, false)], groups1[g].read, hist1[(g, false)], groups2[g].read,
               hist2[(g, false)], [], rd);
    MovedTrans(groups[g].write, hist[(g, true)], groups1[g].write, hist1[(g, true)], groups2[g].write,
               hist2[(g, true)], [], wr);
    assert [] + rd == rd && [] + wr == wr;
  }

  /** If the first group of the tree is not due, none is. */
  lemma FirstIsEarliest(td: Td, hist: Histories, clock: nat, now: nat)
    requires Consistent(td, hist, clock, None) && td.tree != []
    ensures td.tree[0] < |td.groups|
    ensures td.groups[td.tree[0]].disptime <= now <==> td.tree[0] in Due(td.groups, td.tree, now)
    ensures now < td.groups[td.tree[0]].disptime ==> Due(td.groups, td.tree, now) == {}
  {
    if now < td.groups[td.tree[0]].disptime {
      forall g | g in Due(td.groups, td.tree, now) ensures false {
        SortedHead(td.tree, td.groups, g);
      }
    }
  }

  // ---------------------------------------------------------------- submitting a bio

  /** A bio is held back when its side has rules and others wait there already, or the check refuses it. */
  predicate HoldsBack(s: Side, size: nat, now: nat)
    requires s.lim.Valid()
  {
    !s.lim.NoRule() && (s.bios != [] || !MayDispatch(s.lim, s.dir, size, now).ok)
  }

  function Pushed(s: Side, bio: Bio): Side {
    s.(bios := s.bios + [bio], nrQueued := s.nrQueued + 1)
  }

  function CountUp(td: Td, rw: bool): Td {
    if rw then td.(nrWrites := td.nrWrites + 1) else td.(nrReads := td.nrReads + 1)
  }

  /** throtl_add_bio_tg without the enqueueing of the group, for a group already on the tree or not. */
  lemma PushKeepsAll(td: Td, hist: Histories, clock: nat, g: nat, rw: bool, bio: Bio)
    requires Consistent(td, hist, clock, None) && g < |td.groups| && bio.size < U32
    ensures var s := td.groups[g].Get(rw);
            var td' := CountUp(td, rw).(groups := td.groups[g := td.groups[g].Set(rw, Pushed(s, bio))]);
            Consistent(td', hist, clock, if td.groups[g].onRr then None else Some(g))
  {
    var s := td.groups[g].Get(rw);
    var y := td.groups[g].Set(rw, Pushed(s, bio));
    assert SideOk(Pushed(s, bio), hist[(g, rw)]);
    SidesKept(td.groups, hist, clock, g, rw, Pushed(s, bio), hist[(g, rw)], clock);
    assert hist[(g, rw) := hist[(g, rw)]] == hist;
    QueuedUpdate(td.groups, g, y, false);
    QueuedUpdate(td.groups, g, y, true);
    PushTree(td, g, rw, y);
  }

  lemma PushTree(td: Td, g: nat, rw: bool, y: Group)
    requires TreeOk(td.groups, td.tree, None) && g < |td.groups|
    requires y.HasBios() && y.onRr == td.groups[g].onRr && y.disptime == td.groups[g].disptime
    ensures TreeOk(td.groups[g := y], td.tree, if td.groups[g].onRr then None else Some(g))
  {
  }

  /** A bio that may go at once is charged without being queued. */
  function Passed(s: Side, size: nat, now: nat): Side
    requires s.lim.Valid()
  {
    s.(dir := Trimmed(s.lim, Charged(s.dir, size), now))
  }

  lemma PassKeepsAll(td: Td, hist: Histories, clock: nat, g: nat, rw: bool, size: nat, now: nat)
    requires Consistent(td, hist, clock, None) && g < |td.groups| && clock <= now && size < U32
    requires var s := td.groups[g].Get(rw);
             s.lim.Valid() && MayDispatch(s.lim, s.dir, size, now) == Verdict(true, 0, s.dir)
    ensures var s := td.groups[g].Get(rw);
            var h := hist[(g, rw)];
            && Consistent(td.(groups := td.groups[g := td.groups[g].Set(rw, Passed(s, size, now))]),
                          hist[(g, rw) := h + [Send(size, now, now)]], now, None)
            && Bytes(h + [Send(size, now, now)]) == Bytes(h) + size && Ios(h + [Send(size, now, now)]) == Ios(h) + 1
  {
    var s, h := td.groups[g].Get(rw), hist[(g, rw)];
    var y := td.groups[g].Set(rw, Passed(s, size, now));
    HistoryMore(s.lim, h, Send(size, now, now));
    SidesKept(td.groups, hist, clock, g, rw, Passed(s, size, now), h + [Send(size, now, now)], now);
    TreeKept(td.groups, td.tree, None, g, y);
    QueuedUpdate(td.groups, g, y, false);
    QueuedUpdate(td.groups, g, y, true);
  }

  lemma SideMoved(groups: seq<Group>, hist: Histories, groups': seq<Group>, hist': Histories, g: nat, rw: bool)
    requires Served(groups, hist, groups', hist', g, [], [])
    ensures Moved(groups[g].Get(rw), hist[(g, rw)], groups'[g].Get(rw), hist'[(g, rw)], [])
    ensures groups'[g].Get(rw).bios == groups[g].Get(rw).bios
  {
    assert groups[g].Get(rw).bios == [] + groups'[g].Get(rw).bios;
  }
}
