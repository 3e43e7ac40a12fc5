/** struct throtl_data and its groups, updated in place under the queue lock. */
module ThrottleInPlace {
  import opened Lists
  import opened ThrottleModel
  import opened ThrottleQueue
  import opened ThrottleProgress

  class ThrotlData {
    var groups: seq<Group>
    var tree: seq<nat>        // tg_service_tree, in key order
    var nrReads: nat          // nr_queued[READ]
    var nrWrites: nat         // nr_queued[WRITE]
    ghost var hist: Histories // what was checked and charged on every side
    ghost var clock: nat      // the latest time anything happened

    ghost function View(): Td
      reads this
    {
      Td(groups, tree, nrReads, nrWrites)
    }

    /** The invariant, while group `x` is off the tree because it is being served. */
    ghost predicate ValidBut(x: Option<nat>)
      reads this
    {
      Consistent(View(), hist, clock, x) == true
    }

    ghost predicate Valid()
      reads this
    {
      ValidBut(None)
    }

    constructor ()
      ensures Valid() && groups == []
    {
      groups, tree, nrReads, nrWrites, hist, clock := [], [], 0, 0, map[], 0;
    }

    /** A new group with the given limits, as throtl_pd_init and the limit files leave it. */
    method AddGroup(readLim: Limits, writeLim: Limits)
      requires Valid() && readLim.Valid() && writeLim.Valid()
      modifies this
      ensures Valid()
      ensures groups == old(groups) + [Group(Side(readLim, IDLE, [], 0), Side(writeLim, IDLE, [], 0), 0, false)]
    {
      var x := Group(Side(readLim, IDLE, [], 0), Side(writeLim, IDLE, [], 0), 0, false);
      ghost var g := |groups|;
      NewGroupKeeps(View(), hist, clock, x);
      hist := hist[(g, false) := []][(g, true) := []];
      groups := groups + [x];
    }

    /** tg_may_dispatch for a bio of `size` bytes. */
    method MayDispatchBio(g: nat, rw: bool, size: nat, now: nat, ghost x: Option<nat>) returns (ok: bool, wait: nat)
      requires ValidBut(x) && g < |groups| && clock <= now && size < U32
      modifies this`groups, this`hist, this`clock
      ensures ValidBut(x) && clock == now && OnlySide(old(groups), old(hist), groups, hist, g, rw)
      ensures ok == MayDispatch(old(groups)[g].Get(rw).lim, old(groups)[g].Get(rw).dir, size, now).ok
      ensures wait == MayDispatch(old(groups)[g].Get(rw).lim, old(groups)[g].Get(rw).dir, size, now).wait
      ensures groups[g].Get(rw) == Looked(old(groups)[g].Get(rw), size, now)
      ensures hist[(g, rw)] == old(hist)[(g, rw)] + [Look(size, now)]
    {
      LookKeepsAll(View(), hist, clock, x, g, rw, size, now);
      var s := groups[g].Get(rw);
      var v := MayDispatch(s.lim, s.dir, size, now);
      groups := groups[g := groups[g].Set(rw, s.(dir := v.dir))];
      hist := hist[(g, rw) := hist[(g, rw)] + [Look(size, now)]];
      clock := now;
      return v.ok, v.wait;
    }

    /** tg_dispatch_one_bio. */
    method DispatchOneBio(g: nat, rw: bool, now: nat) returns (bio: Bio)
      requires ValidBut(Some(g)) && clock <= now && Clear(groups[g].Get(rw), now)
      modifies this`groups, this`hist, this`clock, this`nrReads, this`nrWrites
      ensures ValidBut(Some(g)) && clock == now && OnlySide(old(groups), old(hist), groups, hist, g, rw)
      ensures bio == old(groups)[g].Get(rw).bios[0] && old(groups)[g].Get(rw).nrQueued > 0
      ensures groups[g].Get(rw) == Popped(old(groups)[g].Get(rw), now)
      ensures hist[(g, rw)] == old(hist)[(g, rw)] + [Send(bio.size, now, now)]
    {
      PopKeepsAll(View(), hist, clock, g, rw, now);
      var s := groups[g].Get(rw);
      bio := s.bios[0];
      s := s.(bios := s.bios[1..], nrQueued := s.nrQueued - 1);
      if rw {
        nrWrites := nrWrites - 1;
      } else {
        nrReads := nrReads - 1;
      }
      s := s.(dir := Charged(s.dir, bio.size));
      s := s.(dir := Trimmed(s.lim, s.dir, now));
      groups := groups[g := groups[g].Set(rw, s)];
      hist := hist[(g, rw) := hist[(g, rw)] + [Send(bio.size, now, now)]];
      clock := now;
    }

    /** Peek at the head of a list, check it, and dispatch it if it may go: one turn of a loop in throtl_dispatch_tg. */
    method TryOne(g: nat, rw: bool, now: nat) returns (r: Option<Bio>)
      requires ValidBut(Some(g)) && g < |groups| && clock <= now && groups[g].Get(rw).bios != []
      modifies this`groups, this`hist, this`clock, this`nrReads, this`nrWrites
      ensures ValidBut(Some(g)) && clock == now && OnlySide(old(groups), old(hist), groups, hist, g, rw)
      ensures Moved(old(groups)[g].Get(rw), old(hist)[(g, rw)], groups[g].Get(rw), hist[(g, rw)],
                    if r.Some? then [r.value] else [])
      ensures r.None? ==> Refused(groups[g].Get(rw), now)
    {
      ghost var s, h := groups[g].Get(rw), hist[(g, rw)];
      SideFacts(View(), hist, clock, Some(g), g, rw);
      var size := groups[g].Get(rw).bios[0].size;
      CheckAgain(s.lim, s.dir, size, now);
      LookedMoved(s, h, size, now);
      var ok, _ := MayDispatchBio(g, rw, size, now, Some(g));
      ghost var s1, h1 := groups[g].Get(rw), hist[(g, rw)];
      assert s1 == Looked(s, size, now) && h1 == h + [Look(size, now)];
      if !ok {
        return None;
      }
      SideFacts(View(), hist, clock, Some(g), g, rw);
      OkMeansClear(s, size, now);
      PoppedMoved(s1, h1, now);
      ghost var groups1, hist1 := groups, hist;
      var bio := DispatchOneBio(g, rw, now);
      OnlySideTrans(old(groups), old(hist), groups1, hist1, groups, hist, g, rw);
      MovedTrans(s, h, s1, h1, groups[g].Get(rw), hist[(g, rw)], [], [bio]);
      assert [] + [bio] == [bio];
      return Some(bio);
    }

    /** One of the two loops of throtl_dispatch_tg. */
    method DispatchSide(g: nat, rw: bool, max: nat, now: nat) returns (taken: seq<Bio>)
      requires ValidBut(Some(g)) && g < |groups| && clock <= now
      modifies this`groups, this`hist, this`clock, this`nrReads, this`nrWrites
      ensures ValidBut(Some(g)) && clock <= now && OnlySide(old(groups), old(hist), groups, hist, g, rw)
      ensures Moved(old(groups)[g].Get(rw), old(hist)[(g, rw)], groups[g].Get(rw), hist[(g, rw)], taken)
      ensures |taken| <= max
      ensures |taken| < max ==> Refused(groups[g].Get(rw), now)
    {
      taken := [];
      SideFacts(View(), hist, clock, Some(g), g, rw);
      ghost var s0, h0 := groups[g].Get(rw), hist[(g, rw)];
      assert s0.bios == [] + s0.bios;
      OnlySideRefl(groups, hist, g, rw);
      var refused := false;
      while |taken| < max && groups[g].Get(rw).bios != [] && !refused
        invariant ValidBut(Some(g)) && clock <= now
        invariant OnlySide(old(groups), old(hist), groups, hist, g, rw)
        invariant groups[g].Get(rw).lim.Valid()
        invariant Moved(s0, h0, groups[g].Get(rw), hist[(g, rw)], taken)
        invariant |taken| <= max
        invariant refused ==> Refused(groups[g].Get(rw), now)
        decreases max - |taken|, !refused
      {
        ghost var s, h := groups[g].Get(rw), hist[(g, rw)];
        ghost var groups1, hist1 := groups, hist;
        var r := TryOne(g, rw, now);
        OnlySideTrans(old(groups), old(hist), groups1, hist1, groups, hist, g, rw);
        MovedTrans(s0, h0, s, h, groups[g].Get(rw), hist[(g, rw)], taken, if r.Some? then [r.value] else []);
        if r.Some? {
          taken := taken + [r.value];
        } else {
          assert taken + [] == taken;
          refused := true;
        }
      }
    }

    /** throtl_dispatch_tg: up to 6 reads, then up to 2 writes. */
    method DispatchTg(g: nat, now: nat) returns (rd: seq<Bio>, wr: seq<Bio>)
      requires ValidBut(Some(g)) && g < |groups| && clock <= now
      modifies this`groups, this`hist, this`clock, this`nrReads, this`nrWrites
      ensures ValidBut(Some(g)) && clock <= now && |rd| + |wr| <= GRP_QUANTUM
      ensures Served(old(groups), old(hist), groups, hist, g, rd, wr) == true
      ensures OthersStay(old(View()), View(), g) == true && |groups| == |old(groups)|
      ensures |rd| <= GRP_QUANTUM * 3 / 4 && (|rd| < GRP_QUANTUM * 3 / 4 ==> Refused(groups[g].read, now))
      ensures |wr| <= GRP_QUANTUM / 4 && (|wr| < GRP_QUANTUM / 4 ==> Refused(groups[g].write, now))
    {
      ghost var c := clock;
      assert AllSides(groups, hist, c);
      rd := DispatchSide(g, false, MAX_READS, now);
      ghost var groups1, hist1 := groups, hist;
      wr := DispatchSide(g, true, MAX_WRITES, now);
      BothSides(old(groups), old(hist), groups1, hist1, groups, hist, c, g, rd, wr);
      assert groups[g].read == groups1[g].Get(false) && groups[g].write == groups[g].Get(true);
    }

    /** throtl_dequeue_tg. */
    method DequeueTg(g: nat, ghost x: Option<nat>)
      requires ValidBut(x) && (x == None || x == Some(g)) && g < |groups|
      modifies this`groups, this`tree
      ensures View() == Dequeued(old(View()), g) && ValidBut(Some(g))
    {
      DequeueKeepsAll(View(), hist, clock, x, g);
      if groups[g].onRr {
        tree := Without(tree, g);
        groups := groups[g := groups[g].(onRr := false)];
      }
    }

    /** `disptime` is set and the group put back on the tree. */
    method EnqueueTg(g: nat, disptime: nat)
      requires ValidBut(Some(g)) && g < |groups| && groups[g].HasBios()
      modifies this`groups, this`tree
      ensures InRange(old(tree), old(groups)) && View() == Enqueued(old(View()), g, disptime) && Valid()
    {
      EnqueueKeepsAll(View(), hist, clock, g, disptime);
      RetimedTree(tree, groups, g, groups[g].(onRr := true, disptime := disptime));
      groups := groups[g := groups[g].(onRr := true, disptime := disptime)];
      tree := TreeInsert(tree, groups, g);
    }

    /** One of the two checks of tg_update_disptime; no wait if the list is empty. */
    method PeekSide(g: nat, rw: bool, now: nat, ghost x: Option<nat>) returns (wait: Option<nat>)
      requires ValidBut(x) && g < |groups| && clock <= now
      modifies this`groups, this`hist, this`clock
      ensures ValidBut(x) && clock <= now && OnlySide(old(groups), old(hist), groups, hist, g, rw)
      ensures Moved(old(groups)[g].Get(rw), old(hist)[(g, rw)], groups[g].Get(rw), hist[(g, rw)], [])
      ensures old(groups)[g].Get(rw).lim.Valid()
      ensures wait == if old(groups)[g].Get(rw).bios == [] then None else Some(HeadWait(old(groups)[g].Get(rw), now))
      ensures groups[g].Get(rw) == Peeked(old(groups)[g].Get(rw), now)
    {
      SideFacts(View(), hist, clock, x, g, rw);
      var s := groups[g].Get(rw);
      assert s.bios == [] + s.bios;
      if s.bios == [] {
        OnlySideRefl(groups, hist, g, rw);
        return None;
      }
      LookedMoved(s, hist[(g, rw)], s.bios[0].size, now);
      var _, w := MayDispatchBio(g, rw, s.bios[0].size, now, x);
      return Some(w);
    }

    /** The checks of tg_update_disptime, and the smaller of the waits. */
    method PeekBoth(g: nat, now: nat, ghost x: Option<nat>) returns (wait: nat)
      requires ValidBut(x) && g < |groups| && clock <= now && groups[g].HasBios()
      modifies this`groups, this`hist, this`clock
      ensures ValidBut(x) && clock <= now
      ensures Served(old(groups), old(hist), groups, hist, g, [], []) == true
      ensures OthersStay(old(View()), View(), g) == true && |groups| == |old(groups)|
      ensures groups[g].HasBios() && OthersSame(old(groups), groups, g) == true
      ensures WaitIs(old(groups)[g], now, wait) == true
      ensures groups[g].read == Peeked(old(groups)[g].read, now) && groups[g].write == Peeked(old(groups)[g].write, now)
    {
      ghost var c := clock;
      assert AllSides(groups, hist, c);
      var readWait := PeekSide(g, false, now, x);
      ghost var groups1, hist1 := groups, hist;
      var writeWait := PeekSide(g, true, now, x);
      BothSides(old(groups), old(hist), groups1, hist1, groups, hist, c, g, [], []);
      assert groups1[g].Get(true) == old(groups)[g].write && old(groups)[g].Get(false) == old(groups)[g].read;
      wait := if writeWait.None? || (readWait.Some? && readWait.value <= writeWait.value)
              then readWait.value else writeWait.value;
    }

    /** The rest of tg_update_disptime. */
    method Requeue(g: nat, disptime: nat, ghost x: Option<nat>)
      requires ValidBut(x) && (x == None || x == Some(g)) && g < |groups| && groups[g].HasBios()
      modifies this`groups, this`tree
      ensures Valid() && OthersStay(old(View()), View(), g) == true && g in tree && |groups| == |old(groups)|
      ensures Served(old(groups), hist, groups, hist, g, [], []) == true && groups[g].disptime == disptime
      ensures OthersSame(old(groups), groups, g) == true
      ensures groups[g].read == old(groups)[g].read && groups[g].write == old(groups)[g].write
    {
      DequeuedPlace(View(), hist, clock, x, g);
      DequeueTg(g, x);
      ghost var td1 := View();
      RetimedPlace(View(), hist, clock, g, disptime);
      EnqueueTg(g, disptime);
      ServedTrans(old(groups), hist, td1.groups, hist, groups, hist, g, [], []);
      OthersStayTrans(old(View()), td1, View(), g);
      OthersSameTrans(old(groups), td1.groups, groups, g);
    }

    /** tg_update_disptime: the group becomes due when the first of its list heads may go. */
    method UpdateDisptime(g: nat, now: nat, ghost x: Option<nat>)
      requires ValidBut(x) && (x == None || x == Some(g)) && g < |groups| && clock <= now && groups[g].HasBios()
      modifies this`groups, this`hist, this`clock, this`tree
      ensures Valid() && clock <= now
      ensures Served(old(groups), old(hist), groups, hist, g, [], []) == true
      ensures OthersStay(old(View()), View(), g) == true && |groups| == |old(groups)|
      ensures g in tree && groups[g].disptime >= now && WaitIs(old(groups)[g], now, groups[g].disptime - now) == true
      ensures DueInTime(groups[g], now) == true && OthersSame(old(groups), groups, g) == true
    {
      ghost var was := groups[g];
      var wait := PeekBoth(g, now, x);
      ghost var td1 := View();
      Requeue(g, now + wait, x);
      ServedTrans(old(groups), old(hist), td1.groups, hist, groups, hist, g, [], []);
      OthersStayTrans(old(View()), td1, View(), g);
      OthersSameTrans(old(groups), td1.groups, groups, g);
      PeekedDue(was, groups[g], now);
    }

    /** One round of throtl_select_dispatch for the group at the front of the tree. */
    method ServeFirst(now: nat) returns (g: nat, rd: seq<Bio>, wr: seq<Bio>)
      requires Valid() && clock <= now && tree != [] && tree[0] < |groups|
      modifies this
      ensures Valid() && clock <= now && g == old(tree)[0] && g < |groups| && |rd| + |wr| <= GRP_QUANTUM
      ensures Served(old(groups), old(hist), groups, hist, g, rd, wr) == true
      ensures OthersStay(old(View()), View(), g) == true && |groups| == |old(groups)|
      ensures g in tree ==> groups[g].disptime >= now && DueInTime(groups[g], now) == true
      ensures rd == [] && wr == [] && g in tree && AllGentle(old(groups), now) == true ==> groups[g].disptime > now
    {
      g := tree[0];
      DequeuedPlace(View(), hist, clock, None, g);
      DequeueTg(g, None);
      ghost var td1, hist1 := View(), hist;
      rd, wr := DispatchTg(g, now);
      ghost var td2, hist2 := View(), hist;
      ServedAfter(old(groups), old(hist), td1.groups, hist1, td2.groups, hist2, g, rd, wr);
      OthersStayTrans(old(View()), td1, td2, g);
      if groups[g].HasBios() {
        if rd == [] && wr == [] && AllGentle(old(groups), now) {
          GentleServed(old(groups), old(hist), td2.groups, hist2, g, rd, wr, now);
          GentleFits(td2, hist2, clock, Some(g), g, now);
          RefusedWaits(groups[g], now);
        }
        UpdateDisptime(g, now, Some(g));
        ServedTrans(old(groups), old(hist), td2.groups, hist2, groups, hist, g, rd, wr);
        OthersStayTrans(old(View()), td2, View(), g);
      } else {
        ServedEmpty(View(), hist, clock, g);
      }
    }

    /**
     throtl_select_dispatch. Bios leave every list from its front, exactly those that are charged; a round ends with
     the quantum used up or with no group due, after at most QUANTUM - 1 + GRP_QUANTUM bios. That it ends is known when
     the queued bios are gentle: the source demands nothing, and does not get on with a bio whose wait is 0.
     */
    method SelectDispatch(now: nat) returns (out: seq<Sent>)
      requires Valid() && clock <= now && AllGentle(groups, now) == true
      modifies this
      ensures Valid() && clock <= now
      ensures AllMoved(old(groups), old(hist), groups, hist, out)
      ensures |out| <= QUANTUM - 1 + GRP_QUANTUM
      ensures |out| >= QUANTUM || Due(groups, tree, now) == {}
    {
      out := [];
      assert AllSides(groups, hist, clock);
      NothingMoved(groups, hist);
      while |out| < QUANTUM
        invariant Valid() && clock <= now
        invariant AllMoved(old(groups), old(hist), groups, hist, out)
        invariant |out| <= QUANTUM - 1 + GRP_QUANTUM
        decreases QUANTUM + GRP_QUANTUM - |out|, Due(groups, tree, now)
      {
        if tree == [] {
          break;
        }
        FirstIsEarliest(View(), hist, clock, now);
        if now < groups[tree[0]].disptime {
          break;
        }
        GentleMoved(old(groups), old(hist), groups, hist, out, now);
        ghost var td1, groups1, hist1 := View(), groups, hist;
        var g, rd, wr := ServeFirst(now);
        ServedMoves(old(groups), old(hist), groups1, hist1, groups, hist, out, g, rd, wr);
        if rd == [] && wr == [] {
          DueShrinks(td1, View(), g, now);
        }
        out := out + Tag(g, false, rd) + Tag(g, true, wr);
      }
    }

    /** The list and the counters of throtl_add_bio_tg. */
    method PushBio(g: nat, rw: bool, bio: Bio)
      requires Valid() && g < |groups| && bio.size < U32
      modifies this`groups, this`nrReads, this`nrWrites
      ensures ValidBut(if old(groups)[g].onRr then None else Some(g))
      ensures groups == old(groups)[g := old(groups)[g].Set(rw, Pushed(old(groups)[g].Get(rw), bio))]
    {
      PushKeepsAll(View(), hist, clock, g, rw, bio);
      var s := groups[g].Get(rw);
      groups := groups[g := groups[g].Set(rw, s.(bios := s.bios + [bio], nrQueued := s.nrQueued + 1))];
      if rw {
        nrWrites := nrWrites + 1;
      } else {
        nrReads := nrReads + 1;
      }
    }

    /** throtl_add_bio_tg: queue the bio at the tail, and the group on the tree if it was not there. */
    method AddBioTg(g: nat, rw: bool, bio: Bio)
      requires Valid() && g < |groups| && bio.size < U32
      modifies this`groups, this`tree, this`nrReads, this`nrWrites
      ensures Valid() && |groups| == |old(groups)| && g in tree
      ensures groups[g].(onRr := false) == old(groups)[g].Set(rw, Pushed(old(groups)[g].Get(rw), bio)).(onRr := false)
      ensures groups == old(groups)[g := groups[g]]
    {
      PushBio(g, rw, bio);
      if !groups[g].onRr {
        EnqueueTg(g, groups[g].disptime);
      }
    }

    /** Charge a bio that goes without being queued, and trim the slice. */
    method PassBio(g: nat, rw: bool, size: nat, now: nat)
      requires Valid() && g < |groups| && clock <= now && size < U32 && groups[g].Get(rw).lim.Valid()
      requires MayDispatch(groups[g].Get(rw).lim, groups[g].Get(rw).dir, size, now) ==
               Verdict(true, 0, groups[g].Get(rw).dir)
      modifies this`groups, this`hist, this`clock
      ensures Valid() && clock <= now && |groups| == |old(groups)|
      ensures groups[g].Get(rw).bios == old(groups)[g].Get(rw).bios
      ensures (g, rw) in old(hist) && (g, rw) in hist
      ensures Ios(hist[(g, rw)]) == Ios(old(hist)[(g, rw)]) + 1
      ensures Bytes(hist[(g, rw)]) == Bytes(old(hist)[(g, rw)]) + size
      ensures OthersSame(old(groups), groups, g) == true && groups[g].Get(!rw) == old(groups)[g].Get(!rw)
    {
      SideFacts(View(), hist, clock, None, g, rw);
      PassKeepsAll(View(), hist, clock, g, rw, size, now);
      var s := groups[g].Get(rw);
      s := s.(dir := Charged(s.dir, size));
      s := s.(dir := Trimmed(s.lim, s.dir, now));
      groups := groups[g := groups[g].Set(rw, s)];
      hist := hist[(g, rw) := hist[(g, rw)] + [Send(size, now, now)]];
      clock := now;
    }

    /** Queue a refused bio and work out when its group is due. */
    method RefuseBio(g: nat, rw: bool, bio: Bio, now: nat)
      requires Valid() && g < |groups| && clock <= now && bio.size < U32
      modifies this
      ensures Valid() && clock <= now && |groups| == |old(groups)|
      ensures groups[g].Get(rw).bios == old(groups)[g].Get(rw).bios + [bio]
      ensures (g, rw) in old(hist) && (g, rw) in hist
      ensures Ios(hist[(g, rw)]) == Ios(old(hist)[(g, rw)]) && Bytes(hist[(g, rw)]) == Bytes(old(hist)[(g, rw)])
      ensures OthersSame(old(groups), groups, g) == true && g in tree && DueInTime(groups[g], now) == true
    {
      SideFacts(View(), hist, clock, None, g, rw);
      AddBioTg(g, rw, bio);
      ghost var groups1, hist1 := groups, hist;
      UpdateDisptime(g, now, None);
      SideMoved(groups1, hist1, groups, hist, g, rw);
    }

    /** A bio on a side with rules and none waiting: checked, and let through or queued. */
    method CheckBio(g: nat, rw: bool, bio: Bio, now: nat) returns (throttled: bool)
      requires Valid() && g < |groups| && clock <= now && bio.size < U32
      requires !groups[g].Get(rw).lim.NoRule() && groups[g].Get(rw).bios == []
      modifies this
      ensures Valid() && clock <= now && |groups| == |old(groups)|
      ensures (g, rw) in old(hist) && (g, rw) in hist && old(groups)[g].Get(rw).lim.Valid()
      ensures throttled == !MayDispatch(old(groups)[g].Get(rw).lim, old(groups)[g].Get(rw).dir, bio.size, now).ok
      ensures groups[g].Get(rw).bios == if throttled then [bio] else []
      ensures Ios(hist[(g, rw)]) == Ios(old(hist)[(g, rw)]) + if throttled then 0 else 1
      ensures Bytes(hist[(g, rw)]) == Bytes(old(hist)[(g, rw)]) + if throttled then 0 else bio.size
      ensures OthersSame(old(groups), groups, g) == true
      ensures throttled ==> g in tree && DueInTime(groups[g], now) == true
    {
      SideFacts(View(), hist, clock, None, g, rw);
      ghost var s0, h0 := groups[g].Get(rw), hist[(g, rw)];
      LookedMoved(s0, h0, bio.size, now);
      CheckAgain(s0.lim, s0.dir, bio.size, now);
      var ok, _ := MayDispatchBio(g, rw, bio.size, now, None);
      ghost var groups1 := groups;
      OnlySideSame(old(groups), old(hist), groups, hist, g, rw);
      if ok {
        PassBio(g, rw, bio.size, now);
      } else {
        RefuseBio(g, rw, bio, now);
      }
      OthersSameTrans(old(groups), groups1, groups, g);
      return !ok;
    }

    /**
     blk_throtl_bio for a bio not yet seen: queued behind the bios already waiting, or refused and queued, or let
     through and charged; a side without rules lets it through uncharged. The first bio of a list decides with that of
     the other list when the group is due.
     */
    method ThrotlBio(g: nat, rw: bool, bio: Bio, now: nat) returns (throttled: bool)
      requires Valid() && g < |groups| && clock <= now && bio.size < U32
      modifies this
      ensures Valid() && clock <= now && |groups| == |old(groups)|
      ensures (g, rw) in old(hist) && (g, rw) in hist && old(groups)[g].Get(rw).lim.Valid()
      ensures throttled == HoldsBack(old(groups)[g].Get(rw), bio.size, now)
      ensures groups[g].Get(rw).bios == old(groups)[g].Get(rw).bios + if throttled then [bio] else []
      ensures throttled ==>
                Ios(hist[(g, rw)]) == Ios(old(hist)[(g, rw)]) && Bytes(hist[(g, rw)]) == Bytes(old(hist)[(g, rw)])
      ensures !throttled && !old(groups)[g].Get(rw).lim.NoRule() ==>
                Ios(hist[(g, rw)]) == Ios(old(hist)[(g, rw)]) + 1 &&
                Bytes(hist[(g, rw)]) == Bytes(old(hist)[(g, rw)]) + bio.size
      ensures OthersSame(old(groups), groups, g) == true
      ensures throttled ==>
                g in tree && if old(groups)[g].Get(rw).bios == [] then DueInTime(groups[g], now) == true
                             else groups[g].disptime == old(groups)[g].disptime
    {
      SideFacts(View(), hist, clock, None, g, rw);
      if groups[g].Get(rw).lim.NoRule() {
        return false;
      }
      if groups[g].Get(rw).nrQueued > 0 {
        AddBioTg(g, rw, bio);
        return true;
      }
      throttled := CheckBio(g, rw, bio, now);
    }
  }
}
