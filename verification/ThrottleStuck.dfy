/**
 A bio of 2 GiB on a limit of 100 bytes a second: the wait it is told wraps around to 0, and the loop that dispatches
 finds its group due again as often as it looks.
 */
module ThrottleStuck {
  import opened Lists
  import opened ThrottleModel
  import opened ThrottleRate
  import opened ThrottleQueue
  import opened ThrottleProgress
  import opened ThrottleFull

  /** Given by equations, as the solver would otherwise set out to compute with the numbers. */
  ghost predicate Slow(lim: Limits, size: nat, now: nat) {
    lim.Valid() && lim.hz == 200 && lim.bps == 100 && size == 0x8000_0000 && now > 0
  }

  /** On a new slice the budget is 10 bytes, the padding a slice, and the time over the limit 2^32 less a slice. */
  lemma SlowNumbers(lim: Limits, size: nat, now: nat, r: Dir)
    requires Slow(lim, size, now) && r == NewSlice(lim, now)
    ensures BytesAllowed(lim, r, now) == 10 && Padding(lim, r, now) == 20 && !WithinBps(lim, r, size, now)
    ensures OverTime(lim, r, size, now) == U32 - 20
  {
    OneSlice(lim.Slice());
    BytesAllowedIs(lim, r, now, lim.Slice());
    var extra := size - 10;
    TimesIs(extra, lim.hz);
    QuotIs(extra * lim.hz, lim.bps, U32 - 20);
  }

  lemma SlowSum(lim: Limits, size: nat, now: nat, r: Dir)
    requires Slow(lim, size, now) && r == NewSlice(lim, now)
    ensures !WithinBps(lim, r, size, now) && OverTime(lim, r, size, now) % U32 + Padding(lim, r, now) == U32
  {
    SlowNumbers(lim, size, now, r);
    SumIs(OverTime(lim, r, size, now), Padding(lim, r, now));
  }

  lemma SumIs(over: nat, padding: nat)
    requires over == U32 - 20 && padding == 20
    ensures over % U32 + padding == U32
  {
  }

  lemma WrapsToZero(lim: Limits, d: Dir, size: nat, now: nat)
    requires lim.Valid() && d.start <= now && !WithinBps(lim, d, size, now)
    requires OverTime(lim, d, size, now) % U32 + Padding(lim, d, now) == U32
    ensures BpsWait(lim, d, size, now) == 0
  {
    RoundedBound(lim, d, now);
    CutWait(OverTime(lim, d, size, now), Padding(lim, d, now), lim.Slice());
  }

  /** So the bio is refused, with a wait of 0, and a slice that further checks do not change. */
  lemma ZeroWait(lim: Limits, size: nat, now: nat, d: Dir)
    requires Slow(lim, size, now) && (d == IDLE || d == NewSlice(lim, now))
    ensures MayDispatch(lim, d, size, now) == Verdict(false, 0, NewSlice(lim, now)) && WaitWraps(lim, d, size, now)
  {
    var r := NewSlice(lim, now);
    assert Renewed(lim, d, now) == r;
    SlowSum(lim, size, now, r);
    WrapsToZero(lim, r, size, now);
    RefusedOn(lim, d, size, now, r, 0);
  }

  // ---------------------------------------------------------------- the group that holds it

  /** A direction that has never held a bio, and the same with the bio refused and queued at `now`. */
  function Empty(lim: Limits): Side {
    Side(lim, IDLE, [], 0)
  }

  function Waiting(lim: Limits, size: nat, now: nat): Side {
    Side(lim, NewSlice(lim, now), [Bio(0, size)], 1)
  }

  /** One group, on the tree and due at `now`. */
  function Stuck(lim: Limits, size: nat, now: nat): Td {
    Td([Group(Waiting(lim, size, now), Empty(lim), now, true)], [0], 1, 0)
  }

  /** blk_throtl_bio refuses the bio, queues it, and finds that its group is due at once. */
  lemma ComesToStuck(lim: Limits, size: nat, now: nat)
    requires Slow(lim, size, now)
    ensures HoldsBack(Empty(lim), size, now)
    ensures Pushed(Looked(Empty(lim), size, now), Bio(0, size)) == Waiting(lim, size, now)
    ensures Peeked(Waiting(lim, size, now), now) == Waiting(lim, size, now)
    ensures now + MinWait(Stuck(lim, size, now).groups[0], now) == now
  {
    ZeroWait(lim, size, now, IDLE);
    ZeroWait(lim, size, now, NewSlice(lim, now));
  }

  /** What was checked on the two sides of the group. */
  ghost function Checks(size: nat, now: nat): Histories {
    map[(0, false) := [Look(size, now)], (0, true) := []]
  }

  lemma WaitingOk(lim: Limits, size: nat, now: nat)
    requires Slow(lim, size, now)
    ensures SideOk(Waiting(lim, size, now), [Look(size, now)]) && SideOk(Empty(lim), [])
  {
    ZeroWait(lim, size, now, IDLE);
    HistoryMore(lim, [], Look(size, now));
    assert [] + [Look(size, now)] == [Look(size, now)];
  }

  lemma StuckCounts(lim: Limits, size: nat, now: nat)
    ensures var td := Stuck(lim, size, now);
            Queued(td.groups, false) == 1 && Queued(td.groups, true) == 0 && TreeOk(td.groups, td.tree, None)
  {
    var td := Stuck(lim, size, now);
    assert td.groups[..0] == [];
    assert Queued([], false) == 0 && Queued([], true) == 0;
  }

  lemma StuckOk(lim: Limits, size: nat, now: nat)
    requires Slow(lim, size, now)
    ensures Consistent(Stuck(lim, size, now), Checks(size, now), now, None)
  {
    WaitingOk(lim, size, now);
    StuckCounts(lim, size, now);
    var td, hist := Stuck(lim, size, now), Checks(size, now);
    forall g: nat, rw: bool | g < |td.groups|
      ensures (g, rw) in hist && SideOk(td.groups[g].Get(rw), hist[(g, rw)]) && EndTime(hist[(g, rw)], 0) <= now
    {
    }
  }

  /** One turn of the loop for a group that gives nothing: off the tree, both heads looked at, and on again. */
  ghost function Turned(td: Td, g: nat, now: nat): Td
    requires g < |td.groups| && td.groups[g].read.lim.Valid() && td.groups[g].write.lim.Valid()
    requires td.groups[g].HasBios()
    requires InRange(Dequeued(td, g).tree, td.groups)
  {
    var off := Dequeued(td, g);
    var y := off.groups[g].(read := Peeked(td.groups[g].read, now), write := Peeked(td.groups[g].write, now));
    Enqueued(off.(groups := off.groups[g := y]), g, now + MinWait(td.groups[g], now))
  }

  /**
   The group is due, both its sides are refused, and a turn of the loop of throtl_select_dispatch leaves everything as
   it was. The state is one the invariant allows, and the bio is not gentle.
   */
  lemma LoopStands(lim: Limits, size: nat, now: nat, td: Td)
    requires Slow(lim, size, now) && td == Stuck(lim, size, now)
    ensures Consistent(td, Checks(size, now), now, None) && 0 in Due(td.groups, td.tree, now)
    ensures Refused(td.groups[0].read, now) && Refused(td.groups[0].write, now)
    ensures Dequeued(td, 0).tree == [] && Turned(td, 0, now) == td
    ensures !Gentle(lim, size, now, U32)
  {
    StuckOk(lim, size, now);
    ZeroWait(lim, size, now, NewSlice(lim, now));
    ComesToStuck(lim, size, now);
    assert Without([0], 0) == [];
  }
}
