/** How long a refused bio is told to wait: bounds on limits and bio sizes that keep the wait from wrapping around. */
module ThrottleProgress {
  import opened Lists
  import opened ThrottleModel
  import opened ThrottleRate
  import opened ThrottleQueue

  /**
   The limit is so high that whatever wraps around leaves the wait below `most`; or its products with the time do not
   wrap around, and the bio alone takes less than `most` jiffies, two slices excepted, at its rate.
   */
  predicate Gentle(lim: Limits, size: nat, now: nat, most: nat) {
    || lim.bps * (most - lim.Slice()) >= U64
    || (lim.bps * (now + lim.Slice()) < U64 && (size + 2) * lim.hz < lim.bps * (most - 2 * lim.Slice()))
  }

  // ---------------------------------------------------------------- how far a direction is ahead of its rate

  /** The bytes counted are those of the time since the slice began and one slice more, up to rounding. */
  ghost predicate Lag(lim: Limits, d: Dir, t: nat) {
    d.start <= t && Times(d.bytes, lim.hz) <= Times(lim.bps, t - d.start + lim.Slice()) + lim.hz
  }

  lemma LagLater(lim: Limits, d: Dir, t: nat, t': nat)
    requires Lag(lim, d, t) && t <= t'
    ensures Lag(lim, d, t')
  {
    TimesLe(lim.bps, t - d.start + lim.Slice(), t' - d.start + lim.Slice());
  }

  /** A trimmed amount is that of the slices cut off, up to rounding. */
  lemma TrimEnough(lim: Limits, n: nat)
    requires lim.Valid() && Times(lim.bps, Times(n, lim.Slice())) < U64
    ensures Times(lim.bps, Times(n, lim.Slice())) < Times(BytesTrim(lim, n), lim.hz) + lim.hz
  {
    TimesSwap(lim.bps, lim.Slice(), n);
    var x := Times(Times(lim.bps, lim.Slice()), n);
    QuotBounds(x, lim.hz);
    TimesIs(Quot(x, lim.hz), lim.hz);
  }

  lemma LessTrimmed(bytes: nat, trim: nat, hz: nat, all: nat, cut: nat)
    requires Times(bytes, hz) <= all && cut < Times(trim, hz) + hz && cut <= all
    ensures Times(MinusOrZero(bytes, trim), hz) <= all - cut + hz
  {
    if bytes >= trim {
      PlusTimes(bytes - trim, trim, hz);
    } else {
      assert Times(0, hz) == 0;
    }
  }

  lemma CutLag(lim: Limits, d: Dir, t: nat, n: nat, cut: nat)
    requires lim.Valid() && d.start + cut <= t && cut == Times(n, lim.Slice()) && Times(lim.bps, t + lim.Slice()) < U64
    requires Times(d.bytes, lim.hz) <= Times(lim.bps, t - d.start + lim.Slice())
    ensures Times(MinusOrZero(d.bytes, BytesTrim(lim, n)), lim.hz) <=
            Times(lim.bps, t - (d.start + cut) + lim.Slice()) + lim.hz
  {
    var all := t - d.start + lim.Slice();
    TimesLe(lim.bps, cut, t + lim.Slice());
    TrimEnough(lim, n);
    TimesPlus(lim.bps, all - cut, cut);
    LessTrimmed(d.bytes, BytesTrim(lim, n), lim.hz, Times(lim.bps, all), Times(lim.bps, cut));
  }

  lemma SlicesWithin(lim: Limits, d: Dir, t: nat)
    requires lim.Valid() && d.start <= t
    ensures d.start + Times(TrimmedSlices(lim, d, t), lim.Slice()) <= t
  {
    QuotBounds(t - d.start, lim.Slice());
    TimesIs(TrimmedSlices(lim, d, t), lim.Slice());
  }

  /** Trimming at `t` a direction that is within its rate. */
  lemma TrimLag(lim: Limits, d: Dir, t: nat)
    requires lim.Valid() && d.start <= t && Times(lim.bps, t + lim.Slice()) < U64
    requires Times(d.bytes, lim.hz) <= Times(lim.bps, t - d.start + lim.Slice())
    ensures Lag(lim, Trimmed(lim, d, t), t)
  {
    var n := TrimmedSlices(lim, d, t);
    SlicesWithin(lim, d, t);
    CutLag(lim, d, t, n, Times(n, lim.Slice()));
  }

  lemma LookLag(lim: Limits, d: Dir, size: nat, now: nat, t: nat)
    requires lim.Valid() && !lim.NoRule() && Fit(lim, d, t) && Lag(lim, d, t) && t <= now
    ensures Lag(lim, MayDispatch(lim, d, size, now).dir, now)
  {
    CheckDir(lim, d, size, now, t, d.start);
    LagLater(lim, d, t, now);
    assert Times(0, lim.hz) == 0;
  }

  lemma SendLag(lim: Limits, d: Dir, op: Op, t: nat)
    requires lim.Valid() && !lim.NoRule() && Fit(lim, d, t) && op.Send? && OpOk(lim, d, op, t)
    requires Times(lim.bps, OpEnd(op) + lim.Slice()) < U64
    ensures Lag(lim, After(lim, d, op), OpEnd(op))
  {
    var m := MayDispatch(lim, d, op.size, op.now).dir;
    CheckDir(lim, d, op.size, op.now, t, d.start);
    WithinBpsMeans(lim, m, op.size, op.now);
    var c := Charged(m, op.size);
    TimesLe(lim.bps, op.now - m.start + lim.Slice(), op.trimAt - m.start + lim.Slice());
    TrimLag(lim, c, op.trimAt);
  }

  lemma OpLag(lim: Limits, d: Dir, op: Op, t: nat)
    requires lim.Valid() && !lim.NoRule() && Fit(lim, d, t) == true && Lag(lim, d, t) == true
    requires OpOk(lim, d, op, t) == true
    requires Times(lim.bps, OpEnd(op) + lim.Slice()) < U64
    ensures Lag(lim, After(lim, d, op), OpEnd(op)) == true && Fit(lim, After(lim, d, op), OpEnd(op)) == true
  {
    StepStaysFit(lim, d, op, t);
    if op.Send? {
      SendLag(lim, d, op, t);
    } else {
      LookLag(lim, d, op.size, op.now, t);
    }
  }

  lemma LastOp(lim: Limits, d: Dir, ops: seq<Op>, t: nat, before: seq<Op>, op: Op)
    requires lim.Valid() && History(lim, d, ops, t) && ops != [] && before == ops[..|ops| - 1] && op == ops[|ops| - 1]
    ensures History(lim, d, before, t) == true && OpOk(lim, Replay(lim, d, before), op, EndTime(before, t)) == true
    ensures Replay(lim, d, ops) == After(lim, Replay(lim, d, before), op)
    ensures EndTime(before, t) <= OpEnd(op) == EndTime(ops, t)
  {
  }

  lemma {:induction false} HistoryLag(lim: Limits, d: Dir, ops: seq<Op>, t: nat)
    requires lim.Valid() && !lim.NoRule() && Fit(lim, d, t) == true && Lag(lim, d, t) == true
    requires History(lim, d, ops, t) == true && Times(lim.bps, EndTime(ops, t) + lim.Slice()) < U64
    ensures Lag(lim, Replay(lim, d, ops), EndTime(ops, t)) == true
    ensures Fit(lim, Replay(lim, d, ops), EndTime(ops, t)) == true
  {
    if ops != [] {
      var before, op := ops[..|ops| - 1], ops[|ops| - 1];
      LastOp(lim, d, ops, t, before, op);
      TimesLe(lim.bps, EndTime(before, t) + lim.Slice(), OpEnd(op) + lim.Slice());
      HistoryLag(lim, d, before, t);
      OpLag(lim, Replay(lim, d, before), op, EndTime(before, t));
    }
  }

  lemma FreshLag(lim: Limits, d: Dir, t: nat)
    requires d.bytes == 0 && d.start <= t
    ensures Lag(lim, d, t)
  {
    assert Times(0, lim.hz) == 0;
  }

  lemma HistoryFromStart(lim: Limits, ops: seq<Op>, start: nat)
    requires lim.Valid() && !lim.NoRule() && History(lim, IDLE, ops, 0) && ops != [] && start == ops[0].now
    ensures History(lim, NewSlice(lim, start), ops, start) == true && EndTime(ops, start) == EndTime(ops, 0)
    ensures Replay(lim, NewSlice(lim, start), ops) == Replay(lim, IDLE, ops)
    ensures Fit(lim, NewSlice(lim, start), start) == true && Lag(lim, NewSlice(lim, start), start) == true
  {
    RestartsWhen(lim, IDLE, start);
    HistoryFromRestart(lim, IDLE, ops, 0);
    NewSliceFit(lim, start);
    FreshLag(lim, NewSlice(lim, start), start);
  }

  /** From the creation of a group on. */
  lemma SideLag(lim: Limits, ops: seq<Op>, t: nat)
    requires lim.Valid() && !lim.NoRule() && History(lim, IDLE, ops, 0) == true && EndTime(ops, 0) <= t
    requires Times(lim.bps, t + lim.Slice()) < U64
    ensures Lag(lim, Replay(lim, IDLE, ops), t) == true
  {
    if ops == [] {
      FreshLag(lim, IDLE, t);
    } else {
      HistoryFromStart(lim, ops, ops[0].now);
      LagUntil(lim, NewSlice(lim, ops[0].now), ops, ops[0].now, t);
    }
  }

  lemma LagUntil(lim: Limits, d: Dir, ops: seq<Op>, start: nat, t: nat)
    requires lim.Valid() && !lim.NoRule() && Fit(lim, d, start) == true && Lag(lim, d, start) == true
    requires History(lim, d, ops, start) == true && EndTime(ops, start) <= t && Times(lim.bps, t + lim.Slice()) < U64
    ensures Lag(lim, Replay(lim, d, ops), t) == true
  {
    TimesLe(lim.bps, EndTime(ops, start) + lim.Slice(), t + lim.Slice());
    HistoryLag(lim, d, ops, start);
    LagLater(lim, Replay(lim, d, ops), EndTime(ops, start), t);
  }

  // ---------------------------------------------------------------- the wait

  lemma QuotLess(x: nat, y: nat, q: nat)
    requires y > 0 && x < Times(y, q)
    ensures Quot(x, y) < q
  {
    QuotBounds(x, y);
    TimesIs(y, q);
    if q <= Quot(x, y) {
      MulLe(y, q, Quot(x, y));
    }
  }

  /** The budget falls short of the time elapsed by rounding only. */
  lemma AllowedEnough(lim: Limits, d: Dir, now: nat)
    requires lim.Valid() && d.start <= now && Times(lim.bps, now + lim.Slice()) < U64
    ensures Times(lim.bps, now - d.start) < Times(BytesAllowed(lim, d, now), lim.hz) + lim.hz
  {
    var rounded := ElapsedRounded(lim, d, now);
    RoundedBound(lim, d, now);
    TimesLe(lim.bps, rounded, now + lim.Slice());
    QuotBounds(Times(lim.bps, rounded), lim.hz);
    TimesIs(BytesAllowed(lim, d, now), lim.hz);
    TimesLe(lim.bps, now - d.start, rounded);
  }

  lemma ExtraTimes(bytes: nat, size: nat, allowed: nat, extra: nat, hz: nat)
    requires extra + allowed <= bytes + size
    ensures Times(extra, hz) + Times(allowed, hz) <= Times(bytes, hz) + Times(size, hz)
    ensures Times(size + 2, hz) == Times(size, hz) + 2 * hz
  {
    PlusTimes(bytes, size, hz);
    PlusTimes(extra, allowed, hz);
    PlusTimes(extra + allowed, bytes + size - (extra + allowed), hz);
    PlusTimes(size, 2, hz);
    TimesIs(2, hz);
  }

  /** The bytes over the limit, times HZ. */
  lemma OverBytes(lim: Limits, d: Dir, size: nat, now: nat, extra: nat)
    requires lim.Valid() && Lag(lim, d, now) && Times(lim.bps, now + lim.Slice()) < U64
    requires extra == Wrap(d.bytes + size, U64) - BytesAllowed(lim, d, now)
    ensures Times(extra, lim.hz) <= Times(lim.bps, lim.Slice()) + Times(size + 2, lim.hz)
  {
    AllowedEnough(lim, d, now);
    TimesPlus(lim.bps, now - d.start, lim.Slice());
    ExtraTimes(d.bytes, size, BytesAllowed(lim, d, now), extra, lim.hz);
  }

  /** The time over the limit of a bio that does not take long at the rate. */
  lemma SlowOver(lim: Limits, d: Dir, size: nat, now: nat, most: nat)
    requires lim.Valid() && Lag(lim, d, now) && !WithinBps(lim, d, size, now)
    requires Times(lim.bps, now + lim.Slice()) < U64 && 2 * lim.Slice() <= most
    requires Times(size + 2, lim.hz) < Times(lim.bps, most - 2 * lim.Slice())
    ensures OverTime(lim, d, size, now) < most - lim.Slice()
  {
    var extra := Wrap(d.bytes + size, U64) - BytesAllowed(lim, d, now);
    OverBytes(lim, d, size, now, extra);
    TimesPlus(lim.bps, lim.Slice(), most - 2 * lim.Slice());
    QuotLess(Wrap(Times(extra, lim.hz), U64), lim.bps, most - lim.Slice());
  }

  /** That of any bio on a high limit. */
  lemma FastOver(lim: Limits, d: Dir, size: nat, now: nat, most: nat)
    requires lim.Valid() && d.start <= now && !WithinBps(lim, d, size, now)
    requires lim.Slice() <= most && Times(lim.bps, most - lim.Slice()) >= U64
    ensures OverTime(lim, d, size, now) < most - lim.Slice()
  {
    var x := Wrap(Times(Wrap(d.bytes + size, U64) - BytesAllowed(lim, d, now), lim.hz), U64);
    QuotLess(x, lim.bps, most - lim.Slice());
  }

  /** The slice a check works on, of a direction within its lag. */
  lemma RenewedLag(lim: Limits, d: Dir, now: nat)
    requires lim.Valid() && Lag(lim, d, now)
    ensures Lag(lim, Renewed(lim, d, now), now)
  {
    if SliceUsed(d, now) {
      FreshLag(lim, NewSlice(lim, now), now);
    }
  }

  lemma FastTimes(lim: Limits, most: nat)
    requires lim.Valid() && lim.bps * (most - lim.Slice()) >= U64
    ensures lim.Slice() <= most && Times(lim.bps, most - lim.Slice()) >= U64
  {
    TimesIs(lim.bps, most - lim.Slice());
  }

  lemma Limited(lim: Limits, most: nat)
    requires lim.Valid() && lim.Slice() + 1 < most && lim.bps * (most - lim.Slice()) < U64
    ensures !lim.NoRule()
  {
    MulLe(lim.bps, 2, most - lim.Slice());
  }

  lemma SlowTimes(lim: Limits, size: nat, now: nat, most: nat)
    requires lim.Valid() && lim.bps * (now + lim.Slice()) < U64
    requires (size + 2) * lim.hz < lim.bps * (most - 2 * lim.Slice())
    ensures 2 * lim.Slice() <= most && Times(lim.bps, now + lim.Slice()) < U64
    ensures Times(size + 2, lim.hz) < Times(lim.bps, most - 2 * lim.Slice())
  {
    TimesIs(lim.bps, now + lim.Slice());
    TimesIs(size + 2, lim.hz);
    TimesIs(lim.bps, most - 2 * lim.Slice());
  }

  lemma ShortWait(lim: Limits, d: Dir, size: nat, now: nat, most: nat)
    requires lim.Valid() && d.start <= now && !WithinBps(lim, d, size, now) && lim.Slice() + 1 < most <= U32
    requires OverTime(lim, d, size, now) < most - lim.Slice()
    ensures OverTime(lim, d, size, now) % U32 + Padding(lim, d, now) < U32 && 1 <= BpsWait(lim, d, size, now) < most
  {
    RoundedBound(lim, d, now);
  }

  lemma LagOn(s: Side, h: seq<Op>, now: nat)
    requires SideOk(s, h) && EndTime(h, 0) <= now && !s.lim.NoRule() && Times(s.lim.bps, now + s.lim.Slice()) < U64
    ensures Lag(s.lim, Renewed(s.lim, s.dir, now), now) == true
  {
    SideLag(s.lim, h, now);
    RenewedLag(s.lim, s.dir, now);
  }

  lemma GentleOver(s: Side, h: seq<Op>, size: nat, now: nat, most: nat, r: Dir)
    requires SideOk(s, h) && EndTime(h, 0) <= now && Gentle(s.lim, size, now, most)
    requires s.lim.Slice() + 1 < most
    requires r == Renewed(s.lim, s.dir, now) && r.start <= now && !WithinBps(s.lim, r, size, now)
    ensures OverTime(s.lim, r, size, now) < most - s.lim.Slice()
  {
    if s.lim.bps * (most - s.lim.Slice()) >= U64 {
      FastTimes(s.lim, most);
      FastOver(s.lim, r, size, now, most);
    } else {
      Limited(s.lim, most);
      SlowTimes(s.lim, size, now, most);
      LagOn(s, h, now);
      SlowOver(s.lim, r, size, now, most);
    }
  }

  /**
   What was checked and charged on a side keeps the wait of every gentle bio from 1 to below `most`: 2^32 so that no
   wait is cut, 2^31 so that none is taken for a time in the past.
   */
  lemma GentleWaits(s: Side, h: seq<Op>, size: nat, now: nat, most: nat)
    requires SideOk(s, h) && EndTime(h, 0) <= now && Gentle(s.lim, size, now, most)
    requires s.lim.Slice() + 1 < most <= U32
    ensures !WaitWraps(s.lim, s.dir, size, now)
    ensures !WithinBps(s.lim, Renewed(s.lim, s.dir, now), size, now) ==>
              1 <= BpsWait(s.lim, Renewed(s.lim, s.dir, now), size, now) < most
  {
    var r := Renewed(s.lim, s.dir, now);
    RenewedReaches(s.lim, s.dir, now);
    if !WithinBps(s.lim, r, size, now) {
      GentleOver(s, h, size, now, most, r);
      ShortWait(s.lim, r, size, now, most);
    }
  }

  /** On a limit of 4.5 GiB a second or more every bio is gentle at any time. */
  lemma HighIsGentle(lim: Limits, size: nat, now: nat)
    requires lim.Valid() && lim.bps >= 0x1_2000_0000
    ensures Gentle(lim, size, now, U32)
  {
    MulLe(U32 - lim.Slice(), 0x1_2000_0000, lim.bps);
  }

  // ---------------------------------------------------------------- all groups

  /** Every queued bio is gentle enough to be told to wait when it is refused. */
  ghost predicate AllGentle(groups: seq<Group>, now: nat) {
    forall g, rw: bool, b :: 0 <= g < |groups| && b in groups[g].Get(rw).bios ==>
      Gentle(groups[g].Get(rw).lim, b.size, now, U32)
  }

  lemma GentleFits(td: Td, hist: Histories, clock: nat, x: Option<nat>, g: nat, now: nat)
    requires Consistent(td, hist, clock, x) && clock <= now && g < |td.groups| && AllGentle(td.groups, now)
    ensures WaitsFit(td.groups[g], now) == true
  {
    var read, write := td.groups[g].Get(false), td.groups[g].Get(true);
    SideFacts(td, hist, clock, x, g, false);
    SideFacts(td, hist, clock, x, g, true);
    if read.bios != [] {
      assert read.bios[0] in read.bios;
      GentleWaits(read, hist[(g, false)], read.bios[0].size, now, U32);
    }
    if write.bios != [] {
      assert write.bios[0] in write.bios;
      GentleWaits(write, hist[(g, true)], write.bios[0].size, now, U32);
    }
  }

  /** Bios that leave make nothing worse. */
  lemma GentleServed(groups: seq<Group>, hist: Histories, groups': seq<Group>, hist': Histories,
                     g: nat, rd: seq<Bio>, wr: seq<Bio>, now: nat)
    requires Served(groups, hist, groups', hist', g, rd, wr) && AllGentle(groups, now)
    ensures AllGentle(groups', now)
  {
    forall o, rw: bool, b | 0 <= o < |groups'| && b in groups'[o].Get(rw).bios
      ensures Gentle(groups'[o].Get(rw).lim, b.size, now, U32)
    {
      assert b in groups[o].Get(rw).bios;
    }
  }

  lemma GentleMoved(groups: seq<Group>, hist: Histories, groups': seq<Group>, hist': Histories, out: seq<Sent>,
                    now: nat)
    requires AllMoved(groups, hist, groups', hist', out) && AllGentle(groups, now)
    ensures AllGentle(groups', now)
  {
    forall o, rw: bool, b | 0 <= o < |groups'| && b in groups'[o].Get(rw).bios
      ensures Gentle(groups'[o].Get(rw).lim, b.size, now, U32)
    {
      assert Moved(groups[o].Get(rw), hist[(o, rw)], groups'[o].Get(rw), hist'[(o, rw)], Of(out, o, rw));
      assert b in groups[o].Get(rw).bios;
    }
  }
}
