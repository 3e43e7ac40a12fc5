/**
 The wait a refused bio is told is right: when it is over the bio passes, and not much earlier. For bytes a second
 check may be needed, as the wait is rounded down.
 */
module ThrottleWait {
  import opened ThrottleModel
  import opened ThrottleRate
  import opened ThrottleProgress
  import opened ThrottlePass

  // ---------------------------------------------------------------- the slice lasts that long

  /** The check leaves start and counters of the slice it worked on, and the slice lasts until the wait is over. */
  lemma WaitsInSlice(lim: Limits, d: Dir, size: nat, now: nat)
    requires lim.Valid() && !lim.NoRule()
    ensures var v, r := MayDispatch(lim, d, size, now), Renewed(lim, d, now);
            && v.dir == r.(end := v.dir.end) && r.start <= now && !SliceUsed(v.dir, now + v.wait)
  {
    RenewedEnds(lim, d, now);
  }

  lemma RenewedEnds(lim: Limits, d: Dir, now: nat)
    requires lim.Valid()
    ensures Renewed(lim, d, now).start <= now <= Renewed(lim, d, now).end
  {
  }

  /** A check within the slice works on the same slice. */
  lemma StaysInSlice(lim: Limits, d: Dir, now: nat)
    requires lim.Valid() && !SliceUsed(d, now)
    ensures Renewed(lim, d, now) == d.(end := Renewed(lim, d, now).end)
  {
  }

  lemma EndIsIdle(lim: Limits, d: Dir, e: Dir, size: nat, now: nat)
    requires lim.Valid() && d.start <= now && e == d.(end := e.end)
    ensures WithinBps(lim, e, size, now) == WithinBps(lim, d, size, now)
    ensures WithinIops(lim, e, now) == WithinIops(lim, d, now)
  {
  }

  // ---------------------------------------------------------------- bytes

  /** Products and sums in the check for bytes at `now` do not wrap around. */
  predicate BytesFit(lim: Limits, d: Dir, size: nat, now: nat)
    requires lim.Valid()
  {
    && d.start <= now && d.bytes + size < U64 && Times(lim.bps, now - d.start + lim.Slice()) < U64
    && (!WithinBps(lim, d, size, now) ==>
          && Times(d.bytes + size - BytesAllowed(lim, d, now), lim.hz) < U64
          && OverTime(lim, d, size, now) + Padding(lim, d, now) + 1 < U32)
  }

  lemma QuotTimes(x: nat, y: nat, q: nat)
    requires y > 0 && q == Quot(x, y)
    ensures Times(q, y) <= x < Times(q, y) + y && Times(y, q) <= x < Times(y, q + 1)
  {
    QuotBounds(x, y);
    TimesIs(q, y);
    TimesIs(y, q);
    TimesPlus(y, q, 1);
    TimesIs(y, 1);
  }

  lemma OverBounds(lim: Limits, rounded: nat, a: nat, extra: nat, w: nat)
    requires lim.Valid()
    requires a == Quot(Times(lim.bps, rounded), lim.hz) && w == Quot(Times(extra, lim.hz), lim.bps)
    ensures Times(a, lim.hz) + Times(extra, lim.hz) < Times(lim.bps, rounded + w + 1)
    ensures Times(lim.bps, rounded + w) < Times(a, lim.hz) + Times(extra, lim.hz) + lim.hz
  {
    QuotTimes(Times(lim.bps, rounded), lim.hz, a);
    QuotTimes(Times(extra, lim.hz), lim.bps, w);
    TimesPlus(lim.bps, rounded, w);
    TimesPlus(lim.bps, rounded, w + 1);
  }

  /** The parts of the wait, when nothing wraps around. */
  lemma WaitParts(lim: Limits, d: Dir, size: nat, now: nat, rounded: nat, a: nat, extra: nat, w: nat)
    requires lim.Valid() && BytesFit(lim, d, size, now) && !WithinBps(lim, d, size, now)
    requires rounded == ElapsedRounded(lim, d, now) && a == BytesAllowed(lim, d, now)
    requires extra == d.bytes + size - a && w == OverTime(lim, d, size, now)
    ensures a == Quot(Times(lim.bps, rounded), lim.hz) && w == Quot(Times(extra, lim.hz), lim.bps)
    ensures now - d.start + BpsWait(lim, d, size, now) == rounded + if w == 0 then 1 else w
  {
    RoundedBound(lim, d, now);
    TimesLe(lim.bps, rounded, now - d.start + lim.Slice());
  }

  /** The bytes take no longer than the time up to `due` and a jiffy, and no less than a jiffy less, up to a byte. */
  ghost predicate JustCovers(lim: Limits, bytes: nat, due: nat) {
    && due >= 1 && Times(bytes, lim.hz) < Times(lim.bps, due + 1)
    && Times(lim.bps, due - 1) < Times(bytes, lim.hz) + lim.hz
  }

  lemma WaitCovers(lim: Limits, rounded: nat, a: nat, extra: nat, w: nat, due: nat)
    requires lim.Valid() && due == rounded + if w == 0 then 1 else w
    requires a == Quot(Times(lim.bps, rounded), lim.hz) && w == Quot(Times(extra, lim.hz), lim.bps)
    ensures JustCovers(lim, a + extra, due) == true
  {
    OverBounds(lim, rounded, a, extra, w);
    PlusTimes(a, extra, lim.hz);
    TimesLe(lim.bps, rounded + w + 1, due + 1);
    TimesLe(lim.bps, due - 1, rounded + w);
  }

  /** The wait covers the bytes over the limit. */
  lemma BytesWait(lim: Limits, d: Dir, size: nat, now: nat)
    requires lim.Valid() && BytesFit(lim, d, size, now) && !WithinBps(lim, d, size, now)
    ensures var wait := BpsWait(lim, d, size, now);
            wait >= 1 && JustCovers(lim, d.bytes + size, now - d.start + wait) == true
  {
    var rounded, a := ElapsedRounded(lim, d, now), BytesAllowed(lim, d, now);
    var extra, w := d.bytes + size - a, OverTime(lim, d, size, now);
    WaitParts(lim, d, size, now, rounded, a, extra, w);
    WaitCovers(lim, rounded, a, extra, w, now - d.start + BpsWait(lim, d, size, now));
  }

  /** With enough time since the slice began a bio is within the limit. */
  lemma EnoughForBytes(lim: Limits, d: Dir, size: nat, now: nat)
    requires lim.Valid() && d.start <= now && d.bytes + size < U64
    requires Times(lim.bps, now - d.start + lim.Slice()) < U64
    ensures WithinBps(lim, d, size, now) <==>
            Times(d.bytes + size, lim.hz) <= Times(lim.bps, ElapsedRounded(lim, d, now))
  {
    var rounded := ElapsedRounded(lim, d, now);
    RoundedBound(lim, d, now);
    TimesLe(lim.bps, rounded, now - d.start + lim.Slice());
    TimesIs(d.bytes + size, lim.hz);
    LeQuot(d.bytes + size, Times(lim.bps, rounded), lim.hz);
  }

  /** The time up to `t`, rounded up, falls short of that up to `due` by more than a jiffy and a byte. */
  predicate EarlyForBytes(lim: Limits, d: Dir, due: nat, t: nat)
    requires lim.Valid() && d.start <= t
  {
    d.start < due && Times(lim.bps, ElapsedRounded(lim, d, t)) + lim.hz <= Times(lim.bps, due - 1 - d.start)
  }

  lemma BytesInTime(lim: Limits, d: Dir, size: nat, now: nat, t: nat)
    requires lim.Valid() && BytesFit(lim, d, size, now) == true && d.start <= now && !WithinBps(lim, d, size, now)
    requires d.start <= t
    requires Times(lim.bps, t - d.start + lim.Slice()) < U64
    ensures now + BpsWait(lim, d, size, now) < t ==> WithinBps(lim, d, size, t)
    ensures EarlyForBytes(lim, d, now + BpsWait(lim, d, size, now), t) ==> !WithinBps(lim, d, size, t)
  {
    BytesWait(lim, d, size, now);
    CoveredInTime(lim, d, size, now + BpsWait(lim, d, size, now), t);
  }

  lemma CoveredInTime(lim: Limits, d: Dir, size: nat, due: nat, t: nat)
    requires lim.Valid() && d.start < due && JustCovers(lim, d.bytes + size, due - d.start) && d.bytes + size < U64
    requires d.start <= t && Times(lim.bps, t - d.start + lim.Slice()) < U64
    ensures due < t ==> WithinBps(lim, d, size, t)
    ensures EarlyForBytes(lim, d, due, t) ==> !WithinBps(lim, d, size, t)
  {
    EnoughForBytes(lim, d, size, t);
    if due < t {
      TimesLe(lim.bps, due - d.start + 1, ElapsedRounded(lim, d, t));
    }
  }

  /** The slice after a check, seen from the slice before it. */
  lemma Later(lim: Limits, d: Dir, size: nat, now: nat, v: Verdict, r: Dir, t: nat)
    requires lim.Valid() && !lim.NoRule() && r == Renewed(lim, d, now) && v == MayDispatch(lim, d, size, now)
    requires now <= t <= now + v.wait
    ensures v.dir == r.(end := v.dir.end) && r.start <= now && !SliceUsed(v.dir, t)
    ensures Renewed(lim, v.dir, t) == r.(end := Renewed(lim, v.dir, t).end)
    ensures WithinBps(lim, Renewed(lim, v.dir, t), size, t) == WithinBps(lim, r, size, t)
    ensures WithinIops(lim, Renewed(lim, v.dir, t), t) == WithinIops(lim, r, t)
  {
    WaitsInSlice(lim, d, size, now);
    StaysInSlice(lim, v.dir, t);
    EndIsIdle(lim, r, Renewed(lim, v.dir, t), size, t);
  }

  /** A refused bio is told the wait for its bytes. */
  lemma ToldForBytes(lim: Limits, d: Dir, size: nat, now: nat, r: Dir, v: Verdict)
    requires lim.Valid() && !lim.NoRule() && r == Renewed(lim, d, now) && v == MayDispatch(lim, d, size, now)
    requires r.start <= now && BytesFit(lim, r, size, now) == true && !WithinBps(lim, r, size, now)
    ensures v.wait == BpsWait(lim, r, size, now) && v.wait >= 1
  {
    BytesWait(lim, r, size, now);
  }

  /**
   A bio refused for its bytes and checked again when its wait is over is within the byte limit then, or, checked once
   more when the second wait is over, at that time; nothing else being sent. The slice lasts until then.
   */
  lemma BytesPassWhenTold(lim: Limits, d: Dir, size: nat, now: nat, v: Verdict, first: nat, v2: Verdict, second: nat)
    requires lim.Valid() && !lim.NoRule() && v == MayDispatch(lim, d, size, now) && first == now + v.wait
    requires v2 == MayDispatch(lim, v.dir, size, first) && second == first + v2.wait
    requires var r := Renewed(lim, d, now);
             && r.start <= now && BytesFit(lim, r, size, now) == true && !WithinBps(lim, r, size, now)
             && BytesFit(lim, r, size, first) == true && Times(lim.bps, second - r.start + lim.Slice()) < U64
    ensures v.wait >= 1 && !SliceUsed(v.dir, first) && !SliceUsed(v2.dir, second)
    ensures WithinBps(lim, v.dir, size, first) || WithinBps(lim, v2.dir, size, second)
  {
    var r := Renewed(lim, d, now);
    ToldForBytes(lim, d, size, now, r, v);
    WaitsInSlice(lim, d, size, now);
    EndIsIdle(lim, r, v.dir, size, first);
    if !WithinBps(lim, r, size, first) {
      Later(lim, d, size, now, v, r, first);
      SecondLasts(lim, r, Renewed(lim, v.dir, first), size, first, v.dir, v2);
      BytesInTime(lim, r, size, now, second);
    }
    WaitsInSlice(lim, v.dir, size, first);
  }

  /** Until then, up to a slice, a jiffy and a byte of rounding, it is over the limit. */
  lemma BytesRefusedUntilTold(lim: Limits, d: Dir, size: nat, now: nat, r: Dir, v: Verdict, t: nat)
    requires lim.Valid() && !lim.NoRule() && r == Renewed(lim, d, now) && v == MayDispatch(lim, d, size, now)
    requires r.start <= now && BytesFit(lim, r, size, now) == true && !WithinBps(lim, r, size, now)
    requires now <= t <= now + v.wait
    requires Times(lim.bps, t - r.start + lim.Slice()) < U64 && EarlyForBytes(lim, r, now + v.wait, t)
    ensures !WithinBps(lim, Renewed(lim, v.dir, t), size, t)
  {
    ToldForBytes(lim, d, size, now, r, v);
    Later(lim, d, size, now, v, r, t);
    BytesInTime(lim, r, size, now, t);
  }

  /** The second check waits at least a jiffy, in the same slice. */
  lemma SecondLasts(lim: Limits, r: Dir, r2: Dir, size: nat, first: nat, d2: Dir, v2: Verdict)
    requires lim.Valid() && !lim.NoRule() && r2 == Renewed(lim, d2, first) && v2 == MayDispatch(lim, d2, size, first)
    requires BytesFit(lim, r, size, first) == true && r.start <= first && !WithinBps(lim, r, size, first)
    requires r2 == r.(end := r2.end)
    ensures v2.wait >= 1
    ensures var second := first + v2.wait;
            v2.dir.start <= second && WithinBps(lim, v2.dir, size, second) == WithinBps(lim, r, size, second)
  {
    var second := first + v2.wait;
    EndIsIdle(lim, r, r2, size, first);
    BytesWait(lim, r, size, first);
    SameWait(lim, r, r2, size, first);
    WaitsInSlice(lim, d2, size, first);
    EndIsIdle(lim, r, v2.dir, size, second);
  }

  lemma SameWait(lim: Limits, d: Dir, e: Dir, size: nat, now: nat)
    requires lim.Valid() && d.start <= now && e == d.(end := e.end)
    ensures BpsWait(lim, e, size, now) == BpsWait(lim, d, size, now)
  {
  }

  // ---------------------------------------------------------------- ios

  /** Products and sums in the check for ios at `now` do not wrap around. */
  predicate IosFit(lim: Limits, d: Dir, now: nat)
    requires lim.Valid()
  {
    && d.start <= now && d.ios + 1 < U32 && Times(d.ios + 1, lim.hz) < U32
    && Quot(Times(d.ios + 1, lim.hz), lim.iops) + 1 < U32 && Times(lim.iops, now - d.start + lim.Slice()) < U64
  }

  lemma EnoughForIos(lim: Limits, d: Dir, now: nat)
    requires lim.Valid() && d.start <= now && d.ios + 1 < U32
    requires Times(lim.iops, now - d.start + lim.Slice()) < U64
    ensures WithinIops(lim, d, now) <==> Times(d.ios + 1, lim.hz) <= Times(lim.iops, ElapsedRounded(lim, d, now))
  {
    var rounded := ElapsedRounded(lim, d, now);
    RoundedBound(lim, d, now);
    TimesLe(lim.iops, rounded, now - d.start + lim.Slice());
    TimesIs(d.ios + 1, lim.hz);
    LeQuot(d.ios + 1, Times(lim.iops, rounded), lim.hz);
  }

  /** The time at which the ios counted and one more are within the rate, and its jiffy before the last. */
  lemma IosTake(lim: Limits, x: nat, j: nat)
    requires lim.Valid() && j == Quot(x, lim.iops) + 1
    ensures x < Times(lim.iops, j) && Times(lim.iops, j - 1) <= x
  {
    QuotBounds(x, lim.iops);
    TimesIs(lim.iops, j);
    TimesIs(lim.iops, j - 1);
    assert lim.iops * j == (j - 1) * lim.iops + lim.iops;
  }

  /** The time up to `t`, rounded up, falls short of that up to `due` by two jiffies or more. */
  predicate EarlyForIos(lim: Limits, d: Dir, due: nat, t: nat)
    requires lim.Valid() && d.start <= t
  {
    d.start + ElapsedRounded(lim, d, t) + 2 <= due
  }

  /** What the wait for ios is, when nothing wraps around. */
  lemma IosWait(lim: Limits, d: Dir, now: nat, j: nat)
    requires lim.Valid() && IosFit(lim, d, now) && !WithinIops(lim, d, now)
    requires j == Quot(Times(d.ios + 1, lim.hz), lim.iops) + 1
    ensures IopsWait(lim, d, now) >= 1 && now - d.start + IopsWait(lim, d, now) == j
  {
    IosTake(lim, Times(d.ios + 1, lim.hz), j);
    EnoughForIos(lim, d, now);
    if j <= now - d.start {
      TimesLe(lim.iops, j, ElapsedRounded(lim, d, now));
    }
  }

  /** A bio over the io limit is within it after `j` jiffies of the slice, and over it until two jiffies before. */
  lemma IosInTime(lim: Limits, d: Dir, t: nat, j: nat)
    requires lim.Valid() && j == Quot(Times(d.ios + 1, lim.hz), lim.iops) + 1 && d.start <= t && d.ios + 1 < U32
    requires Times(lim.iops, t - d.start + lim.Slice()) < U64
    ensures d.start + j <= t ==> WithinIops(lim, d, t)
    ensures EarlyForIos(lim, d, d.start + j, t) ==> !WithinIops(lim, d, t)
  {
    IosTake(lim, Times(d.ios + 1, lim.hz), j);
    EnoughForIos(lim, d, t);
    var rounded := ElapsedRounded(lim, d, t);
    if d.start + j <= t {
      TimesLe(lim.iops, j, rounded);
    }
    if rounded + 2 <= j {
      TimesLe(lim.iops, rounded + 1, j - 1);
      TimesPlus(lim.iops, rounded, 1);
      TimesIs(lim.iops, 1);
    }
  }

  /**
   A bio refused for the number of ios and checked again when its wait is over is within the io limit; until then, up
   to a slice and two jiffies of rounding, it is over it.
   */
  lemma IosPassWhenTold(lim: Limits, d: Dir, size: nat, now: nat, r: Dir, v: Verdict, t: nat)
    requires lim.Valid() && !lim.NoRule() && r == Renewed(lim, d, now) && v == MayDispatch(lim, d, size, now)
    requires r.start <= now && WithinBps(lim, r, size, now) && IosFit(lim, r, now) == true && !WithinIops(lim, r, now)
    requires now <= t <= now + v.wait && r.ios + 1 < U32 && Times(lim.iops, t - r.start + lim.Slice()) < U64
    ensures v.wait >= 1
    ensures t == now + v.wait ==> WithinIops(lim, Renewed(lim, v.dir, t), t)
    ensures EarlyForIos(lim, r, now + v.wait, t) ==> !WithinIops(lim, Renewed(lim, v.dir, t), t)
  {
    var j := Quot(Times(r.ios + 1, lim.hz), lim.iops) + 1;
    IosWait(lim, r, now, j);
    IosInTime(lim, r, t, j);
    Later(lim, d, size, now, v, r, t);
  }

  // ---------------------------------------------------------------- a group that goes idle

  /** After a bio has gone and the slice was trimmed at `t`, the slice is used up two slice lengths later. */
  lemma IdleStartsAnew(lim: Limits, d: Dir, op: Op, since: nat, now: nat)
    requires lim.Valid() && !lim.NoRule() && Fit(lim, d, since) && OpOk(lim, d, op, since) && op.Send?
    requires op.trimAt + 2 * lim.Slice() <= now
    ensures SliceUsed(After(lim, d, op), now) && Restarts(lim, After(lim, d, op), now)
  {
    RestartsWhenUsed(lim, d, op, since, now);
    RestartsWhen(lim, After(lim, d, op), now);
  }

  lemma RestartsWhenUsed(lim: Limits, d: Dir, op: Op, since: nat, now: nat)
    requires lim.Valid() && !lim.NoRule() && Fit(lim, d, since) && OpOk(lim, d, op, since) && op.Send?
    requires op.trimAt + 2 * lim.Slice() <= now
    ensures SliceUsed(After(lim, d, op), now)
  {
    var c := Charged(MayDispatch(lim, d, op.size, op.now).dir, op.size);
    CheckDir(lim, d, op.size, op.now, since, d.start);
    if !SliceUsed(c, op.trimAt) {
      assert Trimmed(lim, c, op.trimAt).end == RoundUp(op.trimAt + lim.Slice(), lim.Slice());
    }
  }
}
