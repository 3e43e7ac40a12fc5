/**
 When a bio passes: exactly, in plain arithmetic, and at the latest, so that a group gets the rate it is limited to.
 The rate bounds say that it gets no more.
 */
module ThrottlePass {
  import opened ThrottleModel
  import opened ThrottleRate
  import opened ThrottleProgress

  // ---------------------------------------------------------------- exactly

  /** Comparing with a quotient is comparing with the product. */
  lemma LeQuot(x: nat, y: nat, hz: nat)
    requires hz > 0
    ensures x <= Quot(y, hz) <==> x * hz <= y
  {
    QuotBounds(y, hz);
    if x <= Quot(y, hz) {
      MulLe(hz, x, Quot(y, hz));
    } else {
      MulLe(hz, Quot(y, hz) + 1, x);
    }
  }

  /** `k` slices are the time since the slice began, rounded up, and at least one. */
  predicate Rounds(lim: Limits, elapsed: nat, k: nat) {
    k >= 1 && elapsed <= k * lim.Slice() && (k == 1 || (k - 1) * lim.Slice() < elapsed)
  }

  lemma RoundedIs(lim: Limits, d: Dir, now: nat, k: nat)
    requires lim.Valid() && d.start <= now && Rounds(lim, now - d.start, k)
    ensures ElapsedRounded(lim, d, now) == k * lim.Slice()
  {
    var s := lim.Slice();
    var x := if now == d.start then s else now - d.start;
    assert (k - 1) * s == k * s - s;
    QuotIs(x + (s - 1), s, k);
    TimesIs(k, s);
  }

  lemma BytesExactly(lim: Limits, d: Dir, size: nat, now: nat, k: nat)
    requires lim.Valid() && d.start <= now && Rounds(lim, now - d.start, k)
    ensures WithinBps(lim, d, size, now) <==>
            Wrap(d.bytes + size, U64) * lim.hz <= Wrap(lim.bps * (k * lim.Slice()), U64)
  {
    RoundedIs(lim, d, now, k);
    TimesIs(lim.bps, k * lim.Slice());
    LeQuot(Wrap(d.bytes + size, U64), Wrap(lim.bps * (k * lim.Slice()), U64), lim.hz);
  }

  lemma IosExactly(lim: Limits, d: Dir, now: nat, k: nat)
    requires lim.Valid() && d.start <= now && Rounds(lim, now - d.start, k)
    ensures WithinIops(lim, d, now) <==> Wrap(d.ios + 1, U32) * lim.hz <= Wrap(lim.iops * (k * lim.Slice()), U64)
  {
    RoundedIs(lim, d, now, k);
    TimesIs(lim.iops, k * lim.Slice());
    LeQuot(Wrap(d.ios + 1, U32), Wrap(lim.iops * (k * lim.Slice()), U64), lim.hz);
  }

  /**
   A bio passes if and only if its bytes and those counted in the slice, and one more io than counted, are within the
   limits for `k` slices, counters and products taken modulo 2^64 and 2^32; a slice that is used up counts from 0.
   */
  lemma PassesExactly(lim: Limits, d: Dir, size: nat, now: nat, k: nat)
    requires lim.Valid() && !lim.NoRule()
    requires Rounds(lim, if SliceUsed(d, now) then 0 else now - d.start, k)
    ensures var bytes, ios := if SliceUsed(d, now) then 0 else d.bytes, if SliceUsed(d, now) then 0 else d.ios;
            MayDispatch(lim, d, size, now).ok <==>
            && Wrap(bytes + size, U64) * lim.hz <= Wrap(lim.bps * (k * lim.Slice()), U64)
            && Wrap(ios + 1, U32) * lim.hz <= Wrap(lim.iops * (k * lim.Slice()), U64)
  {
    var r := Renewed(lim, d, now);
    BytesExactly(lim, r, size, now, k);
    IosExactly(lim, r, now, k);
  }

  /** A side lets everything pass unseen exactly when neither bytes nor ios are limited. */
  lemma UnlimitedPasses(lim: Limits)
    requires lim.Valid()
    ensures (lim.bps == UNLIMITED_BPS && lim.iops == UNLIMITED_IOPS) <==>
            forall d: Dir, size: nat, now: nat :: MayDispatch(lim, d, size, now) == Verdict(true, 0, d)
  {
    if lim.bps != UNLIMITED_BPS || lim.iops != UNLIMITED_IOPS {
      assert MayDispatch(lim, Dir(0, 0, 1, 1), 0, 0).dir.start == 0;
    }
  }

  // ---------------------------------------------------------------- how far the io counter is ahead

  /** The ios counted are those of the time since the slice began and one slice more, up to rounding. */
  ghost predicate IoLag(lim: Limits, d: Dir, t: nat) {
    d.start <= t && Times(d.ios, lim.hz) <= Times(lim.iops, t - d.start + lim.Slice()) + lim.hz
  }

  /** The 32-bit product of throtl_trim_slice at `t` does not wrap around. */
  predicate TrimFits(lim: Limits, d: Dir, t: nat)
    requires lim.Valid()
  {
    d.start <= t ==> Times(Times(lim.iops, lim.Slice()), TrimmedSlices(lim, d, t)) < U32
  }

  lemma IoTrimEnough(lim: Limits, n: nat)
    requires lim.Valid() && Times(Times(lim.iops, lim.Slice()), n) < U32
    ensures Times(lim.iops, Times(n, lim.Slice())) < Times(IoTrim(lim, n), lim.hz) + lim.hz
  {
    TimesSwap(lim.iops, lim.Slice(), n);
    var x := Times(Times(lim.iops, lim.Slice()), n);
    QuotBounds(x, lim.hz);
    TimesIs(Quot(x, lim.hz), lim.hz);
  }

  lemma CutIoLag(lim: Limits, d: Dir, t: nat, n: nat, cut: nat)
    requires lim.Valid() && d.start + cut <= t && cut == Times(n, lim.Slice())
    requires Times(Times(lim.iops, lim.Slice()), n) < U32
    requires Times(d.ios, lim.hz) <= Times(lim.iops, t - d.start + lim.Slice())
    ensures Times(MinusOrZero(d.ios, IoTrim(lim, n)), lim.hz) <=
            Times(lim.iops, t - (d.start + cut) + lim.Slice()) + lim.hz
  {
    var all := t - d.start + lim.Slice();
    IoTrimEnough(lim, n);
    TimesPlus(lim.iops, all - cut, cut);
    LessTrimmed(d.ios, IoTrim(lim, n), lim.hz, Times(lim.iops, all), Times(lim.iops, cut));
  }

  lemma TrimIoLag(lim: Limits, d: Dir, t: nat)
    requires lim.Valid() && d.start <= t && TrimFits(lim, d, t)
    requires Times(d.ios, lim.hz) <= Times(lim.iops, t - d.start + lim.Slice())
    ensures IoLag(lim, Trimmed(lim, d, t), t)
  {
    var n := TrimmedSlices(lim, d, t);
    SlicesWithin(lim, d, t);
    CutIoLag(lim, d, t, n, Times(n, lim.Slice()));
  }

  lemma IoLagLater(lim: Limits, d: Dir, t: nat, t': nat)
    requires IoLag(lim, d, t) && t <= t'
    ensures IoLag(lim, d, t')
  {
    TimesLe(lim.iops, t - d.start + lim.Slice(), t' - d.start + lim.Slice());
  }

  lemma FreshIoLag(lim: Limits, d: Dir, t: nat)
    requires d.ios == 0 && d.start <= t
    ensures IoLag(lim, d, t)
  {
    assert Times(0, lim.hz) == 0;
  }

  lemma LookIoLag(lim: Limits, d: Dir, size: nat, now: nat, t: nat)
    requires lim.Valid() && !lim.NoRule() && Fit(lim, d, t) && IoLag(lim, d, t) && t <= now
    ensures IoLag(lim, MayDispatch(lim, d, size, now).dir, now)
  {
    CheckDir(lim, d, size, now, t, d.start);
    IoLagLater(lim, d, t, now);
    assert Times(0, lim.hz) == 0;
  }

  /** A bio that is charged is within the rate of the time since the slice began and one slice more. */
  lemma ChargedIos(lim: Limits, d: Dir, size: nat, now: nat)
    requires lim.Valid() && d.start <= now && WithinIops(lim, d, now) && d.ios < U32
    ensures Times(Charged(d, size).ios, lim.hz) <= Times(lim.iops, now - d.start + lim.Slice())
  {
    if d.ios + 1 < U32 {
      WithinIopsMeans(lim, d, now);
    } else {
      assert U32 % U32 == 0;
      assert Times(0, lim.hz) == 0;
    }
  }

  lemma SendIoLag(lim: Limits, d: Dir, op: Op, t: nat)
    requires lim.Valid() && !lim.NoRule() && Fit(lim, d, t) && op.Send? && OpOk(lim, d, op, t)
    requires TrimFits(lim, MayDispatch(lim, d, op.size, op.now).dir, op.trimAt)
    ensures IoLag(lim, After(lim, d, op), OpEnd(op))
  {
    var m := MayDispatch(lim, d, op.size, op.now).dir;
    CheckDir(lim, d, op.size, op.now, t, d.start);
    ChargedIos(lim, m, op.size, op.now);
    var c := Charged(m, op.size);
    TimesLe(lim.iops, op.now - m.start + lim.Slice(), op.trimAt - m.start + lim.Slice());
    TrimIoLag(lim, c, op.trimAt);
  }

  lemma OpIoLag(lim: Limits, d: Dir, op: Op, t: nat)
    requires lim.Valid() && !lim.NoRule() && Fit(lim, d, t) == true && IoLag(lim, d, t) == true
    requires OpOk(lim, d, op, t) == true
    requires op.Send? ==> TrimFits(lim, MayDispatch(lim, d, op.size, op.now).dir, op.trimAt) == true
    ensures IoLag(lim, After(lim, d, op), OpEnd(op)) == true
  {
    if op.Send? {
      SendIoLag(lim, d, op, t);
    } else {
      LookIoLag(lim, d, op.size, op.now, t);
    }
  }

  /** No trim of a history wraps around. */
  ghost predicate TrimsFit(lim: Limits, d: Dir, ops: seq<Op>)
    requires lim.Valid()
  {
    ops != [] ==>
      var before, op := ops[..|ops| - 1], ops[|ops| - 1];
      && TrimsFit(lim, d, before)
      && (op.Send? ==> TrimFits(lim, MayDispatch(lim, Replay(lim, d, before), op.size, op.now).dir, op.trimAt))
  }

  lemma FirstIoLag(lim: Limits, op: Op)
    requires lim.Valid() && !lim.NoRule() && OpOk(lim, IDLE, op, 0)
    requires op.Send? ==> TrimFits(lim, MayDispatch(lim, IDLE, op.size, op.now).dir, op.trimAt)
    ensures IoLag(lim, After(lim, IDLE, op), OpEnd(op)) == true
  {
    var d := NewSlice(lim, op.now);
    RestartsWhen(lim, IDLE, op.now);
    RestartForgets(lim, IDLE, op, 0);
    assert MayDispatch(lim, IDLE, op.size, op.now) == MayDispatch(lim, d, op.size, op.now);
    NewSliceFit(lim, op.now);
    FreshIoLag(lim, d, op.now);
    OpIoLag(lim, d, op, op.now);
  }

  /**
   While no 32-bit product of a trim wraps around, the ios counted on a side never exceed those of the time since its
   slice began and one slice more, but for one io of rounding, over every history from creation.
   */
  lemma {:induction false} IoSideLag(lim: Limits, ops: seq<Op>)
    requires lim.Valid() && !lim.NoRule() && History(lim, IDLE, ops, 0) == true && TrimsFit(lim, IDLE, ops) == true
    ensures IoLag(lim, Replay(lim, IDLE, ops), EndTime(ops, 0)) == true
  {
    if ops == [] {
      FreshIoLag(lim, IDLE, 0);
    } else {
      var before, op := ops[..|ops| - 1], ops[|ops| - 1];
      LastOp(lim, IDLE, ops, 0, before, op);
      LastTrim(lim, ops, before, op);
      if before == [] {
        FirstIoLag(lim, op);
      } else {
        IoSideLag(lim, before);
        HistoryFit(lim, before);
        OpIoLag(lim, Replay(lim, IDLE, before), op, EndTime(before, 0));
      }
    }
  }

  lemma LastTrim(lim: Limits, ops: seq<Op>, before: seq<Op>, op: Op)
    requires lim.Valid() && TrimsFit(lim, IDLE, ops) && ops != [] && before == ops[..|ops| - 1] && op == ops[|ops| - 1]
    ensures TrimsFit(lim, IDLE, before) == true
    ensures op.Send? ==>
              TrimFits(lim, MayDispatch(lim, Replay(lim, IDLE, before), op.size, op.now).dir, op.trimAt) == true
  {
  }

  // ---------------------------------------------------------------- at the latest

  lemma PassesIos(lim: Limits, d: Dir, t: nat, now: nat)
    requires lim.Valid() && IoLag(lim, d, t) && t + lim.Slice() <= now && d.ios + 1 < U32
    requires 2 * lim.hz <= Times(lim.iops, now - t - lim.Slice())
    requires Times(lim.iops, now - d.start + lim.Slice()) < U64
    ensures WithinIops(lim, d, now)
  {
    var s := lim.Slice();
    var rounded := ElapsedRounded(lim, d, now);
    RoundedBound(lim, d, now);
    TimesPlus(lim.iops, t - d.start + s, now - t - s);
    assert t - d.start + s + (now - t - s) == now - d.start;
    TimesLe(lim.iops, now - d.start, rounded);
    TimesLe(lim.iops, rounded, now - d.start + s);
    PlusTimes(d.ios, 1, lim.hz);
    TimesIs(1, lim.hz);
    TimesIs(d.ios + 1, lim.hz);
    LeQuot(d.ios + 1, Times(lim.iops, rounded), lim.hz);
  }

  lemma PassesBytes(lim: Limits, d: Dir, size: nat, t: nat, now: nat)
    requires lim.Valid() && Lag(lim, d, t) && t + lim.Slice() <= now && d.bytes + size < U64
    requires Times(size + 1, lim.hz) <= Times(lim.bps, now - t - lim.Slice())
    requires Times(lim.bps, now - d.start + lim.Slice()) < U64
    ensures WithinBps(lim, d, size, now)
  {
    var s := lim.Slice();
    var rounded := ElapsedRounded(lim, d, now);
    RoundedBound(lim, d, now);
    TimesPlus(lim.bps, t - d.start + s, now - t - s);
    assert t - d.start + s + (now - t - s) == now - d.start;
    TimesLe(lim.bps, now - d.start, rounded);
    TimesLe(lim.bps, rounded, now - d.start + s);
    PlusTimes(d.bytes, size, lim.hz);
    PlusTimes(size, 1, lim.hz);
    TimesIs(1, lim.hz);
    TimesIs(d.bytes + size, lim.hz);
    LeQuot(d.bytes + size, Times(lim.bps, rounded), lim.hz);
  }

  /** The slice of a check within the slice is that of the state before, but for its end. */
  lemma SameSlice(lim: Limits, d: Dir, now: nat)
    requires lim.Valid() && !SliceUsed(d, now)
    ensures Renewed(lim, d, now) == d.(end := Renewed(lim, d, now).end)
  {
  }

  lemma PassesOn(lim: Limits, d: Dir, size: nat, t: nat, now: nat)
    requires lim.Valid() && !lim.NoRule() && Lag(lim, d, t) && IoLag(lim, d, t) && !SliceUsed(d, now)
    requires t + lim.Slice() <= now && d.bytes + size < U64 && d.ios + 1 < U32
    requires Times(size + 1, lim.hz) <= Times(lim.bps, now - t - lim.Slice())
    requires 2 * lim.hz <= Times(lim.iops, now - t - lim.Slice())
    requires Times(lim.bps, now + lim.Slice()) < U64 && Times(lim.iops, now + lim.Slice()) < U64
    ensures MayDispatch(lim, d, size, now).ok
  {
    SameSlice(lim, d, now);
    var r := Renewed(lim, d, now);
    TimesLe(lim.bps, now - d.start + lim.Slice(), now + lim.Slice());
    TimesLe(lim.iops, now - d.start + lim.Slice(), now + lim.Slice());
    PassesBytes(lim, r, size, t, now);
    PassesIos(lim, r, t, now);
  }

  /** What a history from creation leaves, for the check of a bio. */
  lemma LagAfter(lim: Limits, ops: seq<Op>, d: Dir, t: nat, size: nat)
    requires lim.Valid() && !lim.NoRule() && History(lim, IDLE, ops, 0) && TrimsFit(lim, IDLE, ops) && ops != []
    requires d == Replay(lim, IDLE, ops) && t == EndTime(ops, 0) && size < U32 && Times(lim.bps, t + lim.Slice()) < U64
    ensures Lag(lim, d, t) == true && IoLag(lim, d, t) == true && d.bytes + size < U64
  {
    IoSideLag(lim, ops);
    SideLag(lim, ops, t);
    HistoryFit(lim, ops);
    NoByteWrap(d.bytes, lim.hz, size);
  }

  /**
   The throttler does not hold back what the rate allows: after any history of a group from its creation a bio passes,
   while the slice lasts, once a slice and the time that its bytes and one more, and two ios, take at the rates have
   gone by since the last operation. Products must not wrap around, and the io counter must not be full.
   */
  lemma PassesInTime(lim: Limits, ops: seq<Op>, d: Dir, t: nat, size: nat, now: nat)
    requires lim.Valid() && !lim.NoRule() && History(lim, IDLE, ops, 0) == true && TrimsFit(lim, IDLE, ops) == true
    requires ops != [] && d == Replay(lim, IDLE, ops) && t == EndTime(ops, 0)
    requires size < U32 && t + lim.Slice() <= now && !SliceUsed(d, now) && d.ios + 1 < U32
    requires Times(size + 1, lim.hz) <= Times(lim.bps, now - t - lim.Slice())
    requires 2 * lim.hz <= Times(lim.iops, now - t - lim.Slice())
    requires Times(lim.bps, now + lim.Slice()) < U64 && Times(lim.iops, now + lim.Slice()) < U64
    ensures MayDispatch(lim, d, size, now).ok
  {
    TimesLe(lim.bps, t + lim.Slice(), now + lim.Slice());
    LagAfter(lim, ops, d, t, size);
    PassesOn(lim, d, size, t, now);
  }
}
