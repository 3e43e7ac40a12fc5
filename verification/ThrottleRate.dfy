/** The rate bound of the throttler, over every history of one direction. */
module ThrottleRate {
  import opened ThrottleModel

  // ---------------------------------------------------------------- arithmetic

  lemma MulLe(a: nat, x: nat, y: nat)
    requires x <= y
    ensures a * x <= a * y
  {
  }

  lemma Distribute(a: int, x: int, y: int)
    ensures a * (x + y) == a * x + a * y
  {
  }

  lemma QuotIs(x: nat, y: nat, q: nat)
    requires y > 0 && q * y <= x < q * y + y
    ensures Quot(x, y) == q
  {
    QuotBounds(x, y);
    var r := Quot(x, y);
    if r < q {
      MulLe(y, r + 1, q);
    } else if q < r {
      MulLe(y, q + 1, r);
    }
  }

  // ---------------------------------------------------------------- the invariant of a history

  /** `count` things in `time` jiffies do not exceed `rate` per second. */
  ghost predicate WithinRate(count: nat, hz: nat, rate: nat, time: nat) {
    Times(count, hz) <= Times(rate, time)
  }

  /** A count kept per slice: bytes with bps, or ios with iops. */
  ghost predicate Account(rate: nat, hz: nat, slice: nat, count: nat, start: nat, sent: nat, since: nat, last: nat) {
    && since <= start && since <= last
    && Times(sent, hz) <= Times(count, hz) + Times(rate, start - since)
    && WithinRate(sent, hz, rate, last - since + slice)
  }

  /** A new slice may begin once a slice length has passed since the last bio was sent. */
  lemma AccountRestart(rate: nat, hz: nat, slice: nat, count: nat, start: nat, sent: nat, since: nat, last: nat,
                       now: nat)
    requires Account(rate, hz, slice, count, start, sent, since, last) && last + slice <= now
    ensures Account(rate, hz, slice, 0, now, sent, since, last)
  {
    TimesLe(rate, last - since + slice, now - since);
  }

  lemma TimesLe(a: nat, x: nat, y: nat)
    requires x <= y
    ensures Times(a, x) <= Times(a, y)
  {
    TimesIs(a, x);
    TimesIs(a, y);
    MulLe(a, x, y);
  }

  lemma TimesPlus(a: nat, x: nat, y: nat)
    ensures Times(a, x + y) == Times(a, x) + Times(a, y)
  {
    TimesIs(a, x);
    TimesIs(a, y);
    TimesIs(a, x + y);
    Distribute(a, x, y);
  }

  lemma PlusTimes(x: nat, y: nat, a: nat)
    ensures Times(x + y, a) == Times(x, a) + Times(y, a)
  {
    TimesIs(x, a);
    TimesIs(y, a);
    TimesIs(x + y, a);
    Distribute(a, x, y);
  }

  lemma AccountSend(rate: nat, hz: nat, slice: nat, count: nat, start: nat, sent: nat, since: nat, last: nat, now: nat,
                    size: nat)
    requires Account(rate, hz, slice, count, start, sent, since, last) && start <= now && last <= now
    requires WithinRate(count + size, hz, rate, now - start + slice)
    ensures Account(rate, hz, slice, count + size, start, sent + size, since, now)
  {
    PlusTimes(sent, size, hz);
    PlusTimes(count, size, hz);
    TimesPlus(rate, now - start + slice, start - since);
  }

  lemma TrimmedTimes(count: nat, trim: nat, hz: nat)
    ensures Times(count, hz) <= Times(MinusOrZero(count, trim), hz) + Times(trim, hz)
  {
    if count >= trim {
      PlusTimes(count - trim, trim, hz);
    } else {
      PlusTimes(count, trim - count, hz);
    }
  }

  lemma AccountTrim(rate: nat, hz: nat, slice: nat, count: nat, start: nat, sent: nat, since: nat, last: nat, cut: nat,
                    trim: nat)
    requires Account(rate, hz, slice, count, start, sent, since, last)
    requires WithinRate(trim, hz, rate, cut)
    ensures Account(rate, hz, slice, MinusOrZero(count, trim), start + cut, sent, since, last)
  {
    TimesPlus(rate, start - since, cut);
    TrimmedTimes(count, trim, hz);
    assert start + cut - since == start - since + cut;
  }

  // ---------------------------------------------------------------- bytes

  /** What holds of a direction after a history that began with a fresh slice at `since`. */
  ghost predicate DirInv(lim: Limits, d: Dir, end: nat, last: nat)
    requires lim.Valid()
  {
    && d.start <= d.end && d.start <= end && last <= end
    && last + lim.Slice() <= d.end
    && Times(d.bytes, lim.hz) < U64 && d.ios < U32
  }

  lemma RenewedInv(lim: Limits, d: Dir, end: nat, last: nat, now: nat)
    requires lim.Valid() && DirInv(lim, d, end, last) && end <= now
    ensures var r := Renewed(lim, d, now);
            && DirInv(lim, r, now, last) && now + lim.Slice() <= r.end
            && (r.start != d.start ==> last + lim.Slice() <= now && r == NewSlice(lim, now))
            && (r.start == d.start && !SliceUsed(d, now) ==> r.bytes == d.bytes && r.ios == d.ios)
            && (SliceUsed(d, now) ==> last + lim.Slice() <= now && r == NewSlice(lim, now))
  {
  }

  lemma OneSlice(s: nat)
    requires s > 0
    ensures RoundUp(s, s) == s
  {
    assert Quot(s - 1, s) == 0;
    assert Quot(s + (s - 1), s) == 1 + Quot(s - 1, s);
    TimesIs(1, s);
  }

  lemma RoundedBound(lim: Limits, d: Dir, now: nat)
    requires lim.Valid() && d.start <= now
    ensures ElapsedRounded(lim, d, now) <= now - d.start + lim.Slice()
  {
    var s := lim.Slice();
    if now == d.start {
      OneSlice(s);
    }
  }

  /** Wrapping a product before dividing it can only lower the quotient. */
  lemma QuotWrapLe(x: nat, w: nat, hz: nat)
    requires w > 0 && hz > 0
    ensures Times(Quot(Wrap(x, w), hz), hz) <= x && Times(Quot(Wrap(x, w), hz), hz) < w
  {
    QuotBounds(Wrap(x, w), hz);
    TimesIs(Quot(Wrap(x, w), hz), hz);
  }

  lemma BudgetBound(x: nat, allowed: nat, rate: nat, rounded: nat, hz: nat, time: nat)
    requires x <= allowed && Times(allowed, hz) <= Times(rate, rounded) && rounded <= time
    ensures Times(x, hz) <= Times(allowed, hz) && WithinRate(x, hz, rate, time)
  {
    PlusTimes(x, allowed - x, hz);
    TimesLe(rate, rounded, time);
  }

  lemma NoByteWrap(bytes: nat, hz: nat, size: nat)
    requires Times(bytes, hz) < U64 && 10 <= hz && size < U32
    ensures bytes + size < U64
  {
    TimesIs(bytes, hz);
    MulLe(bytes, 10, hz);
  }

  /** A bio let through fits the budget of the time since the slice began, and does not wrap the counter. */
  lemma WithinBpsMeans(lim: Limits, d: Dir, size: nat, now: nat)
    requires lim.Valid() && d.start <= now && Times(d.bytes, lim.hz) < U64 && size < U32
    requires WithinBps(lim, d, size, now)
    ensures Wrap(d.bytes + size, U64) == d.bytes + size
    ensures WithinRate(d.bytes + size, lim.hz, lim.bps, now - d.start + lim.Slice())
    ensures Times(d.bytes + size, lim.hz) < U64
  {
    NoByteWrap(d.bytes, lim.hz, size);
    QuotWrapLe(Times(lim.bps, ElapsedRounded(lim, d, now)), U64, lim.hz);
    RoundedBound(lim, d, now);
    BudgetBound(d.bytes + size, BytesAllowed(lim, d, now), lim.bps, ElapsedRounded(lim, d, now), lim.hz,
                now - d.start + lim.Slice());
  }

  lemma WithinIopsMeans(lim: Limits, d: Dir, now: nat)
    requires lim.Valid() && d.start <= now && d.ios + 1 < U32
    requires WithinIops(lim, d, now)
    ensures WithinRate(d.ios + 1, lim.hz, lim.iops, now - d.start + lim.Slice())
  {
    var rounded := ElapsedRounded(lim, d, now);
    QuotWrapLe(Times(lim.iops, rounded), U64, lim.hz);
    RoundedBound(lim, d, now);
    BudgetBound(d.ios + 1, Quot(Wrap(Times(lim.iops, rounded), U64), lim.hz), lim.iops, rounded, lim.hz,
                now - d.start + lim.Slice());
  }

  // ---------------------------------------------------------------- one operation

  ghost predicate ByteAcc(lim: Limits, d: Dir, sent: nat, since: nat, last: nat) {
    Account(lim.bps, lim.hz, lim.Slice(), d.bytes, d.start, sent, since, last)
  }

  ghost predicate IoAcc(lim: Limits, d: Dir, sent: nat, since: nat, last: nat) {
    Account(lim.iops, lim.hz, lim.Slice(), d.ios, d.start, sent, since, last)
  }

  /** tg_may_dispatch keeps the slice sound, and its counters unless it restarts the slice. */
  lemma CheckDir(lim: Limits, d: Dir, size: nat, now: nat, end: nat, last: nat)
    requires lim.Valid() && !lim.NoRule() && DirInv(lim, d, end, last) && end <= now
    ensures var v := MayDispatch(lim, d, size, now);
            && DirInv(lim, v.dir, now, last) && now + lim.Slice() <= v.dir.end
            && (SliceUsed(d, now) ==> v.dir.start == now && v.dir.bytes == v.dir.ios == 0 && last + lim.Slice() <= now)
            && (!SliceUsed(d, now) ==> v.dir == d.(end := v.dir.end))
            && (v.ok ==> WithinBps(lim, v.dir, size, now) && WithinIops(lim, v.dir, now))
  {
    RenewedInv(lim, d, end, last, now);
  }

  lemma CheckAcc(lim: Limits, d: Dir, size: nat, now: nat, end: nat, last: nat, sent: nat, ios: nat, since: nat)
    requires lim.Valid() && !lim.NoRule() && DirInv(lim, d, end, last) && end <= now
    ensures ByteAcc(lim, d, sent, since, last) ==> ByteAcc(lim, MayDispatch(lim, d, size, now).dir, sent, since, last)
    ensures IoAcc(lim, d, ios, since, last) ==> IoAcc(lim, MayDispatch(lim, d, size, now).dir, ios, since, last)
  {
    CheckDir(lim, d, size, now, end, last);
    if SliceUsed(d, now) {
      if ByteAcc(lim, d, sent, since, last) {
        AccountRestart(lim.bps, lim.hz, lim.Slice(), d.bytes, d.start, sent, since, last, now);
      }
      if IoAcc(lim, d, ios, since, last) {
        AccountRestart(lim.iops, lim.hz, lim.Slice(), d.ios, d.start, ios, since, last, now);
      }
    }
  }

  lemma {:induction false} Regroup(a: nat, b: nat, n: nat)
    ensures a * b * n == a * (n * b)
    decreases a
  {
    if a > 0 {
      Regroup(a - 1, b, n);
      assert a * b == (a - 1) * b + b;
      Distribute(n, (a - 1) * b, b);
    }
  }

  lemma TimesSwap(a: nat, b: nat, n: nat)
    ensures Times(Times(a, b), n) == Times(a, Times(n, b))
  {
    TimesIs(a, b);
    TimesIs(n, b);
    TimesIs(a * b, n);
    TimesIs(a, n * b);
    Regroup(a, b, n);
  }

  lemma BytesTrimLe(lim: Limits, n: nat)
    requires lim.Valid()
    ensures WithinRate(BytesTrim(lim, n), lim.hz, lim.bps, Times(n, lim.Slice()))
  {
    QuotWrapLe(Times(Times(lim.bps, lim.Slice()), n), U64, lim.hz);
    TimesSwap(lim.bps, lim.Slice(), n);
  }

  lemma IoTrimLe(lim: Limits, n: nat)
    requires lim.Valid()
    ensures WithinRate(IoTrim(lim, n), lim.hz, lim.iops, Times(n, lim.Slice()))
  {
    QuotWrapLe(Times(Times(lim.iops, lim.Slice()), n), U32, lim.hz);
    TimesSwap(lim.iops, lim.Slice(), n);
  }

  lemma TrimShape(lim: Limits, d: Dir, now: nat)
    requires lim.Valid() && !SliceUsed(d, now)
    ensures var t := Trimmed(lim, d, now);
            t.bytes <= d.bytes && t.ios <= d.ios && t.start <= now && now + lim.Slice() <= t.end
  {
    var n := TrimmedSlices(lim, d, now);
    var bytes, ios := BytesTrim(lim, n), IoTrim(lim, n);
    QuotBounds(now - d.start, lim.Slice());
    TimesIs(n, lim.Slice());
    assert n * lim.Slice() <= now - d.start;
    if n == 0 || (bytes == 0 && ios == 0) {
      assert Trimmed(lim, d, now) == Extended(lim, d, now + lim.Slice());
    }
  }

  lemma DirShrinks(lim: Limits, d: Dir, t: Dir, end: nat, last: nat, now: nat)
    requires lim.Valid() && DirInv(lim, d, end, last) && end <= now
    requires t.bytes <= d.bytes && t.ios <= d.ios && t.start <= now && now + lim.Slice() <= t.end
    ensures DirInv(lim, t, now, last)
  {
    PlusTimes(t.bytes, d.bytes - t.bytes, lim.hz);
  }

  lemma TrimDir(lim: Limits, d: Dir, end: nat, last: nat, now: nat)
    requires lim.Valid() && DirInv(lim, d, end, last) && end <= now
    ensures DirInv(lim, Trimmed(lim, d, now), now, last)
  {
    if !SliceUsed(d, now) {
      TrimShape(lim, d, now);
      DirShrinks(lim, d, Trimmed(lim, d, now), end, last, now);
    }
  }

  lemma TrimAcc(lim: Limits, d: Dir, now: nat, sent: nat, ios: nat, since: nat, last: nat)
    requires lim.Valid()
    ensures ByteAcc(lim, d, sent, since, last) ==> ByteAcc(lim, Trimmed(lim, d, now), sent, since, last)
    ensures IoAcc(lim, d, ios, since, last) ==> IoAcc(lim, Trimmed(lim, d, now), ios, since, last)
  {
    if !SliceUsed(d, now) {
      var n := TrimmedSlices(lim, d, now);
      BytesTrimLe(lim, n);
      IoTrimLe(lim, n);
      if ByteAcc(lim, d, sent, since, last) {
        AccountTrim(lim.bps, lim.hz, lim.Slice(), d.bytes, d.start, sent, since, last, Times(n, lim.Slice()),
                    BytesTrim(lim, n));
      }
      if IoAcc(lim, d, ios, since, last) {
        AccountTrim(lim.iops, lim.hz, lim.Slice(), d.ios, d.start, ios, since, last, Times(n, lim.Slice()),
                    IoTrim(lim, n));
      }
    }
  }

  // ---------------------------------------------------------------- whole histories

  lemma LookKeeps(lim: Limits, d: Dir, op: Op, end: nat, last: nat, sent: nat, ios: nat, since: nat)
    requires lim.Valid() && !lim.NoRule() && DirInv(lim, d, end, last) && op.Look? && OpOk(lim, d, op, end)
    ensures DirInv(lim, After(lim, d, op), OpEnd(op), last)
    ensures ByteAcc(lim, d, sent, since, last) ==> ByteAcc(lim, After(lim, d, op), sent, since, last)
    ensures IoAcc(lim, d, ios, since, last) ==> IoAcc(lim, After(lim, d, op), ios, since, last)
  {
    CheckDir(lim, d, op.size, op.now, end, last);
    CheckAcc(lim, d, op.size, op.now, end, last, sent, ios, since);
  }

  /** Charging a bio that was let through. */
  lemma ChargeBytes(lim: Limits, d: Dir, size: nat, now: nat, last: nat, sent: nat, since: nat)
    requires lim.Valid() && DirInv(lim, d, now, last) && now + lim.Slice() <= d.end && size < U32
    requires WithinBps(lim, d, size, now)
    ensures DirInv(lim, Charged(d, size), now, now)
    ensures ByteAcc(lim, d, sent, since, last) ==> ByteAcc(lim, Charged(d, size), sent + size, since, now)
  {
    WithinBpsMeans(lim, d, size, now);
    if ByteAcc(lim, d, sent, since, last) {
      AccountSend(lim.bps, lim.hz, lim.Slice(), d.bytes, d.start, sent, since, last, now, size);
    }
  }

  lemma ChargeIos(lim: Limits, d: Dir, size: nat, now: nat, last: nat, ios: nat, since: nat)
    requires lim.Valid() && DirInv(lim, d, now, last)
    requires WithinIops(lim, d, now) && d.ios + 1 < U32 && IoAcc(lim, d, ios, since, last)
    ensures IoAcc(lim, Charged(d, size), ios + 1, since, now)
  {
    WithinIopsMeans(lim, d, now);
    AccountSend(lim.iops, lim.hz, lim.Slice(), d.ios, d.start, ios, since, last, now, 1);
  }

  /** The io counter a bio finds when it is checked. */
  function IosSeen(lim: Limits, d: Dir, op: Op): nat
    requires lim.Valid()
  {
    MayDispatch(lim, d, op.size, op.now).dir.ios
  }

  lemma SendKeeps(lim: Limits, d: Dir, op: Op, end: nat, last: nat, sent: nat, ios: nat, since: nat)
    requires lim.Valid() && !lim.NoRule() && DirInv(lim, d, end, last) && op.Send? && OpOk(lim, d, op, end)
    ensures DirInv(lim, After(lim, d, op), OpEnd(op), op.now)
    ensures ByteAcc(lim, d, sent, since, last) ==> ByteAcc(lim, After(lim, d, op), sent + op.size, since, op.now)
    ensures IoAcc(lim, d, ios, since, last) && IosSeen(lim, d, op) + 1 < U32 ==>
              IoAcc(lim, After(lim, d, op), ios + 1, since, op.now)
  {
    var m := MayDispatch(lim, d, op.size, op.now).dir;
    CheckDir(lim, d, op.size, op.now, end, last);
    CheckAcc(lim, d, op.size, op.now, end, last, sent, ios, since);
    ChargeBytes(lim, m, op.size, op.now, last, sent, since);
    if IoAcc(lim, d, ios, since, last) && m.ios + 1 < U32 {
      ChargeIos(lim, m, op.size, op.now, last, ios, since);
    }
    var c := Charged(m, op.size);
    TrimDir(lim, c, op.now, op.now, op.trimAt);
    TrimAcc(lim, c, op.trimAt, sent + op.size, ios + 1, since, op.now);
  }

  /** When the last bio was sent; the start of the history if none was. */
  function LastSend(ops: seq<Op>, since: nat): nat {
    if ops == [] then since
    else if ops[|ops| - 1].Send? then ops[|ops| - 1].now
    else LastSend(ops[..|ops| - 1], since)
  }

  /** No bio of the history finds the 32-bit io counter at its last value, the one whose successor is 0. */
  ghost predicate NeverFull(lim: Limits, d: Dir, ops: seq<Op>)
    requires lim.Valid()
  {
    ops != [] ==>
      var before, op := ops[..|ops| - 1], ops[|ops| - 1];
      NeverFull(lim, d, before) && (op.Send? ==> IosSeen(lim, Replay(lim, d, before), op) + 1 < U32)
  }

  /**
   What a direction `d` and the history `ops` that led to it, from time `t` on, have to do with each other, counted
   from the slice start `since`; `roomy` says that the io counter was never full.
   */
  ghost predicate Tracks(lim: Limits, d: Dir, ops: seq<Op>, t: nat, since: nat, roomy: bool)
    requires lim.Valid()
  {
    && DirInv(lim, d, EndTime(ops, t), LastSend(ops, since))
    && ByteAcc(lim, d, Bytes(ops), since, LastSend(ops, since))
    && (roomy ==> IoAcc(lim, d, Ios(ops), since, LastSend(ops, since)))
  }

  lemma Counts(ops: seq<Op>, op: Op, t: nat, since: nat)
    ensures Bytes(ops + [op]) == Bytes(ops) + (if op.Send? then op.size else 0)
    ensures Ios(ops + [op]) == Ios(ops) + (if op.Send? then 1 else 0)
    ensures LastSend(ops + [op], since) == if op.Send? then op.now else LastSend(ops, since)
    ensures EndTime(ops + [op], t) == OpEnd(op)
  {
    assert (ops + [op])[..|ops|] == ops;
  }

  lemma TracksStep(lim: Limits, d: Dir, ops: seq<Op>, op: Op, t: nat, since: nat, roomy: bool)
    requires lim.Valid() && !lim.NoRule() && Tracks(lim, d, ops, t, since, roomy) && OpOk(lim, d, op, EndTime(ops, t))
    requires roomy && op.Send? ==> IosSeen(lim, d, op) + 1 < U32
    ensures Tracks(lim, After(lim, d, op), ops + [op], t, since, roomy)
  {
    Counts(ops, op, t, since);
    if op.Send? {
      SendKeeps(lim, d, op, EndTime(ops, t), LastSend(ops, since), Bytes(ops), Ios(ops), since);
    } else {
      LookKeeps(lim, d, op, EndTime(ops, t), LastSend(ops, since), Bytes(ops), Ios(ops), since);
    }
  }

  lemma HistoryLast(lim: Limits, d: Dir, ops: seq<Op>, since: nat)
    requires lim.Valid() && History(lim, d, ops, since) && ops != []
    ensures var before, op := ops[..|ops| - 1], ops[|ops| - 1];
            && History(lim, d, before, since) && OpOk(lim, Replay(lim, d, before), op, EndTime(before, since))
            && Replay(lim, d, ops) == After(lim, Replay(lim, d, before), op)
  {
  }

  /** A direction at time `t` whose slice is at least one slice long and whose counters fit. */
  ghost predicate Fit(lim: Limits, d: Dir, t: nat)
    requires lim.Valid()
  {
    d.start <= t && d.start + lim.Slice() <= d.end && Times(d.bytes, lim.hz) < U64 && d.ios < U32
  }

  lemma {:induction false} HistoryTracks(lim: Limits, d: Dir, ops: seq<Op>, t: nat, roomy: bool)
    requires lim.Valid() && !lim.NoRule() && Fit(lim, d, t) && History(lim, d, ops, t)
    requires roomy ==> NeverFull(lim, d, ops)
    ensures Tracks(lim, Replay(lim, d, ops), ops, t, d.start, roomy)
  {
    if ops != [] {
      var before, op := ops[..|ops| - 1], ops[|ops| - 1];
      HistoryLast(lim, d, ops, t);
      HistoryTracks(lim, d, before, t, roomy);
      assert before + [op] == ops;
      TracksStep(lim, Replay(lim, d, before), before, op, t, d.start, roomy);
    }
  }

  /** `ops` sends bytes at no more than the byte rate over the time from `since` to its last bio plus one slice. */
  ghost predicate BytesBounded(lim: Limits, ops: seq<Op>, since: nat) {
    && since <= LastSend(ops, since) <= EndTime(ops, since)
    && WithinRate(Bytes(ops), lim.hz, lim.bps, LastSend(ops, since) - since + lim.Slice())
  }

  ghost predicate IosBounded(lim: Limits, ops: seq<Op>, since: nat) {
    && since <= LastSend(ops, since) <= EndTime(ops, since)
    && WithinRate(Ios(ops), lim.hz, lim.iops, LastSend(ops, since) - since + lim.Slice())
  }

  /** Both bounds from any fit state on, counted from the start of the slice it is in. */
  lemma BoundFromSliceStart(lim: Limits, d: Dir, ops: seq<Op>, t: nat)
    requires lim.Valid() && !lim.NoRule() && Fit(lim, d, t) && History(lim, d, ops, t)
    ensures BytesBounded(lim, ops, d.start)
    ensures NeverFull(lim, d, ops) ==> IosBounded(lim, ops, d.start)
  {
    if NeverFull(lim, d, ops) {
      HistoryTracks(lim, d, ops, t, true);
      TracksBounded(lim, Replay(lim, d, ops), ops, t, d.start, true);
    } else {
      HistoryTracks(lim, d, ops, t, false);
      TracksBounded(lim, Replay(lim, d, ops), ops, t, d.start, false);
    }
  }

  lemma TracksBounded(lim: Limits, d: Dir, ops: seq<Op>, t: nat, since: nat, roomy: bool)
    requires lim.Valid() && Tracks(lim, d, ops, t, since, roomy)
    ensures BytesBounded(lim, ops, since) && (roomy ==> IosBounded(lim, ops, since))
  {
  }

  lemma NewSliceFit(lim: Limits, now: nat)
    requires lim.Valid()
    ensures Fit(lim, NewSlice(lim, now), now)
  {
    assert Times(0, lim.hz) == 0;
  }

  /**
   From a slice start at `since` on, no history sends more bytes than the rate allows for the time up to its last
   bio plus one slice, whatever mix of checks, charges, trims, extensions and restarts it makes. Nothing is assumed
   about overflow: the 64-bit wraps in the source only ever make the limit stricter.
   */
  lemma RateBound(lim: Limits, ops: seq<Op>, since: nat)
    requires lim.Valid() && !lim.NoRule() && History(lim, NewSlice(lim, since), ops, since)
    ensures BytesBounded(lim, ops, since)
  {
    NewSliceFit(lim, since);
    BoundFromSliceStart(lim, NewSlice(lim, since), ops, since);
  }

  /** The same bound for the number of bios, over every history in which no bio finds the 32-bit counter full. */
  lemma IopsBound(lim: Limits, ops: seq<Op>, since: nat)
    requires lim.Valid() && !lim.NoRule() && History(lim, NewSlice(lim, since), ops, since)
    requires NeverFull(lim, NewSlice(lim, since), ops)
    ensures IosBounded(lim, ops, since)
  {
    NewSliceFit(lim, since);
    BoundFromSliceStart(lim, NewSlice(lim, since), ops, since);
  }

  // ---------------------------------------------------------------- when the io counter is full

  lemma IosSeenLe(lim: Limits, d: Dir, op: Op)
    requires lim.Valid()
    ensures IosSeen(lim, d, op) <= d.ios && After(lim, d, op).ios <= d.ios + if op.Send? then 1 else 0
  {
  }

  lemma {:induction false} CountedIos(lim: Limits, d: Dir, ops: seq<Op>)
    requires lim.Valid()
    ensures Replay(lim, d, ops).ios <= d.ios + Ios(ops)
  {
    if ops != [] {
      var before, op := ops[..|ops| - 1], ops[|ops| - 1];
      CountedIos(lim, d, before);
      IosSeenLe(lim, Replay(lim, d, before), op);
    }
  }

  /** It takes 2^32 bios to find it full. */
  lemma {:induction false} FewIosFit(lim: Limits, d: Dir, ops: seq<Op>)
    requires lim.Valid() && d.ios + Ios(ops) < U32
    ensures NeverFull(lim, d, ops)
  {
    if ops != [] {
      var before, op := ops[..|ops| - 1], ops[|ops| - 1];
      FewIosFit(lim, d, before);
      CountedIos(lim, d, before);
      IosSeenLe(lim, Replay(lim, d, before), op);
    }
  }

  /** The counter does not fill before the rate itself has allowed that many bios. */
  lemma {:induction false} IosFitCounter(lim: Limits, ops: seq<Op>, since: nat, horizon: nat)
    requires lim.Valid() && !lim.NoRule() && History(lim, NewSlice(lim, since), ops, since)
    requires since <= EndTime(ops, since) <= horizon
    requires !WithinRate(U32 - 1, lim.hz, lim.iops, horizon - since + lim.Slice())
    ensures Ios(ops) < U32 && NeverFull(lim, NewSlice(lim, since), ops)
  {
    if ops != [] {
      var before, op := ops[..|ops| - 1], ops[|ops| - 1];
      HistoryLast(lim, NewSlice(lim, since), ops, since);
      LastSendBounds(lim, NewSlice(lim, since), before, since);
      IosFitCounter(lim, before, since, horizon);
      IopsBound(lim, before, since);
      FewerThan(lim, before, since, horizon);
    }
    FewIosFit(lim, NewSlice(lim, since), ops);
  }

  lemma {:induction false} LastSendBounds(lim: Limits, d: Dir, ops: seq<Op>, since: nat)
    requires lim.Valid() && History(lim, d, ops, since)
    ensures since <= LastSend(ops, since) <= EndTime(ops, since)
  {
    if ops != [] {
      LastSendBounds(lim, d, ops[..|ops| - 1], since);
    }
  }

  lemma FewerThan(lim: Limits, ops: seq<Op>, since: nat, horizon: nat)
    requires IosBounded(lim, ops, since) && LastSend(ops, since) <= EndTime(ops, since) <= horizon
    requires !WithinRate(U32 - 1, lim.hz, lim.iops, horizon - since + lim.Slice())
    ensures Ios(ops) < U32 - 1
  {
    TimesLe(lim.iops, LastSend(ops, since) - since + lim.Slice(), horizon - since + lim.Slice());
    if Ios(ops) >= U32 - 1 {
      PlusTimes(U32 - 1, Ios(ops) - (U32 - 1), lim.hz);
    }
  }

  /** The io check compares what it means to exactly when the counter is not full. */
  lemma IoCheckExact(lim: Limits, d: Dir, now: nat)
    requires lim.Valid() && d.start <= now && d.ios < U32
    ensures (WithinIops(lim, d, now) <==> d.ios + 1 <= IosAllowed(lim, d, now)) <==> d.ios + 1 < U32
  {
    assert U32 % U32 == 0;
  }

  // ---------------------------------------------------------------- any slice of any history

  /** A restart forgets the slice before it. */
  lemma RestartForgets(lim: Limits, d: Dir, op: Op, end: nat)
    requires lim.Valid() && !lim.NoRule() && Restarts(lim, d, op.now) && OpOk(lim, d, op, end)
    ensures OpOk(lim, NewSlice(lim, op.now), op, op.now)
    ensures After(lim, d, op) == After(lim, NewSlice(lim, op.now), op)
    ensures IosSeen(lim, d, op) == IosSeen(lim, NewSlice(lim, op.now), op)
  {
  }

  /** The check at `now` works on a new slice. */
  ghost predicate Restarts(lim: Limits, d: Dir, now: nat)
    requires lim.Valid()
  {
    Renewed(lim, d, now) == Renewed(lim, NewSlice(lim, now), now)
  }

  /** It does when the slice is used up, or the group is as it was made. */
  lemma RestartsWhen(lim: Limits, d: Dir, now: nat)
    requires lim.Valid() && (SliceUsed(d, now) || d == IDLE)
    ensures Restarts(lim, d, now)
  {
    if !SliceUsed(d, now) {
      var s := lim.Slice();
      OneSlice(s);
    }
  }

  lemma SingleFull(lim: Limits, d: Dir, op: Op)
    requires lim.Valid()
    ensures NeverFull(lim, d, [op]) <==> (op.Send? ==> IosSeen(lim, d, op) + 1 < U32)
  {
    assert [op][..0] == [];
    assert NeverFull(lim, d, []) && Replay(lim, d, []) == d;
  }

  lemma HistorySingle(lim: Limits, d: Dir, op: Op)
    requires lim.Valid() && OpOk(lim, d, op, op.now)
    ensures History(lim, d, [op], op.now) && Replay(lim, d, [op]) == After(lim, d, op)
  {
    assert [op][..0] == [];
    assert Replay(lim, d, []) == d && History(lim, d, [], op.now);
  }

  lemma HistoryAppend(lim: Limits, d: Dir, ops: seq<Op>, op: Op, since: nat)
    requires lim.Valid() && History(lim, d, ops, since)
    requires OpOk(lim, Replay(lim, d, ops), op, EndTime(ops, since))
    ensures History(lim, d, ops + [op], since) && Replay(lim, d, ops + [op]) == After(lim, Replay(lim, d, ops), op)
  {
    assert (ops + [op])[..|ops|] == ops;
  }

  /** A history whose first check restarts the slice goes on as if the slice had been new. */
  lemma {:induction false} HistoryFromRestart(lim: Limits, d: Dir, ops: seq<Op>, since: nat)
    requires lim.Valid() && !lim.NoRule() && History(lim, d, ops, since) && ops != []
    requires Restarts(lim, d, ops[0].now)
    ensures History(lim, NewSlice(lim, ops[0].now), ops, ops[0].now)
    ensures Replay(lim, NewSlice(lim, ops[0].now), ops) == Replay(lim, d, ops)
    ensures NeverFull(lim, NewSlice(lim, ops[0].now), ops) == NeverFull(lim, d, ops)
    decreases |ops|
  {
    var n := |ops| - 1;
    var start, before, op := ops[0].now, ops[..n], ops[n];
    HistoryLast(lim, d, ops, since);
    if n > 0 {
      Slices(ops, 0);
      assert ops == before + [op];
      HistoryFromRestart(lim, d, before, since);
      HistoryAppend(lim, NewSlice(lim, start), before, op, start);
    } else {
      assert before == [] && Replay(lim, d, before) == d;
      RestartForgets(lim, d, op, EndTime(before, since));
      HistorySingle(lim, NewSlice(lim, start), op);
      assert ops == [op];
      SingleFull(lim, d, op);
      SingleFull(lim, NewSlice(lim, start), op);
    }
  }

  /** Both bounds counted from any check that restarts the slice, whatever the direction went through before. */
  lemma RateBoundFromRestart(lim: Limits, d: Dir, ops: seq<Op>, since: nat)
    requires lim.Valid() && !lim.NoRule() && History(lim, d, ops, since) && ops != []
    requires Restarts(lim, d, ops[0].now)
    ensures BytesBounded(lim, ops, ops[0].now)
    ensures NeverFull(lim, d, ops) ==> IosBounded(lim, ops, ops[0].now)
  {
    HistoryFromRestart(lim, d, ops, since);
    RateBound(lim, ops, ops[0].now);
    if NeverFull(lim, d, ops) {
      IopsBound(lim, ops, ops[0].now);
    }
  }

  /** `rest` is a history from (d, t) to (d', t'). */
  ghost predicate Leads(lim: Limits, d: Dir, t: nat, rest: seq<Op>, d': Dir, t': nat)
    requires lim.Valid()
  {
    History(lim, d, rest, t) && Replay(lim, d, rest) == d' && EndTime(rest, t) == t'
  }

  lemma LeadsAppend(lim: Limits, d: Dir, t: nat, rest: seq<Op>, d': Dir, t': nat, op: Op)
    requires lim.Valid() && Leads(lim, d, t, rest, d', t') && OpOk(lim, d', op, t')
    ensures Leads(lim, d, t, rest + [op], After(lim, d', op), OpEnd(op))
  {
    HistoryAppend(lim, d, rest, op, t);
  }

  lemma Slices(ops: seq<Op>, i: nat)
    requires i < |ops|
    ensures var n := |ops| - 1;
            ops[..n][..i] == ops[..i] && ops[..n][i..] + [ops[n]] == ops[i..]
  {
  }

  /** The part of a history after `i` operations is a history of the direction those led to. */
  lemma {:induction false} HistorySuffix(lim: Limits, d: Dir, ops: seq<Op>, since: nat, i: nat)
    requires lim.Valid() && History(lim, d, ops, since) && i <= |ops|
    ensures Leads(lim, Replay(lim, d, ops[..i]), EndTime(ops[..i], since), ops[i..], Replay(lim, d, ops),
                  EndTime(ops, since))
    decreases |ops|
  {
    var n := |ops| - 1;
    if i == |ops| {
      assert ops[..i] == ops && ops[i..] == [];
    } else {
      var before, op := ops[..n], ops[n];
      HistoryLast(lim, d, ops, since);
      HistorySuffix(lim, d, before, since, i);
      Slices(ops, i);
      LeadsAppend(lim, Replay(lim, d, ops[..i]), EndTime(ops[..i], since), before[i..],
                  Replay(lim, d, before), EndTime(before, since), op);
    }
  }

  /** Counting from earlier on only widens a bound. */
  lemma BoundedEarlier(lim: Limits, ops: seq<Op>, since: nat, earlier: nat)
    requires earlier <= since
    ensures BytesBounded(lim, ops, since) ==> BytesBounded(lim, ops, earlier)
    ensures IosBounded(lim, ops, since) ==> IosBounded(lim, ops, earlier)
  {
    LastSendDefault(ops, since, earlier);
    if since <= LastSend(ops, since) {
      var late, early := LastSend(ops, since) - since + lim.Slice(), LastSend(ops, earlier) - earlier + lim.Slice();
      if late <= early {
        TimesLe(lim.bps, late, early);
        TimesLe(lim.iops, late, early);
      }
    }
  }

  lemma {:induction false} LastSendDefault(ops: seq<Op>, since: nat, earlier: nat)
    requires earlier <= since
    ensures || LastSend(ops, earlier) == LastSend(ops, since)
            || (LastSend(ops, earlier) == earlier && LastSend(ops, since) == since)
    ensures since <= LastSend(ops, since) ==> LastSend(ops, earlier) - earlier >= LastSend(ops, since) - since
  {
    if ops != [] && !ops[|ops| - 1].Send? {
      LastSendDefault(ops[..|ops| - 1], since, earlier);
    }
  }

  /** After any history of a group from its creation its slice is fit. */
  lemma HistoryFit(lim: Limits, ops: seq<Op>)
    requires lim.Valid() && !lim.NoRule() && History(lim, IDLE, ops, 0) && ops != []
    ensures Fit(lim, Replay(lim, IDLE, ops), EndTime(ops, 0))
  {
    var now := ops[0].now;
    RestartsWhen(lim, IDLE, now);
    HistoryFromRestart(lim, IDLE, ops, 0);
    NewSliceFit(lim, now);
    HistoryStaysFit(lim, NewSlice(lim, now), ops, now);
  }

  /** Slices only ever become longer than one slice from their start. */
  lemma {:induction false} HistoryStaysFit(lim: Limits, d: Dir, ops: seq<Op>, t: nat)
    requires lim.Valid() && !lim.NoRule() && Fit(lim, d, t) && History(lim, d, ops, t)
    ensures Fit(lim, Replay(lim, d, ops), EndTime(ops, t))
  {
    if ops != [] {
      var before, op := ops[..|ops| - 1], ops[|ops| - 1];
      HistoryLast(lim, d, ops, t);
      HistoryStaysFit(lim, d, before, t);
      StepStaysFit(lim, Replay(lim, d, before), op, EndTime(before, t));
    }
  }

  lemma StepStaysFit(lim: Limits, d: Dir, op: Op, t: nat)
    requires lim.Valid() && !lim.NoRule() && Fit(lim, d, t) && OpOk(lim, d, op, t)
    ensures Fit(lim, After(lim, d, op), OpEnd(op))
  {
    var m := MayDispatch(lim, d, op.size, op.now).dir;
    CheckDir(lim, d, op.size, op.now, t, d.start);
    if op.Send? {
      WithinBpsMeans(lim, m, op.size, op.now);
      var c := Charged(m, op.size);
      if !SliceUsed(c, op.trimAt) {
        TrimShape(lim, c, op.trimAt);
        PlusTimes(Trimmed(lim, c, op.trimAt).bytes, c.bytes - Trimmed(lim, c, op.trimAt).bytes, lim.hz);
      }
    }
  }

  /**
   Both bounds from any point of the history of a group since its creation: counted from the start of the slice the
   group is in at that point, trimmed or not, and from the next check if that restarts the slice.
   */
  lemma RateBoundInHistory(lim: Limits, ops: seq<Op>, i: nat)
    requires lim.Valid() && (lim.bps != UNLIMITED_BPS || lim.iops != UNLIMITED_IOPS)
    requires History(lim, IDLE, ops, 0) && i < |ops|
    ensures var d, rest := Replay(lim, IDLE, ops[..i]), ops[i..];
            && BytesBounded(lim, rest, d.start)
            && (NeverFull(lim, d, rest) ==> IosBounded(lim, rest, d.start))
            && (SliceUsed(d, ops[i].now) ==>
                  && BytesBounded(lim, rest, ops[i].now)
                  && (NeverFull(lim, d, rest) ==> IosBounded(lim, rest, ops[i].now)))
  {
    var d, rest, t := Replay(lim, IDLE, ops[..i]), ops[i..], EndTime(ops[..i], 0);
    HistorySuffix(lim, IDLE, ops, 0, i);
    if i == 0 || SliceUsed(d, ops[i].now) {
      RestartsWhen(lim, d, ops[i].now);
      RateBoundFromRestart(lim, d, rest, t);
    }
    if i == 0 {
      BoundedEarlier(lim, rest, ops[0].now, 0);
    } else {
      PrefixHistory(lim, IDLE, ops, 0, i);
      HistoryFit(lim, ops[..i]);
      BoundFromSliceStart(lim, d, rest, t);
    }
  }

  lemma {:induction false} PrefixHistory(lim: Limits, d: Dir, ops: seq<Op>, since: nat, i: nat)
    requires lim.Valid() && History(lim, d, ops, since) && i <= |ops|
    ensures History(lim, d, ops[..i], since)
  {
    if i == |ops| {
      assert ops[..i] == ops;
    } else {
      assert ops[..|ops| - 1][..i] == ops[..i];
      PrefixHistory(lim, d, ops[..|ops| - 1], since, i);
    }
  }

  /** WithinRate in plain arithmetic. */
  lemma WithinRateIs(count: nat, hz: nat, rate: nat, time: nat)
    ensures WithinRate(count, hz, rate, time) <==> count * hz <= rate * time
  {
    TimesIs(count, hz);
    TimesIs(rate, time);
  }
}
