/** A history that fills the 32-bit io counter of a direction and goes past every bound on its rate. */
module ThrottleFull {
  import opened ThrottleModel
  import opened ThrottleRate

  /**
   Rates whose products with the 16 slices up to time `now` are little more than multiples of 2^64 and 2^32. (The
   numbers are given by equations, as the solver would otherwise set out to compute with them.)
   */
  ghost predicate Setting(lim: Limits, now: nat) {
    lim.hz == 200 && lim.bps == 0x2666_6666_6666_6667 && lim.iops == 0x9800_0000 && now == 321
  }

  /** A bio of one byte arrives at 0 and is refused, then and whenever the wait it was told is over. */
  function LookTime(k: nat): nat {
    if k == 0 then 0 else 20 * k + 1
  }

  function Looks(k: nat): seq<Op> {
    if k == 0 then [Look(1, 0)] else Looks(k - 1) + [Look(1, LookTime(k))]
  }

  function Waited(k: nat): Dir {
    Dir(0, 0, 0, 20 * (k + 2))
  }

  /** At `now` it goes, and empty bios with it, `m` in all. */
  function Burst(looks: nat, now: nat, m: nat): seq<Op> {
    if m == 0 then Looks(looks) else Burst(looks, now, m - 1) + [Send(if m == 1 then 1 else 0, now, now)]
  }

  function Sent(m: nat): Dir {
    Dir(if m == 0 then 0 else 1, m % U32, 0, if m == 0 then 340 else 360)
  }

  function BurstTime(now: nat, m: nat): nat {
    if m == 0 then 301 else now
  }

  // ---------------------------------------------------------------- arithmetic

  lemma QuotDiv(x: nat, y: nat)
    requires y > 0
    ensures Quot(x, y) == x / y
  {
    QuotIs(x, y, x / y);
  }

  lemma RoundUpIs(x: nat, slice: nat, k: nat)
    requires slice == 20 && 20 * k - 20 < x <= 20 * k
    ensures RoundUp(x, slice) == 20 * k
  {
    QuotIs(x + (slice - 1), slice, k);
    TimesIs(k, slice);
  }

  lemma ElapsedIs(lim: Limits, d: Dir, now: nat, k: nat)
    requires lim.Valid() && lim.hz == 200 && d.start == 0
    requires 20 * k - 20 < (if now == 0 then 20 else now) <= 20 * k
    ensures ElapsedRounded(lim, d, now) == 20 * k
  {
    RoundUpIs(if now == 0 then lim.Slice() else now, lim.Slice(), k);
  }

  /** The budgets in plain arithmetic. */
  lemma IosAllowedIs(lim: Limits, d: Dir, now: nat, rounded: nat)
    requires lim.Valid() && d.start <= now && ElapsedRounded(lim, d, now) == rounded
    ensures var q := Wrap(lim.iops * rounded, U64) / lim.hz;
            IosAllowed(lim, d, now) == if q > U32 - 1 then U32 - 1 else q
  {
    TimesIs(lim.iops, rounded);
    QuotDiv(Wrap(lim.iops * rounded, U64), lim.hz);
  }

  lemma BytesAllowedIs(lim: Limits, d: Dir, now: nat, rounded: nat)
    requires lim.Valid() && d.start <= now && ElapsedRounded(lim, d, now) == rounded
    ensures BytesAllowed(lim, d, now) == Wrap(lim.bps * rounded, U64) / lim.hz
  {
    TimesIs(lim.bps, rounded);
    QuotDiv(Wrap(lim.bps * rounded, U64), lim.hz);
  }

  lemma PassesOn(lim: Limits, d: Dir, size: nat, now: nat, r: Dir)
    requires lim.Valid() && !lim.NoRule() && Renewed(lim, d, now) == r
    requires r.start <= now && WithinBps(lim, r, size, now) && WithinIops(lim, r, now)
    ensures MayDispatch(lim, d, size, now) == Verdict(true, 0, r)
  {
  }

  lemma RenewedIs(lim: Limits, d: Dir, now: nat, k: nat)
    requires lim.Valid() && lim.hz == 200 && 20 * k - 20 < now + 20 <= 20 * k
    requires d.start <= now <= d.end <= 20 * k && (d.end == 20 * k || d.end < now + 20)
    ensures Renewed(lim, d, now) == d.(end := 20 * k)
  {
    RoundUpIs(now + lim.Slice(), lim.Slice(), k);
  }

  lemma RefusedOn(lim: Limits, d: Dir, size: nat, now: nat, r: Dir, wait: nat)
    requires lim.Valid() && !lim.NoRule() && Renewed(lim, d, now) == r
    requires r.start <= now && !WithinBps(lim, r, size, now) && BpsWait(lim, r, size, now) == wait
    ensures MayDispatch(lim, d, size, now) ==
            Verdict(false, wait, if r.end < now + wait then Extended(lim, r, now + wait) else r)
  {
  }

  /** A history of a group from its creation, the state and time it leads to, and the bios it sends. */
  ghost predicate Reaches(lim: Limits, ops: seq<Op>, d: Dir, t: nat, ios: nat)
    requires lim.Valid()
  {
    && History(lim, IDLE, ops, 0) && LooksRefused(lim, ops)
    && Replay(lim, IDLE, ops) == d && EndTime(ops, 0) == t && Ios(ops) == ios
  }

  /** Every check in the history that sends nothing is a refusal. */
  ghost predicate LooksRefused(lim: Limits, ops: seq<Op>)
    requires lim.Valid()
  {
    ops != [] ==>
      var before, op := ops[..|ops| - 1], ops[|ops| - 1];
      && LooksRefused(lim, before)
      && (op.Look? ==> !MayDispatch(lim, Replay(lim, IDLE, before), op.size, op.now).ok)
  }

  lemma ReachesMore(lim: Limits, ops: seq<Op>, d: Dir, t: nat, ios: nat, op: Op)
    requires lim.Valid() && Reaches(lim, ops, d, t, ios) == true && OpOk(lim, d, op, t)
    requires op.Look? ==> !MayDispatch(lim, d, op.size, op.now).ok
    ensures Reaches(lim, ops + [op], After(lim, d, op), OpEnd(op), ios + if op.Send? then 1 else 0) == true
    ensures op.Send? ==> LastSend(ops + [op], 0) == op.now
  {
    HistoryAppend(lim, IDLE, ops, op, 0);
    Counts(ops, op, 0, 0);
    assert (ops + [op])[..|ops|] == ops;
  }

  lemma ReachesNone(lim: Limits)
    requires lim.Valid()
    ensures Reaches(lim, [], IDLE, 0, 0)
  {
  }

  // ---------------------------------------------------------------- waiting

  /** Up to the sixteenth slice the budget of bytes is 0. */
  lemma NoBudget(lim: Limits, at: nat, d: Dir, now: nat, k: nat)
    requires Setting(lim, at) && lim.Valid() && d.start == 0 && k <= 15 && now == LookTime(k)
    ensures BytesAllowed(lim, d, now) == 0
  {
    ElapsedIs(lim, d, now, k + 1);
    BytesAllowedIs(lim, d, now, 20 * (k + 1));
    ProductIs(lim.bps, k + 1);
  }

  lemma PaddingAt(lim: Limits, d: Dir, now: nat, k: nat)
    requires lim.Valid() && lim.hz == 200 && d.start == 0 && k <= 15 && now == LookTime(k)
    ensures Padding(lim, d, now) == if k == 0 then 20 else 19
  {
    ElapsedIs(lim, d, now, k + 1);
  }

  lemma ProductIs(bps: nat, j: nat)
    requires bps == 0x2666_6666_6666_6667 && j <= 17
    ensures Wrap(bps * (20 * j), U64) == 12 * j
  {
    assert bps * (20 * j) == U64 * (3 * j) + 12 * j;
    WrapIs(bps * (20 * j), 3 * j, 12 * j, U64);
  }

  lemma WrapIs(x: nat, q: nat, r: nat, w: nat)
    requires w > 0 && x == w * q + r && r < w
    ensures Wrap(x, w) == r
  {
    var q' := x / w;
    assert x == w * q' + x % w;
    if q < q' {
      MulLe(w, q + 1, q');
    } else if q' < q {
      MulLe(w, q' + 1, q);
    }
  }

  /** One byte over the limit takes no time, which counts as one tick. */
  lemma OneTick(lim: Limits, d: Dir, now: nat)
    requires lim.Valid() && lim.bps > lim.hz && d.start <= now && d.bytes == 0 && BytesAllowed(lim, d, now) == 0
    ensures !WithinBps(lim, d, 1, now) && OverTime(lim, d, 1, now) == 0
  {
    TimesIs(1, lim.hz);
    QuotIs(lim.hz, lim.bps, 0);
  }

  lemma TickAndPadding(lim: Limits, d: Dir, now: nat)
    requires lim.Valid() && d.start <= now && !WithinBps(lim, d, 1, now) && OverTime(lim, d, 1, now) == 0
    ensures BpsWait(lim, d, 1, now) == 1 + Padding(lim, d, now)
  {
    RoundedBound(lim, d, now);
  }

  lemma PaddedWait(lim: Limits, d: Dir, now: nat, padding: nat)
    requires lim.Valid() && lim.bps > lim.hz && d.start <= now && d.bytes == 0 && BytesAllowed(lim, d, now) == 0
    requires Padding(lim, d, now) == padding
    ensures !WithinBps(lim, d, 1, now) && BpsWait(lim, d, 1, now) == 1 + padding
  {
    OneTick(lim, d, now);
    TickAndPadding(lim, d, now);
  }

  /** All that a refused check needs to know of the limits. */
  ghost predicate Plain(lim: Limits) {
    lim.Valid() && !lim.NoRule() && lim.hz == 200 && lim.bps > lim.hz
  }

  /** The first check extends the slice to the end of the wait... */
  lemma FirstLook(lim: Limits, size: nat, now: nat, r: Dir)
    requires Plain(lim) && size == 1 && now == 0 && r == IDLE.(end := 20) && BytesAllowed(lim, r, now) == 0
    ensures MayDispatch(lim, IDLE, size, now) == Verdict(false, 21, Waited(0))
  {
    RenewedIs(lim, IDLE, now, 1);
    PaddingAt(lim, r, now, 0);
    PaddedWait(lim, r, now, 20);
    RoundUpIs(now + 21, lim.Slice(), 2);
    RefusedOn(lim, IDLE, size, now, r, 21);
  }

  /** ...and every further one moves its end on by a slice. */
  lemma NextLook(lim: Limits, size: nat, now: nat, k: nat)
    requires Plain(lim) && size == 1 && 1 <= k <= 15 && now == LookTime(k) && BytesAllowed(lim, Waited(k), now) == 0
    ensures MayDispatch(lim, Waited(k - 1), size, now) == Verdict(false, 20, Waited(k))
  {
    RenewedIs(lim, Waited(k - 1), now, k + 2);
    PaddingAt(lim, Waited(k), now, k);
    PaddedWait(lim, Waited(k), now, 19);
    RefusedOn(lim, Waited(k - 1), size, now, Waited(k), 20);
  }

  lemma LookAt(lim: Limits, at: nat, d: Dir, op: Op, k: nat)
    requires Setting(lim, at) && k <= 15 && op == Look(1, LookTime(k)) && d == if k == 0 then IDLE else Waited(k - 1)
    ensures lim.Valid() && !MayDispatch(lim, d, op.size, op.now).ok && After(lim, d, op) == Waited(k)
  {
    if k == 0 {
      NoBudget(lim, at, IDLE.(end := 20), op.now, k);
      FirstLook(lim, op.size, op.now, IDLE.(end := 20));
    } else {
      NoBudget(lim, at, Waited(k), op.now, k);
      NextLook(lim, op.size, op.now, k);
    }
  }

  lemma {:induction false} LooksLead(lim: Limits, at: nat, k: nat)
    requires Setting(lim, at) && k <= 15
    ensures Reaches(lim, Looks(k), Waited(k), LookTime(k), 0) == true
  {
    var op := Look(1, LookTime(k));
    if k == 0 {
      LookAt(lim, at, IDLE, op, k);
      ReachesNone(lim);
      ReachesMore(lim, [], IDLE, 0, 0, op);
      assert [] + [op] == Looks(k);
    } else {
      LooksLead(lim, at, k - 1);
      LookAt(lim, at, Waited(k - 1), op, k);
      ReachesMore(lim, Looks(k - 1), Waited(k - 1), LookTime(k - 1), 0, op);
    }
  }

  // ---------------------------------------------------------------- sending

  /** At `now` the budget of ios is as large as the counter can show, and that of bytes is 1. */
  lemma Budgets(lim: Limits, now: nat, d: Dir)
    requires Setting(lim, now) && d.start == 0
    ensures IosAllowed(lim, d, now) == U32 - 1 && BytesAllowed(lim, d, now) == 1
  {
    ElapsedIs(lim, d, now, 17);
    IosAllowedIs(lim, d, now, 340);
    BytesAllowedIs(lim, d, now, 340);
    ProductIs(lim.bps, 17);
  }

  /** So a bio passes whatever the counter shows. */
  lemma Passes(lim: Limits, now: nat, size: nat, m: nat)
    requires Setting(lim, now) && size == if m == 0 then 1 else 0
    ensures MayDispatch(lim, Sent(m), size, now) == Verdict(true, 0, Sent(m).(end := 360))
  {
    var d, r := Sent(m), Sent(m).(end := 360);
    RenewedIs(lim, d, now, 18);
    Budgets(lim, now, r);
    PassesOn(lim, d, size, now, r);
  }

  /** Nothing is trimmed: one product wraps to 0, the other to less than a byte. */
  lemma TrimsNothing(lim: Limits, now: nat, slice: nat, n: nat)
    requires Setting(lim, now) && slice == lim.Slice() && n == 16
    ensures BytesTrim(lim, n) == 0 && IoTrim(lim, n) == 0
  {
    TimesIs(lim.bps, slice);
    TimesIs(lim.bps * slice, n);
    WrapIs(lim.bps * slice * n, 48, 192, U64);
    QuotIs(192, lim.hz, 0);
    TimesIs(lim.iops, slice);
    TimesIs(lim.iops * slice, n);
    WrapIs(lim.iops * slice * n, 190, 0, U32);
  }

  lemma StaysUntrimmed(lim: Limits, now: nat, n: nat, d: Dir)
    requires Setting(lim, now) && n == 16 && d.start == 0 && d.end == 360
    ensures Trimmed(lim, d, now) == d
  {
    RoundUpIs(now + lim.Slice(), lim.Slice(), 18);
    QuotIs(now, lim.Slice(), n);
    TrimsNothing(lim, now, lim.Slice(), n);
  }

  lemma NextCount(m: nat)
    ensures Wrap(m % U32 + 1, U32) == (m + 1) % U32
  {
    if m % U32 == U32 - 1 {
      assert (m + 1) % U32 == 0;
    }
  }

  lemma SendAt(lim: Limits, now: nat, n: nat, m: nat, size: nat)
    requires Setting(lim, now) && n == 16 && size == if m == 0 then 1 else 0
    ensures After(lim, Sent(m), Send(size, now, now)) == Sent(m + 1)
    ensures MayDispatch(lim, Sent(m), size, now).ok
  {
    Passes(lim, now, size, m);
    NextCount(m);
    StaysUntrimmed(lim, now, n, Sent(m + 1));
  }

  lemma OneMoreSend(lim: Limits, now: nat, n: nat, m: nat, ops: seq<Op>, t: nat, op: Op)
    requires Setting(lim, now) && n == 16 && t <= now && Reaches(lim, ops, Sent(m), t, m) == true
    requires op == Send(if m == 0 then 1 else 0, now, now)
    ensures Reaches(lim, ops + [op], Sent(m + 1), now, m + 1) == true && LastSend(ops + [op], 0) == now
  {
    SendAt(lim, now, n, m, op.size);
    ReachesMore(lim, ops, Sent(m), t, m, op);
  }

  lemma BurstStart(lim: Limits, looks: nat, now: nat, m: nat)
    requires lim.Valid() && looks == 15 && m == 0
    requires Reaches(lim, Looks(looks), Waited(looks), LookTime(looks), 0) == true
    ensures Reaches(lim, Burst(looks, now, m), Sent(m), BurstTime(now, m), m) == true
  {
    assert Burst(looks, now, m) == Looks(looks);
    assert Sent(m) == Waited(looks);
    assert BurstTime(now, m) == LookTime(looks);
  }

  lemma BurstNext(lim: Limits, now: nat, n: nat, looks: nat, m: nat)
    requires Setting(lim, now) && n == 16 && Reaches(lim, Burst(looks, now, m), Sent(m), BurstTime(now, m), m) == true
    ensures Reaches(lim, Burst(looks, now, m + 1), Sent(m + 1), BurstTime(now, m + 1), m + 1) == true
    ensures LastSend(Burst(looks, now, m + 1), 0) == now
  {
    OneMoreSend(lim, now, n, m, Burst(looks, now, m), BurstTime(now, m), Send(if m == 0 then 1 else 0, now, now));
  }

  lemma {:induction false} BurstLeads(lim: Limits, now: nat, n: nat, looks: nat, m: nat)
    requires Setting(lim, now) && n == 16 && looks == 15
    ensures Reaches(lim, Burst(looks, now, m), Sent(m), BurstTime(now, m), m) == true
    ensures m > 0 ==> LastSend(Burst(looks, now, m), 0) == now
  {
    if m == 0 {
      LooksLead(lim, now, looks);
      BurstStart(lim, looks, now, m);
    } else {
      BurstLeads(lim, now, n, looks, m - 1);
      BurstNext(lim, now, n, looks, m - 1);
    }
  }

  lemma IdleIops(lim: Limits, ops: seq<Op>)
    requires lim.Valid() && !lim.NoRule() && ops != [] && History(lim, IDLE, ops, 0) && NeverFull(lim, IDLE, ops)
    ensures IosBounded(lim, ops, 0)
  {
    assert ops[..0] == [] && ops[0..] == ops;
    RateBoundInHistory(lim, ops, 0);
  }

  lemma TooMany(lim: Limits, now: nat, ops: seq<Op>)
    requires Setting(lim, now) && 2 * U32 <= Ios(ops) && LastSend(ops, 0) == now
    ensures !IosBounded(lim, ops, 0)
  {
    WithinRateIs(Ios(ops), lim.hz, lim.iops, now + lim.Slice());
  }

  /**
   A bio of one byte waits from its arrival at 0 until jiffy 321, refused at every check before. By then the budget of
   ios is as large as the counter can show: the counter starts again from 0 when it is full, any number of empty bios
   goes through behind the first, and the bound on their rate does not hold.
   */
  lemma FullCounterBreaksBound(n: nat) returns (lim: Limits, ops: seq<Op>)
    requires 2 * U32 <= n
    ensures lim.Valid() && !lim.NoRule() && History(lim, IDLE, ops, 0) && LooksRefused(lim, ops)
    ensures Ios(ops) == n && LastSend(ops, 0) == 321 && !IosBounded(lim, ops, 0) && !NeverFull(lim, IDLE, ops)
  {
    lim := Limits(200, 0x2666_6666_6666_6667, 0x9800_0000);
    var now, slices, looks :| now == 321 && slices == 16 && looks == 15;
    ops := Burst(looks, now, n);
    BurstLeads(lim, now, slices, looks, n);
    TooMany(lim, now, ops);
    if NeverFull(lim, IDLE, ops) {
      IdleIops(lim, ops);
    }
  }
}
