/**
 The slice arithmetic of block/blk-throttle.c for one direction of one group.

 Byte counters are u64 and io counters are 32-bit in the source, so products and sums on them wrap here too.
 Time is a natural number of jiffies.
 */
module ThrottleModel {

  const U64: nat := 0x1_0000_0000_0000_0000
  const U32: nat := 0x1_0000_0000
  const UNLIMITED_BPS: nat := U64 - 1
  const UNLIMITED_IOPS: nat := U32 - 1

  /** HZ, the limits of one direction of a group, and throtl_slice = HZ/10. A limit of 0 is stored as unlimited. */
  datatype Limits = Limits(hz: nat, bps: nat, iops: nat) {
    predicate Valid() {
      10 <= hz < U32 && 1 <= bps < U64 && 1 <= iops < U32
    }
    function Slice(): nat {
      hz / 10
    }
    predicate NoRule() {
      bps == UNLIMITED_BPS && iops == UNLIMITED_IOPS
    }
  }

  /** bytes_disp, io_disp, slice_start and slice_end of one direction. */
  datatype Dir = Dir(bytes: nat, ios: nat, start: nat, end: nat)

  /** A group is allocated zeroed. */
  const IDLE := Dir(0, 0, 0, 0)

  /** The value of `x` in an unsigned type with `w` values. */
  function Wrap(x: int, w: nat): (r: nat)
    requires w > 0
    ensures r < w && (x >= 0 ==> r <= x) && (0 <= x < w ==> r == x)
  {
    if 0 <= x < w then x else WrapLe(x, w); x % w
  }

  lemma WrapLe(x: int, w: nat)
    requires w > 0
    ensures 0 <= x % w < w && (x >= 0 ==> x % w <= x)
  {
    if x >= 0 {
      var q := x / w;
      assert x == w * q + x % w;
      assert q >= 0;
    }
  }

  // Products and quotients of two variables, written out as iterated addition and subtraction so that proofs which
  // need no arithmetic do not meet any; TimesIs and QuotBounds say which numbers they are.

  function Times(a: nat, b: nat): nat
    decreases a
  {
    if a == 0 then 0 else b + Times(a - 1, b)
  }

  function Quot(x: nat, y: nat): nat
    requires y > 0
  {
    if x < y then 0 else 1 + Quot(x - y, y)
  }

  lemma {:induction false} TimesIs(a: nat, b: nat)
    ensures Times(a, b) == a * b
    decreases a
  {
    if a > 0 {
      TimesIs(a - 1, b);
    }
  }

  lemma {:induction false} QuotBounds(x: nat, y: nat)
    requires y > 0
    ensures Quot(x, y) * y <= x < Quot(x, y) * y + y
  {
    if x >= y {
      QuotBounds(x - y, y);
    }
  }

  /** The multiple of `y` in [x, x + y). */
  function RoundUp(x: nat, y: nat): (r: nat)
    requires y > 0
    ensures x <= r < x + y
  {
    QuotBounds(x + (y - 1), y);
    TimesIs(Quot(x + (y - 1), y), y);
    Times(Quot(x + (y - 1), y), y)
  }

  function Max(a: nat, b: nat): nat {
    if a < b then b else a
  }

  function NewSlice(lim: Limits, now: nat): Dir {
    Dir(0, 0, now, now + lim.Slice())
  }

  predicate SliceUsed(d: Dir, now: nat) {
    !(d.start <= now <= d.end)
  }

  function Extended(lim: Limits, d: Dir, end: nat): Dir
    requires lim.Slice() > 0
  {
    d.(end := RoundUp(end, lim.Slice()))
  }

  /** The slice tg_may_dispatch works on: restarted if used up, else at least one slice long from now. */
  function Renewed(lim: Limits, d: Dir, now: nat): Dir
    requires lim.Valid()
  {
    if SliceUsed(d, now) then NewSlice(lim, now)
    else if d.end < now + lim.Slice() then Extended(lim, d, now + lim.Slice())
    else d
  }

  function ElapsedRounded(lim: Limits, d: Dir, now: nat): nat
    requires lim.Valid() && d.start <= now
  {
    RoundUp(if now == d.start then lim.Slice() else now - d.start, lim.Slice())
  }

  function BytesAllowed(lim: Limits, d: Dir, now: nat): nat
    requires lim.Valid() && d.start <= now
  {
    Quot(Wrap(Times(lim.bps, ElapsedRounded(lim, d, now)), U64), lim.hz)
  }

  function IosAllowed(lim: Limits, d: Dir, now: nat): nat
    requires lim.Valid() && d.start <= now
  {
    var tmp := Quot(Wrap(Times(lim.iops, ElapsedRounded(lim, d, now)), U64), lim.hz);
    if tmp > U32 - 1 then U32 - 1 else tmp
  }

  predicate WithinBps(lim: Limits, d: Dir, size: nat, now: nat)
    requires lim.Valid() && d.start <= now
  {
    Wrap(d.bytes + size, U64) <= BytesAllowed(lim, d, now)
  }

  predicate WithinIops(lim: Limits, d: Dir, now: nat)
    requires lim.Valid() && d.start <= now
  {
    Wrap(d.ios + 1, U32) <= IosAllowed(lim, d, now)
  }

  /** How long the bytes over the limit take at its rate, before the cut to an unsigned long. */
  function OverTime(lim: Limits, d: Dir, size: nat, now: nat): nat
    requires lim.Valid() && d.start <= now && !WithinBps(lim, d, size, now)
  {
    var extra := Wrap(d.bytes + size, U64) - BytesAllowed(lim, d, now);
    Quot(Wrap(Times(extra, lim.hz), U64), lim.bps)
  }

  /** What rounding added to the time since the slice began. */
  function Padding(lim: Limits, d: Dir, now: nat): nat
    requires lim.Valid() && d.start <= now
  {
    ElapsedRounded(lim, d, now) - (now - d.start)
  }

  /** The wait tg_with_in_bps_limit reports; `unsigned long` is 32 bits wide on this machine. */
  function BpsWait(lim: Limits, d: Dir, size: nat, now: nat): nat
    requires lim.Valid() && d.start <= now
  {
    if WithinBps(lim, d, size, now) then 0
    else
      var wait := Wrap(OverTime(lim, d, size, now), U32);
      Wrap((if wait == 0 then 1 else wait) + Padding(lim, d, now), U32)
  }

  /** The wait tg_with_in_iops_limit reports. */
  function IopsWait(lim: Limits, d: Dir, now: nat): nat
    requires lim.Valid() && d.start <= now
  {
    if WithinIops(lim, d, now) then 0
    else
      var wait := Wrap(Quot(Wrap(Times(Wrap(d.ios + 1, U32), lim.hz), U32), lim.iops) + 1, U32);
      if wait > now - d.start then wait - (now - d.start) else 1
  }

  datatype Verdict = Verdict(ok: bool, wait: nat, dir: Dir)

  /** tg_may_dispatch: whether a bio of `size` bytes may go now, how long to wait if not, and the slice after. */
  function MayDispatch(lim: Limits, d: Dir, size: nat, now: nat): Verdict
    requires lim.Valid()
  {
    if lim.NoRule() then Verdict(true, 0, d)
    else
      var r := Renewed(lim, d, now);
      if WithinBps(lim, r, size, now) && WithinIops(lim, r, now) then Verdict(true, 0, r)
      else
        var wait := if WithinBps(lim, r, size, now) then IopsWait(lim, r, now) else BpsWait(lim, r, size, now);
        Verdict(false, wait, if r.end < now + wait then Extended(lim, r, now + wait) else r)
  }

  /** throtl_charge_bio. */
  function Charged(d: Dir, size: nat): Dir {
    d.(bytes := Wrap(d.bytes + size, U64), ios := Wrap(d.ios + 1, U32))
  }

  function TrimmedSlices(lim: Limits, d: Dir, now: nat): nat
    requires lim.Valid() && d.start <= now
  {
    Quot(now - d.start, lim.Slice())
  }

  function BytesTrim(lim: Limits, n: nat): nat
    requires lim.Valid()
  {
    Quot(Wrap(Times(Times(lim.bps, lim.Slice()), n), U64), lim.hz)
  }

  /** The product is one of 32-bit numbers. */
  function IoTrim(lim: Limits, n: nat): nat
    requires lim.Valid()
  {
    Quot(Wrap(Times(Times(lim.iops, lim.Slice()), n), U32), lim.hz)
  }

  function MinusOrZero(a: nat, b: nat): nat {
    if a >= b then a - b else 0
  }

  /** throtl_trim_slice. */
  function Trimmed(lim: Limits, d: Dir, now: nat): Dir
    requires lim.Valid()
  {
    if SliceUsed(d, now) then d
    else
      var e := Extended(lim, d, now + lim.Slice());
      var n := TrimmedSlices(lim, d, now);
      if n == 0 || (BytesTrim(lim, n) == 0 && IoTrim(lim, n) == 0) then e
      else e.(bytes := MinusOrZero(d.bytes, BytesTrim(lim, n)),
              ios := MinusOrZero(d.ios, IoTrim(lim, n)),
              start := d.start + Times(n, lim.Slice()))
  }

  // ---------------------------------------------------------------- histories of one direction

  /**
   What happens to one direction: a check that sends nothing (a refusal, or tg_update_disptime looking at the head
   of the list), or a bio that is checked, charged, and the slice trimmed at that time or later.
   */
  datatype Op = Look(size: nat, now: nat) | Send(size: nat, now: nat, trimAt: nat)

  function After(lim: Limits, d: Dir, op: Op): Dir
    requires lim.Valid()
  {
    match op
    case Look(size, now) => MayDispatch(lim, d, size, now).dir
    case Send(size, now, trimAt) => Trimmed(lim, Charged(MayDispatch(lim, d, size, now).dir, size), trimAt)
  }

  function Replay(lim: Limits, d: Dir, ops: seq<Op>): Dir
    requires lim.Valid()
  {
    if ops == [] then d else After(lim, Replay(lim, d, ops[..|ops| - 1]), ops[|ops| - 1])
  }

  function OpEnd(op: Op): nat {
    if op.Send? then op.trimAt else op.now
  }

  /** bi_size is 32 bits wide; a bio is sent only if the check allows it; time does not run backwards. */
  predicate OpOk(lim: Limits, d: Dir, op: Op, since: nat)
    requires lim.Valid()
  {
    && op.size < U32 && since <= op.now <= OpEnd(op)
    && (op.Send? ==> MayDispatch(lim, d, op.size, op.now).ok)
  }

  function EndTime(ops: seq<Op>, since: nat): nat {
    if ops == [] then since else OpEnd(ops[|ops| - 1])
  }

  ghost predicate History(lim: Limits, d: Dir, ops: seq<Op>, since: nat)
    requires lim.Valid()
  {
    ops != [] ==>
      var before := ops[..|ops| - 1];
      && History(lim, d, before, since)
      && OpOk(lim, Replay(lim, d, before), ops[|ops| - 1], EndTime(before, since))
  }

  function Bytes(ops: seq<Op>): nat {
    if ops == [] then 0
    else Bytes(ops[..|ops| - 1]) + if ops[|ops| - 1].Send? then ops[|ops| - 1].size else 0
  }

  function Ios(ops: seq<Op>): nat {
    if ops == [] then 0
    else Ios(ops[..|ops| - 1]) + if ops[|ops| - 1].Send? then 1 else 0
  }
}
