/**
 The FLUSH/FUA sequencer of block/blk-flush.c.

 `Queue` is the part of `struct request_queue` the sequencer touches. The functions on it say what each
 locked entry point does to that state; class `FlushQueue` performs the same steps in place. The log is
 history: it records what the sequencer and the device did, in order, and nothing ever reads it back to
 decide a step.
 */
module FlushModel {
  import opened Lists

  const HZ: nat := 200
  const FLUSH_PENDING_TIMEOUT: nat := 5 * HZ

  /** Identity of a `struct request`. */
  type Id = nat

  /** REQ_FLUSH and REQ_FUA, as request flags or as the capabilities in `q->flush_flags`. */
  datatype Flags = Flags(flush: bool, fua: bool)

  datatype Request = Request(sectors: nat, flags: Flags)

  /** A set of REQ_FSEQ_* action bits. */
  datatype Mask = Mask(pre: bool, data: bool, post: bool)

  datatype Stage = Preflush | Data | Postflush | Done

  const NO_BITS := Mask(false, false, false)
  const DATA_BIT := Mask(false, true, false)

  function Union(a: Mask, b: Mask): Mask {
    Mask(a.pre || b.pre, a.data || b.data, a.post || b.post)
  }

  predicate Overlap(a: Mask, b: Mask) {
    (a.pre && b.pre) || (a.data && b.data) || (a.post && b.post)
  }

  function Complement(a: Mask): Mask {
    Mask(!a.pre, !a.data, !a.post)
  }

  /** blk_flush_policy: the actions a request needs on a device with capabilities `dev`. */
  function Policy(dev: Flags, req: Request): Mask {
    Mask(dev.flush && req.flags.flush,
         req.sectors != 0,
         dev.flush && !dev.fua && req.flags.fua)
  }

  /** blk_flush_cur_seq: the lowest action bit not yet set. */
  function CurSeq(m: Mask): Stage {
    if !m.pre then Preflush else if !m.data then Data else if !m.post then Postflush else Done
  }

  function BitOf(s: Stage): Mask {
    Mask(s == Preflush, s == Data, s == Postflush)
  }

  /** The REQ_FSEQ_* encoding of masks and stages. */
  function MaskBits(m: Mask): bv8 {
    (if m.pre then 1 else 0) | (if m.data then 2 else 0) | (if m.post then 4 else 0)
  }

  function StageBit(s: Stage): bv8 {
    match s case Preflush => 1 case Data => 2 case Postflush => 4 case Done => 8
  }

  /** The stages and masks stand for the bits of the source: blk_flush_cur_seq is the lowest clear one. */
  lemma MasksAreBits(a: Mask, b: Mask)
    ensures StageBit(CurSeq(a)) == !MaskBits(a) & (MaskBits(a) + 1)
    ensures MaskBits(Union(a, b)) == MaskBits(a) | MaskBits(b) && MaskBits(Complement(a)) == 7 & !MaskBits(a)
    ensures Overlap(a, b) <==> MaskBits(a) & MaskBits(b) != 0
    ensures CurSeq(a) != Done ==> MaskBits(BitOf(CurSeq(a))) == StageBit(CurSeq(a))
  {
  }

  /** An entry of the dispatch list `q->queue_head`. */
  datatype Item = FlushRq | Rq(id: Id)

  datatype Event =
    | Submitted(id: Id, req: Request, dev: Flags)   // entered the sequencer
    | Bypassed(id: Id)                              // completed or queued directly, outside the sequencer
    | Completed(id: Id, bits: Mask, error: int)     // blk_flush_complete_seq recorded these actions
    | Waiting(id: Id)                               // joined the pending flush queue
    | DataQueued(id: Id)                            // its DATA was put on the dispatch list
    | Ended(id: Id, error: int)                     // completed towards the submitter
    | FlushIssued                                   // blk_kick_flush put the flush request on the list
    | FlushFinished(error: int)                     // the device completed the flush request
    | Written(id: Id, error: int)                   // a request outside the sequencer completed

  type TwoLists = s: seq<seq<Id>> | |s| == 2 witness [[], []]
  type Idx = i: nat | i < 2

  datatype Queue = Queue(
    lists: TwoLists,        // flush_queue[2]
    pendingIdx: Idx,        // flush_pending_idx
    runningIdx: Idx,        // flush_running_idx
    pendingSince: nat,      // flush_pending_since
    dataInFlight: seq<Id>,  // flush_data_in_flight
    head: seq<Item>,        // queue_head
    seqs: map<Id, Mask>,    // rq->flush.seq of every request being sequenced
    log: seq<Event>)
  {
    /** A flush is in flight exactly when the two indices differ. */
    predicate Busy() {
      pendingIdx != runningIdx
    }
  }

  const EMPTY_QUEUE := Queue([[], []], 0, 0, 0, [], [], map[], [])

  function Unlink(q: Queue, r: Id): Queue {
    q.(lists := [Without(q.lists[0], r), Without(q.lists[1], r)], dataInFlight := Without(q.dataInFlight, r))
  }

  /** blk_kick_flush. */
  function Kicked(q: Queue, now: nat): Queue {
    if q.pendingIdx != q.runningIdx || q.lists[q.pendingIdx] == [] then q
    else if q.dataInFlight != [] && now < q.pendingSince + FLUSH_PENDING_TIMEOUT then q
    else q.(pendingIdx := 1 - q.pendingIdx, head := q.head + [FlushRq], log := q.log + [FlushIssued])
  }

  /** list_move_tail(&rq->flush.list, pending), with the time stamp of a queue that was empty. */
  function Park(q: Queue, r: Id, now: nat): Queue {
    var u := Unlink(q, r);
    u.(pendingSince := if q.lists[q.pendingIdx] == [] then now else q.pendingSince,
       lists := u.lists[q.pendingIdx := u.lists[q.pendingIdx] + [r]],
       log := q.log + [Waiting(r)])
  }

  /** list_move_tail(&rq->flush.list, &q->flush_data_in_flight) and list_add to the dispatch list. */
  function StartData(q: Queue, r: Id): Queue {
    var u := Unlink(q, r);
    u.(dataInFlight := u.dataInFlight + [r], head := [Rq(r)] + q.head, log := q.log + [DataQueued(r)])
  }

  /** list_del_init(&rq->flush.list) and the final completion. */
  function Finish(q: Queue, r: Id, error: int): Queue {
    Unlink(q, r).(seqs := q.seqs - {r}, log := q.log + [Ended(r, error)])
  }

  /** `rq->flush.seq |= bits`. */
  function Record(q: Queue, r: Id, bits: Mask, error: int): Queue
    requires r in q.seqs
  {
    q.(seqs := q.seqs[r := Union(q.seqs[r], bits)], log := q.log + [Completed(r, bits, error)])
  }

  /** blk_flush_complete_seq up to, and without, the final blk_kick_flush. */
  function Advanced(q: Queue, r: Id, bits: Mask, error: int, now: nat): Queue
    requires r in q.seqs
  {
    var s := Record(q, r, bits, error);
    match if error == 0 then CurSeq(s.seqs[r]) else Done
    case Preflush => Park(s, r, now)
    case Postflush => Park(s, r, now)
    case Data => StartData(s, r)
    case Done => Finish(s, r, error)
  }

  /** blk_flush_complete_seq. */
  function CompletedSeq(q: Queue, r: Id, bits: Mask, error: int, now: nat): Queue
    requires r in q.seqs
  {
    Kicked(Advanced(q, r, bits, error, now), now)
  }

  /** The BUG_ON of flush_end_io, and the list entry being live. */
  predicate AtFlush(q: Queue, r: Id) {
    r in q.seqs && CurSeq(q.seqs[r]) in {Preflush, Postflush}
  }

  function Missing(q: Queue): set<(Id, Stage)> {
    set r, s | r in q.seqs && s in {Preflush, Data, Postflush} && !Overlap(q.seqs[r], BitOf(s)) :: (r, s)
  }

  lemma CompletedSeqShrinks(q: Queue, r: Id, error: int, now: nat)
    requires AtFlush(q, r)
    ensures Missing(CompletedSeq(q, r, BitOf(CurSeq(q.seqs[r])), error, now)) < Missing(q)
  {
    var c := CurSeq(q.seqs[r]);
    var q' := CompletedSeq(q, r, BitOf(c), error, now);
    assert (r, c) in Missing(q) && (r, c) !in Missing(q');
  }

  /** The loop of flush_end_io over `flush_queue[ri]`, about to treat `cur`. */
  function EndLoop(q: Queue, ri: Idx, cur: Option<Id>, error: int, now: nat): Queue
    decreases Missing(q)
  {
    if cur.None? || !AtFlush(q, cur.value) || cur.value !in q.lists[ri] then q
    else
      CompletedSeqShrinks(q, cur.value, error, now);
      EndLoop(CompletedSeq(q, cur.value, BitOf(CurSeq(q.seqs[cur.value])), error, now),
              ri, Next(q.lists[ri], cur.value), error, now)
  }

  function FlushAccounted(q: Queue, error: int): Queue {
    q.(runningIdx := 1 - q.runningIdx, log := q.log + [FlushFinished(error)])
  }

  /** flush_end_io. */
  function FlushEnded(q: Queue, error: int, now: nat): Queue {
    EndLoop(FlushAccounted(q, error), q.runningIdx, First(q.lists[q.runningIdx]), error, now)
  }

  /** flush_data_end_io. */
  function DataEnded(q: Queue, r: Id, error: int, now: nat): Queue
    requires r in q.seqs
  {
    CompletedSeq(q, r, DATA_BIT, error, now)
  }

  predicate NeedsSequence(policy: Mask) {
    policy.pre || policy.post
  }

  /** blk_insert_flush. */
  function Inserted(q: Queue, r: Id, req: Request, dev: Flags, now: nat): Queue {
    var policy := Policy(dev, req);
    if policy == NO_BITS then q.(log := q.log + [Bypassed(r)])
    else if !NeedsSequence(policy) then q.(head := q.head + [Rq(r)], log := q.log + [Bypassed(r)])
    else
      var s := q.(seqs := q.seqs[r := NO_BITS], log := q.log + [Submitted(r, req, dev)]);
      CompletedSeq(s, r, Complement(policy), 0, now)
  }
}
