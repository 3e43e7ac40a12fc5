/**
 The sequencer as blk-flush.c runs it: fields updated in place under the queue lock. Every method is proved to
 perform the step its specification function describes; the BUG_ONs of the source appear as assertions.
 */
module FlushInPlace {
  import opened Lists
  import opened FlushModel
  import opened FlushSafety

  lemma StillOffHead(q: Queue, ri: Idx, r: Id, bits: Mask, error: int, now: nat)
    requires r in q.seqs && r in q.lists[ri] && forall o :: o in q.lists[ri] ==> Rq(o) !in q.head
    requires q.runningIdx == 1 - ri
    ensures var q' := CompletedSeq(q, r, bits, error, now);
            forall o :: o in q'.lists[ri] ==> Rq(o) !in q'.head
  {
  }

  lemma EndLoopStep(q: Queue, ri: Idx, r: Id, error: int, now: nat)
    requires AtFlush(q, r) && r in q.lists[ri]
    ensures EndLoop(q, ri, Some(r), error, now)
         == EndLoop(CompletedSeq(q, r, BitOf(CurSeq(q.seqs[r])), error, now), ri, Next(q.lists[ri], r), error, now)
  {
  }

  class FlushQueue {
    var lists: TwoLists
    var pendingIdx: Idx
    var runningIdx: Idx
    var pendingSince: nat
    var dataInFlight: seq<Id>
    var head: seq<Item>
    var seqs: map<Id, Mask>
    var flushQueueDelayed: bool
    ghost var log: seq<Event>

    ghost function View(): Queue
      reads this
    {
      Queue(lists, pendingIdx, runningIdx, pendingSince, dataInFlight, head, seqs, log)
    }

    ghost predicate Valid()
      reads this
    {
      Inv(View())
    }

    constructor ()
      ensures Valid() && View() == EMPTY_QUEUE && !flushQueueDelayed
    {
      lists, pendingIdx, runningIdx, pendingSince := [[], []], 0, 0, 0;
      dataInFlight, head, seqs, flushQueueDelayed := [], [], map[], false;
      log := [];
      new;
      assert forall r :: StatusOf([], r) == Unseen;
    }

    /** blk_kick_flush; true if a flush was issued, which is when the dispatch list grew. */
    method KickFlush(now: nat) returns (issued: bool)
      modifies this
      ensures View() == Kicked(old(View()), now) && flushQueueDelayed == old(flushQueueDelayed)
      ensures issued <==> head != old(head)
      ensures old(head) <= head
    {
      if pendingIdx != runningIdx || lists[pendingIdx] == [] {
        return false;
      }
      if dataInFlight != [] && now < pendingSince + FLUSH_PENDING_TIMEOUT {
        return false;
      }
      pendingIdx := 1 - pendingIdx;
      head := head + [FlushRq];
      log := log + [FlushIssued];
      return true;
    }

    method UnlinkFlush(r: Id)
      modifies this`lists, this`dataInFlight
      ensures View() == Unlink(old(View()), r)
    {
      lists := [Without(lists[0], r), Without(lists[1], r)];
      dataInFlight := Without(dataInFlight, r);
    }

    /** The `queue for flush` case of blk_flush_complete_seq. */
    method MoveToPending(r: Id, now: nat)
      modifies this
      ensures View() == Park(old(View()), r, now) && flushQueueDelayed == old(flushQueueDelayed)
    {
      if lists[pendingIdx] == [] {
        pendingSince := now;
      }
      UnlinkFlush(r);
      lists := lists[pendingIdx := lists[pendingIdx] + [r]];
      log := log + [Waiting(r)];
    }

    /** The DATA case of blk_flush_complete_seq. */
    method MoveToData(r: Id)
      modifies this
      ensures View() == StartData(old(View()), r) && flushQueueDelayed == old(flushQueueDelayed)
    {
      UnlinkFlush(r);
      dataInFlight := dataInFlight + [r];
      head := [Rq(r)] + head;
      log := log + [DataQueued(r)];
    }

    /** The DONE case of blk_flush_complete_seq. */
    method EndRequest(r: Id, error: int)
      requires Rq(r) !in head   // BUG_ON(!list_empty(&rq->queuelist))
      modifies this
      ensures View() == Finish(old(View()), r, error) && flushQueueDelayed == old(flushQueueDelayed)
    {
      UnlinkFlush(r);
      seqs := seqs - {r};
      log := log + [Ended(r, error)];
    }

    /** blk_flush_complete_seq; true if the dispatch list grew. */
    method CompleteSeq(r: Id, bits: Mask, error: int, now: nat) returns (queued: bool)
      requires r in seqs && !Overlap(seqs[r], bits)   // BUG_ON(rq->flush.seq & seq)
      requires Rq(r) !in head
      modifies this
      ensures View() == CompletedSeq(old(View()), r, bits, error, now) && flushQueueDelayed == old(flushQueueDelayed)
      ensures queued <==> |head| > |old(head)|
      ensures |head| >= |old(head)|
    {
      queued := false;
      seqs := seqs[r := Union(seqs[r], bits)];
      log := log + [Completed(r, bits, error)];
      assert View() == Record(old(View()), r, bits, error);
      var stage := if error == 0 then CurSeq(seqs[r]) else Done;
      match stage {
        case Preflush | Postflush =>
          MoveToPending(r, now);
        case Data =>
          MoveToData(r);
          queued := true;
        case Done =>
          EndRequest(r, error);
      }
      assert View() == Advanced(old(View()), r, bits, error, now);
      var issued := KickFlush(now);
      queued := issued || queued;
    }

    /** One turn of the loop in flush_end_io: `n` is read before `r` is moved. */
    method CreditOne(ri: Idx, r: Id, error: int, now: nat) returns (n: Option<Id>, grew: bool)
      requires LoopInv(View(), ri, Some(r), error) == true
      requires forall o :: o in lists[ri] ==> Rq(o) !in head
      modifies this
      ensures AtFlush(old(View()), r)
      ensures View() == CompletedSeq(old(View()), r, BitOf(CurSeq(old(seqs)[r])), error, now)
      ensures n == Next(old(lists)[ri], r) && LoopInv(View(), ri, n, error) == true
      ensures forall o :: o in lists[ri] ==> Rq(o) !in head
      ensures flushQueueDelayed == old(flushQueueDelayed)
      ensures (grew <==> |head| > |old(head)|) && |head| >= |old(head)|
    {
      ghost var q := View();
      LoopStep(q, ri, r, error, now);
      var stage := CurSeq(seqs[r]);   // LoopStep excludes the BUG_ON on this stage
      n := Next(lists[ri], r);
      grew := CompleteSeq(r, BitOf(stage), error, now);
      StillOffHead(q, ri, r, BitOf(stage), error, now);
    }

    /** The loop of flush_end_io; true if it put something on the dispatch list. */
    method CreditAll(ri: Idx, error: int, now: nat) returns (queued: bool)
      requires LoopInv(View(), ri, First(lists[ri]), error) == true
      requires forall r :: r in lists[ri] ==> Rq(r) !in head
      modifies this
      ensures View() == EndLoop(old(View()), ri, First(old(lists)[ri]), error, now)
      ensures flushQueueDelayed == old(flushQueueDelayed) && (queued <==> |head| > |old(head)|)
    {
      ghost var target := EndLoop(View(), ri, First(lists[ri]), error, now);
      queued := false;
      var cur := First(lists[ri]);
      while cur.Some?
        invariant LoopInv(View(), ri, cur, error) == true
        invariant EndLoop(View(), ri, cur, error, now) == target
        invariant (queued <==> |head| > |old(head)|) && |head| >= |old(head)|
        invariant forall r :: r in lists[ri] ==> Rq(r) !in head
        invariant flushQueueDelayed == old(flushQueueDelayed)
        decreases Missing(View())
      {
        ghost var q, r := View(), cur.value;
        var n, grew := CreditOne(ri, cur.value, error, now);
        CompletedSeqShrinks(q, r, error, now);
        EndLoopStep(q, ri, r, error, now);
        queued := queued || grew;
        cur := n;
      }
    }

    /** flush_end_io; true if the queue has to be run again. */
    method FlushEndIo(error: int, now: nat) returns (rerun: bool)
      requires Valid() && pendingIdx != runningIdx
      requires forall r :: r in lists[runningIdx] ==> Rq(r) !in head
      modifies this
      ensures Valid() && View() == FlushEnded(old(View()), error, now)
      ensures !flushQueueDelayed
      ensures rerun <==> old(flushQueueDelayed) || |head| > |old(head)|
    {
      AccountedLoop(View(), error);
      FlushEndedInv(View(), error, now);
      var ri := runningIdx;
      runningIdx := 1 - runningIdx;
      log := log + [FlushFinished(error)];
      assert View() == FlushAccounted(old(View()), error);
      var queued := CreditAll(ri, error, now);
      rerun := queued || flushQueueDelayed;
      flushQueueDelayed := false;
    }

    /** flush_data_end_io; true if the queue has to be run again. */
    method FlushDataEndIo(r: Id, error: int, now: nat) returns (rerun: bool)
      requires Valid() && r in dataInFlight && Rq(r) !in head
      modifies this
      ensures Valid() && View() == DataEnded(old(View()), r, error, now)
      ensures rerun <==> |head| > |old(head)|
    {
      DataRecorded(View(), r, error);
      DataEndedInv(View(), r, error, now);
      rerun := CompleteSeq(r, DATA_BIT, error, now);
    }

    /** blk_insert_flush of a request that has not been seen before. */
    method InsertFlush(r: Id, req: Request, dev: Flags, now: nat)
      requires Valid() && Fresh(View(), r) && Rq(r) !in head
      modifies this
      ensures Valid() && View() == Inserted(old(View()), r, req, dev, now)
    {
      InsertedInv(View(), r, req, dev, now);
      var policy := Policy(dev, req);
      if policy == NO_BITS {
        log := log + [Bypassed(r)];
        return;
      }
      if policy.data && !(policy.pre || policy.post) {
        head := head + [Rq(r)];
        log := log + [Bypassed(r)];
        return;
      }
      seqs := seqs[r := NO_BITS];
      log := log + [Submitted(r, req, dev)];
      var _ := CompleteSeq(r, Complement(policy), 0, now);
    }
  }
}
