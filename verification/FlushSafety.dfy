/**
 What the sequencer's log guarantees in every run.

 `Status` reads a request's history back from the log, `EventOk` says what must have happened before each
 event, and `Inv` ties the queue to its log. `Inv` is kept by every entry point.
 */
module FlushSafety {
  import opened Lists
  import opened FlushModel

  /** What the log says about one request. */
  datatype Status =
    | Unseen
    | Live(subAt: nat,            // index of its Submitted event
           req: Request, dev: Flags,
           started: bool,         // its skipped actions have been recorded
           clean: bool,           // no action was recorded with an error
           got: Mask,             // actions recorded so far
           dataAt: Option<nat>,   // index of the event that recorded DATA
           waitAt: nat)           // index of its latest Waiting event
    | Dead
  {
    function Wants(): Mask
      requires Live?
    {
      Policy(dev, req)
    }
  }

  function Status1(s: Status, i: nat, e: Event, r: Id): Status {
    match e
    case Submitted(id, req, dev) =>
      if id == r && s.Unseen? then Live(i, req, dev, false, true, NO_BITS, None, i) else s
    case Completed(id, bits, error) =>
      if id == r && s.Live? then
        s.(started := true, clean := s.clean && error == 0, got := Union(s.got, bits),
           dataAt := if s.started && bits == DATA_BIT && error == 0 then Some(i) else s.dataAt)
      else s
    case Waiting(id) => if id == r && s.Live? then s.(waitAt := i) else s
    case Ended(id, _) => if id == r then Dead else s
    case Bypassed(id) => if id == r then Dead else s
    case _ => s
  }

  function StatusOf(log: seq<Event>, r: Id): Status {
    if log == [] then Unseen
    else
      var n := |log| - 1;
      Status1(StatusOf(log[..n], r), n, log[n], r)
  }

  lemma StatusAppend(log: seq<Event>, e: Event, r: Id)
    ensures StatusOf(log + [e], r) == Status1(StatusOf(log, r), |log|, e, r)
  {
    assert (log + [e])[..|log|] == log;
  }

  /** A flush issued at or after index `i` has completed without error. */
  ghost predicate FlushedSince(log: seq<Event>, i: nat) {
    exists j: nat, k: nat :: i <= j && FlushSpan(log, j, k) && log[k] == FlushFinished(0)
  }

  /** The flush issued at `j` completed at `k`. */
  ghost predicate FlushSpan(log: seq<Event>, j: nat, k: nat) {
    && j < k < |log|
    && log[j] == FlushIssued
    && log[k].FlushFinished?
    && forall m :: j < m < k ==> !log[m].FlushFinished?
  }

  /** The flush issued at `j` has not completed. */
  ghost predicate OpenFlush(log: seq<Event>, j: nat) {
    && j < |log|
    && log[j] == FlushIssued
    && forall m :: j < m < |log| ==> !log[m].FlushFinished?
  }

  ghost predicate FlushOpen(log: seq<Event>) {
    exists j: nat :: OpenFlush(log, j)
  }

  /** The latest event recorded actions of `r` with this error. */
  predicate EndsWith(e: Event, r: Id, error: int) {
    e.Completed? && e.id == r && e.error == error
  }

  /** What must already be in the log when `e` is appended to it. */
  ghost predicate EventOk(log: seq<Event>, e: Event) {
    match e
    case Submitted(id, _, _) => StatusOf(log, id).Unseen?
    case Bypassed(id) => StatusOf(log, id).Unseen?
    case Completed(id, bits, error) =>
      var s := StatusOf(log, id);
      && s.Live? && s.clean
      && bits == (if s.started then BitOf(CurSeq(s.got)) else Complement(s.Wants()))
      && (s.started ==> CurSeq(s.got) != Done)
    case Waiting(id) =>
      var s := StatusOf(log, id);
      s.Live? && s.started && CurSeq(s.got) in {Preflush, Postflush}
    case DataQueued(id) =>
      var s := StatusOf(log, id);
      && s.Live? && s.started && CurSeq(s.got) == Data && s.Wants().data
      && (s.Wants().pre ==> FlushedSince(log, s.subAt))
    case Ended(id, error) =>
      var s := StatusOf(log, id);
      && s.Live? && s.started
      && log != [] && EndsWith(log[|log| - 1], id, error)
      && (error == 0 ==>
            && CurSeq(s.got) == Done
            && (s.Wants().pre ==> FlushedSince(log, s.subAt))
            && (s.Wants().data ==> s.dataAt.Some?)
            && (s.Wants().data && s.Wants().post ==> FlushedSince(log, s.dataAt.value)))
    case FlushIssued => !FlushOpen(log)
    case FlushFinished(_) => FlushOpen(log)
    case Written(id, _) => StatusOf(log, id).Dead?
  }

  ghost predicate GoodLog(log: seq<Event>) {
    forall n :: 0 <= n < |log| ==> EventOk(log[..n], log[n])
  }

  lemma GoodAppend(log: seq<Event>, e: Event)
    requires GoodLog(log) && EventOk(log, e)
    ensures GoodLog(log + [e])
  {
    var l := log + [e];
    forall n | 0 <= n < |l| ensures EventOk(l[..n], l[n]) {
      assert n < |log| ==> l[..n] == log[..n];
      assert n == |log| ==> l[..n] == log;
    }
  }

  lemma FlushedMonotone(log: seq<Event>, more: seq<Event>, i: nat, i': nat)
    requires FlushedSince(log, i) && i' <= i
    ensures FlushedSince(log + more, i')
  {
    var j: nat, k: nat :| i <= j && FlushSpan(log, j, k) && log[k] == FlushFinished(0);
    assert FlushSpan(log + more, j, k);
  }

  // ---------------------------------------------------------------- the invariant

  /** What the log says about a request whose latest actions were recorded without error. */
  ghost predicate RqFacts(q: Queue, r: Id) {
    var s := StatusOf(q.log, r);
    && s.Live? && s.started && s.clean
    && NeedsSequence(s.Wants())
    && r in q.seqs && q.seqs[r] == s.got
    && (!s.Wants().pre ==> s.got.pre) && (!s.Wants().data ==> s.got.data) && (!s.Wants().post ==> s.got.post)
    && (s.Wants().pre && s.got.pre ==> FlushedSince(q.log, s.subAt))
    && (s.Wants().data && s.got.data ==> s.dataAt.Some?)
    && (s.Wants().data && s.got.data && s.Wants().post && s.got.post ==> FlushedSince(q.log, s.dataAt.value))
    && (s.Wants().data && s.got.data ==> s.got.pre)
    && (s.Wants().post && s.got.post ==> s.got.pre && s.got.data)
  }

  /** Facts about one request that is being sequenced. */
  ghost predicate RqOk(q: Queue, r: Id) {
    RqFacts(q, r) && CurSeq(q.seqs[r]) != Done
  }

  /** What waiting for a flush means: the Waiting event follows what the flush has to cover. */
  ghost predicate WaitOk(q: Queue, r: Id) {
    var s := StatusOf(q.log, r);
    && AtFlush(q, r)
    && s.Live?
    && s.subAt < s.waitAt < |q.log|
    && (CurSeq(s.got) == Postflush && s.Wants().data && s.dataAt.Some? ==> s.dataAt.value < s.waitAt)
  }

  /** No entry is on two lists, and exactly the sequenced requests are on one; `x` itself may be on none. */
  ghost predicate ListsOk(q: Queue, x: Option<Id>) {
    && NoDup(q.lists[0]) && NoDup(q.lists[1]) && NoDup(q.dataInFlight)
    && Disjoint(q.lists[0], q.lists[1]) && Disjoint(q.lists[0], q.dataInFlight) && Disjoint(q.lists[1], q.dataInFlight)
    && (forall r :: r in q.lists[0] || r in q.lists[1] || r in q.dataInFlight ==> r in q.seqs)
    && (forall r :: r in q.seqs && Some(r) != x ==> r in q.lists[0] || r in q.lists[1] || r in q.dataInFlight)
  }

  ghost predicate RequestsOk(q: Queue, x: Option<Id>) {
    && (forall r :: r in q.seqs && Some(r) != x ==> RqOk(q, r))
    && (forall r :: StatusOf(q.log, r).Live? ==> r in q.seqs)
    && (forall r :: (r in q.lists[0] || r in q.lists[1]) && Some(r) != x ==> WaitOk(q, r))
    && (forall r :: r in q.dataInFlight && Some(r) != x ==> r in q.seqs && CurSeq(q.seqs[r]) == Data)
  }

  ghost predicate QueuedBefore(q: Queue, i: Idx, j: nat) {
    forall r :: r in q.lists[i] ==> StatusOf(q.log, r).Live? && StatusOf(q.log, r).waitAt < j
  }

  /** The requests of the running queue were all waiting when the open flush was issued. */
  ghost predicate RunningOk(q: Queue) {
    && (q.Busy() <==> FlushOpen(q.log))
    && (q.Busy() ==>
          && q.lists[q.runningIdx] != []
          && exists j: nat :: OpenFlush(q.log, j) && QueuedBefore(q, q.runningIdx, j))
  }

  ghost predicate Base(q: Queue, x: Option<Id>) {
    && ListsOk(q, x) && RequestsOk(q, x) && RunningOk(q) && GoodLog(q.log)
    && (x.Some? && q.Busy() ==> x.value !in q.lists[q.runningIdx])
  }

  /** Nothing is left on a flush queue that no running flush and no data completion will come back to. */
  ghost predicate NotStranded(q: Queue) {
    !q.Busy() ==> q.lists[1 - q.pendingIdx] == [] && (q.dataInFlight == [] ==> q.lists[q.pendingIdx] == [])
  }

  ghost predicate Inv(q: Queue) {
    Base(q, None) && NotStranded(q)
  }

  // ---------------------------------------------------------------- how one event changes what the log says

  /** `log'` is `log` and one event that is not a flush event and, if any request, about `r`. */
  ghost predicate OneAbout(log: seq<Event>, log': seq<Event>, r: Id) {
    exists e :: log' == log + [e] && !e.FlushIssued? && !e.FlushFinished? && e.id == r
  }

  lemma OpenKept(log: seq<Event>, log': seq<Event>, r: Id)
    requires OneAbout(log, log', r)
    ensures forall j: nat :: OpenFlush(log, j) <==> OpenFlush(log', j)
    ensures FlushOpen(log) <==> FlushOpen(log')
  {
    var e :| log' == log + [e] && !e.FlushIssued? && !e.FlushFinished? && e.id == r;
    forall j: nat ensures OpenFlush(log, j) <==> OpenFlush(log', j) {
      if OpenFlush(log', j) {
        assert j < |log|;
        forall m | j < m < |log| ensures !log[m].FlushFinished? {
          assert log'[m] == log[m];
        }
      }
    }
  }

  lemma OtherKept(q: Queue, q': Queue, r: Id, o: Id)
    requires OneAbout(q.log, q'.log, r) && o != r
    requires o in q.seqs ==> o in q'.seqs && q'.seqs[o] == q.seqs[o]
    ensures StatusOf(q'.log, o) == StatusOf(q.log, o)
    ensures o in q.seqs && RqOk(q, o) ==> RqOk(q', o)
    ensures WaitOk(q, o) ==> WaitOk(q', o)
  {
    var e :| q'.log == q.log + [e] && !e.FlushIssued? && !e.FlushFinished? && e.id == r;
    StatusAppend(q.log, e, o);
    var s := StatusOf(q.log, o);
    if s.Live? && FlushedSince(q.log, s.subAt) {
      FlushedMonotone(q.log, [e], s.subAt, s.subAt);
    }
    if s.Live? && s.dataAt.Some? && FlushedSince(q.log, s.dataAt.value) {
      FlushedMonotone(q.log, [e], s.dataAt.value, s.dataAt.value);
    }
  }

  // ---------------------------------------------------------------- blk_flush_complete_seq

  /** Same flush state: what unlinking, recording and moving `r` leave alone. */
  ghost predicate SameFlush(q: Queue, q': Queue, r: Id) {
    && q'.pendingIdx == q.pendingIdx && q'.runningIdx == q.runningIdx
    && OneAbout(q.log, q'.log, r)
    && (forall o :: o in q.lists[q.runningIdx] && o != r ==> o in q'.lists[q.runningIdx])
    && (q.Busy() ==> forall o :: o in q'.lists[q.runningIdx] ==> o in q.lists[q.runningIdx])
  }

  lemma RunningKept(q: Queue, q': Queue, r: Id)
    requires RunningOk(q) && SameFlush(q, q', r)
    requires q.Busy() ==> r !in q.lists[q.runningIdx]
    ensures RunningOk(q')
    ensures q'.Busy() ==> r !in q'.lists[q'.runningIdx]
  {
    OpenKept(q.log, q'.log, r);
    if q.Busy() {
      var j: nat :| OpenFlush(q.log, j) && QueuedBefore(q, q.runningIdx, j);
      forall o | o in q'.lists[q'.runningIdx]
        ensures StatusOf(q'.log, o).Live? && StatusOf(q'.log, o).waitAt < j
      {
        var e :| q'.log == q.log + [e] && !e.FlushIssued? && !e.FlushFinished? && e.id == r;
        StatusAppend(q.log, e, o);
      }
      assert QueuedBefore(q', q'.runningIdx, j);
      var o := q.lists[q.runningIdx][0];
      assert o in q'.lists[q'.runningIdx];
    }
  }

  lemma OthersKept(q: Queue, q': Queue, r: Id)
    requires RequestsOk(q, Some(r)) && OneAbout(q.log, q'.log, r)
    requires forall o :: o != r ==> (o in q.seqs <==> o in q'.seqs)
    requires forall o :: o != r && o in q.seqs ==> q'.seqs[o] == q.seqs[o]
    requires forall o :: o != r && (o in q'.lists[0] || o in q'.lists[1]) ==> o in q.lists[0] || o in q.lists[1]
    requires forall o :: o != r && o in q'.dataInFlight ==> o in q.dataInFlight
    requires r in q'.seqs || !StatusOf(q'.log, r).Live?
    ensures RequestsOk(q', Some(r))
  {
    forall o | o != r
      ensures StatusOf(q'.log, o) == StatusOf(q.log, o)
      ensures o in q.seqs && RqOk(q, o) ==> RqOk(q', o)
      ensures WaitOk(q, o) ==> WaitOk(q', o)
    {
      OtherKept(q, q', r, o);
    }
  }

  lemma UnlinkLists(q: Queue, r: Id)
    requires ListsOk(q, Some(r))
    ensures ListsOk(Unlink(q, r), Some(r))
  {
    WithoutNoDup(q.lists[0], r);
    WithoutNoDup(q.lists[1], r);
    WithoutNoDup(q.dataInFlight, r);
  }

  /** Recording actions leaves a queue that is right about everything but the place of `r`. */
  lemma RecordBase(q: Queue, r: Id, bits: Mask, error: int)
    requires Base(q, Some(r)) && r in q.seqs
    requires EventOk(q.log, Completed(r, bits, error))
    ensures Base(Record(q, r, bits, error), Some(r))
  {
    var e := Completed(r, bits, error);
    var q' := Record(q, r, bits, error);
    assert OneAbout(q.log, q'.log, r) by {
      assert q'.log == q.log + [e];
    }
    GoodAppend(q.log, e);
    OthersKept(q, q', r);
    RunningKept(q, q', r);
  }

  lemma ParkLists(q: Queue, r: Id, now: nat)
    requires ListsOk(q, Some(r)) && r in q.seqs
    ensures ListsOk(Park(q, r, now), None)
  {
    UnlinkLists(q, r);
    AppendNoDup(Unlink(q, r).lists[q.pendingIdx], r);
  }

  lemma ParkSelf(q: Queue, r: Id, now: nat)
    requires RqFacts(q, r) && AtFlush(q, r)
    ensures RqOk(Park(q, r, now), r) && WaitOk(Park(q, r, now), r)
  {
    StatusAppend(q.log, Waiting(r), r);
    RqKept(q, Park(q, r, now), Waiting(r), r);
    StatusBounds(q.log, r);
  }

  lemma ParkBase(q: Queue, r: Id, now: nat)
    requires Base(q, Some(r)) && RqFacts(q, r) && AtFlush(q, r)
    ensures Base(Park(q, r, now), None)
  {
    var e := Waiting(r);
    var q' := Park(q, r, now);
    assert OneAbout(q.log, q'.log, r) by {
      assert q'.log == q.log + [e];
    }
    GoodAppend(q.log, e);
    ParkLists(q, r, now);
    OthersKept(q, q', r);
    RunningKept(q, q', r);
    ParkSelf(q, r, now);
  }

  lemma StartDataBase(q: Queue, r: Id)
    requires Base(q, Some(r)) && RqFacts(q, r) && CurSeq(q.seqs[r]) == Data
    ensures Base(StartData(q, r), None)
  {
    var e := DataQueued(r);
    var q' := StartData(q, r);
    StatusAppend(q.log, e, r);
    assert OneAbout(q.log, q'.log, r) by {
      assert q'.log == q.log + [e];
    }
    GoodAppend(q.log, e);
    UnlinkLists(q, r);
    AppendNoDup(Unlink(q, r).dataInFlight, r);
    OthersKept(q, q', r);
    RunningKept(q, q', r);
    RqKept(q, q', e, r);
  }

  lemma FinishBase(q: Queue, r: Id, error: int)
    requires Base(q, Some(r)) && r in q.seqs
    requires EventOk(q.log, Ended(r, error))
    ensures Base(Finish(q, r, error), None)
  {
    var e := Ended(r, error);
    var q' := Finish(q, r, error);
    StatusAppend(q.log, e, r);
    assert OneAbout(q.log, q'.log, r) by {
      assert q'.log == q.log + [e];
    }
    GoodAppend(q.log, e);
    UnlinkLists(q, r);
    OthersKept(q, q', r);
    RunningKept(q, q', r);
  }

  /** Positions recorded in a status lie inside the log, in order. */
  lemma {:induction false} StatusBounds(log: seq<Event>, r: Id)
    ensures var s := StatusOf(log, r);
            s.Live? ==>
              && s.subAt < |log| && s.waitAt < |log|
              && log[s.subAt] == Submitted(r, s.req, s.dev)
              && (s.dataAt.Some? ==>
                    s.subAt < s.dataAt.value < |log| && log[s.dataAt.value] == Completed(r, DATA_BIT, 0))
  {
    if log != [] {
      StatusBounds(log[..|log| - 1], r);
    }
  }

  /** An event about `r` that leaves its recorded actions alone keeps the facts about it. */
  lemma RqKept(q: Queue, q': Queue, e: Event, r: Id)
    requires RqFacts(q, r) && q'.log == q.log + [e] && q'.seqs == q.seqs
    requires e == Waiting(r) || e == DataQueued(r)
    ensures RqFacts(q', r)
  {
    StatusAppend(q.log, e, r);
    var s := StatusOf(q.log, r);
    if FlushedSince(q.log, s.subAt) {
      FlushedMonotone(q.log, [e], s.subAt, s.subAt);
    }
    if s.dataAt.Some? && FlushedSince(q.log, s.dataAt.value) {
      FlushedMonotone(q.log, [e], s.dataAt.value, s.dataAt.value);
    }
  }

  lemma AdvancedBase(q: Queue, r: Id, bits: Mask, error: int, now: nat)
    requires Base(q, Some(r)) && r in q.seqs
    requires EventOk(q.log, Completed(r, bits, error))
    requires error == 0 ==> RqFacts(Record(q, r, bits, error), r)
    ensures Base(Advanced(q, r, bits, error, now), None) == true
  {
    RecordBase(q, r, bits, error);
    var s := Record(q, r, bits, error);
    StatusAppend(q.log, Completed(r, bits, error), r);
    var st := if error == 0 then CurSeq(s.seqs[r]) else Done;
    if st == Data {
      StartDataBase(s, r);
    } else if st == Done {
      FinishBase(s, r, error);
    } else {
      ParkBase(s, r, now);
    }
  }

  /** blk_kick_flush keeps the invariant, and leaves no flush waiting without a reason. */
  lemma KickedBase(q: Queue, now: nat)
    requires Base(q, None)
    ensures Base(Kicked(q, now), None)
    ensures !Kicked(q, now).Busy() && Kicked(q, now).dataInFlight == [] ==> Kicked(q, now).lists[q.pendingIdx] == []
  {
    var q' := Kicked(q, now);
    if q' != q {
      var e := FlushIssued;
      GoodAppend(q.log, e);
      forall r
        ensures StatusOf(q'.log, r) == StatusOf(q.log, r)
        ensures r in q.seqs && RqOk(q, r) ==> RqOk(q', r)
        ensures WaitOk(q, r) ==> WaitOk(q', r)
      {
        StatusFlushEvent(q, q', e, r);
      }
      assert OpenFlush(q'.log, |q.log|);
      assert QueuedBefore(q', q'.runningIdx, |q.log|);
    }
  }

  lemma StatusFlushEvent(q: Queue, q': Queue, e: Event, r: Id)
    requires e.FlushIssued? || e.FlushFinished? || e.Written?
    requires q'.log == q.log + [e] && q'.seqs == q.seqs
    ensures StatusOf(q'.log, r) == StatusOf(q.log, r)
    ensures r in q.seqs && RqOk(q, r) ==> RqOk(q', r)
    ensures WaitOk(q, r) ==> WaitOk(q', r)
  {
    StatusAppend(q.log, e, r);
    var s := StatusOf(q.log, r);
    if s.Live? && FlushedSince(q.log, s.subAt) {
      FlushedMonotone(q.log, [e], s.subAt, s.subAt);
    }
    if s.Live? && s.dataAt.Some? && FlushedSince(q.log, s.dataAt.value) {
      FlushedMonotone(q.log, [e], s.dataAt.value, s.dataAt.value);
    }
  }

  lemma CompletedSeqBase(q: Queue, r: Id, bits: Mask, error: int, now: nat)
    requires Base(q, Some(r)) && r in q.seqs
    requires EventOk(q.log, Completed(r, bits, error))
    requires error == 0 ==> RqFacts(Record(q, r, bits, error), r)
    ensures var q' := CompletedSeq(q, r, bits, error, now);
            && Base(q', None)
            && (!q'.Busy() && q'.dataInFlight == [] ==> q'.lists[q'.pendingIdx] == [])
  {
    AdvancedBase(q, r, bits, error, now);
    KickedBase(Advanced(q, r, bits, error, now), now);
  }

  /** While no flush runs, completing a step never touches the idle flush queue. */
  lemma StillSwept(q: Queue, r: Id, bits: Mask, error: int, now: nat)
    requires r in q.seqs && (!q.Busy() ==> q.lists[1 - q.pendingIdx] == [])
    ensures var q' := CompletedSeq(q, r, bits, error, now);
            !q'.Busy() ==> q'.lists[1 - q'.pendingIdx] == []
  {
  }

  lemma CompletedSeqInv(q: Queue, r: Id, bits: Mask, error: int, now: nat)
    requires Base(q, Some(r)) && r in q.seqs && (!q.Busy() ==> q.lists[1 - q.pendingIdx] == [])
    requires EventOk(q.log, Completed(r, bits, error))
    requires error == 0 ==> RqFacts(Record(q, r, bits, error), r)
    ensures Inv(CompletedSeq(q, r, bits, error, now))
  {
    CompletedSeqBase(q, r, bits, error, now);
    StillSwept(q, r, bits, error, now);
  }

  // ---------------------------------------------------------------- the entry points keep the invariant

  ghost predicate Fresh(q: Queue, r: Id) {
    StatusOf(q.log, r).Unseen?
  }

  /** The queue with `r` in the sequencer and nothing recorded for it. */
  function Entered(q: Queue, r: Id, req: Request, dev: Flags): Queue {
    q.(seqs := q.seqs[r := NO_BITS], log := q.log + [Submitted(r, req, dev)])
  }

  lemma SubmitBase(q: Queue, r: Id, req: Request, dev: Flags)
    requires Inv(q) && Fresh(q, r)
    ensures Base(Entered(q, r, req, dev), Some(r))
  {
    var e := Submitted(r, req, dev);
    var s := Entered(q, r, req, dev);
    assert r !in q.seqs;
    assert OneAbout(q.log, s.log, r) by {
      assert s.log == q.log + [e];
    }
    GoodAppend(q.log, e);
    StatusAppend(q.log, e, r);
    OthersKept(q, s, r);
    RunningKept(q, s, r);
  }

  /** The record of the actions `r` skips. */
  lemma SubmitRecorded(q: Queue, r: Id, req: Request, dev: Flags)
    requires Fresh(q, r) && NeedsSequence(Policy(dev, req))
    ensures var s, skips := Entered(q, r, req, dev), Complement(Policy(dev, req));
            EventOk(s.log, Completed(r, skips, 0)) && RqFacts(Record(s, r, skips, 0), r)
  {
    StatusAppend(q.log, Submitted(r, req, dev), r);
    StatusAppend(Entered(q, r, req, dev).log, Completed(r, Complement(Policy(dev, req)), 0), r);
  }

  lemma BypassInv(q: Queue, q': Queue, r: Id)
    requires Inv(q) && Fresh(q, r)
    requires q' == q.(head := q'.head, log := q.log + [Bypassed(r)])
    ensures Inv(q')
  {
    var e := Bypassed(r);
    assert r !in q.seqs;
    assert OneAbout(q.log, q'.log, r) by {
      assert q'.log == q.log + [e];
    }
    StatusAppend(q.log, e, r);
    GoodAppend(q.log, e);
    OthersKept(q, q', r);
    RunningKept(q, q', r);
  }

  /** blk_insert_flush keeps the invariant. */
  lemma InsertedInv(q: Queue, r: Id, req: Request, dev: Flags, now: nat)
    requires Inv(q) && Fresh(q, r)
    ensures Inv(Inserted(q, r, req, dev, now))
  {
    var policy := Policy(dev, req);
    if NeedsSequence(policy) {
      SubmitBase(q, r, req, dev);
      SubmitRecorded(q, r, req, dev);
      CompletedSeqInv(Entered(q, r, req, dev), r, Complement(policy), 0, now);
    } else {
      BypassInv(q, Inserted(q, r, req, dev, now), r);
    }
  }

  /** flush_data_end_io keeps the invariant. */
  lemma DataEndedInv(q: Queue, r: Id, error: int, now: nat)
    requires Inv(q) && r in q.dataInFlight
    ensures Inv(DataEnded(q, r, error, now))
  {
    DataRecorded(q, r, error);
    CompletedSeqInv(q, r, DATA_BIT, error, now);
  }

  lemma BaseBut(q: Queue, r: Id)
    requires Base(q, None) && (q.Busy() ==> r !in q.lists[q.runningIdx])
    ensures Base(q, Some(r))
  {
  }

  lemma DataRecorded(q: Queue, r: Id, error: int)
    requires Inv(q) && r in q.dataInFlight
    ensures EventOk(q.log, Completed(r, DATA_BIT, error))
    ensures Base(q, Some(r))
    ensures error == 0 ==> RqFacts(Record(q, r, DATA_BIT, error), r)
  {
    BaseBut(q, r);
    var e := Completed(r, DATA_BIT, error);
    assert RqOk(q, r);
    StatusAppend(q.log, e, r);
    var s := StatusOf(q.log, r);
    if s.Wants().pre {
      FlushedMonotone(q.log, [e], s.subAt, s.subAt);
    }
  }

  // ---------------------------------------------------------------- flush_end_io

  /** The flush that just completed covers what every waiting request needs of it. */
  ghost predicate Covered(q: Queue, ri: Idx) {
    forall r :: r in q.lists[ri] ==> CoversRq(q, r)
  }

  ghost predicate CoversRq(q: Queue, r: Id) {
    var s := StatusOf(q.log, r);
    && s.Live?
    && (CurSeq(s.got) == Preflush ==> FlushedSince(q.log, s.subAt))
    && (CurSeq(s.got) == Postflush && s.Wants().data ==> s.dataAt.Some? && FlushedSince(q.log, s.dataAt.value))
  }

  ghost predicate LoopInv(q: Queue, ri: Idx, cur: Option<Id>, error: int) {
    && Base(q, None)
    && q.runningIdx == 1 - ri
    && (error == 0 ==> Covered(q, ri))
    && (cur.Some? ==> cur.value in q.lists[ri])
    && (!q.Busy() ==> cur == First(q.lists[ri]))
    && (cur.None? && !q.Busy() && q.dataInFlight == [] ==> q.lists[1 - ri] == [])
  }

  lemma AccountedBase(q: Queue, error: int)
    requires Base(q, None) && q.Busy()
    ensures Base(FlushAccounted(q, error), None)
  {
    var q' := FlushAccounted(q, error);
    var e := FlushFinished(error);
    GoodAppend(q.log, e);
    forall r
      ensures StatusOf(q'.log, r) == StatusOf(q.log, r)
      ensures r in q.seqs && RqOk(q, r) ==> RqOk(q', r)
      ensures WaitOk(q, r) ==> WaitOk(q', r)
    {
      StatusFlushEvent(q, q', e, r);
    }
    forall j: nat ensures !OpenFlush(q'.log, j) {
      assert q'.log[|q.log|] == e;
    }
  }

  lemma AccountedCovers(q: Queue)
    requires Base(q, None) && q.Busy()
    ensures Covered(FlushAccounted(q, 0), q.runningIdx)
  {
    var q' := FlushAccounted(q, 0);
    var n := |q.log|;
    var j: nat :| OpenFlush(q.log, j) && QueuedBefore(q, q.runningIdx, j);
    assert FlushSpan(q'.log, j, n) && q'.log[n] == FlushFinished(0);
    forall r | r in q'.lists[q.runningIdx] ensures CoversRq(q', r) {
      StatusFlushEvent(q, q', FlushFinished(0), r);
      assert WaitOk(q, r) && RqOk(q, r);
    }
  }

  lemma AccountedLoop(q: Queue, error: int)
    requires Inv(q) && q.Busy()
    ensures LoopInv(FlushAccounted(q, error), q.runningIdx, First(q.lists[q.runningIdx]), error)
  {
    AccountedBase(q, error);
    if error == 0 {
      AccountedCovers(q);
    }
  }

  lemma CreditRecorded(q: Queue, ri: Idx, r: Id, error: int)
    requires LoopInv(q, ri, Some(r), error)
    ensures AtFlush(q, r) && RqOk(q, r)
    ensures EventOk(q.log, Completed(r, BitOf(CurSeq(q.seqs[r])), error))
    ensures Base(q, Some(r))
    ensures error == 0 ==> RqFacts(Record(q, r, BitOf(CurSeq(q.seqs[r])), error), r)
  {
    BaseBut(q, r);
    assert RqOk(q, r) && WaitOk(q, r);
    var e := Completed(r, BitOf(CurSeq(q.seqs[r])), error);
    StatusAppend(q.log, e, r);
    if error == 0 {
      var s := StatusOf(q.log, r);
      assert CoversRq(q, r);
      if FlushedSince(q.log, s.subAt) {
        FlushedMonotone(q.log, [e], s.subAt, s.subAt);
      }
      if s.dataAt.Some? && FlushedSince(q.log, s.dataAt.value) {
        FlushedMonotone(q.log, [e], s.dataAt.value, s.dataAt.value);
      }
    }
  }

  lemma CreditBase(q: Queue, ri: Idx, r: Id, error: int, now: nat)
    requires LoopInv(q, ri, Some(r), error)
    ensures AtFlush(q, r) && RqOk(q, r)
    ensures error == 0 ==> RqFacts(Record(q, r, BitOf(CurSeq(q.seqs[r])), 0), r)
    ensures var q' := CompletedSeq(q, r, BitOf(CurSeq(q.seqs[r])), error, now);
            && Base(q', None)
            && (!q'.Busy() && q'.dataInFlight == [] ==> q'.lists[q'.pendingIdx] == [])
  {
    CreditRecorded(q, ri, r, error);
    CompletedSeqBase(q, r, BitOf(CurSeq(q.seqs[r])), error, now);
  }

  lemma LoopInvIntro(q: Queue, ri: Idx, cur: Option<Id>, error: int)
    requires Base(q, None) && q.runningIdx == 1 - ri
    requires error == 0 ==> Covered(q, ri)
    requires cur.Some? ==> cur.value in q.lists[ri]
    requires !q.Busy() ==> cur == First(q.lists[ri])
    requires !q.Busy() && q.dataInFlight == [] ==> q.lists[q.pendingIdx] == []
    ensures LoopInv(q, ri, cur, error)
  {
  }

  lemma EachNoDup(q: Queue, i: Idx)
    requires ListsOk(q, None)
    ensures NoDup(q.lists[i])
  {
    assert i == 0 || i == 1;
  }

  lemma LoopStep(q: Queue, ri: Idx, r: Id, error: int, now: nat)
    requires LoopInv(q, ri, Some(r), error)
    ensures AtFlush(q, r)
    ensures LoopInv(CompletedSeq(q, r, BitOf(CurSeq(q.seqs[r])), error, now), ri, Next(q.lists[ri], r), error)
  {
    EachNoDup(q, ri);
    CreditBase(q, ri, r, error, now);
    var q' := CompletedSeq(q, r, BitOf(CurSeq(q.seqs[r])), error, now);
    StepLists(q, ri, r, BitOf(CurSeq(q.seqs[r])), error, now);
    if error == 0 {
      StepCovered(q, ri, r, now);
    }
    LoopInvIntro(q', ri, Next(q.lists[ri], r), error);
  }

  lemma AdvancedLists(q: Queue, i: Idx, r: Id, bits: Mask, error: int, now: nat)
    requires r in q.seqs
    ensures var a := Advanced(q, r, bits, error, now);
            && a.pendingIdx == q.pendingIdx && a.runningIdx == q.runningIdx
            && (a.lists[i] == Without(q.lists[i], r) ||
                (i == q.pendingIdx && a.lists[i] == Without(q.lists[i], r) + [r]))
  {
    var s := Record(q, r, bits, error);
    assert s.lists == q.lists && s.pendingIdx == q.pendingIdx && s.runningIdx == q.runningIdx;
  }

  lemma NextIsKept(s: seq<Id>, r: Id)
    requires NoDup(s) && r in s
    ensures Next(s, r).Some? ==> Next(s, r).value in Without(s, r)
    ensures s[0] == r ==> Next(s, r) == First(Without(s, r))
  {
    var i :| 0 <= i < |s| && s[i] == r;
    NextAt(s, i);
    if s[0] == r {
      WithoutHead(s);
      NextAt(s, 0);
    }
  }

  /** How treating `r` changes the list being walked. */
  lemma StepLists(q: Queue, ri: Idx, r: Id, bits: Mask, error: int, now: nat)
    requires r in q.seqs && NoDup(q.lists[ri]) && r in q.lists[ri] && q.runningIdx == 1 - ri
    requires !q.Busy() ==> r == q.lists[ri][0]
    ensures var q' := CompletedSeq(q, r, bits, error, now);
            && q'.runningIdx == q.runningIdx
            && (q.Busy() ==> q'.Busy())
            && (q'.lists[ri] == Without(q.lists[ri], r) || (q.Busy() && q'.lists[ri] == Without(q.lists[ri], r) + [r]))
            && (Next(q.lists[ri], r).Some? ==> Next(q.lists[ri], r).value in q'.lists[ri])
            && (!q'.Busy() ==> Next(q.lists[ri], r) == First(q'.lists[ri]))
  {
    var a := Advanced(q, r, bits, error, now);
    AdvancedLists(q, ri, r, bits, error, now);
    NextIsKept(q.lists[ri], r);
    assert Kicked(a, now).lists == a.lists && Kicked(a, now).runningIdx == a.runningIdx;
  }

  /** The completed flush goes on covering the requests still to be treated. */
  lemma StepCovered(q: Queue, ri: Idx, r: Id, now: nat)
    requires NoDup(q.lists[ri]) && r in q.lists[ri] && q.runningIdx == 1 - ri && Covered(q, ri)
    requires !q.Busy() ==> r == q.lists[ri][0]
    requires RqOk(q, r) && AtFlush(q, r) && RqFacts(Record(q, r, BitOf(CurSeq(q.seqs[r])), 0), r)
    ensures Covered(CompletedSeq(q, r, BitOf(CurSeq(q.seqs[r])), 0, now), ri)
  {
    var bits := BitOf(CurSeq(q.seqs[r]));
    var q' := CompletedSeq(q, r, bits, 0, now);
    StepLists(q, ri, r, bits, 0, now);
    forall o | o in q'.lists[ri] ensures CoversRq(q', o) {
      if o != r {
        assert o in q.lists[ri];
        KeepsCover(q, q', r, o, bits, now);
      } else {
        StepSelf(q, r, bits, now);
      }
    }
  }

  lemma KeepsCover(q: Queue, q': Queue, r: Id, o: Id, bits: Mask, now: nat)
    requires r in q.seqs && q' == CompletedSeq(q, r, bits, 0, now) && o != r && CoversRq(q, o)
    ensures CoversRq(q', o)
  {
    var s := Record(q, r, bits, 0);
    var a := Advanced(q, r, bits, 0, now);
    CoverOne(q, s, o);
    CoverOne(s, a, o);
    if q'.log != a.log {
      CoverOne(a, q', o);
    }
  }

  lemma CoverOne(q: Queue, q': Queue, o: Id)
    requires |q'.log| == |q.log| + 1 && q'.log[..|q.log|] == q.log
    requires var e := q'.log[|q.log|]; e.FlushIssued? || e.FlushFinished? || e.id != o
    ensures StatusOf(q'.log, o) == StatusOf(q.log, o)
    ensures CoversRq(q, o) ==> CoversRq(q', o)
  {
    var st := StatusOf(q.log, o);
    assert q'.log == q.log + [q'.log[|q.log|]];
    if st.Live? && FlushedSince(q.log, st.subAt) {
      FlushedMonotone(q.log, [q'.log[|q.log|]], st.subAt, st.subAt);
    }
    if st.Live? && st.dataAt.Some? && FlushedSince(q.log, st.dataAt.value) {
      FlushedMonotone(q.log, [q'.log[|q.log|]], st.dataAt.value, st.dataAt.value);
    }
  }

  /** A request that stays on a flush queue right after its own flush step carries no data. */
  lemma StepSelf(q: Queue, r: Id, bits: Mask, now: nat)
    requires RqOk(q, r) && AtFlush(q, r) && bits == BitOf(CurSeq(q.seqs[r]))
    requires RqFacts(Record(q, r, bits, 0), r)
    requires r in CompletedSeq(q, r, bits, 0, now).lists[0] || r in CompletedSeq(q, r, bits, 0, now).lists[1]
    ensures CoversRq(CompletedSeq(q, r, bits, 0, now), r)
  {
    var s := Record(q, r, bits, 0);
    var a := Advanced(q, r, bits, 0, now);
    var q' := Kicked(a, now);
    StatusAppend(q.log, Completed(r, bits, 0), r);
    StatusAppend(s.log, Waiting(r), r);
    if q'.log != a.log {
      CoverOne(a, q', r);
    }
  }

  lemma {:induction false} LoopKeeps(q: Queue, ri: Idx, cur: Option<Id>, error: int, now: nat)
    requires LoopInv(q, ri, cur, error)
    ensures Inv(EndLoop(q, ri, cur, error, now))
    decreases Missing(q)
  {
    if cur.Some? {
      LoopStep(q, ri, cur.value, error, now);
      CompletedSeqShrinks(q, cur.value, error, now);
      LoopKeeps(CompletedSeq(q, cur.value, BitOf(CurSeq(q.seqs[cur.value])), error, now),
                ri, Next(q.lists[ri], cur.value), error, now);
    }
  }

  /** flush_end_io keeps the invariant. */
  lemma FlushEndedInv(q: Queue, error: int, now: nat)
    requires Inv(q) && q.Busy()
    ensures Inv(FlushEnded(q, error, now))
  {
    AccountedLoop(q, error);
    LoopKeeps(FlushAccounted(q, error), q.runningIdx, First(q.lists[q.runningIdx]), error, now);
  }
}
