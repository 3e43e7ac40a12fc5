/**
 Which requests a completing flush credits.

 flush_end_io walks the running queue with list_for_each_entry_safe while blk_flush_complete_seq may itself issue
 the next flush and so turn the walked list into the pending queue. A request that needs both flushes and carries
 no data is then moved behind the cursor and met again. `Recycles` says, before the call, exactly when that
 happens; otherwise the flush credits the requests of its running queue once each, in order, and nothing else.
 */
module FlushCredit {
  import opened Lists
  import opened FlushModel
  import opened FlushSafety
  import opened FlushRuns

  /** The queue the flush in flight was issued for, and the other one. */
  function Running(q: Queue): seq<Id> {
    q.lists[q.runningIdx]
  }

  function Pending(q: Queue): seq<Id> {
    q.lists[1 - q.runningIdx]
  }

  /** The requests whose actions were recorded in `log` from position `start` on. */
  function CreditIds(log: seq<Event>, start: nat): seq<Id> {
    if |log| <= start then []
    else
      var e := log[|log| - 1];
      CreditIds(log[..|log| - 1], start) + if e.Completed? then [e.id] else []
  }

  /** After its credit the request waits for another flush: it wants PREFLUSH and POSTFLUSH but has no data. */
  predicate Recirculates(q: Queue, error: int, r: Id) {
    && r in q.seqs && error == 0
    && CurSeq(q.seqs[r]) == Preflush && q.seqs[r].data && !q.seqs[r].post
  }

  /** After its credit the request's data is dispatched. */
  predicate GoesToData(q: Queue, error: int, r: Id) {
    r in q.seqs && error == 0 && CurSeq(q.seqs[r]) == Preflush && !q.seqs[r].data
  }

  /** The position of the first request of `s` that waits again or dispatches data. */
  function FirstMover(q: Queue, error: int, s: seq<Id>): (i: nat)
    ensures i <= |s|
    ensures forall j :: 0 <= j < i ==> !Recirculates(q, error, s[j]) && !GoesToData(q, error, s[j])
    ensures i < |s| ==> Recirculates(q, error, s[i]) || GoesToData(q, error, s[i])
  {
    if s == [] || Recirculates(q, error, s[0]) || GoesToData(q, error, s[0]) then 0
    else 1 + FirstMover(q, error, s[1..])
  }

  /** The turn of the loop after which it issues the next flush; the length of the running queue if it does not. */
  function KickTurn(q: Queue, error: int, now: nat): nat {
    var running := Running(q);
    var waiting := Pending(q);
    if running == [] then 0
    else if waiting != [] then
      if now >= q.pendingSince + FLUSH_PENDING_TIMEOUT
         || (q.dataInFlight == [] && !GoesToData(q, error, running[0])) then 0 else |running|
    else if q.dataInFlight != [] then |running|
    else
      var i := FirstMover(q, error, running);
      if i < |running| && Recirculates(q, error, running[i]) then i else |running|
  }

  /** A request other than the last one is put back on the walked list after the next flush was issued. */
  ghost predicate Recycles(q: Queue, error: int, now: nat) {
    var running := Running(q);
    exists j :: KickTurn(q, error, now) < j < |running| - 1 && Recirculates(q, error, running[j])
  }

  // ---------------------------------------------------------------- credits and the log

  lemma CreditAppend(log: seq<Event>, e: Event, start: nat)
    requires start <= |log|
    ensures CreditIds(log + [e], start) == CreditIds(log, start) + if e.Completed? then [e.id] else []
  {
    assert (log + [e])[..|log|] == log;
  }

  lemma StepCredits(q: Queue, r: Id, bits: Mask, error: int, now: nat, start: nat)
    requires r in q.seqs && start <= |q.log|
    ensures var q' := CompletedSeq(q, r, bits, error, now);
            CreditIds(q'.log, start) == CreditIds(q.log, start) + [r] && |q'.log| >= |q.log|
  {
    var s := Record(q, r, bits, error);
    var a := Advanced(q, r, bits, error, now);
    CreditAppend(q.log, Completed(r, bits, error), start);
    CreditAppend(s.log, a.log[|s.log|], start);
    if Kicked(a, now).log != a.log {
      CreditAppend(a.log, FlushIssued, start);
    }
  }

  lemma {:induction false} LoopCreditsGrow(q: Queue, ri: Idx, cur: Option<Id>, error: int, now: nat, start: nat)
    requires start <= |q.log|
    ensures CreditIds(q.log, start) <= CreditIds(EndLoop(q, ri, cur, error, now).log, start)
    decreases Missing(q)
  {
    if cur.Some? && AtFlush(q, cur.value) && cur.value in q.lists[ri] {
      var bits := BitOf(CurSeq(q.seqs[cur.value]));
      StepCredits(q, cur.value, bits, error, now, start);
      CompletedSeqShrinks(q, cur.value, error, now);
      LoopCreditsGrow(CompletedSeq(q, cur.value, bits, error, now), ri, Next(q.lists[ri], cur.value), error, now,
                      start);
    }
  }

  // ---------------------------------------------------------------- one turn of the loop

  ghost predicate SameSeqs(q: Queue, s: Queue, ids: seq<Id>) {
    forall r :: r in ids ==> AtFlush(q, r) && r in s.seqs && s.seqs[r] == q.seqs[r]
  }

  /** What one turn does to the lists, before the flush is kicked. */
  ghost predicate TurnResult(q: Queue, s: Queue, a: Queue, r: Id, error: int, now: nat) {
    && a.pendingIdx == s.pendingIdx && a.runningIdx == s.runningIdx
    && a.dataInFlight == s.dataInFlight + (if GoesToData(q, error, r) then [r] else [])
    && a.lists[s.pendingIdx] == Without(s.lists[s.pendingIdx], r) + (if Recirculates(q, error, r) then [r] else [])
    && a.lists[1 - s.pendingIdx] == Without(s.lists[1 - s.pendingIdx], r)
    && a.pendingSince == (if Recirculates(q, error, r) && s.lists[s.pendingIdx] == [] then now else s.pendingSince)
    && (forall o :: o != r && o in s.seqs ==> o in a.seqs && a.seqs[o] == s.seqs[o])
    && (Recirculates(q, error, r) ==> AtFlush(a, r))
  }

  lemma TurnLists(q: Queue, s: Queue, r: Id, error: int, now: nat)
    requires AtFlush(q, r) && r in s.seqs && s.seqs[r] == q.seqs[r]
    requires q.seqs[r].post ==> CurSeq(q.seqs[r]) == Preflush
    requires r !in s.dataInFlight && (CurSeq(q.seqs[r]) == Postflush ==> q.seqs[r].data)
    ensures TurnResult(q, s, Advanced(s, r, BitOf(CurSeq(s.seqs[r])), error, now), r, error, now)
  {
  }

  /** What the invariant says about the queue a flush in flight runs for. */
  ghost predicate Ready(q: Queue) {
    && NoDup(Running(q))
    && forall r :: r in Running(q) ==> RunningRq(q, r)
  }

  ghost predicate RunningRq(q: Queue, r: Id) {
    && AtFlush(q, r) && r !in q.dataInFlight && r !in Pending(q)
    && (q.seqs[r].post ==> CurSeq(q.seqs[r]) == Preflush)
    && (CurSeq(q.seqs[r]) == Postflush ==> q.seqs[r].data)
  }

  lemma InvReady(q: Queue)
    requires Inv(q) && q.Busy()
    ensures Ready(q)
  {
    EachNoDup(q, q.runningIdx);
    forall r | r in Running(q) ensures RunningRq(q, r) {
      assert RqOk(q, r) && WaitOk(q, r);
    }
  }

  // ---------------------------------------------------------------- after the next flush was issued

  /** `i` turns done, the walked list now pending; `w` are the requests put back on it. */
  ghost predicate Kicking(q: Queue, s: Queue, i: nat, w: seq<Id>, start: nat) {
    && i <= |Running(q)| && start <= |s.log|
    && s.pendingIdx == q.runningIdx && s.runningIdx == 1 - q.runningIdx
    && s.lists[q.runningIdx] == Running(q)[i..] + w && NoDup(Running(q)[i..] + w)
    && SameSeqs(q, s, Running(q)[i..])
    && (forall r :: r in Running(q)[i..] ==> r !in s.dataInFlight)
    && (forall r :: r in w ==> AtFlush(s, r))
    && CreditIds(s.log, start) == Running(q)[..i]
  }

  lemma Rotate(r: Id, x: seq<Id>)
    requires NoDup([r] + x)
    ensures NoDup(x) && NoDup(x + [r]) && r !in x
  {
    forall i, j | 0 <= i < j < |x| ensures x[i] != x[j] {
      assert ([r] + x)[i + 1] == x[i] && ([r] + x)[j + 1] == x[j];
    }
    forall i | 0 <= i < |x| ensures x[i] != r {
      assert ([r] + x)[i + 1] == x[i] && ([r] + x)[0] == r;
    }
  }

  /** The cursor moves on to the next entry of the walked list. */
  lemma CursorMoves(running: seq<Id>, i: nat, w: seq<Id>)
    requires i < |running| && NoDup(running[i..] + w)
    ensures running[i..] + w == [running[i]] + (running[i + 1..] + w)
    ensures running[i] in running[i..] + w
    ensures Next(running[i..] + w, running[i]) == First(running[i + 1..] + w)
    ensures Without(running[i..] + w, running[i]) == running[i + 1..] + w
    ensures NoDup(running[i + 1..] + w) && NoDup(running[i + 1..] + (w + [running[i]]))
    ensures running[i] !in running[i + 1..] + w
  {
    var list := running[i..] + w;
    assert list == [running[i]] + (running[i + 1..] + w);
    assert list[0] == running[i];
    NextAt(list, 0);
    WithoutHead(list);
    Rotate(running[i], running[i + 1..] + w);
    assert running[i + 1..] + (w + [running[i]]) == running[i + 1..] + w + [running[i]];
  }

  lemma TailMembers(running: seq<Id>, i: nat, w: seq<Id>)
    requires i < |running|
    ensures forall o :: o in running[i + 1..] ==> o in running[i..] && o in running[i + 1..] + w
    ensures forall o :: o in w ==> o in running[i + 1..] + w
  {
  }

  lemma KickingAgain(q: Queue, s: Queue, a: Queue, i: nat, w: seq<Id>, start: nat, error: int, now: nat)
    requires Kicking(q, s, i, w, start) && i < |Running(q)| && Recirculates(q, error, Running(q)[i])
    requires TurnResult(q, s, a, Running(q)[i], error, now)
    requires start <= |a.log| && CreditIds(a.log, start) == Running(q)[..i + 1]
    ensures Kicking(q, a, i + 1, w + [Running(q)[i]], start) == true
  {
    var running, r := Running(q), Running(q)[i];
    CursorMoves(running, i, w);
    TailMembers(running, i, w);
    assert a.lists[q.runningIdx] == running[i + 1..] + (w + [r]);
    OthersSame(q, s, a, r, running[i..], running[i + 1..], w, error, now);
  }

  lemma KickingGone(q: Queue, s: Queue, a: Queue, i: nat, w: seq<Id>, start: nat, error: int, now: nat)
    requires Kicking(q, s, i, w, start) && i < |Running(q)| && !Recirculates(q, error, Running(q)[i])
    requires TurnResult(q, s, a, Running(q)[i], error, now)
    requires start <= |a.log| && CreditIds(a.log, start) == Running(q)[..i + 1]
    ensures Kicking(q, a, i + 1, w, start) == true
  {
    var running, r := Running(q), Running(q)[i];
    CursorMoves(running, i, w);
    TailMembers(running, i, w);
    assert a.lists[q.runningIdx] == running[i + 1..] + w;
    OthersSame(q, s, a, r, running[i..], running[i + 1..], w, error, now);
  }

  /** The requests other than the one treated are as they were. */
  lemma OthersSame(q: Queue, s: Queue, a: Queue, r: Id, ids: seq<Id>, rest: seq<Id>, w: seq<Id>, error: int, now: nat)
    requires TurnResult(q, s, a, r, error, now) && SameSeqs(q, s, ids)
    requires forall o :: o in rest ==> o in ids && o != r
    requires forall o :: o in ids ==> o !in s.dataInFlight
    requires forall o :: o in w ==> o != r && AtFlush(s, o)
    ensures SameSeqs(q, a, rest) && (forall o :: o in rest ==> o !in a.dataInFlight)
    ensures forall o :: o in w ==> AtFlush(a, o)
  {
  }

  lemma KickingNext(q: Queue, s: Queue, a: Queue, i: nat, w: seq<Id>, start: nat, error: int, now: nat)
    requires Kicking(q, s, i, w, start) && i < |Running(q)|
    requires TurnResult(q, s, a, Running(q)[i], error, now)
    requires start <= |a.log| && CreditIds(a.log, start) == Running(q)[..i + 1]
    ensures Kicking(q, a, i + 1, w + (if Recirculates(q, error, Running(q)[i]) then [Running(q)[i]] else []),
                    start) == true
  {
    if Recirculates(q, error, Running(q)[i]) {
      KickingAgain(q, s, a, i, w, start, error, now);
    } else {
      assert w + [] == w;
      KickingGone(q, s, a, i, w, start, error, now);
    }
  }

  lemma KickingTurn(q: Queue, s: Queue, i: nat, w: seq<Id>, start: nat, error: int, now: nat)
    requires Ready(q) && Kicking(q, s, i, w, start) && i < |Running(q)|
    ensures AtFlush(s, Running(q)[i])
    ensures Kicking(q, CompletedSeq(s, Running(q)[i], BitOf(CurSeq(s.seqs[Running(q)[i]])), error, now), i + 1,
                    w + (if Recirculates(q, error, Running(q)[i]) then [Running(q)[i]] else []), start)
  {
    var running, r := Running(q), Running(q)[i];
    assert r in running[i..];
    assert RunningRq(q, r);
    TurnLists(q, s, r, error, now);
    StepCredits(s, r, BitOf(CurSeq(s.seqs[r])), error, now, start);
    assert running[..i + 1] == running[..i] + [r];
    var a := Advanced(s, r, BitOf(CurSeq(s.seqs[r])), error, now);
    assert Kicked(a, now) == a;
    KickingNext(q, s, a, i, w, start, error, now);
  }

  lemma {:induction false} KickingCredits(q: Queue, s: Queue, i: nat, w: seq<Id>, start: nat, error: int, now: nat)
    requires Ready(q) && Kicking(q, s, i, w, start) && i < |Running(q)|
    ensures var running := Running(q);
            CreditIds(EndLoop(s, q.runningIdx, Some(running[i]), error, now).log, start) == running <==>
            w == [] && forall j :: i <= j < |running| - 1 ==> !Recirculates(q, error, running[j])
    decreases |Running(q)| - i
  {
    var ri, running := q.runningIdx, Running(q);
    var r := running[i];
    CursorMoves(running, i, w);
    KickingTurn(q, s, i, w, start, error, now);
    var s' := CompletedSeq(s, r, BitOf(CurSeq(s.seqs[r])), error, now);
    var w' := w + (if Recirculates(q, error, r) then [r] else []);
    if i + 1 < |running| {
      assert First(running[i + 1..] + w) == Some(running[i + 1]);
      KickingCredits(q, s', i + 1, w', start, error, now);
    } else {
      assert running[i + 1..] + w == w && running[..i + 1] == running;
      if w != [] {
        assert w[0] in w' && s'.lists[ri] == w';
        var s'' := CompletedSeq(s', w[0], BitOf(CurSeq(s'.seqs[w[0]])), error, now);
        StepCredits(s', w[0], BitOf(CurSeq(s'.seqs[w[0]])), error, now, start);
        LoopCreditsGrow(s'', ri, Next(s'.lists[ri], w[0]), error, now, start);
      }
    }
  }

  // ---------------------------------------------------------------- before the next flush is issued

  /** `i` turns of the loop have moved their requests, and none has issued a flush. */
  ghost predicate Front(q: Queue, s: Queue, i: nat, error: int, now: nat) {
    && i <= |Running(q)|
    && s.pendingIdx == 1 - q.runningIdx && s.runningIdx == 1 - q.runningIdx
    && s.lists[q.runningIdx] == Running(q)[i..]
    && SameSeqs(q, s, Running(q)[i..])
    && (forall r :: r in Running(q)[i..] ==> r !in s.dataInFlight && r !in s.lists[1 - q.runningIdx])
    && (s.lists[1 - q.runningIdx] == [] <==> Pending(q) == [] && NoneIn(q, error, Running(q)[..i], true))
    && (s.dataInFlight == [] <==> q.dataInFlight == [] && NoneIn(q, error, Running(q)[..i], false))
    && (Pending(q) != [] ==> s.pendingSince == q.pendingSince)
    && (Pending(q) == [] && s.lists[1 - q.runningIdx] != [] ==> s.pendingSince == now)
  }

  ghost predicate Walking(q: Queue, s: Queue, i: nat, start: nat, error: int, now: nat) {
    && Front(q, s, i, error, now) && i <= KickTurn(q, error, now)
    && start <= |s.log| && CreditIds(s.log, start) == Running(q)[..i]
  }

  ghost predicate NoneIn(q: Queue, error: int, s: seq<Id>, again: bool) {
    forall j :: 0 <= j < |s| ==> !(if again then Recirculates(q, error, s[j]) else GoesToData(q, error, s[j]))
  }

  lemma NoneInMore(q: Queue, error: int, s: seq<Id>, i: nat, again: bool)
    requires i < |s|
    ensures NoneIn(q, error, s[..i + 1], again) <==>
            && NoneIn(q, error, s[..i], again)
            && !(if again then Recirculates(q, error, s[i]) else GoesToData(q, error, s[i]))
  {
    assert s[..i + 1] == s[..i] + [s[i]];
    if NoneIn(q, error, s[..i + 1], again) {
      assert s[..i + 1][i] == s[i];
      forall j | 0 <= j < i
        ensures !(if again then Recirculates(q, error, s[..i][j]) else GoesToData(q, error, s[..i][j]))
      {
        assert s[..i + 1][j] == s[..i][j];
      }
    }
  }

  lemma TailMoves(running: seq<Id>, i: nat)
    requires i < |running| && NoDup(running)
    ensures running[i] in running[i..] && running[i] !in running[i + 1..]
    ensures Without(running[i..], running[i]) == running[i + 1..]
    ensures forall o :: o in running[i + 1..] ==> o in running[i..]
  {
    assert running[i..][0] == running[i] && running[i..][1..] == running[i + 1..];
    WithoutHead(running[i..]);
  }

  lemma FrontNext(q: Queue, s: Queue, a: Queue, i: nat, error: int, now: nat)
    requires NoDup(Running(q)) && Front(q, s, i, error, now) && i < |Running(q)|
    requires TurnResult(q, s, a, Running(q)[i], error, now)
    ensures Front(q, a, i + 1, error, now)
  {
    var running, r := Running(q), Running(q)[i];
    TailMoves(running, i);
    NoneInMore(q, error, running, i, true);
    NoneInMore(q, error, running, i, false);
  }

  lemma WalkingTurn(q: Queue, s: Queue, i: nat, start: nat, error: int, now: nat)
    requires Ready(q) && Walking(q, s, i, start, error, now) && i < |Running(q)|
    ensures var ri, r := q.runningIdx, Running(q)[i];
            && AtFlush(s, r) && r in s.lists[ri]
            && Next(s.lists[ri], r) == First(Running(q)[i + 1..])
            && Front(q, Advanced(s, r, BitOf(CurSeq(s.seqs[r])), error, now), i + 1, error, now)
  {
    var running, r := Running(q), Running(q)[i];
    assert running[i..][0] == r && r in running[i..];
    NextAt(running[i..], 0);
    assert RunningRq(q, r);
    TurnLists(q, s, r, error, now);
    FrontNext(q, s, Advanced(s, r, BitOf(CurSeq(s.seqs[r])), error, now), i, error, now);
  }

  /** blk_kick_flush issues the flush in turn `i` exactly when `i` is the kick turn. */
  lemma KickedWhen(q: Queue, a: Queue, i: nat, error: int, now: nat)
    requires Front(q, a, i + 1, error, now) && i <= KickTurn(q, error, now)
    ensures Kicked(a, now).Busy() <==> i == KickTurn(q, error, now)
  {
    var running, waiting := Running(q), Pending(q);
    if waiting != [] {
      assert running[..i + 1][0] == running[0];
      if i == 0 {
        assert NoneIn(q, error, running[..1], false) <==> !GoesToData(q, error, running[0]);
      } else if q.dataInFlight == [] && GoesToData(q, error, running[0]) {
        assert !NoneIn(q, error, running[..i + 1], false);
      }
    } else if q.dataInFlight == [] {
      KickedFirst(q, a, i, error, now);
    }
  }

  lemma KickedFirst(q: Queue, a: Queue, i: nat, error: int, now: nat)
    requires Front(q, a, i + 1, error, now) && i <= KickTurn(q, error, now)
    requires Pending(q) == [] && q.dataInFlight == []
    ensures Kicked(a, now).Busy() <==> i == KickTurn(q, error, now)
  {
    var running := Running(q);
    var f := FirstMover(q, error, running);
    if f < i + 1 {
      assert running[..i + 1][f] == running[f];
      if i == f {
        assert NoneIn(q, error, running[..i + 1], false) <==> !GoesToData(q, error, running[f]);
      }
    } else {
      assert NoneIn(q, error, running[..i + 1], true);
    }
  }

  lemma WalkingNext(q: Queue, s: Queue, a: Queue, i: nat, start: nat, error: int, now: nat)
    requires Walking(q, s, i, start, error, now) && i < |Running(q)|
    requires Front(q, a, i + 1, error, now) && NoDup(Running(q))
    requires var s' := Kicked(a, now);
             start <= |s'.log| && CreditIds(s'.log, start) == Running(q)[..i + 1]
    ensures i < KickTurn(q, error, now) ==> Walking(q, Kicked(a, now), i + 1, start, error, now)
    ensures i == KickTurn(q, error, now) ==> Kicking(q, Kicked(a, now), i + 1, [], start)
  {
    KickedWhen(q, a, i, error, now);
    assert Running(q)[i + 1..] + [] == Running(q)[i + 1..];
  }

  lemma {:induction false} WalkingCredits(q: Queue, s: Queue, i: nat, start: nat, error: int, now: nat)
    requires Ready(q) && Walking(q, s, i, start, error, now)
    ensures (CreditIds(EndLoop(s, q.runningIdx, First(Running(q)[i..]), error, now).log, start)
             == Running(q)) <==> !Recycles(q, error, now)
    decreases |Running(q)| - i
  {
    var ri, running := q.runningIdx, Running(q);
    if i == |running| {
      assert running[..i] == running;
    } else {
      var r := running[i];
      WalkingTurn(q, s, i, start, error, now);
      var a := Advanced(s, r, BitOf(CurSeq(s.seqs[r])), error, now);
      StepCredits(s, r, BitOf(CurSeq(s.seqs[r])), error, now, start);
      assert running[..i + 1] == running[..i] + [r];
      WalkingNext(q, s, a, i, start, error, now);
      if i < KickTurn(q, error, now) {
        WalkingCredits(q, Kicked(a, now), i + 1, start, error, now);
      } else if i + 1 < |running| {
        KickingCredits(q, Kicked(a, now), i + 1, [], start, error, now);
      } else {
        assert running[..i + 1] == running;
      }
    }
  }

  /**
   A completing flush credits the requests of the running queue, once each and in order, exactly when `Recycles`
   does not hold; all of them were waiting before the flush was issued (RunningOk).
   */
  lemma CreditsExactlyTheRunningQueue(q: Queue, error: int, now: nat)
    requires Inv(q) && q.Busy()
    ensures CreditIds(FlushEnded(q, error, now).log, |q.log|) == Running(q) <==> !Recycles(q, error, now)
  {
    var s := FlushAccounted(q, error);
    CreditAppend(q.log, FlushFinished(error), |q.log|);
    var running := Running(q);
    assert running[0..] == running && running[..0] == [];
    InvReady(q);
    assert forall r :: r in running ==> RunningRq(q, r);
    WalkingCredits(q, s, 0, |q.log|, error, now);
  }

  /** When every request that wants a POSTFLUSH carries data, no flush ever credits twice. */
  lemma DataWithFuaNeverRecycles(q: Queue, error: int, now: nat)
    requires Inv(q) && q.Busy()
    requires forall r :: r in q.seqs ==>
               var w := StatusOf(q.log, r); w.Live? && (w.Wants().post ==> w.Wants().data)
    ensures !Recycles(q, error, now)
  {
    var running := Running(q);
    forall j | 0 <= j < |running| ensures !Recirculates(q, error, running[j]) {
      assert RqOk(q, running[j]);
    }
  }

  // ---------------------------------------------------------------- a run in which it happens

  const WRITE_BACK := Flags(true, false)
  const EMPTY_FLUSH := Request(0, Flags(true, false))
  const EMPTY_FLUSH_FUA := Request(0, Flags(true, true))

  /** The queue after an empty flush and `n` empty FLUSH|FUA requests were submitted. */
  lemma SubmitMore(q: Queue, r: Id)
    requires q.pendingIdx == 1 && q.runningIdx == 0 && r !in q.lists[0] + q.lists[1] && q.dataInFlight == []
    ensures var q' := Inserted(q, r, EMPTY_FLUSH_FUA, WRITE_BACK, 0);
            && q'.lists == [q.lists[0], q.lists[1] + [r]] && q'.pendingIdx == 1 && q'.runningIdx == 0
            && q'.dataInFlight == [] && q'.head == q.head
            && q'.seqs == q.seqs[r := Mask(false, true, false)]
            && q'.log == q.log + [Submitted(r, EMPTY_FLUSH_FUA, WRITE_BACK), Completed(r, Mask(false, true, false), 0),
                                  Waiting(r)]
  {
  }

  lemma FirstFlush()
    ensures var q := Inserted(EMPTY_QUEUE, 0, EMPTY_FLUSH, WRITE_BACK, 0);
            && q.lists == [[0], []] && q.pendingIdx == 1 && q.runningIdx == 0 && q.dataInFlight == []
            && q.head == [FlushRq] && q.seqs == map[0 := Mask(false, true, true)]
            && q.log == [Submitted(0, EMPTY_FLUSH, WRITE_BACK), Completed(0, Mask(false, true, true), 0), Waiting(0),
                         FlushIssued]
  {
    var q := Inserted(EMPTY_QUEUE, 0, EMPTY_FLUSH, WRITE_BACK, 0);
    assert q.lists[0] == [0] && q.lists[1] == [];
  }

  function Seqs(ids: seq<Id>): map<Id, Mask> {
    if ids == [] then map[0 := Mask(false, true, true)]
    else Seqs(ids[..|ids| - 1])[ids[|ids| - 1] := Mask(false, true, false)]
  }

  /** Requests `ids` wait while the flush for request 0 waits to be taken by the device. */
  ghost predicate Waits(q: Queue, ids: seq<Id>) {
    && q.lists == [[0], ids] && q.pendingIdx == 1 && q.runningIdx == 0 && q.dataInFlight == [] && q.head == [FlushRq]
    && q.seqs == Seqs(ids)
    && forall e :: e in q.log ==> e.FlushIssued? || e.FlushFinished? || e.id == 0 || e.id in ids
  }

  /** One more empty FLUSH|FUA request is submitted. */
  lemma OneMoreWaits(q: Queue, ids: seq<Id>, r: Id, ids': seq<Id>) returns (q': Queue)
    requires Waits(q, ids) == true && r != 0 && r !in ids && ids' == ids + [r]
    ensures Step(Sys(q, {}, 0), Submit(r, EMPTY_FLUSH_FUA, WRITE_BACK), Sys(q', {}, 0)) == true
    ensures Waits(q', ids') == true
  {
    NoEventNoStatus(q.log, r);
    SubmitMore(q, r);
    assert (ids + [r])[..|ids|] == ids;
    q' := Inserted(q, r, EMPTY_FLUSH_FUA, WRITE_BACK, 0);
  }

  lemma FirstWaits() returns (q: Queue)
    ensures Step(Sys(EMPTY_QUEUE, {}, 0), Submit(0, EMPTY_FLUSH, WRITE_BACK), Sys(q, {}, 0)) == true
    ensures Waits(q, []) == true
  {
    FirstFlush();
    q := Inserted(EMPTY_QUEUE, 0, EMPTY_FLUSH, WRITE_BACK, 0);
    assert Fresh(EMPTY_QUEUE, 0);
  }

  /** A run leads to `s`. */
  ghost predicate Reached(s: Sys) {
    exists states, actions :: EndsIn(states, actions, s)
  }

  ghost predicate EndsIn(states: seq<Sys>, actions: seq<Action>, s: Sys) {
    Run(states, actions) && states[|actions|] == s
  }

  lemma ReachedStart()
    ensures Reached(Sys(EMPTY_QUEUE, {}, 0)) == true
  {
    assert EndsIn([Sys(EMPTY_QUEUE, {}, 0)], [], Sys(EMPTY_QUEUE, {}, 0));
  }

  lemma ReachedNext(s: Sys, a: Action, s': Sys)
    requires Reached(s) == true && Step(s, a, s') == true
    ensures Reached(s') == true
  {
    var states, actions :| EndsIn(states, actions, s);
    assert EndsIn(states + [s'], actions + [a], s');
  }

  /**
   A reachable state with one flush in the device whose completion credits requests 2 and 3 twice: they end with a
   single flush since their submission, although their policy asks for two.
   */
  lemma RecyclingIsReachable() returns (states: seq<Sys>, actions: seq<Action>)
    ensures Run(states, actions)
    ensures var s := states[|actions|]; FlushRq in s.device && s.q.Busy() && Recycles(s.q, 0, s.now)
    ensures var s := states[|actions|]; Running(s.q) == [1, 2, 3] && Credits(s.q, 0, s.now, [1, 2, 3, 2, 3])
  {
    var q4 := FourWait(1, 2, 3);
    var q7 := DeviceSteps(q4);
    states, actions :| EndsIn(states, actions, Sys(q7, {FlushRq}, 0));
  }

  /** One more request waits, in a state that is reached. */
  lemma WaitsReached(q: Queue, ids: seq<Id>, r: Id, ids': seq<Id>) returns (q': Queue)
    requires Waits(q, ids) == true && r != 0 && r !in ids && ids' == ids + [r] && Reached(Sys(q, {}, 0)) == true
    ensures Waits(q', ids') == true && Reached(Sys(q', {}, 0)) == true
  {
    q' := OneMoreWaits(q, ids, r, ids');
    ReachedNext(Sys(q, {}, 0), Submit(r, EMPTY_FLUSH_FUA, WRITE_BACK), Sys(q', {}, 0));
  }

  lemma OneWaits() returns (q: Queue)
    ensures Waits(q, []) == true && Reached(Sys(q, {}, 0)) == true
  {
    q := FirstWaits();
    ReachedStart();
    ReachedNext(Sys(EMPTY_QUEUE, {}, 0), Submit(0, EMPTY_FLUSH, WRITE_BACK), Sys(q, {}, 0));
  }

  lemma TwoWait(a: Id) returns (q: Queue)
    requires a != 0
    ensures Waits(q, [a]) == true && Reached(Sys(q, {}, 0)) == true
  {
    q := OneWaits();
    q := WaitsReached(q, [], a, [a]);
  }

  lemma ThreeWait(a: Id, b: Id) returns (q: Queue)
    requires a != 0 && b != 0 && a != b
    ensures Waits(q, [a, b]) == true && Reached(Sys(q, {}, 0)) == true
  {
    q := TwoWait(a);
    q := WaitsReached(q, [a], b, [a, b]);
  }

  /** The request for which the first flush is issued, and three that wait behind it. */
  lemma FourWait(a: Id, b: Id, c: Id) returns (q: Queue)
    requires a != 0 && b != 0 && c != 0 && a != b && b != c && a != c
    ensures Waits(q, [a, b, c]) == true && Reached(Sys(q, {}, 0)) == true
  {
    q := ThreeWait(a, b);
    q := WaitsReached(q, [a, b], c, [a, b, c]);
  }

  // ---------------------------------------------------------------- the requests it credits twice

  /** The requests that the completion of the flush in flight credits, in order. */
  ghost predicate Credits(q: Queue, error: int, now: nat, ids: seq<Id>) {
    CreditIds(FlushEnded(q, error, now).log, |q.log|) == ids
  }

  const WANTS_BOTH := Mask(false, true, false)
  const WANTS_POST := Mask(true, true, false)

  /** The flush queues and the queue indices, with no data in flight. */
  ghost predicate Stands(q: Queue, zero: seq<Id>, one: seq<Id>, pending: Idx) {
    q.lists[0] == zero && q.lists[1] == one && q.pendingIdx == pending && q.runningIdx == 0 && q.dataInFlight == []
  }

  /** A turn of the loop over queue 1. */
  ghost predicate Turn(q: Queue, q': Queue, r: Id, next: Option<Id>, start: nat) {
    && EndLoop(q, 1, Some(r), 0, 0) == EndLoop(q', 1, next, 0, 0)
    && start <= |q'.log| && CreditIds(q'.log, start) == CreditIds(q.log, start) + [r]
  }

  /** A request that still wants the later flush goes to the end of the pending queue. */
  lemma ParkTurn(q: Queue, r: Id, next: Option<Id>, start: nat) returns (q': Queue)
    requires r in q.seqs && q.seqs[r] == WANTS_BOTH && r in q.lists[1] && next == Next(q.lists[1], r)
    requires start <= |q.log|
    requires q.runningIdx == 0 && q.dataInFlight == []
    ensures Turn(q, q', r, next, start) && q'.seqs == q.seqs[r := WANTS_POST]
    ensures q.pendingIdx == 0 ==> Stands(q', Without(q.lists[0], r) + [r], Without(q.lists[1], r), 1)
    ensures q.pendingIdx == 1 ==> Stands(q', Without(q.lists[0], r), Without(q.lists[1], r) + [r], 1)
  {
    q' := CompletedSeq(q, r, BitOf(CurSeq(q.seqs[r])), 0, 0);
    StepCredits(q, r, BitOf(CurSeq(q.seqs[r])), 0, 0, start);
  }

  /** One that wants nothing more is done. */
  lemma EndTurn(q: Queue, r: Id, next: Option<Id>, start: nat) returns (q': Queue)
    requires r in q.seqs && q.seqs[r] == WANTS_POST && r in q.lists[1] && next == Next(q.lists[1], r)
    requires start <= |q.log|
    requires q.pendingIdx == 1 && q.runningIdx == 0 && q.dataInFlight == []
    ensures Turn(q, q', r, next, start) && q'.seqs == q.seqs - {r}
    ensures Stands(q', Without(q.lists[0], r), Without(q.lists[1], r), 1)
  {
    q' := CompletedSeq(q, r, BitOf(CurSeq(q.seqs[r])), 0, 0);
    StepCredits(q, r, BitOf(CurSeq(q.seqs[r])), 0, 0, start);
    assert q.seqs[r := Union(q.seqs[r], BitOf(Postflush))] - {r} == q.seqs - {r};
  }

  /** The three requests of the second flush. */
  ghost predicate Three(a: Id, b: Id, c: Id) {
    a != b && b != c && a != c
  }

  lemma FirstSet(a: Id, b: Id, c: Id)
    requires Three(a, b, c)
    ensures map[a := WANTS_BOTH, b := WANTS_BOTH, c := WANTS_BOTH][a := WANTS_POST] ==
            map[a := WANTS_POST, b := WANTS_BOTH, c := WANTS_BOTH]
  {
  }

  lemma FirstParked(f: Queue, a: Id, b: Id, c: Id, start: nat) returns (t: Queue)
    requires Three(a, b, c) && Stands(f, [], [a, b, c], 0) && start <= |f.log| && CreditIds(f.log, start) == []
    requires f.seqs == map[a := WANTS_BOTH, b := WANTS_BOTH, c := WANTS_BOTH]
    ensures Turn(f, t, a, Some(b), start) && CreditIds(t.log, start) == [a]
    ensures Stands(t, [a], [b, c], 1) && t.seqs == map[a := WANTS_POST, b := WANTS_BOTH, c := WANTS_BOTH]
  {
    assert Without([a, b, c], a) == [b, c] by { WithoutHead([a, b, c]); }
    FirstSet(a, b, c);
    t := ParkTurn(f, a, Some(b), start);
  }

  lemma SecondParked(f: Queue, a: Id, b: Id, c: Id, start: nat) returns (t: Queue)
    requires Three(a, b, c) && Stands(f, [a], [b, c], 1) && start <= |f.log| && CreditIds(f.log, start) == [a]
    requires f.seqs == map[a := WANTS_POST, b := WANTS_BOTH, c := WANTS_BOTH]
    ensures Turn(f, t, b, Some(c), start) && CreditIds(t.log, start) == [a, b]
    ensures Stands(t, [a], [c, b], 1) && t.seqs == map[a := WANTS_POST, b := WANTS_POST, c := WANTS_BOTH]
  {
    assert Without([a], b) == [a] && Without([b, c], b) == [c] by { WithoutHead([b, c]); }
    t := ParkTurn(f, b, Some(c), start);
  }

  lemma ThirdParked(f: Queue, a: Id, b: Id, c: Id, start: nat) returns (t: Queue)
    requires Three(a, b, c) && Stands(f, [a], [c, b], 1) && start <= |f.log| && CreditIds(f.log, start) == [a, b]
    requires f.seqs == map[a := WANTS_POST, b := WANTS_POST, c := WANTS_BOTH]
    ensures Turn(f, t, c, Some(b), start) && CreditIds(t.log, start) == [a, b, c]
    ensures Stands(t, [a], [b, c], 1) && t.seqs == map[a := WANTS_POST, b := WANTS_POST, c := WANTS_POST]
  {
    assert Without([a], c) == [a] && Without([c, b], c) == [b] by { WithoutHead([c, b]); }
    t := ParkTurn(f, c, Some(b), start);
  }

  lemma TwoEnded(t: Queue, a: Id, b: Id, c: Id, start: nat) returns (e: Queue)
    requires Three(a, b, c) && Stands(t, [a], [b, c], 1) && start <= |t.log| && CreditIds(t.log, start) == [a, b, c]
    requires t.seqs == map[a := WANTS_POST, b := WANTS_POST, c := WANTS_POST]
    ensures EndLoop(t, 1, Some(b), 0, 0) == e && CreditIds(e.log, start) == [a, b, c, b, c]
  {
    assert Without([a], b) == [a] && Without([b, c], b) == [c] by { WithoutHead([b, c]); }
    e := EndTurn(t, b, Some(c), start);
    assert Without([a], c) == [a] && Without([c], c) == [];
    e := EndTurn(e, c, None, start);
  }

  /** The second flush credits request 1 once and requests 2 and 3 twice. */
  lemma CreditedTwice(q: Queue)
    requires Stands(q.(runningIdx := 0), [], [1, 2, 3], 0) && q.runningIdx == 1
    requires q.seqs == map[1 := WANTS_BOTH, 2 := WANTS_BOTH, 3 := WANTS_BOTH]
    ensures Credits(q, 0, 0, [1, 2, 3, 2, 3]) == true
  {
    var f := FlushAccounted(q, 0);
    CreditAppend(q.log, FlushFinished(0), |q.log|);
    var t1 := FirstParked(f, 1, 2, 3, |q.log|);
    var t2 := SecondParked(t1, 1, 2, 3, |q.log|);
    var t3 := ThirdParked(t2, 1, 2, 3, |q.log|);
    var e := TwoEnded(t3, 1, 2, 3, |q.log|);
  }

  lemma SeqsOfThree()
    ensures Seqs([1, 2, 3]) ==
            map[0 := Mask(false, true, true), 1 := Mask(false, true, false), 2 := Mask(false, true, false),
                3 := Mask(false, true, false)]
  {
    assert [1, 2, 3][..2] == [1, 2] && [1, 2][..1] == [1] && [1][..0] == [];
  }

  lemma DeviceSteps(q4: Queue) returns (q7: Queue)
    requires Waits(q4, [1, 2, 3]) == true && Reached(Sys(q4, {}, 0)) == true
    ensures Reached(Sys(q7, {FlushRq}, 0)) == true
    ensures q7.Busy() && Recycles(q7, 0, 0)
    ensures Running(q7) == [1, 2, 3] && Credits(q7, 0, 0, [1, 2, 3, 2, 3]) == true
  {
    var q5 := q4.(head := []);
    SeqsOfThree();
    SecondFlush(q5);
    var q6 := FlushEnded(q5, 0, 0);
    q7 := q6.(head := []);
    DeviceReached(q4, q5, q6, q7);
    assert Recirculates(q7, 0, Running(q7)[1]);
    CreditedTwice(q7);
  }

  lemma DeviceReached(q4: Queue, q5: Queue, q6: Queue, q7: Queue)
    requires Reached(Sys(q4, {}, 0)) == true && q4.head == [FlushRq] && q6.head == [FlushRq]
    requires q5 == q4.(head := []) && q6 == FlushEnded(q5, 0, 0) && q7 == q6.(head := [])
    ensures Reached(Sys(q7, {FlushRq}, 0)) == true
  {
    ReachedNext(Sys(q4, {}, 0), Fetch, Sys(q5, {FlushRq}, 0));
    assert {FlushRq} - {FlushRq} == {};
    ReachedNext(Sys(q5, {FlushRq}, 0), FlushDone(0), Sys(q6, {}, 0));
    ReachedNext(Sys(q6, {}, 0), Fetch, Sys(q7, {FlushRq}, 0));
  }

  lemma {:induction false} NoEventNoStatus(log: seq<Event>, r: Id)
    requires forall e :: e in log ==> e.FlushIssued? || e.FlushFinished? || e.id != r
    ensures StatusOf(log, r).Unseen?
  {
    if log != [] {
      NoEventNoStatus(log[..|log| - 1], r);
    }
  }

  lemma SecondFlush(q: Queue)
    requires q.lists == [[0], [1, 2, 3]] && q.pendingIdx == 1 && q.runningIdx == 0 && q.dataInFlight == []
    requires q.head == []
    requires q.seqs == map[0 := Mask(false, true, true), 1 := Mask(false, true, false),
                           2 := Mask(false, true, false), 3 := Mask(false, true, false)]
    ensures var q' := FlushEnded(q, 0, 0);
            && q'.lists == [[], [1, 2, 3]] && q'.pendingIdx == 0 && q'.runningIdx == 1 && q'.dataInFlight == []
            && q'.head == [FlushRq]
            && q'.seqs == map[1 := Mask(false, true, false), 2 := Mask(false, true, false),
                              3 := Mask(false, true, false)]
  {
    var f := FlushAccounted(q, 0);
    assert f.lists[0][0] == 0 && Next(f.lists[0], 0) == None;
    var q' := CompletedSeq(f, 0, BitOf(Preflush), 0, 0);
    assert Without([1, 2, 3], 0) == [1, 2, 3];
    assert q'.lists == [[], [1, 2, 3]];
    assert EndLoop(f, 0, Some(0), 0, 0) == EndLoop(q', 0, None, 0, 0);
  }
}
