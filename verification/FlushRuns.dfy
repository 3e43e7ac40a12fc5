/**
 Whole runs of the sequencer against a device, and what FLUSH and FUA mean in them.

 The device takes requests from the dispatch list in order and completes what it took in any order, with any
 error. Time passes arbitrarily. The theorems are about the log of every reachable state.
 */
module FlushRuns {
  import opened Lists
  import opened FlushModel
  import opened FlushSafety

  datatype Sys = Sys(q: Queue, device: set<Item>, now: nat)

  datatype Action =
    | Submit(r: Id, req: Request, dev: Flags)
    | Fetch
    | FlushDone(error: int)
    | DataDone(r: Id, error: int)
    | OtherDone(r: Id, error: int)
    | Tick(elapsed: nat)

  ghost predicate Init(s: Sys) {
    s.q == EMPTY_QUEUE && s.device == {}
  }

  ghost predicate Step(s: Sys, a: Action, s': Sys) {
    match a
    case Submit(r, req, dev) =>
      Fresh(s.q, r) && s' == s.(q := Inserted(s.q, r, req, dev, s.now))
    case Fetch =>
      s.q.head != [] && s' == s.(q := s.q.(head := s.q.head[1..]), device := s.device + {s.q.head[0]})
    case FlushDone(error) =>
      FlushRq in s.device && s' == s.(q := FlushEnded(s.q, error, s.now), device := s.device - {FlushRq})
    case DataDone(r, error) =>
      && Rq(r) in s.device && r in s.q.seqs
      && s' == s.(q := DataEnded(s.q, r, error, s.now), device := s.device - {Rq(r)})
    case OtherDone(r, error) =>
      && Rq(r) in s.device && r !in s.q.seqs
      && s' == s.(q := s.q.(log := s.q.log + [Written(r, error)]), device := s.device - {Rq(r)})
    case Tick(elapsed) => s' == s.(now := s.now + elapsed)
  }

  ghost predicate Run(states: seq<Sys>, actions: seq<Action>) {
    && |states| == |actions| + 1
    && Init(states[0])
    && forall i :: 0 <= i < |actions| ==> Step(states[i], actions[i], states[i + 1])
  }

  // ---------------------------------------------------------------- what is on the dispatch list and in the device

  ghost predicate Out(q: Queue, device: set<Item>, x: Item) {
    x in q.head || x in device
  }

  ghost predicate ItemsOk(q: Queue, device: set<Item>) {
    && NoDup(q.head)
    && (forall x :: x in q.head ==> x !in device)
    && (Out(q, device, FlushRq) <==> q.Busy())
    && (forall r :: r in q.seqs ==> (Out(q, device, Rq(r)) <==> r in q.dataInFlight))
    && (forall r :: Out(q, device, Rq(r)) && r !in q.seqs ==> StatusOf(q.log, r).Dead?)
  }

  /** ItemsOk for a queue on which `r` is about to be moved and is nowhere on its way to the device. */
  ghost predicate ItemsBut(q: Queue, device: set<Item>, r: Id) {
    && NoDup(q.head)
    && (forall x :: x in q.head ==> x !in device)
    && (Out(q, device, FlushRq) <==> q.Busy())
    && !Out(q, device, Rq(r))
    && (forall o :: o in q.seqs && o != r ==> (Out(q, device, Rq(o)) <==> o in q.dataInFlight))
    && (forall o :: Out(q, device, Rq(o)) && o !in q.seqs ==> StatusOf(q.log, o).Dead?)
  }

  lemma AdvancedItems(q: Queue, device: set<Item>, r: Id, bits: Mask, error: int, now: nat)
    requires r in q.seqs && ItemsBut(q, device, r)
    ensures ItemsOk(Advanced(q, r, bits, error, now), device)
  {
    var s := Record(q, r, bits, error);
    var q' := Advanced(q, r, bits, error, now);
    forall o | o != r ensures StatusOf(q'.log, o) == StatusOf(q.log, o) {
      CoverOne(q, s, o);
      CoverOne(s, q', o);
    }
    forall o | o != r ensures Out(q', device, Rq(o)) <==> Out(q, device, Rq(o)) {
    }
    assert Out(q', device, FlushRq) <==> Out(q, device, FlushRq);
  }

  lemma KickedItems(q: Queue, device: set<Item>, now: nat)
    requires ItemsOk(q, device)
    ensures ItemsOk(Kicked(q, now), device)
  {
    var q' := Kicked(q, now);
    if q' != q {
      forall o ensures StatusOf(q'.log, o) == StatusOf(q.log, o) {
        CoverOne(q, q', o);
      }
      AppendNoDup(q.head, FlushRq);
      forall o: Id ensures Out(q', device, Rq(o)) <==> Out(q, device, Rq(o)) {
      }
      assert q'.head[|q.head|] == FlushRq;
    }
  }

  lemma CompletedItems(q: Queue, device: set<Item>, r: Id, bits: Mask, error: int, now: nat)
    requires r in q.seqs && ItemsBut(q, device, r)
    ensures ItemsOk(CompletedSeq(q, r, bits, error, now), device)
  {
    AdvancedItems(q, device, r, bits, error, now);
    KickedItems(Advanced(q, r, bits, error, now), device, now);
  }

  lemma {:induction false} LoopItems(q: Queue, device: set<Item>, ri: Idx, cur: Option<Id>, error: int, now: nat)
    requires LoopInv(q, ri, cur, error) && ItemsOk(q, device)
    ensures ItemsOk(EndLoop(q, ri, cur, error, now), device)
    decreases Missing(q)
  {
    if cur.Some? {
      var r := cur.value;
      LoopStep(q, ri, r, error, now);
      CompletedSeqShrinks(q, r, error, now);
      assert r !in q.dataInFlight;
      CompletedItems(q, device, r, BitOf(CurSeq(q.seqs[r])), error, now);
      LoopItems(CompletedSeq(q, r, BitOf(CurSeq(q.seqs[r])), error, now), device, ri, Next(q.lists[ri], r), error, now);
    }
  }

  // ---------------------------------------------------------------- every reachable state

  ghost predicate SysInv(s: Sys) {
    Inv(s.q) && ItemsOk(s.q, s.device)
  }

  lemma SubmitItems(q: Queue, device: set<Item>, r: Id, req: Request, dev: Flags, now: nat)
    requires Inv(q) && ItemsOk(q, device) && Fresh(q, r)
    ensures ItemsOk(Inserted(q, r, req, dev, now), device)
  {
    var q' := Inserted(q, r, req, dev, now);
    assert !Out(q, device, Rq(r));
    assert r !in q.seqs;
    if NeedsSequence(Policy(dev, req)) {
      var s := Entered(q, r, req, dev);
      forall o | o != r ensures StatusOf(s.log, o) == StatusOf(q.log, o) {
        CoverOne(q, s, o);
      }
      forall x ensures Out(s, device, x) <==> Out(q, device, x) {
      }
      CompletedItems(s, device, r, Complement(Policy(dev, req)), 0, now);
    } else {
      StatusAppend(q.log, Bypassed(r), r);
      forall o | o != r ensures StatusOf(q'.log, o) == StatusOf(q.log, o) {
        CoverOne(q, q', o);
      }
      AppendNoDup(q.head, Rq(r));
      forall o: Id | o != r ensures Out(q', device, Rq(o)) <==> Out(q, device, Rq(o)) {
      }
      assert Out(q', device, FlushRq) <==> Out(q, device, FlushRq);
    }
  }

  lemma WrittenInv(q: Queue, q': Queue, r: Id, error: int)
    requires Inv(q) && r !in q.seqs && StatusOf(q.log, r).Dead?
    requires q' == q.(log := q.log + [Written(r, error)])
    ensures Inv(q') && forall o :: StatusOf(q'.log, o) == StatusOf(q.log, o)
  {
    var e := Written(r, error);
    assert OneAbout(q.log, q'.log, r) by {
      assert q'.log == q.log + [e];
    }
    forall o ensures StatusOf(q'.log, o) == StatusOf(q.log, o) {
      StatusFlushEvent(q, q', e, o);
    }
    GoodAppend(q.log, e);
    OthersKept(q, q', r);
    RunningKept(q, q', r);
  }

  lemma FetchInv(q: Queue, device: set<Item>)
    requires Inv(q) && ItemsOk(q, device) && q.head != []
    ensures Inv(q.(head := q.head[1..])) && ItemsOk(q.(head := q.head[1..]), device + {q.head[0]})
  {
    var q' := q.(head := q.head[1..]);
    forall r ensures RqOk(q, r) ==> RqOk(q', r)
             ensures WaitOk(q, r) ==> WaitOk(q', r)
    {
    }
    if q.Busy() {
      var j: nat :| OpenFlush(q.log, j) && QueuedBefore(q, q.runningIdx, j);
      assert QueuedBefore(q', q'.runningIdx, j);
    }
    forall x ensures Out(q', device + {q.head[0]}, x) <==> Out(q, device, x) {
      assert q.head == [q.head[0]] + q'.head;
    }
  }

  /** Every action keeps the invariant. */
  lemma StepInv(s: Sys, a: Action, s': Sys)
    requires SysInv(s) && Step(s, a, s')
    ensures SysInv(s')
  {
    match a
    case Submit(r, req, dev) =>
      InsertedInv(s.q, r, req, dev, s.now);
      SubmitItems(s.q, s.device, r, req, dev, s.now);
    case Fetch =>
      FetchInv(s.q, s.device);
    case FlushDone(error) =>
      FlushDoneInv(s, error);
    case DataDone(r, error) =>
      DataDoneInv(s, r, error);
    case OtherDone(r, error) =>
      assert Out(s.q, s.device, Rq(r));
      WrittenInv(s.q, s'.q, r, error);
      forall x | x != Rq(r) ensures Out(s'.q, s'.device, x) <==> Out(s.q, s.device, x) {
      }
    case Tick(_) =>
  }

  lemma FlushDoneInv(s: Sys, error: int)
    requires SysInv(s) && FlushRq in s.device
    ensures SysInv(s.(q := FlushEnded(s.q, error, s.now), device := s.device - {FlushRq}))
  {
    var q, device := s.q, s.device - {FlushRq};
    assert Out(q, s.device, FlushRq);
    FlushEndedInv(q, error, s.now);
    AccountedLoop(q, error);
    var f := FlushAccounted(q, error);
    forall o ensures StatusOf(f.log, o) == StatusOf(q.log, o) {
      CoverOne(q, f, o);
    }
    forall x | x != FlushRq ensures Out(f, device, x) <==> Out(q, s.device, x) {
    }
    LoopItems(f, device, q.runningIdx, First(q.lists[q.runningIdx]), error, s.now);
  }

  lemma DataDoneInv(s: Sys, r: Id, error: int)
    requires SysInv(s) && Rq(r) in s.device && r in s.q.seqs
    ensures SysInv(s.(q := DataEnded(s.q, r, error, s.now), device := s.device - {Rq(r)}))
  {
    var device := s.device - {Rq(r)};
    assert Out(s.q, s.device, Rq(r));
    DataEndedInv(s.q, r, error, s.now);
    forall x | x != Rq(r) ensures Out(s.q, device, x) <==> Out(s.q, s.device, x) {
    }
    CompletedItems(s.q, device, r, DATA_BIT, error, s.now);
  }

  lemma InitInv(s: Sys)
    requires Init(s)
    ensures SysInv(s)
  {
    assert forall r :: StatusOf([], r) == Unseen;
  }

  lemma {:induction false} RunInv(states: seq<Sys>, actions: seq<Action>, n: nat)
    requires Run(states, actions) && n < |states|
    ensures SysInv(states[n])
  {
    if n == 0 {
      InitInv(states[0]);
    } else {
      RunInv(states, actions, n - 1);
      StepInv(states[n - 1], actions[n - 1], states[n]);
    }
  }

  /**
   What each entry point relies on holds whenever the device or a submitter calls it, so no BUG_ON on the state of the
   sequencer fires: a flush that completes is in flight, and every request it credits waits for a flush and is nowhere
   on the dispatch list; data that completes has not completed before; a request that is submitted is not being
   sequenced.
   */
  lemma NoBugOn(states: seq<Sys>, actions: seq<Action>, n: nat, r: Id)
    requires Run(states, actions) && n < |states|
    ensures var q, device := states[n].q, states[n].device;
            && Inv(q)
            && (FlushRq in device ==> q.pendingIdx != q.runningIdx)
            && (r in q.lists[q.runningIdx] ==> AtFlush(q, r) && Rq(r) !in q.head)
            && (Rq(r) in device && r in q.seqs ==>
                  r in q.dataInFlight && Rq(r) !in q.head && !Overlap(q.seqs[r], DATA_BIT))
            && (Fresh(q, r) ==> r !in q.seqs && Rq(r) !in q.head && Rq(r) !in device)
  {
    RunInv(states, actions, n);
    var q, device := states[n].q, states[n].device;
    assert FlushRq in device ==> Out(q, device, FlushRq);
    assert Rq(r) in q.head || Rq(r) in device ==> Out(q, device, Rq(r));
    if r in q.lists[q.runningIdx] {
      assert WaitOk(q, r);
    }
  }
}
