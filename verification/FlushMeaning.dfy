/**
 What FLUSH and FUA mean, over every run: which writes are on stable storage when a request's data is
 dispatched and when a request ends.
 */
module FlushMeaning {
  import opened Lists
  import opened FlushModel
  import opened FlushSafety
  import opened FlushRuns

  lemma {:induction false} NeverUnseenAgain(log: seq<Event>, a: nat, b: nat, r: Id)
    requires a <= b <= |log| && !StatusOf(log[..a], r).Unseen?
    ensures !StatusOf(log[..b], r).Unseen?
  {
    if a < b {
      NeverUnseenAgain(log, a, b - 1, r);
      assert log[..b][..b - 1] == log[..b - 1];
    }
  }

  lemma {:induction false} DeadForever(log: seq<Event>, a: nat, b: nat, r: Id)
    requires a <= b <= |log| && StatusOf(log[..a], r).Dead?
    ensures StatusOf(log[..b], r).Dead?
  {
    if a < b {
      DeadForever(log, a, b - 1, r);
      assert log[..b][..b - 1] == log[..b - 1];
    }
  }

  lemma StatusAt(log: seq<Event>, n: nat, r: Id)
    requires n < |log|
    ensures StatusOf(log[..n + 1], r) == Status1(StatusOf(log[..n], r), n, log[n], r)
  {
    assert log[..n + 1][..n] == log[..n];
  }

  /** A request is submitted once, so its status names that submission. */
  lemma SubmittedOnce(log: seq<Event>, m: nat, n: nat, r: Id, req: Request, dev: Flags)
    requires GoodLog(log) && m < |log| && n <= |log| && log[m] == Submitted(r, req, dev)
    requires StatusOf(log[..n], r).Live?
    ensures var s := StatusOf(log[..n], r);
            m < n && s.subAt == m && s.req == req && s.dev == dev
  {
    var s := StatusOf(log[..n], r);
    StatusBounds(log[..n], r);
    var a := s.subAt;
    assert EventOk(log[..m], log[m]);
    if m >= n {
      NeverUnseenAgain(log, n, m, r);
    } else if a != m {
      assert EventOk(log[..a], log[a]);
      var lo, hi := if a < m then a else m, if a < m then m else a;
      StatusAt(log, lo, r);
      NeverUnseenAgain(log, lo + 1, hi, r);
    }
  }

  /** A write, inside or outside the sequencer, reached the device's cache without error at `d`. */
  ghost predicate WriteReached(log: seq<Event>, d: nat) {
    && d < |log|
    && match log[d]
       case Completed(_, bits, error) => bits == DATA_BIT && error == 0
       case Written(_, error) => error == 0
       case _ => false
  }

  /** A flush issued after the write reached the cache has completed: the write is on stable storage. */
  ghost predicate Stable(log: seq<Event>, d: nat) {
    FlushedSince(log, d)
  }

  /**
   REQ_FLUSH on a write-back device: when the data of a request is dispatched, and when the request ends
   without error, every write that reached the cache before the request was submitted is on stable storage.
   */
  lemma FlushMeansEarlierWritesStable(states: seq<Sys>, actions: seq<Action>, at: nat,
                                      m: nat, n: nat, d: nat, r: Id, req: Request, dev: Flags)
    requires Run(states, actions) && at < |states|
    requires var log := states[at].q.log;
             && m < |log| && log[m] == Submitted(r, req, dev) && dev.flush && req.flags.flush
             && n < |log| && (log[n] == DataQueued(r) || log[n] == Ended(r, 0))
             && d < m && WriteReached(log, d)
    ensures m < n && Stable(states[at].q.log[..n], d)
  {
    RunInv(states, actions, at);
    var log := states[at].q.log;
    assert EventOk(log[..n], log[n]);
    SubmittedOnce(log, m, n, r, req, dev);
    FlushedMonotone(log[..n], [], m, d);
    assert log[..n] + [] == log[..n];
  }

  /**
   REQ_FUA with data on a write-back device without FUA: the request ends without error only when its own data
   reached the device, after the request was submitted, and is on stable storage.
   */
  lemma FuaMeansOwnDataStable(states: seq<Sys>, actions: seq<Action>, at: nat,
                              m: nat, n: nat, r: Id, req: Request, dev: Flags)
    requires Run(states, actions) && at < |states|
    requires var log := states[at].q.log;
             && m < |log| && log[m] == Submitted(r, req, dev)
             && dev.flush && !dev.fua && req.flags.fua && req.sectors != 0
             && n < |log| && log[n] == Ended(r, 0)
    ensures var log := states[at].q.log;
            exists d :: m < d < n && log[d] == Completed(r, DATA_BIT, 0) && Stable(log[..n], d)
  {
    RunInv(states, actions, at);
    var log := states[at].q.log;
    assert EventOk(log[..n], log[n]);
    SubmittedOnce(log, m, n, r, req, dev);
    StatusBounds(log[..n], r);
    var d := StatusOf(log[..n], r).dataAt.value;
    assert log[d] == Completed(r, DATA_BIT, 0);
  }

  /** Requests leave the sequencer's care exactly when the device leaves nothing for it to do. */
  lemma BypassExactly(q: Queue, r: Id, req: Request, dev: Flags, now: nat)
    requires r !in q.seqs
    ensures Inserted(q, r, req, dev, now).log == q.log + [Bypassed(r)] <==>
            !(dev.flush && (req.flags.flush || (req.flags.fua && !dev.fua)))
    ensures Inserted(q, r, req, dev, now).log == q.log + [Bypassed(r)] ==>
            Inserted(q, r, req, dev, now).head == q.head + if req.sectors == 0 then [] else [Rq(r)]
  {
    var q' := Inserted(q, r, req, dev, now);
    if NeedsSequence(Policy(dev, req)) {
      assert q'.log[|q.log|] == Submitted(r, req, dev);
      assert (q.log + [Bypassed(r)])[|q.log|] == Bypassed(r);
    }
  }

  /** Two flushes never overlap: between two issues the first one completed. */
  lemma FlushesNeverOverlap(states: seq<Sys>, actions: seq<Action>, at: nat, i: nat, j: nat)
    requires Run(states, actions) && at < |states|
    requires var log := states[at].q.log;
             i < j < |log| && log[i] == FlushIssued && log[j] == FlushIssued
    ensures var log := states[at].q.log;
            exists k :: i < k < j && log[k].FlushFinished?
  {
    RunInv(states, actions, at);
    var log := states[at].q.log;
    assert EventOk(log[..j], log[j]);
    if forall k :: i < k < j ==> !log[k].FlushFinished? {
      assert OpenFlush(log[..j], i);
    }
  }

  /** A flush is in flight exactly when the indices differ, and then its request is in exactly one place. */
  lemma OneFlushInFlight(states: seq<Sys>, actions: seq<Action>, at: nat)
    requires Run(states, actions) && at < |states|
    ensures var s := states[at];
            && (s.q.pendingIdx != s.q.runningIdx <==> FlushOpen(s.q.log))
            && (s.q.pendingIdx != s.q.runningIdx <==> FlushRq in s.q.head || FlushRq in s.device)
            && !(FlushRq in s.q.head && FlushRq in s.device)
            && multiset(s.q.head)[FlushRq] <= 1
  {
    RunInv(states, actions, at);
    var s := states[at];
    assert Out(s.q, s.device, FlushRq) <==> FlushRq in s.q.head || FlushRq in s.device;
    NoDupCount(s.q.head, FlushRq);
  }

  lemma {:induction false} NoDupCount<T(!new)>(s: seq<T>, x: T)
    requires NoDup(s)
    ensures multiset(s)[x] <= 1
  {
    if s != [] {
      NoDupCount(s[1..], x);
      assert s == [s[0]] + s[1..];
    }
  }

  lemma DataIsOut(q: Queue, device: set<Item>)
    requires ListsOk(q, None) && ItemsOk(q, device)
    ensures q.dataInFlight != [] ==> exists r :: r in q.seqs && Out(q, device, Rq(r))
  {
    if q.dataInFlight != [] {
      var r := q.dataInFlight[0];
      assert r in q.seqs && Out(q, device, Rq(r));
    }
  }

  /** With no flush and no sequenced data on its way to or in the device, no request is left waiting. */
  lemma NothingStranded(states: seq<Sys>, actions: seq<Action>, at: nat)
    requires Run(states, actions) && at < |states|
    requires var s := states[at];
             && FlushRq !in s.q.head && FlushRq !in s.device
             && (forall r :: r in s.q.seqs ==> Rq(r) !in s.q.head && Rq(r) !in s.device)
    ensures states[at].q.seqs == map[]
    ensures forall r :: !StatusOf(states[at].q.log, r).Live?
  {
    RunInv(states, actions, at);
    var s := states[at];
    assert !Out(s.q, s.device, FlushRq);
    assert forall r :: r in s.q.seqs ==> !Out(s.q, s.device, Rq(r));
    DataIsOut(s.q, s.device);
  }

  /** Every sequenced request is on exactly one of the three lists. */
  lemma OnExactlyOneList(states: seq<Sys>, actions: seq<Action>, at: nat, r: Id)
    requires Run(states, actions) && at < |states| && StatusOf(states[at].q.log, r).Live?
    ensures var q := states[at].q;
            multiset(q.lists[0])[r] + multiset(q.lists[1])[r] + multiset(q.dataInFlight)[r] == 1
  {
    RunInv(states, actions, at);
    var q := states[at].q;
    NoDupCount(q.lists[0], r);
    NoDupCount(q.lists[1], r);
    NoDupCount(q.dataInFlight, r);
  }

  // ---------------------------------------------------------------- the steps of one request

  /** The action masks recorded for `r`, in order. */
  function Trail(log: seq<Event>, r: Id): seq<Mask> {
    if log == [] then []
    else
      var e := log[|log| - 1];
      Trail(log[..|log| - 1], r) + if e.Completed? && e.id == r then [e.bits] else []
  }

  /** The wanted actions already in `got`, in the order PREFLUSH, DATA, POSTFLUSH. */
  function StepsOf(wants: Mask, got: Mask): seq<Mask> {
    (if wants.pre && got.pre then [BitOf(Preflush)] else []) +
    (if wants.data && got.data then [BitOf(Data)] else []) +
    (if wants.post && got.post then [BitOf(Postflush)] else [])
  }

  /** What the status of a request says about its trail. */
  ghost predicate TrailOk(s: Status, trail: seq<Mask>) {
    && (s.Unseen? ==> trail == [])
    && (s.Live? && !s.started ==> s.got == NO_BITS && trail == [])
    && (s.Live? && s.started ==> TrailStarted(s.Wants(), s.got, trail))
  }

  ghost predicate TrailStarted(wants: Mask, got: Mask, trail: seq<Mask>) {
    && trail == [Complement(wants)] + StepsOf(wants, got)
    && (!wants.pre ==> got.pre) && (!wants.data ==> got.data) && (!wants.post ==> got.post)
    && (wants.data && got.data ==> got.pre)
    && (wants.post && got.post ==> got.pre && got.data)
  }

  lemma TrailBegins(wants: Mask)
    ensures TrailStarted(wants, Union(NO_BITS, Complement(wants)), [Complement(wants)])
  {
  }

  lemma TrailGoesOn(wants: Mask, got: Mask, trail: seq<Mask>)
    requires TrailStarted(wants, got, trail) && CurSeq(got) != Done
    ensures TrailStarted(wants, Union(got, BitOf(CurSeq(got))), trail + [BitOf(CurSeq(got))])
  {
  }

  lemma TrailNext(s: Status, trail: seq<Mask>, log: seq<Event>, e: Event, r: Id)
    requires TrailOk(s, trail) && s == StatusOf(log, r) && EventOk(log, e)
    ensures TrailOk(Status1(s, |log|, e, r), trail + if e.Completed? && e.id == r then [e.bits] else [])
  {
    if e.Completed? && e.id == r {
      if s.started {
        TrailGoesOn(s.Wants(), s.got, trail);
      } else {
        TrailBegins(s.Wants());
        assert trail + [e.bits] == [Complement(s.Wants())];
      }
    } else {
      assert trail + [] == trail;
    }
  }

  lemma {:induction false} TrailShape(log: seq<Event>, r: Id)
    requires GoodLog(log)
    ensures TrailOk(StatusOf(log, r), Trail(log, r))
  {
    if log != [] {
      var n := |log| - 1;
      GoodPrefix(log, n);
      TrailShape(log[..n], r);
      assert EventOk(log[..n], log[n]);
      TrailNext(StatusOf(log[..n], r), Trail(log[..n], r), log[..n], log[n], r);
    }
  }

  lemma GoodPrefix(log: seq<Event>, n: nat)
    requires GoodLog(log) && n <= |log|
    ensures GoodLog(log[..n])
  {
    forall k | 0 <= k < n ensures EventOk(log[..n][..k], log[..n][k]) {
      assert log[..n][..k] == log[..k];
      assert EventOk(log[..k], log[k]);
    }
  }

  /** Nothing is recorded for a request after it ended, and it ends once. */
  lemma EndIsLast(log: seq<Event>, n: nat, r: Id, k: nat)
    requires GoodLog(log) && n < |log| && log[n].Ended? && log[n].id == r
    requires k < |log| && (log[k].Ended? || (k > n && log[k].Completed?)) && log[k].id == r
    ensures k == n
  {
    assert EventOk(log[..n], log[n]);
    assert EventOk(log[..k], log[k]);
    if k > n {
      StatusAt(log, n, r);
      DeadForever(log, n + 1, k, r);
    } else if k < n {
      StatusAt(log, k, r);
      DeadForever(log, k + 1, n, r);
    }
  }

  /** An error is recorded for good. */
  lemma {:induction false} NeverCleanAgain(log: seq<Event>, a: nat, b: nat, r: Id)
    requires a <= b <= |log| && StatusOf(log[..a], r).Live? && !StatusOf(log[..a], r).clean
    ensures var s := StatusOf(log[..b], r);
            s.Dead? || (s.Live? && !s.clean)
  {
    if a < b {
      NeverCleanAgain(log, a, b - 1, r);
      StatusAt(log, b - 1, r);
    }
  }

  /** The first error is the last thing recorded for a request. */
  lemma ErrorIsLast(log: seq<Event>, k: nat, n: nat, r: Id)
    requires GoodLog(log) && k < n < |log|
    requires log[k].Completed? && log[k].id == r && log[n].Completed? && log[n].id == r
    ensures log[k].error == 0
  {
    assert EventOk(log[..k], log[k]) && EventOk(log[..n], log[n]);
    if log[k].error != 0 {
      StatusAt(log, k, r);
      NeverCleanAgain(log, k + 1, n, r);
    }
  }

  /** The actions recorded are a front part of those the policy asks for. */
  lemma StepsInOrder(wants: Mask, got: Mask, trail: seq<Mask>)
    requires TrailStarted(wants, got, trail)
    ensures trail <= [Complement(wants)] + StepsOf(wants, wants) && trail != []
    ensures CurSeq(got) == Done ==> trail == [Complement(wants)] + StepsOf(wants, wants)
  {
  }

  lemma StepsUntilEnd(log: seq<Event>, m: nat, n: nat, r: Id, req: Request, dev: Flags, error: int)
    requires GoodLog(log) && m < |log| && log[m] == Submitted(r, req, dev) && n < |log| && log[n] == Ended(r, error)
    ensures var trail := Trail(log[..n], r);
            var whole := [Complement(Policy(dev, req))] + StepsOf(Policy(dev, req), Policy(dev, req));
            && trail != [] && trail <= whole && (error == 0 ==> trail == whole)
            && n > 0 && log[n - 1] == Completed(r, trail[|trail| - 1], error)
  {
    assert EventOk(log[..n], log[n]);
    SubmittedOnce(log, m, n, r, req, dev);
    GoodPrefix(log, n);
    TrailShape(log[..n], r);
    var s := StatusOf(log[..n], r);
    StepsInOrder(s.Wants(), s.got, Trail(log[..n], r));
  }

  /**
   A request that ends, with or without error, ends only once and has nothing recorded for it afterwards. It went
   through the actions its policy asks for in order and without error, up to the one whose error it ends with; without
   error through all of them, at most three besides the initial record of what it skips.
   */
  lemma EndsOnceInPolicyOrder(states: seq<Sys>, actions: seq<Action>, at: nat,
                              m: nat, n: nat, r: Id, req: Request, dev: Flags, error: int)
    requires Run(states, actions) && at < |states|
    requires var log := states[at].q.log;
             && m < |log| && log[m] == Submitted(r, req, dev)
             && n < |log| && log[n] == Ended(r, error)
    ensures var log := states[at].q.log;
            var policy := Policy(dev, req);
            var trail, whole := Trail(log[..n], r), [Complement(policy)] + StepsOf(policy, policy);
            && trail != [] && trail <= whole && (error == 0 ==> trail == whole) && |whole| <= 4
            && n > 0 && log[n - 1] == Completed(r, trail[|trail| - 1], error)
            && (forall k :: 0 <= k < |log| && log[k].Ended? && log[k].id == r ==> k == n)
            && (forall k :: n < k < |log| && log[k].Completed? ==> log[k].id != r)
            && (forall k :: 0 <= k < n - 1 && log[k].Completed? && log[k].id == r ==> log[k].error == 0)
  {
    RunInv(states, actions, at);
    var log := states[at].q.log;
    StepsUntilEnd(log, m, n, r, req, dev, error);
    forall k | 0 <= k < n - 1 && log[k].Completed? && log[k].id == r ensures log[k].error == 0 {
      ErrorIsLast(log, k, n - 1, r);
    }
    forall k | 0 <= k < |log| && (log[k].Ended? || (k > n && log[k].Completed?)) && log[k].id == r ensures k == n {
      EndIsLast(log, n, r, k);
    }
  }

  // ---------------------------------------------------------------- the steps, by flags

  /** What asks for a step: flags and data of the request, and what the device can do. */
  predicate AskedFor(step: Mask, req: Request, dev: Flags) {
    || (step == BitOf(Preflush) && dev.flush && req.flags.flush)
    || (step == BitOf(Data) && req.sectors != 0)
    || (step == BitOf(Postflush) && dev.flush && !dev.fua && req.flags.fua)
  }

  /** No step of a request is recorded, in any run, that its flags and the device do not ask for. */
  lemma StepsAreAskedFor(states: seq<Sys>, actions: seq<Action>, at: nat, m: nat, k: nat, r: Id, req: Request,
                         dev: Flags, step: Mask, error: int)
    requires Run(states, actions) && at < |states|
    requires var log := states[at].q.log;
             && m < |log| && log[m] == Submitted(r, req, dev)
             && k < |log| && log[k] == Completed(r, step, error) && Trail(log[..k], r) != []
    ensures AskedFor(step, req, dev)
  {
    RunInv(states, actions, at);
    var log := states[at].q.log;
    assert EventOk(log[..k], log[k]);
    SubmittedOnce(log, m, k, r, req, dev);
    GoodPrefix(log, k);
    TrailShape(log[..k], r);
  }

  lemma WholeAsked(req: Request, dev: Flags, step: Mask)
    requires AskedFor(step, req, dev)
    ensures step in StepsOf(Policy(dev, req), Policy(dev, req))
  {
  }

  /** A request that ends without error has had every step that its flags and the device ask for. */
  lemma AskedForIsDone(states: seq<Sys>, actions: seq<Action>, at: nat, m: nat, n: nat, r: Id, req: Request,
                       dev: Flags, step: Mask)
    requires Run(states, actions) && at < |states| && AskedFor(step, req, dev)
    requires var log := states[at].q.log;
             m < |log| && log[m] == Submitted(r, req, dev) && n < |log| && log[n] == Ended(r, 0)
    ensures var trail := Trail(states[at].q.log[..n], r);
            trail != [] && step in trail[1..]
  {
    EndsOnceInPolicyOrder(states, actions, at, m, n, r, req, dev, 0);
    WholeAsked(req, dev, step);
    var steps := StepsOf(Policy(dev, req), Policy(dev, req));
    assert ([Complement(Policy(dev, req))] + steps)[1..] == steps;
  }

  lemma AllGotWithData(log: seq<Event>, m: nat, j: nat, r: Id, req: Request, dev: Flags, error: int)
    requires GoodLog(log) && dev.fua && m < |log| && log[m] == Submitted(r, req, dev)
    requires j < |log| && log[j] == Completed(r, DATA_BIT, error)
    ensures var s := StatusOf(log[..j + 1], r);
            s.Live? && s.started && CurSeq(s.got) == Done
  {
    assert EventOk(log[..j], log[j]);
    SubmittedOnce(log, m, j, r, req, dev);
    GoodPrefix(log, j);
    TrailShape(log[..j], r);
    StatusAt(log, j, r);
  }

  /** On a device with FUA nothing follows the data: no step of a request is recorded after its DATA step. */
  lemma FuaEndsWithData(states: seq<Sys>, actions: seq<Action>, at: nat, m: nat, j: nat, k: nat, r: Id, req: Request,
                        dev: Flags, error: int)
    requires Run(states, actions) && at < |states| && dev.fua
    requires var log := states[at].q.log;
             && m < |log| && log[m] == Submitted(r, req, dev)
             && j < k < |log| && log[j] == Completed(r, DATA_BIT, error) && log[k].Completed?
    ensures states[at].q.log[k].id != r
  {
    RunInv(states, actions, at);
    var log := states[at].q.log;
    if log[k].id == r {
      assert EventOk(log[..k], log[k]);
      AllGotWithData(log, m, j, r, req, dev, error);
      GotStays(log, j + 1, k, r);
    }
  }

  /** Recorded actions stay recorded. */
  lemma {:induction false} GotStays(log: seq<Event>, a: nat, b: nat, r: Id)
    requires a <= b <= |log| && StatusOf(log[..a], r).Live? && StatusOf(log[..b], r).Live?
    ensures var s, t := StatusOf(log[..a], r), StatusOf(log[..b], r);
            && (s.started ==> t.started)
            && (s.got.pre ==> t.got.pre) && (s.got.data ==> t.got.data) && (s.got.post ==> t.got.post)
  {
    if a < b {
      StatusAt(log, b - 1, r);
      if !StatusOf(log[..b - 1], r).Live? {
        NeverUnseenAgain(log, a, b - 1, r);
        DeadForever(log, b - 1, b, r);
        assert false;
      }
      GotStays(log, a, b - 1, r);
    }
  }
}
