/** Bounded waiting in the deadline scheduler, over every run. */
module DeadlineRuns {
  import opened Lists
  import opened DeadlineModel
  import opened DeadlineSafety

  datatype Sys = Sys(dd: Dd, now: nat)

  datatype Action =
    | Add(r: Id, q: Req)
    | Dispatch
    | Front(r: Id, sectors: nat)
    | Back(r: Id, sectors: nat)
    | Absorb(r: Id, n: Id)
    | Tick(elapsed: nat)

  ghost predicate Step(c: Config, s: Sys, a: Action, s': Sys)
    requires Inv(c, s.dd, s.now)
  {
    match a
    case Add(r, q) => r !in s.dd.reqs && s' == s.(dd := Added(c, s.dd, r, q, s.now))
    case Dispatch => s' == s.(dd := Dispatched(c, s.dd, s.now))
    case Front(r, sectors) =>
      r in s.dd.reqs && sectors <= s.dd.reqs[r].pos && s' == s.(dd := FrontMerged(s.dd, r, sectors))
    case Back(r, sectors) => r in s.dd.reqs && s' == s.(dd := BackMerged(s.dd, r, sectors))
    case Absorb(r, n) =>
      && r in s.dd.reqs && n in s.dd.reqs && r != n && s.dd.reqs[r].write == s.dd.reqs[n].write
      && s' == s.(dd := Absorbed(s.dd, r, n))
    case Tick(elapsed) => s' == s.(now := s.now + elapsed)
  }

  /** Every callback keeps the lists in agreement. */
  lemma StepInv(c: Config, s: Sys, a: Action, s': Sys)
    requires Inv(c, s.dd, s.now) && Step(c, s, a, s')
    ensures Inv(c, s'.dd, s'.now)
  {
    match a
    case Add(r, q) => AddedInv(c, s.dd, r, q, s.now, s.now);
    case Dispatch => DispatchedInv(c, s.dd, s.now, s.now);
    case Front(r, sectors) => FrontMergedInv(c, s.dd, r, sectors, s.now);
    case Back(r, sectors) => BackMergedInv(c, s.dd, r, sectors, s.now);
    case Absorb(r, n) => AbsorbedInv(c, s.dd, r, n, s.now);
    case Tick(elapsed) => LaterInv(c, s.dd, s.now, s'.now);
  }

  /** A run from an empty scheduler. */
  ghost predicate Run(c: Config, states: seq<Sys>, actions: seq<Action>) {
    && c.Valid() && |states| == |actions| + 1
    && states[0].dd == EMPTY_DD
    && forall i :: 0 <= i < |actions| ==>
         Inv(c, states[i].dd, states[i].now) ==> Step(c, states[i], actions[i], states[i + 1])
  }

  lemma {:induction false} RunInv(c: Config, states: seq<Sys>, actions: seq<Action>, n: nat)
    requires Run(c, states, actions) && n < |states|
    ensures Inv(c, states[n].dd, states[n].now)
    ensures n < |actions| ==> Step(c, states[n], actions[n], states[n + 1])
  {
    if n > 0 {
      RunInv(c, states, actions, n - 1);
      StepInv(c, states[n - 1], actions[n - 1], states[n]);
    }
  }

  /** In every reachable state testing the head of a FIFO decides whether any request of its direction has expired. */
  lemma HeadDecidesExpiry(c: Config, states: seq<Sys>, actions: seq<Action>, n: nat, w: bool)
    requires Run(c, states, actions) && n < |states|
    ensures var dd := states[n].dd;
            HeadExpired(dd, w, states[n].now) <==>
            exists r :: r in dd.reqs && dd.reqs[r].write == w && dd.reqs[r].expires <= states[n].now
  {
    RunInv(c, states, actions, n);
    var dd := states[n].dd;
    var fifo := dd.Get(w).fifo;
    if HeadExpired(dd, w, states[n].now) {
      assert fifo[0] in fifo;
    }
    forall r | r in dd.reqs && dd.reqs[r].write == w && dd.reqs[r].expires <= states[n].now
      ensures HeadExpired(dd, w, states[n].now)
    {
      HeadEarliest(c, dd, w, states[n].now, r);
    }
  }

  lemma LaneOf(c: Config, dd: Dd, w: bool, now: nat)
    requires Inv(c, dd, now)
    ensures LaneOk(c, dd.reqs, dd.Get(w), w, now)
  {
  }

  lemma HeadEarliest(c: Config, dd: Dd, w: bool, now: nat, r: Id)
    requires Inv(c, dd, now) && r in dd.reqs && dd.reqs[r].write == w
    ensures var fifo := dd.Get(w).fifo;
            r in fifo && fifo[0] in dd.reqs && dd.reqs[fifo[0]].expires <= dd.reqs[r].expires
  {
    var fifo := dd.Get(w).fifo;
    assert r in fifo;
    var i :| 0 <= i < |fifo| && fifo[i] == r;
  }

  // ---------------------------------------------------------------- writes are not starved

  /** What is left of the running batch. */
  function Rest(c: Config, dd: Dd): nat {
    if Running(c, dd).Some? then c.fifoBatch - dd.batching else 0
  }

  /** The most reads that can be dispatched before a queued write is. */
  function ReadsLeft(c: Config, dd: Dd): nat
    requires c.Valid() && dd.starved <= c.Patience()
  {
    (if dd.write.next.Some? then 0 else Rest(c, dd)) + Prod(c.Patience() - dd.starved, c.MaxBatch())
  }

  /** `k` times `m`, unfolded by ProdStep only. */
  function Prod(k: nat, m: nat): nat {
    if k == 0 then 0 else m + Prod(k - 1, m)
  }

  lemma {:induction false} ProdIs(k: nat, m: nat)
    ensures Prod(k, m) == k * m
  {
    if k > 0 {
      ProdIs(k - 1, m);
    }
  }

  lemma {:induction false} ProdLe(j: nat, k: nat, m: nat)
    requires j <= k
    ensures Prod(j, m) <= Prod(k, m)
  {
    if j > 0 {
      ProdLe(j - 1, k - 1, m);
    }
  }

  /** What moving a request to the dispatch queue leaves. */
  ghost predicate Left(dd: Dd, r: Id, dd': Dd)
    requires r in dd.reqs
  {
    && dd'.reqs == dd.reqs - {r}
    && (dd'.read.next.Some? ==> !dd.reqs[r].write) && (dd'.write.next.Some? ==> dd.reqs[r].write)
    && dd'.Get(dd.reqs[r].write).fifo == Without(dd.Get(dd.reqs[r].write).fifo, r)
    && dd'.Get(!dd.reqs[r].write).fifo == dd.Get(!dd.reqs[r].write).fifo
  }

  lemma MovedLeaves(dd: Dd, r: Id)
    requires r in dd.reqs
    ensures Left(dd, r, Moved(dd, r))
    ensures Moved(dd, r).batching == dd.batching && Moved(dd, r).starved == dd.starved
  {
  }

  /** What a dispatch does to the lists and the counters. */
  lemma DispatchedCounters(c: Config, dd: Dd, now: nat)
    requires Inv(c, dd, now) && Choice(c, dd, now).Some?
    ensures var r, dd' := Choice(c, dd, now).value, Dispatched(c, dd, now);
            && r in dd.reqs && Left(dd, r, dd')
            && dd'.batching == (if Running(c, dd).Some? then dd.batching + 1 else 1)
            && dd'.starved == (if Running(c, dd).Some? then dd.starved else Starved(c, dd))
  {
    ChoiceQueued(c, dd, now);
    var r := Choice(c, dd, now).value;
    if Running(c, dd).Some? {
      MovedLeaves(dd.(batching := dd.batching + 1), r);
    } else {
      MovedLeaves(dd.(batching := 1, starved := Starved(c, dd)), r);
    }
  }

  lemma RestAfter(c: Config, dd: Dd, now: nat)
    requires Inv(c, dd, now) && Choice(c, dd, now).Some?
    ensures Running(c, dd).Some? ==> Rest(c, Dispatched(c, dd, now)) < Rest(c, dd)
    ensures Running(c, dd).None? ==> Rest(c, Dispatched(c, dd, now)) < c.MaxBatch() && Rest(c, dd) == 0
  {
    DispatchedCounters(c, dd, now);
  }

  /** A read taken from the running batch, or starting a batch, uses up one of the reads left. */
  lemma FewerReads(c: Config, dd: Dd, dd': Dd)
    requires c.Valid() && dd.starved <= c.Patience() && dd'.starved <= c.Patience()
    requires || (dd'.starved == dd.starved && dd.write.next.None? && Rest(c, dd') < Rest(c, dd))
             || (dd'.starved == dd.starved + 1 && Rest(c, dd') < c.MaxBatch())
    ensures ReadsLeft(c, dd') < ReadsLeft(c, dd)
  {
  }

  /** While a write is queued, every dispatch is a write or uses up one of the reads left. */
  lemma WriteOrFewerReads(c: Config, dd: Dd, now: nat)
    requires Inv(c, dd, now) && dd.write.fifo != []
    ensures var r := Choice(c, dd, now);
            && r.Some? && r.value in dd.reqs
            && Dispatched(c, dd, now).starved <= c.Patience()
            && (dd.reqs[r.value].write || ReadsLeft(c, Dispatched(c, dd, now)) < ReadsLeft(c, dd))
  {
    ChoiceQueued(c, dd, now);
    DispatchedCounters(c, dd, now);
    RestAfter(c, dd, now);
    var dd' := Dispatched(c, dd, now);
    assert dd'.starved <= c.Patience();
    if !dd.reqs[Choice(c, dd, now).value].write {
      FewerReads(c, dd, dd');
    }
  }

  /** Nothing but a dispatch lengthens or restarts a batch, or touches the counters. */
  ghost predicate Quieter(dd: Dd, dd': Dd) {
    && dd'.batching == dd.batching && dd'.starved == dd.starved
    && (dd'.read.next.Some? ==> dd.read.next.Some?)
    && (dd'.write.next.Some? ==> dd.write.next.Some?)
  }

  lemma RemovedQuieter(dd: Dd, r: Id)
    requires r in dd.reqs
    ensures Quieter(dd, Removed(dd, r))
  {
  }

  lemma OthersQuieter(c: Config, s: Sys, a: Action, s': Sys)
    requires Inv(c, s.dd, s.now) && Step(c, s, a, s') && !a.Dispatch?
    ensures Quieter(s.dd, s'.dd)
  {
    if a.Absorb? {
      RemovedQuieter(if s.dd.reqs[a.n].expires < s.dd.reqs[a.r].expires then Behind(s.dd, a.r, a.n)
                     else BackMerged(s.dd, a.r, s.dd.reqs[a.n].sectors), a.n);
    }
  }

  lemma QuieterRest(c: Config, dd: Dd, dd': Dd)
    requires Quieter(dd, dd') && c.Valid() && dd.starved <= c.Patience()
    requires dd.read.next.None? || dd.write.next.None?
    ensures Rest(c, dd') <= Rest(c, dd) && ReadsLeft(c, dd') <= ReadsLeft(c, dd)
  {
  }

  lemma ReadsLeftBound(c: Config, dd: Dd, now: nat)
    requires Inv(c, dd, now)
    ensures ReadsLeft(c, dd) < Prod(c.Patience() + 1, c.MaxBatch())
  {
    ProdLe(c.Patience() - dd.starved, c.Patience(), c.MaxBatch());
  }

  /** The number of dispatches among these actions. */
  function Dispatches(actions: seq<Action>): nat {
    if actions == [] then 0
    else Dispatches(actions[..|actions| - 1]) + if actions[|actions| - 1].Dispatch? then 1 else 0
  }

  /** A stretch of a run, from any state that satisfies the invariant. */
  ghost predicate Stretch(c: Config, states: seq<Sys>, actions: seq<Action>) {
    && c.Valid() && |states| == |actions| + 1
    && (forall i :: 0 <= i < |states| ==> Inv(c, states[i].dd, states[i].now))
    && (forall i :: 0 <= i < |actions| ==> Step(c, states[i], actions[i], states[i + 1]))
  }

  /** A dispatch in this state takes a read although a write is queued. */
  ghost predicate ReadOverWrite(c: Config, s: Sys) {
    && c.Valid() && s.dd.write.fifo != []
    && var r := Choice(c, s.dd, s.now);
       r.Some? && r.value in s.dd.reqs && !s.dd.reqs[r.value].write
  }

  /** A dispatch in this state takes a write. */
  ghost predicate PicksWrite(c: Config, s: Sys) {
    && c.Valid()
    && var r := Choice(c, s.dd, s.now);
       r.Some? && r.value in s.dd.reqs && s.dd.reqs[r.value].write
  }

  lemma {:induction false} ReadsOverWrites(c: Config, states: seq<Sys>, actions: seq<Action>)
    requires Stretch(c, states, actions)
    requires forall i :: 0 <= i < |actions| && actions[i].Dispatch? ==> ReadOverWrite(c, states[i])
    ensures Dispatches(actions) + ReadsLeft(c, states[|actions|].dd) <= ReadsLeft(c, states[0].dd)
  {
    if actions != [] {
      var n := |actions| - 1;
      ReadsOverWrites(c, states[..n + 1], actions[..n]);
      var s, s' := states[n], states[n + 1];
      assert Step(c, s, actions[n], s');
      if actions[n].Dispatch? {
        WriteOrFewerReads(c, s.dd, s.now);
      } else {
        OthersQuieter(c, s, actions[n], s');
        QuieterRest(c, s.dd, s'.dd);
      }
    }
  }

  /**
   Writes are not starved: in a stretch of any run with a write queued at every dispatch,
   (writes_starved + 1) * max(1, fifo_batch) dispatches include a write.
   */
  lemma WritesServed(c: Config, states: seq<Sys>, actions: seq<Action>)
    requires Stretch(c, states, actions)
    requires forall i :: 0 <= i < |actions| && actions[i].Dispatch? ==> states[i].dd.write.fifo != []
    requires Dispatches(actions) >= Prod(c.Patience() + 1, c.MaxBatch())
    ensures exists i :: 0 <= i < |actions| && actions[i].Dispatch? && PicksWrite(c, states[i])
  {
    forall i | 0 <= i < |actions| && actions[i].Dispatch?
      ensures PicksWrite(c, states[i]) || ReadOverWrite(c, states[i])
    {
      WriteOrFewerReads(c, states[i].dd, states[i].now);
    }
    if forall i :: 0 <= i < |actions| && actions[i].Dispatch? ==> ReadOverWrite(c, states[i]) {
      ReadsOverWrites(c, states, actions);
      ReadsLeftBound(c, states[0].dd, states[0].now);
    }
  }

  // ---------------------------------------------------------------- an expired request is served

  lemma {:induction false} IndexWithout(s: seq<Id>, x: Id, r: Id)
    requires NoDup(s) && r in s && x != r
    ensures r in Without(s, x) && IndexOf(Without(s, x), r) <= IndexOf(s, r)
    ensures s[0] == x ==> IndexOf(Without(s, x), r) == IndexOf(s, r) - 1
  {
    if s[0] == x {
      WithoutHead(s);
    } else if s[0] != r {
      IndexWithout(s[1..], x, r);
    }
  }

  /** The most dispatches an expired request with `k` others ahead of it in its FIFO can still wait for. */
  function Wait(c: Config, dd: Dd, w: bool, k: nat): nat
    requires c.Valid() && dd.starved <= c.Patience()
  {
    var m, p := c.MaxBatch(), c.Patience();
    if w then Rest(c, dd) + Prod(k, Prod(p + 1, m)) + Prod(p - dd.starved, m) + 1
    else Rest(c, dd) + Prod(k, m + m) + (if dd.starved >= p then m else 0) + 1
  }

  /** Taking the head of the FIFO, taking a request of the running batch, or serving the other direction. */
  lemma WaitShrinks(c: Config, dd: Dd, dd': Dd, w: bool, k: nat, k': nat)
    requires c.Valid() && dd.starved <= c.Patience() && dd'.starved <= c.Patience() && k' <= k
    requires !w ==> c.Patience() >= 1
    requires || (Running(c, dd).Some? && dd'.starved == dd.starved && Rest(c, dd') < Rest(c, dd))
             || (Rest(c, dd') < c.MaxBatch() && k' < k && (w ==> dd'.starved == 0))
             || (Rest(c, dd') < c.MaxBatch() && w && dd'.starved == dd.starved + 1)
             || (Rest(c, dd') < c.MaxBatch() && !w && dd.starved >= c.Patience() && dd'.starved == 0)
    ensures Wait(c, dd', w, k') < Wait(c, dd, w, k)
  {
    var m, p := c.MaxBatch(), c.Patience();
    var unit := if w then Prod(p + 1, m) else m + m;
    ProdLe(k', k, unit);
    if k' < k {
      ProdLe(k', k - 1, unit);
      assert Prod(k, unit) == unit + Prod(k - 1, unit);
    }
    ProdLe(0, p - dd.starved, m);
  }

  /** An expired request is dispatched, or comes closer to it, with every dispatch. */
  lemma ExpiredProgress(c: Config, dd: Dd, now: nat, r: Id)
    requires Inv(c, dd, now) && r in dd.reqs && dd.reqs[r].expires <= now
    requires !dd.reqs[r].write ==> c.Patience() >= 1
    ensures var w, dd' := dd.reqs[r].write, Dispatched(c, dd, now);
            && r in dd.Get(w).fifo && dd'.starved <= c.Patience()
            && (Choice(c, dd, now) == Some(r) ||
                (r in dd'.reqs && r in dd'.Get(w).fifo && dd'.reqs[r] == dd.reqs[r] &&
                 Wait(c, dd', w, IndexOf(dd'.Get(w).fifo, r)) < Wait(c, dd, w, IndexOf(dd.Get(w).fifo, r))))
  {
    var w, dd' := dd.reqs[r].write, Dispatched(c, dd, now);
    var fifo := dd.Get(w).fifo;
    HeadEarliest(c, dd, w, now, r);
    ChoiceQueued(c, dd, now);
    var x := Choice(c, dd, now).value;
    DispatchedCounters(c, dd, now);
    RestAfter(c, dd, now);
    if x != r {
      if dd.reqs[x].write == w {
        assert NoDup(fifo);
        IndexWithout(fifo, x, r);
        assert Running(c, dd).None? ==> x == fifo[0];
      }
      WaitShrinks(c, dd, dd', w, IndexOf(fifo, r), IndexOf(dd'.Get(w).fifo, r));
    }
  }

  /** The place of a queued request in its FIFO. */
  function Place(dd: Dd, r: Id): nat
    requires r in dd.reqs && r in dd.Get(dd.reqs[r].write).fifo
  {
    IndexOf(dd.Get(dd.reqs[r].write).fifo, r)
  }

  ghost predicate Queued(dd: Dd, r: Id) {
    r in dd.reqs && r in dd.Get(dd.reqs[r].write).fifo
  }

  /** `r` is no later in the FIFO of the same direction, and expires no later. */
  ghost predicate NoWorse(dd: Dd, dd': Dd, r: Id) {
    && Queued(dd, r) && Queued(dd', r)
    && dd'.reqs[r].write == dd.reqs[r].write && dd'.reqs[r].expires <= dd.reqs[r].expires
    && Place(dd', r) <= Place(dd, r)
  }

  lemma NoWorseTrans(dd: Dd, dd': Dd, dd'': Dd, r: Id)
    requires NoWorse(dd, dd', r) && NoWorse(dd', dd'', r)
    ensures NoWorse(dd, dd'', r)
  {
  }

  lemma RemovedNoWorse(c: Config, dd: Dd, n: Id, r: Id, now: nat)
    requires Inv(c, dd, now) && n in dd.reqs && r in dd.reqs && r != n
    ensures NoWorse(dd, Removed(dd, n), r)
  {
    var w := dd.reqs[r].write;
    assert r in dd.Get(w).fifo;
    if dd.reqs[n].write == w {
      assert NoDup(dd.Get(w).fifo);
      IndexWithout(dd.Get(w).fifo, n, r);
    }
  }

  lemma PlaceAfterRemoval(t: seq<Id>, i: nat, b: nat)
    requires NoDup(t) && i < |t| && b < |t| && b != i
    ensures t[b] in Without(t, t[i]) && IndexOf(Without(t, t[i]), t[b]) == if b < i then b else b - 1
  {
    WithoutIndexed(t, i);
    WithoutNoDup(t, t[i]);
    var u := Without(t, t[i]);
    var d := if b < i then b else b - 1;
    assert u[d] == t[b];
    IndexUnique(u, d);
  }

  /** Where an entry other than `s[i]` is after the move, once `s[i]` is gone. */
  lemma ShiftedPlace(s: seq<Id>, t: seq<Id>, i: nat, j: nat, a: nat)
    requires Shifted(s, t, i, j) && NoDup(s) && a < |s| && a != i
    ensures s[a] in Without(t, s[i]) && IndexOf(Without(t, s[i]), s[a]) <= a
  {
    ShiftedMembers(s, t, i, j);
    var b := if a <= i then a else if a < j then a + 1 else if a == j then i + 1 else a;
    assert Old(b, i, j) == a && Old(i, i, j) == i;
    assert t[b] == s[a] && t[i] == s[i];
    PlaceAfterRemoval(t, i, b);
  }

  lemma AbsorbedNoWorse(c: Config, dd: Dd, q: Id, n: Id, r: Id, now: nat)
    requires Inv(c, dd, now) && q in dd.reqs && n in dd.reqs && q != n && dd.reqs[q].write == dd.reqs[n].write
    requires r in dd.reqs && r != n
    ensures NoWorse(dd, Absorbed(dd, q, n), r)
  {
    assert r in dd.Get(dd.reqs[r].write).fifo;
    if dd.reqs[n].expires < dd.reqs[q].expires {
      BehindNoWorse(c, dd, q, n, r, now);
    } else {
      var dd' := BackMerged(dd, q, dd.reqs[n].sectors);
      BackMergedInv(c, dd, q, dd.reqs[n].sectors, now);
      RemovedNoWorse(c, dd', n, r, now);
      assert NoWorse(dd, dd', r);
      NoWorseTrans(dd, dd', Removed(dd', n), r);
    }
  }

  lemma AbsorbedParts(dd: Dd, q: Id, n: Id)
    requires q in dd.reqs && n in dd.reqs && q != n && dd.reqs[q].write == dd.reqs[n].write
    requires dd.reqs[n].expires < dd.reqs[q].expires
    ensures var w, dd' := dd.reqs[q].write, Absorbed(dd, q, n);
            && dd'.Get(w).fifo == Without(MoveBehind(dd.Get(w).fifo, q, n), n)
            && dd'.Get(!w).fifo == dd.Get(!w).fifo
            && forall r :: r in dd.reqs && r != n ==>
                 r in dd'.reqs && dd'.reqs[r].write == dd.reqs[r].write && dd'.reqs[r].expires <= dd.reqs[r].expires
  {
    assert Behind(dd, q, n).reqs[n].write == dd.reqs[q].write;
  }

  lemma BehindNoWorse(c: Config, dd: Dd, q: Id, n: Id, r: Id, now: nat)
    requires Inv(c, dd, now) && q in dd.reqs && n in dd.reqs && q != n && dd.reqs[q].write == dd.reqs[n].write
    requires r in dd.reqs && r != n && dd.reqs[n].expires < dd.reqs[q].expires
    ensures NoWorse(dd, Absorbed(dd, q, n), r)
  {
    AbsorbedParts(dd, q, n);
    var w := dd.reqs[q].write;
    if dd.reqs[r].write == w {
      BehindPlace(c, dd, q, n, r, now);
    } else {
      assert r in dd.Get(!w).fifo;
    }
  }

  lemma BehindIndex(fifo: seq<Id>, q: Id, n: Id, r: Id)
    requires NoDup(fifo) && q in fifo && n in fifo && r in fifo && r != n && IndexOf(fifo, n) < IndexOf(fifo, q)
    ensures var t := Without(MoveBehind(fifo, q, n), n);
            r in t && IndexOf(t, r) <= IndexOf(fifo, r)
  {
    var i, j := IndexOf(fifo, n), IndexOf(fifo, q);
    MoveBehindShifts(fifo, i, j);
    ShiftedPlace(fifo, MoveBehind(fifo, q, n), i, j, IndexOf(fifo, r));
  }

  lemma BehindPlace(c: Config, dd: Dd, q: Id, n: Id, r: Id, now: nat)
    requires Inv(c, dd, now) && q in dd.reqs && n in dd.reqs && q != n && dd.reqs[q].write == dd.reqs[n].write
    requires r in dd.reqs && r != n && dd.reqs[n].expires < dd.reqs[q].expires && dd.reqs[r].write == dd.reqs[q].write
    ensures var fifo := dd.Get(dd.reqs[q].write).fifo;
            var t := Without(MoveBehind(fifo, q, n), n);
            r in fifo && r in t && IndexOf(t, r) <= IndexOf(fifo, r)
  {
    var fifo := dd.Get(dd.reqs[q].write).fifo;
    LaneOf(c, dd, dd.reqs[q].write, now);
    assert q in fifo && n in fifo && r in fifo && NoDup(fifo);
    ExpiresBefore(dd.reqs, fifo, q, n);
    BehindIndex(fifo, q, n, r);
  }

  lemma {:induction false} IndexAppend(s: seq<Id>, x: Id, r: Id)
    requires r in s
    ensures r in s + [x] && IndexOf(s + [x], r) == IndexOf(s, r)
  {
    if s[0] != r {
      IndexAppend(s[1..], x, r);
      assert (s + [x])[1..] == s[1..] + [x];
    }
  }

  lemma AddedNoWorse(c: Config, dd: Dd, x: Id, q: Req, r: Id, now: nat)
    requires Inv(c, dd, now) && x !in dd.reqs && r in dd.reqs
    ensures NoWorse(dd, Added(c, dd, x, q, now), r)
  {
    var w := dd.reqs[r].write;
    assert r in dd.Get(w).fifo;
    if q.write == w {
      IndexAppend(dd.Get(w).fifo, x, r);
    }
  }

  lemma MergedNoWorse(c: Config, dd: Dd, x: Id, sectors: nat, r: Id, now: nat)
    requires Inv(c, dd, now) && x in dd.reqs && r in dd.reqs
    ensures NoWorse(dd, BackMerged(dd, x, sectors), r)
    ensures sectors <= dd.reqs[x].pos ==> NoWorse(dd, FrontMerged(dd, x, sectors), r)
  {
    assert r in dd.Get(dd.reqs[r].write).fifo;
  }

  /** Nothing that happens between dispatches puts a queued request back. */
  lemma OthersNoWorse(c: Config, s: Sys, a: Action, s': Sys, r: Id)
    requires Inv(c, s.dd, s.now) && Step(c, s, a, s') && !a.Dispatch? && r in s.dd.reqs && r in s'.dd.reqs
    ensures NoWorse(s.dd, s'.dd, r)
  {
    match a
    case Add(x, q) => AddedNoWorse(c, s.dd, x, q, r, s.now);
    case Front(x, sectors) => MergedNoWorse(c, s.dd, x, sectors, r, s.now);
    case Back(x, sectors) => MergedNoWorse(c, s.dd, x, sectors, r, s.now);
    case Absorb(q, n) =>
      AbsorbedGone(s.dd, q, n);
      AbsorbedNoWorse(c, s.dd, q, n, r, s.now);
    case Tick(_) => assert r in s.dd.Get(s.dd.reqs[r].write).fifo;
  }

  lemma AbsorbedGone(dd: Dd, q: Id, n: Id)
    requires q in dd.reqs && n in dd.reqs && q != n && dd.reqs[q].write == dd.reqs[n].write
    ensures n !in Absorbed(dd, q, n).reqs
  {
  }

  lemma WaitMonotone(c: Config, dd: Dd, dd': Dd, w: bool, k: nat, k': nat)
    requires c.Valid() && dd.starved <= c.Patience() && dd'.starved == dd.starved && k' <= k
    requires Rest(c, dd') <= Rest(c, dd)
    ensures Wait(c, dd', w, k') <= Wait(c, dd, w, k)
  {
    ProdLe(k', k, if w then Prod(c.Patience() + 1, c.MaxBatch()) else c.MaxBatch() + c.MaxBatch());
  }

  /** The dispatches a queued request can still wait for once it has expired. */
  function WaitOf(c: Config, dd: Dd, r: Id): nat
    requires c.Valid() && dd.starved <= c.Patience() && r in dd.reqs && r in dd.Get(dd.reqs[r].write).fifo
  {
    Wait(c, dd, dd.reqs[r].write, Place(dd, r))
  }

  lemma ExpiredStep(c: Config, s: Sys, a: Action, s': Sys, r: Id)
    requires Inv(c, s.dd, s.now) && Step(c, s, a, s') && r in s.dd.reqs && r in s'.dd.reqs
    requires s.dd.reqs[r].expires <= s.now && (!s.dd.reqs[r].write ==> c.Patience() >= 1)
    ensures Queued(s.dd, r) && Queued(s'.dd, r) && s'.dd.starved <= c.Patience()
    ensures s'.dd.reqs[r].write == s.dd.reqs[r].write && s'.dd.reqs[r].expires <= s'.now
    ensures (if a.Dispatch? then 1 else 0) + WaitOf(c, s'.dd, r) <= WaitOf(c, s.dd, r)
  {
    if a.Dispatch? {
      ExpiredProgress(c, s.dd, s.now, r);
      DispatchedGone(c, s.dd, s.now);
    } else {
      OthersNoWorse(c, s, a, s', r);
      OthersQuieter(c, s, a, s');
      QuieterRest(c, s.dd, s'.dd);
      WaitMonotone(c, s.dd, s'.dd, s.dd.reqs[r].write, Place(s.dd, r), Place(s'.dd, r));
    }
  }

  lemma DispatchedGone(c: Config, dd: Dd, now: nat)
    requires Inv(c, dd, now) && Choice(c, dd, now).Some?
    ensures Choice(c, dd, now).value !in Dispatched(c, dd, now).reqs
  {
    DispatchedCounters(c, dd, now);
  }

  /** An expired request that stays queued through a stretch of a run has seen fewer dispatches than its wait. */
  lemma {:induction false} ExpiredWaits(c: Config, states: seq<Sys>, actions: seq<Action>, r: Id)
    requires Stretch(c, states, actions)
    requires forall i :: 0 <= i < |states| ==> r in states[i].dd.reqs
    requires states[0].dd.reqs[r].expires <= states[0].now
    requires !states[0].dd.reqs[r].write ==> c.Patience() >= 1
    ensures var s, s0 := states[|actions|], states[0];
            && Queued(s.dd, r) && Queued(s0.dd, r) && s.dd.reqs[r].write == s0.dd.reqs[r].write
            && s.dd.reqs[r].expires <= s.now
            && s.dd.starved <= c.Patience() && s0.dd.starved <= c.Patience()
            && Dispatches(actions) + WaitOf(c, s.dd, r) <= WaitOf(c, s0.dd, r)
  {
    assert Inv(c, states[0].dd, states[0].now);
    if actions == [] {
      HeadEarliest(c, states[0].dd, states[0].dd.reqs[r].write, states[0].now, r);
    } else {
      var n := |actions| - 1;
      ExpiredWaits(c, states[..n + 1], actions[..n], r);
      assert Step(c, states[n], actions[n], states[n + 1]);
      ExpiredStep(c, states[n], actions[n], states[n + 1], r);
    }
  }

  /**
   An expired request with `k` requests ahead of it in its FIFO is dispatched, or merged away, within
   (k + 1)(writes_starved + 1) batches if it is a write, and within 2(k + 1) batches if it is a read and
   writes_starved is not 0.
   */
  lemma ExpiredServed(c: Config, states: seq<Sys>, actions: seq<Action>, r: Id)
    requires Stretch(c, states, actions) && r in states[0].dd.reqs
    requires states[0].dd.reqs[r].expires <= states[0].now
    requires !states[0].dd.reqs[r].write ==> c.Patience() >= 1
    requires Queued(states[0].dd, r)
    requires var k, batch := Place(states[0].dd, r), c.MaxBatch();
             Dispatches(actions) >= (if states[0].dd.reqs[r].write then Prod(k + 1, Prod(c.Patience() + 1, batch))
                                     else Prod(k + 1, batch + batch))
    ensures exists i :: 0 <= i < |states| && r !in states[i].dd.reqs
  {
    if forall i :: 0 <= i < |states| ==> r in states[i].dd.reqs {
      ExpiredWaits(c, states, actions, r);
      WaitBound(c, states[0].dd, states[0].now, r);
    }
  }

  lemma WaitBound(c: Config, dd: Dd, now: nat, r: Id)
    requires Inv(c, dd, now) && Queued(dd, r)
    ensures var k, batch := Place(dd, r), c.MaxBatch();
            WaitOf(c, dd, r) <= if dd.reqs[r].write then Prod(k + 1, Prod(c.Patience() + 1, batch))
                                else Prod(k + 1, batch + batch)
  {
    ProdLe(c.Patience() - dd.starved, c.Patience(), c.MaxBatch());
  }
}
