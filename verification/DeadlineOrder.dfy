/** The order in which the deadline scheduler goes through the sectors: where a batch starts and how it goes on. */
module DeadlineOrder {
  import opened Lists
  import opened DeadlineModel
  import opened DeadlineSafety
  import opened DeadlineRuns

  /**
   `x` is the queued request of direction `w` at or behind `pos` with none strictly between, or nothing when none lies
   behind `pos`.
   */
  ghost predicate NextUp(reqs: map<Id, Req>, w: bool, pos: nat, x: Option<Id>) {
    && (x.Some? ==>
          && x.value in reqs && reqs[x.value].write == w && reqs[x.value].pos >= pos
          && forall y :: y in reqs && reqs[y].write == w ==> !(pos < reqs[y].pos < reqs[x.value].pos))
    && (x.None? ==> forall y :: y in reqs && reqs[y].write == w ==> reqs[y].pos <= pos)
  }

  /** Requests at the same sector stay in the order of the sort list. */
  ghost predicate BehindIn(sort: seq<Id>, r: Id, x: Option<Id>) {
    exists i :: 0 <= i < |sort| && sort[i] == r && x == if i + 1 < |sort| then Some(sort[i + 1]) else None
  }

  lemma LatterIsNext(s: seq<Id>, i: nat)
    requires NoDup(s) && i < |s|
    ensures Latter(s, s[i]) == if i + 1 < |s| then Some(s[i + 1]) else None
  {
    NextAt(s, i);
  }

  /** The request behind `r` on the sort list of its direction is the next one up once `r` is gone. */
  lemma LatterIsNextUp(c: Config, reqs: map<Id, Req>, l: Lane, w: bool, now: nat, r: Id)
    requires LaneOk(c, reqs, l, w, now) && r in l.sort
    ensures r in reqs && NextUp(reqs - {r}, w, reqs[r].pos, Latter(l.sort, r)) && BehindIn(l.sort, r, Latter(l.sort, r))
  {
    var i := IndexOf(l.sort, r);
    LatterIsNext(l.sort, i);
    forall y | y in reqs && reqs[y].write == w ensures y in l.sort && l.sort[IndexOf(l.sort, y)] == y {
    }
  }

  lemma MovedParts(dd: Dd, r: Id)
    requires r in dd.reqs && Latter(dd.Get(dd.reqs[r].write).sort, r) != Some(r)
    ensures var w, dd' := dd.reqs[r].write, Moved(dd, r);
            && dd'.reqs == dd.reqs - {r} && dd'.Get(w).next == Latter(dd.Get(w).sort, r)
            && dd'.Get(!w).next == None && dd'.lastSector == dd.reqs[r].pos + dd.reqs[r].sectors
  {
  }

  lemma LaneAims(c: Config, dd: Dd, r: Id, now: nat, w: bool)
    requires Inv(c, dd, now) && r in dd.reqs && w == dd.reqs[r].write
    ensures var next := Latter(dd.Get(w).sort, r);
            && next != Some(r) && NextUp(dd.reqs - {r}, w, dd.reqs[r].pos, next) == true
            && BehindIn(dd.Get(w).sort, r, next) == true
  {
    LaneOf(c, dd, w, now);
    LatterIsNextUp(c, dd.reqs, dd.Get(w), w, now, r);
  }

  /** Moving `r` to the dispatch queue aims at the next one up of its direction and at nothing in the other. */
  lemma MovedAims(c: Config, dd: Dd, r: Id, now: nat)
    requires Inv(c, dd, now) && r in dd.reqs
    ensures var w, dd' := dd.reqs[r].write, Moved(dd, r);
            && NextUp(dd'.reqs, w, dd.reqs[r].pos, dd'.Get(w).next) && BehindIn(dd.Get(w).sort, r, dd'.Get(w).next)
            && dd'.Get(!w).next == None && dd'.lastSector == dd.reqs[r].pos + dd.reqs[r].sectors
  {
    LaneAims(c, dd, r, now, dd.reqs[r].write);
    MovedParts(dd, r);
  }

  /** The same for a dispatch. */
  lemma DispatchAims(c: Config, dd: Dd, r: Id, now: nat)
    requires Inv(c, dd, now) && Choice(c, dd, now) == Some(r)
    ensures var dd' := Dispatched(c, dd, now);
            && r in dd.reqs && dd'.reqs == dd.reqs - {r}
            && var w := dd.reqs[r].write;
               && NextUp(dd'.reqs, w, dd.reqs[r].pos, dd'.Get(w).next) && BehindIn(dd.Get(w).sort, r, dd'.Get(w).next)
               && dd'.Get(!w).next == None && dd'.lastSector == dd.reqs[r].pos + dd.reqs[r].sectors
  {
    ChoiceQueued(c, dd, now);
    if Running(c, dd).Some? {
      MovedAims(c, dd.(batching := dd.batching + 1), r, now);
    } else {
      BatchInv(c, dd, now);
      MovedAims(c, dd.(batching := 1, starved := Starved(c, dd)), r, now);
    }
  }

  lemma BatchInv(c: Config, dd: Dd, now: nat)
    requires Inv(c, dd, now)
    ensures Inv(c, dd.(batching := 1, starved := Starved(c, dd)), now)
  {
  }

  /**
   After every dispatch of every run next_rq of its direction is the queued request that starts next, at or behind the
   one that went with none strictly between, and nothing only when none starts later; the other direction has none.
   */
  lemma GoesOnUpwards(c: Config, states: seq<Sys>, actions: seq<Action>, n: nat, r: Id)
    requires Run(c, states, actions) && n < |actions| && actions[n].Dispatch?
    requires Choice(c, states[n].dd, states[n].now) == Some(r)
    ensures var dd, dd' := states[n].dd, states[n + 1].dd;
            && r in dd.reqs && dd'.reqs == dd.reqs - {r}
            && var w := dd.reqs[r].write;
               && NextUp(dd'.reqs, w, dd.reqs[r].pos, dd'.Get(w).next) && BehindIn(dd.Get(w).sort, r, dd'.Get(w).next)
               && dd'.Get(!w).next == None && dd'.lastSector == dd.reqs[r].pos + dd.reqs[r].sectors
  {
    RunInv(c, states, actions, n);
    DispatchAims(c, states[n].dd, r, states[n].now);
  }

  /** What happens to next_rq of a direction when request `n` of it leaves. */
  lemma RemovedAims(c: Config, dd: Dd, n: Id, now: nat)
    requires Inv(c, dd, now) && n in dd.reqs
    ensures var w, dd' := dd.reqs[n].write, Removed(dd, n);
            && dd'.reqs == dd.reqs - {n} && dd'.Get(!w).next == dd.Get(!w).next
            && (if dd.Get(w).next == Some(n) then NextUp(dd'.reqs, w, dd.reqs[n].pos, dd'.Get(w).next)
                else dd'.Get(w).next == dd.Get(w).next)
  {
    LaneAims(c, dd, n, now, dd.reqs[n].write);
  }

  /**
   In every run a merge of two requests leaves next_rq alone, unless that is the one that goes: then it is the queued
   request that starts next. Nothing else between dispatches changes it.
   */
  lemma MergeGoesOn(c: Config, states: seq<Sys>, actions: seq<Action>, i: nat, w: bool)
    requires Run(c, states, actions) && i < |actions| && !actions[i].Dispatch?
    ensures var a, dd, dd' := actions[i], states[i].dd, states[i + 1].dd;
            if a.Absorb? && dd.Get(w).next == Some(a.n)
            then a.n in dd.reqs && NextUp(dd'.reqs, w, dd.reqs[a.n].pos, dd'.Get(w).next)
            else dd'.Get(w).next == dd.Get(w).next
  {
    RunInv(c, states, actions, i);
    var a, dd, now := actions[i], states[i].dd, states[i].now;
    if a.Absorb? {
      AbsorbAims(c, dd, a.r, a.n, now, w);
    }
  }

  lemma AbsorbAims(c: Config, dd: Dd, r: Id, n: Id, now: nat, w: bool)
    requires Inv(c, dd, now) && r in dd.reqs && n in dd.reqs && r != n && dd.reqs[r].write == dd.reqs[n].write
    ensures var dd' := Absorbed(dd, r, n);
            if dd.Get(w).next == Some(n) then NextUp(dd'.reqs, w, dd.reqs[n].pos, dd'.Get(w).next)
            else dd'.Get(w).next == dd.Get(w).next
  {
    LaneOf(c, dd, w, now);
    if dd.reqs[n].expires < dd.reqs[r].expires {
      MoveBehindInv(c, dd, r, n, now);
      RemovedAims(c, Behind(dd, r, n), n, now);
    } else {
      BackMergedInv(c, dd, r, dd.reqs[n].sectors, now);
      RemovedAims(c, BackMerged(dd, r, dd.reqs[n].sectors), n, now);
    }
  }

  // ---------------------------------------------------------------- arrival

  /** `t` is `s` with `r` put behind all that do not start later and before all that do. */
  ghost predicate PutIn(s: seq<Id>, t: seq<Id>, reqs: map<Id, Req>, r: Id)
    requires Known(reqs, s) && r in reqs
  {
    exists i :: 0 <= i <= |s| && t == s[..i] + [r] + s[i..] &&
      (forall j :: 0 <= j < i ==> reqs[s[j]].pos <= reqs[r].pos) &&
      (forall j :: i <= j < |s| ==> reqs[s[j]].pos > reqs[r].pos)
  }

  lemma {:induction false} SortInsertAt(s: seq<Id>, reqs: map<Id, Req>, r: Id) returns (i: nat)
    requires Known(reqs, s) && SortOk(reqs, s) && r in reqs
    ensures i <= |s| && SortInsert(s, reqs, r) == s[..i] + [r] + s[i..]
    ensures forall j :: 0 <= j < i ==> reqs[s[j]].pos <= reqs[r].pos
    ensures forall j :: i <= j < |s| ==> reqs[s[j]].pos > reqs[r].pos
  {
    if s == [] || reqs[r].pos < reqs[s[0]].pos {
      i := 0;
    } else {
      var k := SortInsertAt(s[1..], reqs, r);
      i := k + 1;
      assert s[..i] == [s[0]] + s[1..][..k] && s[i..] == s[1..][k..];
      forall j | 0 <= j < i ensures reqs[s[j]].pos <= reqs[r].pos {
        if j > 0 {
          assert s[j] == s[1..][j - 1];
        }
      }
    }
  }

  lemma AddedAt(c: Config, reqs: map<Id, Req>, l: Lane, w: bool, now: nat, r: Id, q: Req)
    requires LaneOk(c, reqs, l, w, now) && r !in reqs
    ensures Known(reqs[r := q], l.sort) && PutIn(l.sort, SortInsert(l.sort, reqs[r := q], r), reqs[r := q], r) == true
  {
    var reqs' := reqs[r := q];
    forall i | 0 <= i < |l.sort| ensures l.sort[i] in reqs' && reqs'[l.sort[i]] == reqs[l.sort[i]] {
      assert l.sort[i] in l.sort;
    }
    var i := SortInsertAt(l.sort, reqs', r);
  }

  /** What adding a request does, direction by direction. */
  lemma AddedParts(c: Config, dd: Dd, r: Id, q: Req, now: nat)
    requires Known(dd.reqs, dd.Get(q.write).sort)
    ensures var dd', w := Added(c, dd, r, q, now), q.write;
            && dd'.reqs == dd.reqs[r := q.(expires := now + if w then c.writeExpire else c.readExpire)]
            && dd'.Get(!w) == dd.Get(!w) && dd'.Get(w).fifo == dd.Get(w).fifo + [r]
            && dd'.Get(w).next == dd.Get(w).next && dd'.Get(w).sort == SortInsert(dd.Get(w).sort, dd'.reqs, r)
  {
  }

  /**
   In every run a request that comes gets the expiry of its direction, the last place in the FIFO and its place in the
   sort list, behind those that start at the same sector; nothing else changes.
   */
  lemma ComesInOrder(c: Config, states: seq<Sys>, actions: seq<Action>, n: nat, r: Id, q: Req)
    requires Run(c, states, actions) && n < |actions| && actions[n] == Add(r, q)
    ensures var dd, dd', now, w := states[n].dd, states[n + 1].dd, states[n].now, q.write;
            && r !in dd.reqs
            && dd'.reqs == dd.reqs[r := q.(expires := now + if w then c.writeExpire else c.readExpire)]
            && dd'.Get(!w) == dd.Get(!w) && dd'.Get(w).fifo == dd.Get(w).fifo + [r]
            && dd'.Get(w).next == dd.Get(w).next
            && Known(dd'.reqs, dd.Get(w).sort) && PutIn(dd.Get(w).sort, dd'.Get(w).sort, dd'.reqs, r) == true
  {
    RunInv(c, states, actions, n);
    var dd, now := states[n].dd, states[n].now;
    LaneOf(c, dd, q.write, now);
    AddedParts(c, dd, r, q, now);
    AddedAt(c, dd.reqs, dd.Get(q.write), q.write, now, r, q.(expires := states[n + 1].dd.reqs[r].expires));
  }

  // ---------------------------------------------------------------- within a batch

  /** The request a batch would go on with, and no other, is in direction `w`, at or behind `pos`. */
  ghost predicate Upwards(dd: Dd, w: bool, pos: nat) {
    && dd.Get(!w).next == None
    && (dd.Get(w).next.Some? ==> dd.Get(w).next.value in dd.reqs && dd.reqs[dd.Get(w).next.value].pos >= pos)
  }

  /** A bio is merged in front of the request the batch would go on with, and takes it below `pos`. */
  ghost predicate GoesBack(dd: Dd, a: Action, w: bool, pos: nat) {
    a.Front? && dd.Get(w).next == Some(a.r) && a.r in dd.reqs && dd.reqs[a.r].pos < pos + a.sectors
  }

  lemma RemovedUpwards(c: Config, dd: Dd, n: Id, now: nat, w: bool, pos: nat)
    requires Inv(c, dd, now) && n in dd.reqs && Upwards(dd, w, pos)
    ensures Upwards(Removed(dd, n), w, pos)
  {
    if dd.reqs[n].write == w && dd.Get(w).next == Some(n) {
      LaneOf(c, dd, w, now);
      LatterIsNextUp(c, dd.reqs, dd.Get(w), w, now, n);
    }
  }

  lemma AbsorbedUpwards(c: Config, dd: Dd, r: Id, n: Id, now: nat, w: bool, pos: nat)
    requires Inv(c, dd, now) && r in dd.reqs && n in dd.reqs && r != n && dd.reqs[r].write == dd.reqs[n].write
    requires Upwards(dd, w, pos)
    ensures Upwards(Absorbed(dd, r, n), w, pos)
  {
    if dd.reqs[n].expires < dd.reqs[r].expires {
      MoveBehindInv(c, dd, r, n, now);
      RemovedUpwards(c, Behind(dd, r, n), n, now, w, pos);
    } else {
      BackMergedInv(c, dd, r, dd.reqs[n].sectors, now);
      RemovedUpwards(c, BackMerged(dd, r, dd.reqs[n].sectors), n, now, w, pos);
    }
  }

  lemma AddedUpwards(c: Config, dd: Dd, r: Id, q: Req, now: nat, w: bool, pos: nat)
    requires Known(dd.reqs, dd.Get(q.write).sort) && r !in dd.reqs && Upwards(dd, w, pos)
    ensures Upwards(Added(c, dd, r, q, now), w, pos)
  {
  }

  lemma FrontUpwards(dd: Dd, r: Id, sectors: nat, w: bool, pos: nat)
    requires r in dd.reqs && sectors <= dd.reqs[r].pos && Known(dd.reqs, dd.Get(dd.reqs[r].write).sort)
    requires Upwards(dd, w, pos)
    ensures Upwards(FrontMerged(dd, r, sectors), w, pos) <==> !GoesBack(dd, Front(r, sectors), w, pos)
  {
  }

  lemma BackUpwards(dd: Dd, r: Id, sectors: nat, w: bool, pos: nat)
    requires r in dd.reqs && Upwards(dd, w, pos)
    ensures Upwards(BackMerged(dd, r, sectors), w, pos)
  {
  }

  /** Between dispatches the request to go on with stays at or behind `pos` exactly when no merge takes it below. */
  lemma UpwardsExactly(c: Config, s: Sys, a: Action, s': Sys, w: bool, pos: nat)
    requires Inv(c, s.dd, s.now) && Step(c, s, a, s') && !a.Dispatch? && Upwards(s.dd, w, pos)
    ensures Upwards(s'.dd, w, pos) <==> !GoesBack(s.dd, a, w, pos)
  {
    match a
    case Add(r, q) => AddedUpwards(c, s.dd, r, q, s.now, w, pos);
    case Front(r, sectors) => FrontUpwards(s.dd, r, sectors, w, pos);
    case Back(r, sectors) => BackUpwards(s.dd, r, sectors, w, pos);
    case Absorb(r, n) => AbsorbedUpwards(c, s.dd, r, n, s.now, w, pos);
    case Tick(_) =>
  }

  lemma StretchStep(c: Config, states: seq<Sys>, actions: seq<Action>, i: nat)
    requires Stretch(c, states, actions) && i < |actions|
    ensures Inv(c, states[i].dd, states[i].now) == true && Step(c, states[i], actions[i], states[i + 1]) == true
  {
  }

  /** From step `i` to before step `j` nothing is dispatched or takes the request to go on with below `pos`. */
  ghost predicate Between(states: seq<Sys>, actions: seq<Action>, i: nat, j: nat, w: bool, pos: nat) {
    && j <= |actions| < |states|
    && forall k :: i <= k < j ==> !actions[k].Dispatch? && !GoesBack(states[k].dd, actions[k], w, pos)
  }

  lemma StepUpwards(c: Config, states: seq<Sys>, actions: seq<Action>, i: nat, j: nat, k: nat, w: bool, pos: nat)
    requires Stretch(c, states, actions) && Between(states, actions, i, j, w, pos) && i <= k < j
    requires Upwards(states[k].dd, w, pos)
    ensures Upwards(states[k + 1].dd, w, pos) == true
  {
    StretchStep(c, states, actions, k);
    UpwardsExactly(c, states[k], actions[k], states[k + 1], w, pos);
  }

  lemma {:induction false} StaysUpwards(c: Config, states: seq<Sys>, actions: seq<Action>, i: nat, j: nat, n: nat,
                                        w: bool, pos: nat)
    requires Stretch(c, states, actions) == true && Between(states, actions, i, j, w, pos) == true
    requires i <= n <= j <= |actions| < |states| && Upwards(states[i].dd, w, pos) == true
    ensures Upwards(states[n].dd, w, pos) == true
    decreases n
  {
    if i < n {
      StaysUpwards(c, states, actions, i, j, n - 1, w, pos);
      StepUpwards(c, states, actions, i, j, n - 1, w, pos);
    }
  }

  /**
   Positions do not go down within a batch: a dispatch that goes on with a batch takes a request of the same direction
   that starts no earlier than the one before it, unless a bio merged in front of it in between took it below.
   */
  lemma BatchAscends(c: Config, states: seq<Sys>, actions: seq<Action>, i: nat, j: nat, r: Id)
    requires Stretch(c, states, actions) && i < j < |actions| && actions[i].Dispatch? && actions[j].Dispatch?
    requires Choice(c, states[i].dd, states[i].now) == Some(r) && Running(c, states[j].dd).Some?
    requires r in states[i].dd.reqs
    requires Between(states, actions, i + 1, j, states[i].dd.reqs[r].write, states[i].dd.reqs[r].pos)
    ensures var dd, x := states[j].dd, Choice(c, states[j].dd, states[j].now);
            && x.Some? && x.value in dd.reqs && dd.reqs[x.value].write == states[i].dd.reqs[r].write
            && dd.reqs[x.value].pos >= states[i].dd.reqs[r].pos
  {
    var q := states[i].dd.reqs[r];
    assert Step(c, states[i], actions[i], states[i + 1]);
    DispatchAims(c, states[i].dd, r, states[i].now);
    StaysUpwards(c, states, actions, i + 1, j, j, q.write, q.pos);
    ChoiceQueued(c, states[j].dd, states[j].now);
  }

  // ---------------------------------------------------------------- a new batch

  ghost predicate Expired(dd: Dd, w: bool, now: nat) {
    exists y :: y in dd.reqs && dd.reqs[y].write == w && dd.reqs[y].expires <= now
  }

  /** Some request of direction `w` is queued. */
  ghost predicate AnyQueued(dd: Dd, w: bool) {
    exists y :: y in dd.reqs && dd.reqs[y].write == w
  }

  lemma AnyInFifo(c: Config, dd: Dd, now: nat, w: bool)
    requires Inv(c, dd, now)
    ensures AnyQueued(dd, w) <==> dd.Get(w).fifo != []
  {
    LaneOf(c, dd, w, now);
    if dd.Get(w).fifo != [] {
      assert dd.Get(w).fifo[0] in dd.Get(w).fifo;
    }
  }

  /**
   What a new batch starts with, in every reachable state: writes when none but they are queued, or when they are and
   have been passed over as often as writes_starved allows, else reads. The request is the one that expires first, at
   the head of the FIFO, when one of its direction has expired or nothing lies ahead, else the one ahead.
   */
  lemma BatchStarts(c: Config, states: seq<Sys>, actions: seq<Action>, n: nat)
    requires Run(c, states, actions) && n < |states| && Running(c, states[n].dd).None?
    ensures var dd, now := states[n].dd, states[n].now;
            var x := Choice(c, dd, now);
            && (x.None? <==> dd.reqs == map[])
            && (x.Some? ==>
                  && x.value in dd.reqs
                  && var w := dd.reqs[x.value].write;
                     && (w <==> AnyQueued(dd, true) && (!AnyQueued(dd, false) || dd.starved >= c.Patience()))
                     && (if Expired(dd, w, now) || dd.Get(w).next.None?
                         then
                           && dd.Get(w).fifo != [] && x.value == dd.Get(w).fifo[0]
                           && forall y :: y in dd.reqs && dd.reqs[y].write == w ==>
                                dd.reqs[x.value].expires <= dd.reqs[y].expires
                         else x == dd.Get(w).next))
  {
    RunInv(c, states, actions, n);
    var dd, now := states[n].dd, states[n].now;
    ChoiceQueued(c, dd, now);
    AnyInFifo(c, dd, now, false);
    AnyInFifo(c, dd, now, true);
    var x := Choice(c, dd, now);
    if x.Some? {
      StartsWith(c, states, actions, n, x.value, dd.reqs[x.value].write);
    }
    if dd.reqs != map[] {
      var y :| y in dd.reqs;
      assert AnyQueued(dd, dd.reqs[y].write);
    }
  }

  lemma StartsWith(c: Config, states: seq<Sys>, actions: seq<Action>, n: nat, r: Id, w: bool)
    requires Run(c, states, actions) && n < |states| && Running(c, states[n].dd).None?
    requires Choice(c, states[n].dd, states[n].now) == Some(r) && r in states[n].dd.reqs
    requires w == states[n].dd.reqs[r].write
    ensures var dd, now := states[n].dd, states[n].now;
            if Expired(dd, w, now) || dd.Get(w).next.None?
            then
              && dd.Get(w).fifo != [] && r == dd.Get(w).fifo[0]
              && forall y :: y in dd.reqs && dd.reqs[y].write == w ==> dd.reqs[r].expires <= dd.reqs[y].expires
            else Some(r) == dd.Get(w).next
  {
    RunInv(c, states, actions, n);
    var dd, now := states[n].dd, states[n].now;
    ChoiceQueued(c, dd, now);
    HeadDecidesExpiry(c, states, actions, n, w);
    assert r == BatchHead(dd, w, now);
    forall y | y in dd.reqs && dd.reqs[y].write == w
      ensures dd.Get(w).fifo[0] in dd.reqs && dd.reqs[dd.Get(w).fifo[0]].expires <= dd.reqs[y].expires
    {
      HeadEarliest(c, dd, w, now, y);
    }
  }

  // ---------------------------------------------------------------- a batch that goes back

  const SETTINGS := Config(100, 1000, 16, 2)

  /** Read requests 1 and 2 of 8 sectors each, as they come, and as they are queued at time 0. */
  function Coming(pos: nat): Req { Req(pos, 8, false, 0) }
  function Waiting(pos: nat, sectors: nat): Req { Req(pos, sectors, false, 100) }

  function Reading(reqs: map<Id, Req>, ids: seq<Id>, next: Option<Id>, batching: nat, last: nat): Sys {
    Sys(Dd(reqs, Lane(ids, ids, next), EMPTY_LANE, batching, last, 0), 0)
  }

  function Empty(): Sys { Sys(EMPTY_DD, 0) }
  function One(): Sys { Reading(map[1 := Waiting(100, 8)], [1], None, 0, 0) }
  function Both(): Sys { Reading(map[1 := Waiting(100, 8), 2 := Waiting(200, 8)], [1, 2], None, 0, 0) }
  function Second(): Sys { Reading(map[2 := Waiting(200, 8)], [2], Some(2), 1, 108) }
  function Grown(): Sys { Reading(map[2 := Waiting(50, 158)], [2], Some(2), 1, 108) }

  lemma AddsBoth()
    ensures MayStep(SETTINGS, Empty(), Add(1, Coming(100)), One()) == true
    ensures MayStep(SETTINGS, One(), Add(2, Coming(200)), Both()) == true
  {
    var two := map[1 := Waiting(100, 8), 2 := Waiting(200, 8)];
    assert map[][1 := Waiting(100, 8)] == map[1 := Waiting(100, 8)];
    assert map[1 := Waiting(100, 8)][2 := Waiting(200, 8)] == two;
    assert SortInsert([1], two, 2) == [1] + SortInsert([1][1..], two, 2) == [1, 2];
  }

  lemma SendsFirst()
    ensures Choice(SETTINGS, Both().dd, 0) == Some(1) && MayStep(SETTINGS, Both(), Dispatch, Second()) == true
  {
    var dd := Both().dd.(batching := 1);
    assert Latter([1, 2], 1) == Some(2) by { LatterIsNext([1, 2], 0); }
    assert Without([1, 2], 1) == [2] by { WithoutHead([1, 2]); }
    assert dd.reqs - {1} == map[2 := Waiting(200, 8)];
    assert Moved(dd, 1) == Second().dd;
  }

  lemma GrowsBack()
    ensures MayStep(SETTINGS, Second(), Front(2, 150), Grown()) == true
    ensures Choice(SETTINGS, Grown().dd, 0) == Some(2)
  {
    assert map[2 := Waiting(200, 8)][2 := Waiting(50, 158)] == map[2 := Waiting(50, 158)];
    assert Without([2], 2) == [] by { WithoutHead([2]); }
  }

  lemma IsRun(states: seq<Sys>, actions: seq<Action>)
    requires states == [Empty(), One(), Both(), Second(), Grown()]
    requires actions == [Add(1, Coming(100)), Add(2, Coming(200)), Dispatch, Front(2, 150)]
    ensures Run(SETTINGS, states, actions) == true
  {
    AddsBoth();
    SendsFirst();
    GrowsBack();
    FourSteps(SETTINGS, states, actions);
  }

  /** A run in which a batch goes on with a request at sector 50 after one at sector 100. */
  lemma FrontMergeGoesBack() returns (states: seq<Sys>, actions: seq<Action>)
    ensures Run(SETTINGS, states, actions) == true && |actions| == 4 && |states| == 5
    ensures actions[2] == Dispatch && actions[3] == Front(2, 150)
    ensures Choice(SETTINGS, states[2].dd, states[2].now) == Some(1) && 1 in states[2].dd.reqs
    ensures states[2].dd.reqs[1].pos == 100
    ensures Running(SETTINGS, states[4].dd) == Choice(SETTINGS, states[4].dd, states[4].now) == Some(2)
    ensures 2 in states[4].dd.reqs && states[4].dd.reqs[2].pos == 50
  {
    states := [Empty(), One(), Both(), Second(), Grown()];
    actions := [Add(1, Coming(100)), Add(2, Coming(200)), Dispatch, Front(2, 150)];
    IsRun(states, actions);
    SendsFirst();
    GrowsBack();
  }

  ghost predicate MayStep(c: Config, s: Sys, a: Action, s': Sys) {
    Inv(c, s.dd, s.now) ==> Step(c, s, a, s')
  }

  lemma RunIs(c: Config, states: seq<Sys>, actions: seq<Action>)
    requires c.Valid() && |states| == |actions| + 1 && states[0].dd == EMPTY_DD
    requires forall i, j :: 0 <= i < |actions| && j == i + 1 ==> MayStep(c, states[i], actions[i], states[j])
    ensures Run(c, states, actions) == true
  {
  }

  lemma FourSteps(c: Config, states: seq<Sys>, actions: seq<Action>)
    requires c.Valid() && |states| == 5 && |actions| == 4 && states[0].dd == EMPTY_DD
    requires MayStep(c, states[0], actions[0], states[1]) == true
    requires MayStep(c, states[1], actions[1], states[2]) == true
    requires MayStep(c, states[2], actions[2], states[3]) == true
    requires MayStep(c, states[3], actions[3], states[4]) == true
    ensures Run(c, states, actions) == true
  {
    forall i, j | 0 <= i < |actions| && j == i + 1 ensures MayStep(c, states[i], actions[i], states[j]) == true {
      assert i == 0 || i == 1 || i == 2 || i == 3;
    }
    RunIs(c, states, actions);
  }
}
