/** The two lists of a direction agree, and the FIFO is ordered by expiry, in every reachable state. */
module DeadlineSafety {
  import opened Lists
  import opened DeadlineModel

  ghost predicate SortOk(reqs: map<Id, Req>, s: seq<Id>)
    requires Known(reqs, s)
  {
    forall i, j :: 0 <= i < j < |s| ==> reqs[s[i]].pos <= reqs[s[j]].pos
  }

  ghost predicate FifoOk(reqs: map<Id, Req>, s: seq<Id>)
    requires Known(reqs, s)
  {
    forall i, j :: 0 <= i < j < |s| ==> reqs[s[i]].expires <= reqs[s[j]].expires
  }

  /** What holds of the lists of direction `w`. */
  ghost predicate LaneOk(c: Config, reqs: map<Id, Req>, l: Lane, w: bool, now: nat) {
    && Known(reqs, l.sort) && Known(reqs, l.fifo)
    && NoDup(l.sort) && NoDup(l.fifo)
    && (forall r :: r in l.sort <==> r in reqs && reqs[r].write == w)
    && (forall r :: r in l.fifo <==> r in reqs && reqs[r].write == w)
    && SortOk(reqs, l.sort) && FifoOk(reqs, l.fifo)
    && (forall r :: r in reqs && reqs[r].write == w ==> reqs[r].expires <= now + c.Expire(w))
    && (l.next.Some? ==> l.next.value in l.sort)
  }

  ghost predicate Inv(c: Config, dd: Dd, now: nat) {
    && c.Valid()
    && LaneOk(c, dd.reqs, dd.read, false, now) && LaneOk(c, dd.reqs, dd.write, true, now)
    && (dd.read.next.None? || dd.write.next.None?)
    && (dd.read.next.Some? || dd.write.next.Some? ==> dd.batching >= 1)
    && dd.starved <= c.Patience()
  }

  // ---------------------------------------------------------------- the sort list

  lemma {:induction false} SortInsertMembers(s: seq<Id>, reqs: map<Id, Req>, r: Id)
    requires Known(reqs, s) && r in reqs
    ensures forall x :: x in SortInsert(s, reqs, r) <==> x == r || x in s
    ensures Known(reqs, SortInsert(s, reqs, r))
  {
    if s != [] && reqs[r].pos >= reqs[s[0]].pos {
      SortInsertMembers(s[1..], reqs, r);
      assert s == [s[0]] + s[1..];
    }
  }

  lemma {:induction false} SortInsertNoDup(s: seq<Id>, reqs: map<Id, Req>, r: Id)
    requires Known(reqs, s) && r in reqs && NoDup(s) && r !in s
    ensures NoDup(SortInsert(s, reqs, r))
  {
    if s != [] && reqs[r].pos >= reqs[s[0]].pos {
      SortInsertNoDup(s[1..], reqs, r);
      SortInsertMembers(s[1..], reqs, r);
      assert s[0] !in s[1..];
    }
  }

  lemma SortCons(reqs: map<Id, Req>, s: seq<Id>, r: Id)
    requires Known(reqs, s) && SortOk(reqs, s) && r in reqs
    requires forall x :: x in s ==> x in reqs && reqs[r].pos <= reqs[x].pos
    ensures Known(reqs, [r] + s) && SortOk(reqs, [r] + s)
  {
  }

  lemma SortHead(reqs: map<Id, Req>, s: seq<Id>, x: Id)
    requires Known(reqs, s) && SortOk(reqs, s) && x in s
    ensures x in reqs && reqs[s[0]].pos <= reqs[x].pos
  {
    var i :| 0 <= i < |s| && s[i] == x;
  }

  lemma {:induction false} SortInsertSorted(s: seq<Id>, reqs: map<Id, Req>, r: Id)
    requires Known(reqs, s) && SortOk(reqs, s) && r in reqs
    ensures Known(reqs, SortInsert(s, reqs, r)) && SortOk(reqs, SortInsert(s, reqs, r))
  {
    SortInsertMembers(s, reqs, r);
    if s != [] && reqs[r].pos < reqs[s[0]].pos {
      forall x | x in s ensures x in reqs && reqs[r].pos <= reqs[x].pos {
        SortHead(reqs, s, x);
      }
      SortCons(reqs, s, r);
    } else if s != [] {
      var t := SortInsert(s[1..], reqs, r);
      SortInsertMembers(s[1..], reqs, r);
      SortInsertSorted(s[1..], reqs, r);
      forall x | x in t ensures x in reqs && reqs[s[0]].pos <= reqs[x].pos {
        if x != r {
          SortHead(reqs, s, x);
        }
      }
      SortCons(reqs, t, s[0]);
    }
  }

  /** Every entry of `t` comes from `s`, in the same order. */
  ghost predicate Subsequence(s: seq<Id>, t: seq<Id>, i: nat) {
    forall a :: 0 <= a < |t| ==> (if a < i then a else a + 1) < |s| && t[a] == s[if a < i then a else a + 1]
  }

  lemma WithoutSubsequence(s: seq<Id>, r: Id) returns (i: nat)
    requires NoDup(s) && r in s
    ensures Subsequence(s, Without(s, r), i)
  {
    i :| 0 <= i < |s| && s[i] == r;
    WithoutAt(s, i);
  }

  lemma SubsequenceOrdered(reqs: map<Id, Req>, s: seq<Id>, t: seq<Id>, i: nat)
    requires Known(reqs, s) && Known(reqs, t) && Subsequence(s, t, i)
    ensures SortOk(reqs, s) ==> SortOk(reqs, t)
    ensures FifoOk(reqs, s) ==> FifoOk(reqs, t)
  {
  }

  /** Removing an entry keeps both orders. */
  lemma WithoutOrdered(reqs: map<Id, Req>, s: seq<Id>, r: Id)
    requires Known(reqs, s) && NoDup(s)
    ensures Known(reqs, Without(s, r))
    ensures SortOk(reqs, s) ==> SortOk(reqs, Without(s, r))
    ensures FifoOk(reqs, s) ==> FifoOk(reqs, Without(s, r))
  {
    KnownWithout(reqs, s, r);
    if r in s {
      var i := WithoutSubsequence(s, r);
      SubsequenceOrdered(reqs, s, Without(s, r), i);
    }
  }

  // ---------------------------------------------------------------- adding

  lemma AddedLane(c: Config, dd: Dd, r: Id, q: Req, now: nat, now': nat)
    requires LaneOk(c, dd.reqs, dd.Get(q.write), q.write, now) && r !in dd.reqs && now <= now'
    ensures var dd' := Added(c, dd, r, q, now');
            LaneOk(c, dd'.reqs, dd'.Get(q.write), q.write, now')
  {
    var lane := dd.Get(q.write);
    var reqs := dd.reqs[r := q.(expires := now' + c.Expire(q.write))];
    assert Known(reqs, lane.sort) && SortOk(reqs, lane.sort);
    SortInsertMembers(lane.sort, reqs, r);
    SortInsertNoDup(lane.sort, reqs, r);
    SortInsertSorted(lane.sort, reqs, r);
    AppendNoDup(lane.fifo, r);
    AppendFifo(reqs, lane.fifo, r);
  }

  lemma AppendFifo(reqs: map<Id, Req>, s: seq<Id>, r: Id)
    requires Known(reqs, s) && FifoOk(reqs, s) && r in reqs
    requires forall i :: 0 <= i < |s| ==> reqs[s[i]].expires <= reqs[r].expires
    ensures Known(reqs, s + [r]) && FifoOk(reqs, s + [r])
  {
  }

  /** A lane does not notice what happens to requests of the other direction. */
  lemma OtherLane(c: Config, reqs: map<Id, Req>, reqs': map<Id, Req>, l: Lane, w: bool, now: nat, now': nat)
    requires LaneOk(c, reqs, l, w, now) && now <= now'
    requires forall r :: r in reqs && reqs[r].write == w ==> r in reqs' && reqs'[r] == reqs[r]
    requires forall r :: r in reqs' && reqs'[r].write == w ==> r in reqs && reqs[r].write == w
    ensures LaneOk(c, reqs', l, w, now')
  {
    forall i | 0 <= i < |l.sort| ensures l.sort[i] in reqs' && reqs'[l.sort[i]] == reqs[l.sort[i]] {
      assert l.sort[i] in l.sort;
    }
    forall i | 0 <= i < |l.fifo| ensures l.fifo[i] in reqs' && reqs'[l.fifo[i]] == reqs[l.fifo[i]] {
      assert l.fifo[i] in l.fifo;
    }
  }

  lemma AddedInv(c: Config, dd: Dd, r: Id, q: Req, now: nat, now': nat)
    requires Inv(c, dd, now) && r !in dd.reqs && now <= now'
    ensures Inv(c, Added(c, dd, r, q, now'), now')
  {
    var dd' := Added(c, dd, r, q, now');
    AddedLane(c, dd, r, q, now, now');
    OtherLane(c, dd.reqs, dd'.reqs, dd.Get(!q.write), !q.write, now, now');
  }

  // ---------------------------------------------------------------- removing and dispatching

  lemma LatterOnList(s: seq<Id>, r: Id)
    requires NoDup(s)
    ensures Latter(s, r).Some? ==> Latter(s, r).value in Without(s, r)
  {
    if r in s {
      var i :| 0 <= i < |s| && s[i] == r;
      NextAt(s, i);
    }
  }

  lemma RemovedLane(c: Config, dd: Dd, r: Id, now: nat)
    requires r in dd.reqs && LaneOk(c, dd.reqs, dd.Get(dd.reqs[r].write), dd.reqs[r].write, now)
    ensures var w := dd.reqs[r].write; LaneOk(c, Removed(dd, r).reqs, Removed(dd, r).Get(w), w, now)
  {
    var w := dd.reqs[r].write;
    var l, l' := dd.Get(w), LaneWithout(dd.Get(w), r);
    var reqs' := dd.reqs - {r};
    WithoutOrdered(dd.reqs, l.sort, r);
    WithoutOrdered(dd.reqs, l.fifo, r);
    WithoutNoDup(l.sort, r);
    WithoutNoDup(l.fifo, r);
    LatterOnList(l.sort, r);
    forall i | 0 <= i < |l'.sort| ensures l'.sort[i] in reqs' && reqs'[l'.sort[i]] == dd.reqs[l'.sort[i]] {
      assert l'.sort[i] in l'.sort;
    }
    forall i | 0 <= i < |l'.fifo| ensures l'.fifo[i] in reqs' && reqs'[l'.fifo[i]] == dd.reqs[l'.fifo[i]] {
      assert l'.fifo[i] in l'.fifo;
    }
  }

  lemma RemovedInv(c: Config, dd: Dd, r: Id, now: nat)
    requires Inv(c, dd, now) && r in dd.reqs
    ensures Inv(c, Removed(dd, r), now)
  {
    var w := dd.reqs[r].write;
    var dd' := Removed(dd, r);
    RemovedLane(c, dd, r, now);
    OtherLane(c, dd.reqs, dd'.reqs, dd.Get(!w), !w, now, now);
  }

  lemma LaneNext(c: Config, reqs: map<Id, Req>, l: Lane, w: bool, now: nat, next: Option<Id>)
    requires LaneOk(c, reqs, l, w, now) && (next.Some? ==> next.value in l.sort)
    ensures LaneOk(c, reqs, l.(next := next), w, now)
  {
  }

  /** deadline_move_request before the request is taken off. */
  function Aimed(dd: Dd, r: Id): Dd
    requires r in dd.reqs
  {
    var w := dd.reqs[r].write;
    var cleared := dd.(read := dd.read.(next := None), write := dd.write.(next := None),
                       lastSector := dd.reqs[r].pos + dd.reqs[r].sectors);
    cleared.Set(w, cleared.Get(w).(next := Latter(dd.Get(w).sort, r)))
  }

  lemma MovedInv(c: Config, dd: Dd, r: Id, now: nat)
    requires Inv(c, dd, now) && r in dd.reqs && dd.batching >= 1
    ensures Inv(c, Moved(dd, r), now)
  {
    var w := dd.reqs[r].write;
    LatterOnList(dd.Get(w).sort, r);
    LaneNext(c, dd.reqs, dd.Get(w), w, now, Latter(dd.Get(w).sort, r));
    LaneNext(c, dd.reqs, dd.Get(!w), !w, now, None);
    assert Moved(dd, r) == Removed(Aimed(dd, r), r);
    AimedInv(c, dd, r, now);
    RemovedInv(c, Aimed(dd, r), r, now);
  }

  lemma AimedInv(c: Config, dd: Dd, r: Id, now: nat)
    requires Inv(c, dd, now) && r in dd.reqs && dd.batching >= 1
    requires var w := dd.reqs[r].write;
             && LaneOk(c, dd.reqs, dd.Get(w).(next := Latter(dd.Get(w).sort, r)), w, now)
             && LaneOk(c, dd.reqs, dd.Get(!w).(next := None), !w, now)
    ensures Inv(c, Aimed(dd, r), now)
  {
    var dd' := Aimed(dd, r);
    if dd.reqs[r].write {
      assert dd'.read == dd.Get(false).(next := None);
    } else {
      assert dd'.write == dd.Get(true).(next := None);
    }
  }

  /** The request picked is queued, in the direction the batch goes. */
  lemma ChoiceQueued(c: Config, dd: Dd, now: nat)
    requires Inv(c, dd, now)
    ensures var r := Choice(c, dd, now);
            && (r.Some? ==> r.value in dd.reqs)
            && (r.None? <==> dd.read.fifo == [] && dd.write.fifo == [])
            && (r.Some? && Running(c, dd).Some? ==> dd.reqs[r.value].write == dd.write.next.Some?)
            && (r.Some? && Running(c, dd).None? ==> dd.reqs[r.value].write == !PrefersRead(c, dd))
  {
    if dd.read.fifo != [] {
      assert dd.read.fifo[0] in dd.read.fifo;
    }
    if dd.write.fifo != [] {
      assert dd.write.fifo[0] in dd.write.fifo;
    }
    if Running(c, dd).Some? {
      assert Running(c, dd).value in dd.reqs;
      assert dd.read.fifo != [] || dd.write.fifo != [];
    }
  }

  lemma DispatchedInv(c: Config, dd: Dd, now: nat, now': nat)
    requires Inv(c, dd, now) && now <= now'
    ensures Inv(c, Dispatched(c, dd, now'), now')
  {
    LaterInv(c, dd, now, now');
    ChoiceQueued(c, dd, now');
    var r := Choice(c, dd, now');
    if r.Some? {
      if Running(c, dd).Some? {
        MovedInv(c, dd.(batching := dd.batching + 1), r.value, now');
      } else {
        var dd1 := dd.(batching := 1, starved := Starved(c, dd));
        MovedInv(c, dd1, r.value, now');
      }
    }
  }

  lemma LaterInv(c: Config, dd: Dd, now: nat, now': nat)
    requires Inv(c, dd, now) && now <= now'
    ensures Inv(c, dd, now')
  {
  }

  // ---------------------------------------------------------------- merging

  /** Changes to requests that keep direction and expiry leave the FIFO alone. */
  ghost predicate SameFifoView(reqs: map<Id, Req>, reqs': map<Id, Req>) {
    && (forall r :: r in reqs <==> r in reqs')
    && (forall r :: r in reqs ==> reqs'[r].write == reqs[r].write && reqs'[r].expires == reqs[r].expires)
  }

  lemma FrontMergedInv(c: Config, dd: Dd, r: Id, sectors: nat, now: nat)
    requires Inv(c, dd, now) && r in dd.reqs && sectors <= dd.reqs[r].pos
    ensures Inv(c, FrontMerged(dd, r, sectors), now)
  {
    var w := dd.reqs[r].write;
    var dd' := FrontMerged(dd, r, sectors);
    FrontMergedLane(c, dd, r, sectors, now);
    OtherLane(c, dd.reqs, dd'.reqs, dd.Get(!w), !w, now, now);
  }

  lemma FrontMergedLane(c: Config, dd: Dd, r: Id, sectors: nat, now: nat)
    requires r in dd.reqs && sectors <= dd.reqs[r].pos
    requires LaneOk(c, dd.reqs, dd.Get(dd.reqs[r].write), dd.reqs[r].write, now)
    ensures var w := dd.reqs[r].write;
            LaneOk(c, FrontMerged(dd, r, sectors).reqs, FrontMerged(dd, r, sectors).Get(w), w, now)
  {
    var w := dd.reqs[r].write;
    var lane, reqs' := dd.Get(w), FrontMerged(dd, r, sectors).reqs;
    var rest := Without(lane.sort, r);
    WithoutOrdered(dd.reqs, lane.sort, r);
    WithoutNoDup(lane.sort, r);
    forall i | 0 <= i < |rest| ensures rest[i] in reqs' && reqs'[rest[i]] == dd.reqs[rest[i]] {
      assert rest[i] in rest;
    }
    SortInsertMembers(rest, reqs', r);
    SortInsertNoDup(rest, reqs', r);
    SortInsertSorted(rest, reqs', r);
    assert SameFifoView(dd.reqs, reqs');
  }

  lemma BackMergedInv(c: Config, dd: Dd, r: Id, sectors: nat, now: nat)
    requires Inv(c, dd, now) && r in dd.reqs
    ensures Inv(c, BackMerged(dd, r, sectors), now)
  {
    var dd' := BackMerged(dd, r, sectors);
    forall o | o in dd.reqs
      ensures o in dd'.reqs && dd'.reqs[o].pos == dd.reqs[o].pos
      ensures dd'.reqs[o].write == dd.reqs[o].write && dd'.reqs[o].expires == dd.reqs[o].expires
    {
    }
    SameLane(c, dd.reqs, dd'.reqs, dd.read, false, now);
    SameLane(c, dd.reqs, dd'.reqs, dd.write, true, now);
  }

  lemma SameLane(c: Config, reqs: map<Id, Req>, reqs': map<Id, Req>, l: Lane, w: bool, now: nat)
    requires LaneOk(c, reqs, l, w, now) && SameFifoView(reqs, reqs')
    requires forall r :: r in reqs ==> reqs'[r].pos == reqs[r].pos
    ensures LaneOk(c, reqs', l, w, now)
  {
  }

  /** Where an entry is. */
  function IndexOf(s: seq<Id>, r: Id): (i: nat)
    requires r in s
    ensures i < |s| && s[i] == r
  {
    if s[0] == r then 0 else 1 + IndexOf(s[1..], r)
  }

  lemma IndexUnique(s: seq<Id>, i: nat)
    requires NoDup(s) && i < |s|
    ensures IndexOf(s, s[i]) == i
  {
  }

  /** The position in the list before the move of the entry at position `a` after it. */
  function Old(a: int, i: int, j: int): int {
    if a <= i then a else if a == i + 1 then j else if a <= j then a - 1 else a
  }

  ghost predicate Shifted(s: seq<Id>, t: seq<Id>, i: nat, j: nat) {
    |t| == |s| && i < j < |s| && forall a :: 0 <= a < |t| ==> t[a] == s[Old(a, i, j)]
  }

  lemma WithoutIndexed(s: seq<Id>, i: nat)
    requires NoDup(s) && i < |s|
    ensures |Without(s, s[i])| == |s| - 1
    ensures forall a :: 0 <= a < |s| - 1 ==> Without(s, s[i])[a] == s[if a < i then a else a + 1]
  {
    WithoutAt(s, i);
  }

  /** An entry moved directly behind an earlier one. */
  lemma {:induction false} MoveBehindShifts(s: seq<Id>, i: nat, j: nat)
    requires NoDup(s) && i < j < |s|
    ensures Shifted(s, MoveBehind(s, s[j], s[i]), i, j)
  {
    var t := MoveBehind(s, s[j], s[i]);
    if i == 0 {
      WithoutIndexed(s[1..], j - 1);
      assert t == [s[0], s[j]] + Without(s[1..], s[j]);
    } else {
      MoveBehindShifts(s[1..], i - 1, j - 1);
      var u := MoveBehind(s[1..], s[j], s[i]);
      assert t == [s[0]] + u;
      forall a | 0 < a < |t| ensures t[a] == s[Old(a, i, j)] {
        assert t[a] == u[a - 1] && Old(a, i, j) == Old(a - 1, i - 1, j - 1) + 1;
      }
    }
  }

  lemma ShiftedMembers(s: seq<Id>, t: seq<Id>, i: nat, j: nat)
    requires Shifted(s, t, i, j) && NoDup(s)
    ensures NoDup(t) && forall x :: x in t <==> x in s
  {
    forall x | x in s ensures x in t {
      var a :| 0 <= a < |s| && s[a] == x;
      var b := if a <= i then a else if a < j then a + 1 else if a == j then i + 1 else a;
      assert Old(b, i, j) == a;
      assert t[b] == x;
    }
  }

  lemma ShiftedFifo(reqs: map<Id, Req>, reqs': map<Id, Req>, s: seq<Id>, t: seq<Id>, i: nat, j: nat)
    requires Shifted(s, t, i, j) && Known(reqs, s) && FifoOk(reqs, s) && NoDup(s)
    requires forall r :: r in reqs ==> r in reqs' && (r != s[j] ==> reqs'[r].expires == reqs[r].expires)
    requires reqs'[s[j]].expires == reqs[s[i]].expires
    ensures Known(reqs', t) && FifoOk(reqs', t)
  {
    forall a, b | 0 <= a < b < |t| ensures reqs'[t[a]].expires <= reqs'[t[b]].expires {
      var a', b' := Old(a, i, j), Old(b, i, j);
      assert t[a] == s[a'] && t[b] == s[b'];
      if a' == j {
        assert b' > i && b' != j;
        assert reqs[s[i]].expires <= reqs[s[b']].expires;
      } else if b' == j {
        assert a' <= i;
        assert a' == i || reqs[s[a']].expires <= reqs[s[i]].expires;
      }
    }
  }

  lemma AbsorbedInv(c: Config, dd: Dd, r: Id, n: Id, now: nat)
    requires Inv(c, dd, now) && r in dd.reqs && n in dd.reqs && r != n && dd.reqs[r].write == dd.reqs[n].write
    ensures Inv(c, Absorbed(dd, r, n), now)
  {
    var q, p := dd.reqs[r], dd.reqs[n];
    if p.expires < q.expires {
      MoveBehindInv(c, dd, r, n, now);
      RemovedInv(c, Behind(dd, r, n), n, now);
    } else {
      BackMergedInv(c, dd, r, p.sectors, now);
      RemovedInv(c, BackMerged(dd, r, p.sectors), n, now);
    }
  }

  lemma ExpiresBefore(reqs: map<Id, Req>, s: seq<Id>, r: Id, n: Id)
    requires Known(reqs, s) && FifoOk(reqs, s) && r in s && n in s && reqs[n].expires < reqs[r].expires
    ensures IndexOf(s, n) < IndexOf(s, r)
  {
  }

  lemma MoveBehindLane(c: Config, dd: Dd, r: Id, n: Id, now: nat)
    requires r in dd.reqs && n in dd.reqs && r != n && dd.reqs[r].write == dd.reqs[n].write
    requires LaneOk(c, dd.reqs, dd.Get(dd.reqs[r].write), dd.reqs[r].write, now)
    requires dd.reqs[n].expires < dd.reqs[r].expires
    ensures var w := dd.reqs[r].write; LaneOk(c, Behind(dd, r, n).reqs, Behind(dd, r, n).Get(w), w, now)
  {
    var w := dd.reqs[r].write;
    var lane, reqs' := dd.Get(w), Behind(dd, r, n).reqs;
    assert r in lane.fifo && n in lane.fifo;
    var i, j := IndexOf(lane.fifo, n), IndexOf(lane.fifo, r);
    var t := MoveBehind(lane.fifo, r, n);
    ExpiresBefore(dd.reqs, lane.fifo, r, n);
    MoveBehindShifts(lane.fifo, i, j);
    ShiftedMembers(lane.fifo, t, i, j);
    ShiftedFifo(dd.reqs, reqs', lane.fifo, t, i, j);
    SortSame(dd.reqs, reqs', lane.sort);
  }

  lemma MoveBehindInv(c: Config, dd: Dd, r: Id, n: Id, now: nat)
    requires Inv(c, dd, now) && r in dd.reqs && n in dd.reqs && r != n && dd.reqs[r].write == dd.reqs[n].write
    requires dd.reqs[n].expires < dd.reqs[r].expires
    ensures Inv(c, Behind(dd, r, n), now)
  {
    var w := dd.reqs[r].write;
    MoveBehindLane(c, dd, r, n, now);
    OtherLane(c, dd.reqs, Behind(dd, r, n).reqs, dd.Get(!w), !w, now, now);
  }

  lemma SortSame(reqs: map<Id, Req>, reqs': map<Id, Req>, s: seq<Id>)
    requires Known(reqs, s) && SortOk(reqs, s)
    requires forall r :: r in reqs ==> r in reqs' && reqs'[r].pos == reqs[r].pos
    ensures Known(reqs', s) && SortOk(reqs', s)
  {
  }
}
