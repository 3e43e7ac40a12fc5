/** struct deadline_data, updated in place by the elevator callbacks. */
module DeadlineInPlace {
  import opened Lists
  import opened DeadlineModel
  import opened DeadlineSafety

  lemma HeadsKnown(c: Config, dd: Dd, now: nat)
    requires Inv(c, dd, now)
    ensures forall w :: dd.Get(w).fifo != [] ==> dd.Get(w).fifo[0] in dd.reqs
  {
  }

  class DeadlineData {
    var reqs: map<Id, Req>
    var read: Lane
    var write: Lane
    var batching: nat
    var lastSector: nat
    var starved: nat
    const config: Config
    ghost var clock: nat

    ghost function View(): Dd
      reads this
    {
      Dd(reqs, read, write, batching, lastSector, starved)
    }

    ghost predicate Valid()
      reads this
    {
      Inv(config, View(), clock) == true
    }

    constructor (config: Config)
      requires config.Valid()
      ensures Valid() && View() == EMPTY_DD && this.config == config
    {
      this.config := config;
      reqs, read, write, batching, lastSector, starved, clock := map[], EMPTY_LANE, EMPTY_LANE, 0, 0, 0, 0;
    }

    method SetLane(w: bool, l: Lane)
      modifies this`read, this`write
      ensures View() == old(View()).Set(w, l)
    {
      if w {
        write := l;
      } else {
        read := l;
      }
    }

    function GetLane(w: bool): Lane
      reads this
    {
      if w then write else read
    }

    /** deadline_add_request: the new request joins both lists of its direction. */
    method AddRequest(r: Id, q: Req, now: nat)
      requires Valid() && clock <= now && r !in reqs
      modifies this
      ensures Valid() && clock == now
      ensures Known(old(reqs), old(View()).Get(q.write).sort) && View() == Added(config, old(View()), r, q, now)
    {
      AddedInv(config, View(), r, q, clock, now);
      LinkRequest(r, q, now);
      clock := now;
    }

    /** deadline_add_rq_rb, rq_set_fifo_time and list_add_tail. */
    method LinkRequest(r: Id, q: Req, now: nat)
      requires Known(reqs, View().Get(q.write).sort)
      modifies this`reqs, this`read, this`write
      ensures View() == Added(config, old(View()), r, q, now)
    {
      reqs := reqs[r := q.(expires := now + config.Expire(q.write))];
      var lane := GetLane(q.write);
      SetLane(q.write, lane.(sort := SortInsert(lane.sort, reqs, r), fifo := lane.fifo + [r]));
    }

    /** deadline_remove_request. */
    method RemoveRequest(r: Id)
      requires r in reqs
      modifies this`reqs, this`read, this`write
      ensures View() == Removed(old(View()), r)
    {
      var w := reqs[r].write;
      var lane := GetLane(w);
      lane := lane.(fifo := Without(lane.fifo, r));
      if lane.next == Some(r) {
        lane := lane.(next := Latter(lane.sort, r));
      }
      lane := lane.(sort := Without(lane.sort, r));
      SetLane(w, lane);
      reqs := reqs - {r};
    }

    /** deadline_move_request. */
    method MoveRequest(r: Id)
      requires r in reqs
      modifies this`reqs, this`read, this`write, this`lastSector
      ensures View() == Moved(old(View()), r)
    {
      var w := reqs[r].write;
      var latter := Latter(GetLane(w).sort, r);
      read := read.(next := None);
      write := write.(next := None);
      SetLane(w, GetLane(w).(next := latter));
      lastSector := reqs[r].pos + reqs[r].sectors;
      RemoveRequest(r);
    }

    /** deadline_dispatch_requests: the request that goes to the dispatch queue, if any. */
    method DispatchRequests(now: nat) returns (r: Option<Id>)
      requires Valid() && clock <= now
      modifies this
      ensures Valid() && clock == now && View() == Dispatched(config, old(View()), now)
      ensures config.Valid() && r == Choice(config, old(View()), now)
      ensures r.Some? ==> r.value in old(reqs)
    {
      DispatchedInv(config, View(), clock, now);
      LaterInv(config, View(), clock, now);
      ChoiceQueued(config, View(), now);
      HeadsKnown(config, View(), clock);
      r := SelectAndMove(now);
      clock := now;
    }

    /** The body of deadline_dispatch_requests. */
    method SelectAndMove(now: nat) returns (r: Option<Id>)
      requires config.Valid() && (Choice(config, View(), now).Some? ==> Choice(config, View(), now).value in reqs)
      requires forall w :: View().Get(w).fifo != [] ==> View().Get(w).fifo[0] in reqs
      modifies this`reqs, this`read, this`write, this`lastSector, this`batching, this`starved
      ensures View() == Dispatched(config, old(View()), now) && r == Choice(config, old(View()), now)
    {
      r := if write.next.Some? then write.next else read.next;
      if r.None? || batching >= config.fifoBatch {
        r := NewBatch(now);
        if r.None? {
          return;
        }
      }
      batching := batching + 1;
      MoveRequest(r.value);
    }

    /** The choice of a direction, and of the request a batch in it begins with. */
    method NewBatch(now: nat) returns (r: Option<Id>)
      requires config.Valid() && Running(config, View()).None?
      requires forall w :: View().Get(w).fifo != [] ==> View().Get(w).fifo[0] in reqs
      modifies this`batching, this`starved
      ensures r == Choice(config, old(View()), now)
      ensures r.Some? ==> batching == 0 && starved == Starved(config, old(View()))
      ensures r.None? ==> View() == old(View())
    {
      assert View().Get(false) == read && View().Get(true) == write;
      var readsQueued, writesQueued := read.fifo != [], write.fifo != [];
      var w;
      if readsQueued && !(writesQueued && starved >= config.Patience()) {
        starved := if writesQueued then starved + 1 else starved;
        w := false;
      } else if writesQueued {
        starved := 0;
        w := true;
      } else {
        return None;
      }
      batching := 0;
      r := Some(FirstOfBatch(w, now));
    }

    /** The request at `dispatch_find_request`. */
    function FirstOfBatch(w: bool, now: nat): Id
      requires GetLane(w).fifo != [] && GetLane(w).fifo[0] in reqs
      reads this
    {
      var lane := GetLane(w);
      if reqs[lane.fifo[0]].expires <= now || lane.next.None? then lane.fifo[0] else lane.next.value
    }

    /** deadline_merged_request after a bio of `sectors` sectors was merged in front of `r`. */
    method FrontMerge(r: Id, sectors: nat)
      requires Valid() && r in reqs && sectors <= reqs[r].pos
      modifies this`reqs, this`read, this`write
      ensures Valid() && Known(old(reqs), old(View()).Get(old(reqs)[r].write).sort)
      ensures View() == FrontMerged(old(View()), r, sectors)
    {
      FrontMergedInv(config, View(), r, sectors, clock);
      Reposition(r, sectors);
    }

    /** elv_rb_del and deadline_add_rq_rb at the new start sector. */
    method Reposition(r: Id, sectors: nat)
      requires r in reqs && sectors <= reqs[r].pos && Known(reqs, View().Get(reqs[r].write).sort)
      modifies this`reqs, this`read, this`write
      ensures View() == FrontMerged(old(View()), r, sectors)
    {
      var w := reqs[r].write;
      var lane := GetLane(w);
      KnownWithout(reqs, lane.sort, r);
      reqs := reqs[r := reqs[r].(pos := reqs[r].pos - sectors, sectors := reqs[r].sectors + sectors)];
      lane := lane.(sort := Without(lane.sort, r));
      lane := lane.(sort := SortInsert(lane.sort, reqs, r));
      SetLane(w, lane);
    }

    /** deadline_merged_requests after `n` was merged into `r`. */
    method MergedRequests(r: Id, n: Id)
      requires Valid() && r in reqs && n in reqs && r != n && reqs[r].write == reqs[n].write
      modifies this`reqs, this`read, this`write
      ensures Valid() && View() == Absorbed(old(View()), r, n)
    {
      AbsorbedInv(config, View(), r, n, clock);
      AbsorbNext(r, n);
    }

    method AbsorbNext(r: Id, n: Id)
      requires r in reqs && n in reqs && r != n && reqs[r].write == reqs[n].write
      modifies this`reqs, this`read, this`write
      ensures View() == Absorbed(old(View()), r, n)
    {
      TakePlace(r, n);
      RemoveRequest(n);
    }

    /** `r` grows by the sectors of `n`, and takes its place in the FIFO if `n` expires first. */
    method TakePlace(r: Id, n: Id)
      requires r in reqs && n in reqs && r != n
      modifies this`reqs, this`read, this`write
      ensures View() == if old(reqs)[n].expires < old(reqs)[r].expires then Behind(old(View()), r, n)
                        else BackMerged(old(View()), r, old(reqs)[n].sectors)
    {
      var q, p := reqs[r], reqs[n];
      if p.expires < q.expires {
        SetLane(q.write, GetLane(q.write).(fifo := MoveBehind(GetLane(q.write).fifo, r, n)));
        reqs := reqs[r := q.(sectors := q.sectors + p.sectors, expires := p.expires)];
      } else {
        reqs := reqs[r := q.(sectors := q.sectors + p.sectors)];
      }
    }
  }
}
