/**
 The deadline I/O scheduler of block/deadline-iosched.c.

 Each direction keeps its requests twice: sorted by sector and in order of arrival. `Dispatched` and the other
 functions say what the elevator callbacks do; class `DeadlineData` performs them in place.
 */
module DeadlineModel {
  import opened Lists

  type Id = nat

  /** The parts of `struct request` the scheduler looks at. */
  datatype Req = Req(pos: nat, sectors: nat, write: bool, expires: nat)

  /** sort_list, fifo_list and next_rq of one direction. */
  datatype Lane = Lane(sort: seq<Id>, fifo: seq<Id>, next: Option<Id>)

  /** Settings; `writesStarved` is a signed setting compared with an unsigned counter. */
  datatype Config = Config(readExpire: nat, writeExpire: nat, fifoBatch: nat, writesStarved: int) {
    predicate Valid() {
      fifoBatch < 0x8000_0000 && -0x8000_0000 <= writesStarved < 0x8000_0000
    }
    /** The value `writes_starved` has in a comparison with an unsigned int. */
    function Patience(): (p: nat)
      requires Valid()
      ensures p < 0x1_0000_0000 && (p - writesStarved) % 0x1_0000_0000 == 0
    {
      if writesStarved < 0 then writesStarved + 0x1_0000_0000 else writesStarved
    }
    function Expire(write: bool): nat {
      if write then writeExpire else readExpire
    }
    /** The number of dispatches in the longest batch. */
    function MaxBatch(): nat {
      if fifoBatch == 0 then 1 else fifoBatch
    }
  }

  datatype Dd = Dd(
    reqs: map<Id, Req>,
    read: Lane,
    write: Lane,
    batching: nat,
    lastSector: nat,
    starved: nat)
  {
    function Get(w: bool): Lane {
      if w then write else read
    }
    function Set(w: bool, l: Lane): Dd {
      if w then this.(write := l) else this.(read := l)
    }
  }

  const EMPTY_LANE := Lane([], [], None)
  const EMPTY_DD := Dd(map[], EMPTY_LANE, EMPTY_LANE, 0, 0, 0)

  ghost predicate Known(reqs: map<Id, Req>, s: seq<Id>) {
    forall i :: 0 <= i < |s| ==> s[i] in reqs
  }

  /** elv_rb_add: behind every request that does not start later. */
  function SortInsert(s: seq<Id>, reqs: map<Id, Req>, r: Id): seq<Id>
    requires Known(reqs, s) && r in reqs
  {
    if s == [] then [r]
    else if reqs[r].pos < reqs[s[0]].pos then [r] + s
    else [s[0]] + SortInsert(s[1..], reqs, r)
  }

  /** rb_next of a request on the sort list. */
  function Latter(s: seq<Id>, r: Id): Option<Id> {
    if r in s then Next(s, r) else None
  }

  /** deadline_add_request. */
  function Added(c: Config, dd: Dd, r: Id, q: Req, now: nat): Dd
    requires Known(dd.reqs, dd.Get(q.write).sort)
  {
    var reqs := dd.reqs[r := q.(expires := now + c.Expire(q.write))];
    var lane := dd.Get(q.write);
    dd.(reqs := reqs).Set(q.write, lane.(sort := SortInsert(lane.sort, reqs, r), fifo := lane.fifo + [r]))
  }

  /** rq_fifo_clear and deadline_del_rq_rb. */
  function LaneWithout(l: Lane, r: Id): Lane {
    Lane(Without(l.sort, r), Without(l.fifo, r), if l.next == Some(r) then Latter(l.sort, r) else l.next)
  }

  /** deadline_remove_request; the request leaves the scheduler. */
  function Removed(dd: Dd, r: Id): Dd
    requires r in dd.reqs
  {
    var w := dd.reqs[r].write;
    dd.(reqs := dd.reqs - {r}).Set(w, LaneWithout(dd.Get(w), r))
  }

  /** deadline_move_request: the batch goes on behind `r`, and `r` goes to the dispatch queue. */
  function Moved(dd: Dd, r: Id): Dd
    requires r in dd.reqs
  {
    var w := dd.reqs[r].write;
    var end := dd.reqs[r].pos + dd.reqs[r].sectors;
    var cleared := dd.(read := dd.read.(next := None), write := dd.write.(next := None), lastSector := end);
    Removed(cleared.Set(w, cleared.Get(w).(next := Latter(dd.Get(w).sort, r))), r)
  }

  /** deadline_check_fifo, for a list that is not empty. */
  predicate HeadExpired(dd: Dd, w: bool, now: nat) {
    dd.Get(w).fifo != [] && dd.Get(w).fifo[0] in dd.reqs && dd.reqs[dd.Get(w).fifo[0]].expires <= now
  }

  /** The request of the running batch that is next, if the batch may go on. */
  function Running(c: Config, dd: Dd): Option<Id> {
    var next := if dd.write.next.Some? then dd.write.next else dd.read.next;
    if next.Some? && dd.batching < c.fifoBatch then next else None
  }

  /** The request a new batch in direction `w` starts with. */
  function BatchHead(dd: Dd, w: bool, now: nat): Id
    requires dd.Get(w).fifo != []
  {
    if HeadExpired(dd, w, now) || dd.Get(w).next.None? then dd.Get(w).fifo[0] else dd.Get(w).next.value
  }

  /** Reads are served unless writes have waited long enough. */
  predicate PrefersRead(c: Config, dd: Dd)
    requires c.Valid()
  {
    dd.read.fifo != [] && !(dd.write.fifo != [] && dd.starved >= c.Patience())
  }

  /** The direction, counter and first request of the batch deadline_dispatch_requests starts. */
  function Starved(c: Config, dd: Dd): nat
    requires c.Valid()
  {
    if !PrefersRead(c, dd) then 0 else if dd.write.fifo != [] then dd.starved + 1 else dd.starved
  }

  /** What deadline_dispatch_requests picks; nothing when both lists are empty. */
  function Choice(c: Config, dd: Dd, now: nat): Option<Id>
    requires c.Valid()
  {
    if Running(c, dd).Some? then Running(c, dd)
    else if PrefersRead(c, dd) then Some(BatchHead(dd, false, now))
    else if dd.write.fifo != [] then Some(BatchHead(dd, true, now))
    else None
  }

  /** deadline_dispatch_requests. */
  function Dispatched(c: Config, dd: Dd, now: nat): Dd
    requires c.Valid()
  {
    var r := Choice(c, dd, now);
    if r.None? || r.value !in dd.reqs then dd
    else if Running(c, dd).Some? then Moved(dd.(batching := dd.batching + 1), r.value)
    else Moved(dd.(batching := 1, starved := Starved(c, dd)), r.value)
  }

  /** A bio was merged in front of `r`: deadline_merged_request moves it in the sort list. */
  function FrontMerged(dd: Dd, r: Id, sectors: nat): Dd
    requires r in dd.reqs && sectors <= dd.reqs[r].pos && Known(dd.reqs, dd.Get(dd.reqs[r].write).sort)
  {
    var q := dd.reqs[r];
    var reqs := dd.reqs[r := q.(pos := q.pos - sectors, sectors := q.sectors + sectors)];
    var lane := dd.Get(q.write);
    var rest := Without(lane.sort, r);
    KnownWithout(dd.reqs, lane.sort, r);
    dd.(reqs := reqs).Set(q.write, lane.(sort := SortInsert(rest, reqs, r)))
  }

  lemma KnownWithout(reqs: map<Id, Req>, s: seq<Id>, r: Id)
    requires Known(reqs, s)
    ensures Known(reqs, Without(s, r))
  {
    var t := Without(s, r);
    forall i | 0 <= i < |t| ensures t[i] in reqs {
      assert t[i] in s;
    }
  }

  /** A bio was merged behind `r`. */
  function BackMerged(dd: Dd, r: Id, sectors: nat): Dd
    requires r in dd.reqs
  {
    dd.(reqs := dd.reqs[r := dd.reqs[r].(sectors := dd.reqs[r].sectors + sectors)])
  }

  /** list_move(&req->queuelist, &next->queuelist): `r` directly behind `n`. */
  function MoveBehind(s: seq<Id>, r: Id, n: Id): seq<Id> {
    if s == [] then []
    else if s[0] == r then MoveBehind(s[1..], r, n)
    else if s[0] == n then [n, r] + Without(s[1..], r)
    else [s[0]] + MoveBehind(s[1..], r, n)
  }

  /** deadline_merged_requests when `n` expires first: `r` takes its place in the FIFO and its time. */
  function Behind(dd: Dd, r: Id, n: Id): Dd
    requires r in dd.reqs && n in dd.reqs
  {
    var q, p := dd.reqs[r], dd.reqs[n];
    dd.(reqs := dd.reqs[r := q.(sectors := q.sectors + p.sectors, expires := p.expires)])
      .Set(q.write, dd.Get(q.write).(fifo := MoveBehind(dd.Get(q.write).fifo, r, n)))
  }

  /** `n` was merged into `r`: deadline_merged_requests, with the sectors added by the caller. */
  function Absorbed(dd: Dd, r: Id, n: Id): Dd
    requires r in dd.reqs && n in dd.reqs && r != n && dd.reqs[r].write == dd.reqs[n].write
  {
    Removed(if dd.reqs[n].expires < dd.reqs[r].expires then Behind(dd, r, n)
            else BackMerged(dd, r, dd.reqs[n].sectors), n)
  }
}
