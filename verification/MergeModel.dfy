/**
 Merging into the requests of an I/O scheduler and the hash that finds them by their end, block/elevator.c with the
 merge paths of block/blk-core.c and block/blk-merge.c.
 */
module MergeModel {
  import opened Lists

  const SECTOR: nat := 512

  datatype Bio = Bio(sector: nat, size: nat)

  /** A request with its bio chain; `mergeable` is rq_mergeable. */
  datatype Rq = Rq(bios: seq<Bio>, sector: nat, dataLen: nat, mergeable: bool)

  function BioEnd(b: Bio): nat {
    b.sector + b.size / SECTOR
  }

  /** rq_hash_key. */
  function End(r: Rq): nat {
    r.sector + r.dataLen / SECTOR
  }

  ghost predicate BioOk(b: Bio) {
    b.size > 0 && b.size % SECTOR == 0
  }

  /** The bios cover the sectors from `from` to `to` without gap or overlap. */
  ghost predicate Covers(bios: seq<Bio>, from: nat, to: nat) {
    if bios == [] then from == to
    else BioOk(bios[0]) && bios[0].sector == from && Covers(bios[1..], BioEnd(bios[0]), to)
  }

  function SizeSum(bios: seq<Bio>): nat {
    if bios == [] then 0 else bios[0].size + SizeSum(bios[1..])
  }

  /** A request is one contiguous range of sectors, that of its bios in order, as long as they are together. */
  ghost predicate RqOk(r: Rq) {
    r.bios != [] && Covers(r.bios, r.sector, End(r)) && r.dataLen == SizeSum(r.bios)
  }

  /** An entry of the hash, with the key it was put in under. */
  datatype Entry = Entry(id: nat, key: nat)

  /** The requests in the scheduler by number, the hash with the latest entry first, last_merge and nr_sorted. */
  datatype Queue = Queue(rqs: map<nat, Rq>, hash: seq<Entry>, last: Option<nat>, nrSorted: nat)

  ghost predicate Once(hash: seq<Entry>) {
    forall i, j :: 0 <= i < j < |hash| ==> hash[i].id != hash[j].id
  }

  /** hash_del. */
  function Dropped(hash: seq<Entry>, id: nat): seq<Entry> {
    if hash == [] then []
    else if hash[0].id == id then Dropped(hash[1..], id)
    else [hash[0]] + Dropped(hash[1..], id)
  }

  /** The hash agrees with the requests: every mergeable request is in it, once, under the sector it ends at. */
  ghost predicate Indexed(q: Queue) {
    && Once(q.hash)
    && (forall e :: e in q.hash ==> e.id in q.rqs && (q.rqs[e.id].mergeable ==> e.key == End(q.rqs[e.id])))
    && (forall id :: id in q.rqs && q.rqs[id].mergeable ==> Entry(id, End(q.rqs[id])) in q.hash)
  }

  ghost predicate Inv(q: Queue) {
    && (forall id :: id in q.rqs ==> RqOk(q.rqs[id]))
    && Indexed(q)
    && (q.last.Some? ==> q.last.value in q.rqs)
    && q.nrSorted == |q.rqs|
  }

  // ---------------------------------------------------------------- bio chains

  lemma {:induction false} CoversSize(bios: seq<Bio>, from: nat, to: nat)
    requires Covers(bios, from, to)
    ensures from <= to && SizeSum(bios) % SECTOR == 0 && to == from + SizeSum(bios) / SECTOR
    ensures bios != [] ==> from < to
  {
    if bios != [] {
      CoversSize(bios[1..], BioEnd(bios[0]), to);
    }
  }

  lemma {:induction false} CoversPlus(a: seq<Bio>, b: seq<Bio>, from: nat, mid: nat, to: nat)
    requires Covers(a, from, mid) && Covers(b, mid, to)
    ensures Covers(a + b, from, to) && SizeSum(a + b) == SizeSum(a) + SizeSum(b)
  {
    if a == [] {
      assert a + b == b;
    } else {
      CoversPlus(a[1..], b, BioEnd(a[0]), mid, to);
      assert (a + b)[1..] == a[1..] + b;
    }
  }

  /** Two chains that meet make a request that covers both. */
  lemma JoinedOk(a: Rq, b: Rq, r: Rq)
    requires RqOk(a) && RqOk(b) && End(a) == b.sector
    requires r == Rq(a.bios + b.bios, a.sector, a.dataLen + b.dataLen, r.mergeable)
    ensures RqOk(r) && End(r) == End(b)
  {
    CoversSize(a.bios, a.sector, End(a));
    CoversSize(b.bios, b.sector, End(b));
    CoversPlus(a.bios, b.bios, a.sector, End(a), End(b));
    assert (a.dataLen + b.dataLen) / SECTOR == a.dataLen / SECTOR + b.dataLen / SECTOR;
  }

  lemma OneOk(b: Bio, r: Rq)
    requires BioOk(b) && r == Rq([b], b.sector, b.size, r.mergeable)
    ensures RqOk(r) && End(r) == BioEnd(b)
  {
    assert [b][1..] == [];
  }

  // ---------------------------------------------------------------- the hash

  lemma {:induction false} DroppedIs(hash: seq<Entry>, id: nat)
    ensures forall e :: e in Dropped(hash, id) <==> e in hash && e.id != id
    ensures Once(hash) ==> Once(Dropped(hash, id))
  {
    if hash != [] {
      DroppedIs(hash[1..], id);
      assert hash == [hash[0]] + hash[1..];
      if Once(hash) && hash[0].id != id {
        forall e | e in Dropped(hash[1..], id) ensures e.id != hash[0].id {
          assert e in hash[1..];
        }
      }
    }
  }

  lemma PrependOnce(e: Entry, hash: seq<Entry>)
    requires Once(hash) && forall x :: x in hash ==> x.id != e.id
    ensures Once([e] + hash)
  {
  }

  /** elv_rqhash_reposition. */
  function Repositioned(q: Queue, id: nat): Queue
    requires id in q.rqs
  {
    q.(hash := [Entry(id, End(q.rqs[id]))] + Dropped(q.hash, id))
  }

  // ---------------------------------------------------------------- steps

  /** A request as init_request_from_bio makes it. */
  function FromBio(b: Bio, mergeable: bool): Rq {
    Rq([b], b.sector, b.size, mergeable)
  }

  /** __elv_add_request for sorted insertion. */
  function Inserted(q: Queue, id: nat, r: Rq): Queue {
    var q1 := q.(rqs := q.rqs[id := r], nrSorted := q.nrSorted + 1);
    if r.mergeable then
      q1.(hash := [Entry(id, End(r))] + q.hash, last := if q.last.None? then Some(id) else q.last)
    else q1
  }

  /** A request leaves the scheduler: elv_dispatch_add_tail, elv_dispatch_sort, or as the second in a merge. */
  function Dispatched(q: Queue, id: nat): Queue
    requires id in q.rqs && q.nrSorted > 0
  {
    Queue(q.rqs - {id}, Dropped(q.hash, id), if q.last == Some(id) then None else q.last, q.nrSorted - 1)
  }

  /** What the ll_merge functions do when they refuse: the request takes no more merges. */
  function Refused(q: Queue, id: nat): Queue
    requires id in q.rqs
  {
    q.(rqs := q.rqs[id := q.rqs[id].(mergeable := false)], last := if q.last == Some(id) then None else q.last)
  }

  /** bio_attempt_back_merge on the request alone. */
  function GrownBack(r: Rq, b: Bio): Rq {
    r.(bios := r.bios + [b], dataLen := r.dataLen + b.size)
  }

  /** bio_attempt_front_merge. */
  function GrownFront(r: Rq, b: Bio): Rq {
    r.(bios := [b] + r.bios, sector := b.sector, dataLen := r.dataLen + b.size)
  }

  /** attempt_merge and elv_merge_requests, for a `next` that is in the scheduler. */
  function Joined(q: Queue, id: nat, next: nat): Queue
    requires id in q.rqs && next in q.rqs && q.nrSorted > 0
  {
    var r, n := q.rqs[id], q.rqs[next];
    var q1 := q.(rqs := q.rqs[id := r.(bios := r.bios + n.bios, dataLen := r.dataLen + n.dataLen)]);
    Dispatched(Repositioned(q1, id), next).(last := Some(id))
  }

  /** The same for a `next` that has not been inserted yet. */
  function JoinedNew(q: Queue, id: nat, n: Rq): Queue
    requires id in q.rqs
  {
    var r := q.rqs[id];
    var q1 := q.(rqs := q.rqs[id := r.(bios := r.bios + n.bios, dataLen := r.dataLen + n.dataLen)]);
    Repositioned(q1, id).(last := Some(id))
  }
}
