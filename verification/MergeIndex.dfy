/** Every step of merging keeps requests contiguous and the index true. */
module MergeIndex {
  import opened Lists
  import opened MergeModel

  /** The invariant while request `id` has grown and the hash does not know it yet. */
  ghost predicate InvBut(q: Queue, id: nat) {
    && id in q.rqs
    && (forall x :: x in q.rqs ==> RqOk(q.rqs[x]))
    && Once(q.hash)
    && (forall e :: e in q.hash ==>
          e.id in q.rqs && (e.id != id && q.rqs[e.id].mergeable ==> e.key == End(q.rqs[e.id])))
    && (forall x :: x in q.rqs && x != id && q.rqs[x].mergeable ==> Entry(x, End(q.rqs[x])) in q.hash)
    && (q.last.Some? ==> q.last.value in q.rqs)
    && q.nrSorted == |q.rqs|
  }

  lemma InvIsBut(q: Queue, id: nat)
    requires Inv(q) && id in q.rqs
    ensures InvBut(q, id)
  {
  }

  lemma InsertedInv(q: Queue, id: nat, r: Rq)
    requires Inv(q) && id !in q.rqs && RqOk(r)
    ensures Inv(Inserted(q, id, r))
  {
    var q' := Inserted(q, id, r);
    assert q'.rqs.Keys == q.rqs.Keys + {id};
    if r.mergeable {
      PrependOnce(Entry(id, End(r)), q.hash);
    }
  }

  lemma DispatchedInv(q: Queue, id: nat)
    requires Inv(q) && id in q.rqs
    ensures q.nrSorted > 0 && Inv(Dispatched(q, id))
  {
    assert q.rqs.Keys == (q.rqs.Keys - {id}) + {id};
    assert (q.rqs - {id}).Keys == q.rqs.Keys - {id};
    DroppedIs(q.hash, id);
  }

  lemma RefusedInv(q: Queue, id: nat)
    requires Inv(q) && id in q.rqs
    ensures Inv(Refused(q, id))
  {
    assert Refused(q, id).rqs.Keys == q.rqs.Keys;
  }

  lemma GrownBackBut(q: Queue, id: nat, b: Bio)
    requires Inv(q) && id in q.rqs && BioOk(b) && End(q.rqs[id]) == b.sector
    ensures InvBut(q.(rqs := q.rqs[id := GrownBack(q.rqs[id], b)]), id)
  {
    var r := q.rqs[id];
    OneOk(b, FromBio(b, true));
    JoinedOk(r, FromBio(b, true), GrownBack(r, b));
    assert q.rqs[id := GrownBack(r, b)].Keys == q.rqs.Keys;
  }

  /** A front merge leaves the end where it was, so the hash needs no update. */
  lemma GrownFrontInv(q: Queue, id: nat, b: Bio)
    requires Inv(q) && id in q.rqs && BioOk(b) && BioEnd(b) == q.rqs[id].sector
    ensures Inv(q.(rqs := q.rqs[id := GrownFront(q.rqs[id], b)])) && End(GrownFront(q.rqs[id], b)) == End(q.rqs[id])
  {
    var r := q.rqs[id];
    OneOk(b, FromBio(b, true));
    JoinedOk(FromBio(b, true), r, GrownFront(r, b));
    assert q.rqs[id := GrownFront(r, b)].Keys == q.rqs.Keys;
  }

  lemma RepositionedInv(q: Queue, id: nat)
    requires InvBut(q, id)
    ensures Inv(Repositioned(q, id))
  {
    DroppedIs(q.hash, id);
    PrependOnce(Entry(id, End(q.rqs[id])), Dropped(q.hash, id));
  }

  lemma NotItself(q: Queue, id: nat, next: nat)
    requires id in q.rqs && next in q.rqs && RqOk(q.rqs[id]) && End(q.rqs[id]) == q.rqs[next].sector
    ensures id != next
  {
    CoversSize(q.rqs[id].bios, q.rqs[id].sector, End(q.rqs[id]));
  }

  lemma ExtendedBut(q: Queue, id: nat, r: Rq)
    requires InvBut(q, id) == true && id in q.rqs && RqOk(r) == true
    ensures InvBut(q.(rqs := q.rqs[id := r]), id) == true
  {
    assert q.rqs[id := r].Keys == q.rqs.Keys;
  }

  lemma LastInv(q: Queue, id: nat)
    requires Inv(q) && id in q.rqs
    ensures Inv(q.(last := Some(id))) == true
  {
  }

  /** The second request leaves once the first is back in the hash. */
  lemma SecondLeaves(q: Queue, id: nat, next: nat, q1: Queue)
    requires InvBut(q, id) == true && id in q.rqs && next in q.rqs && id != next && q1 == Repositioned(q, id)
    ensures q1.nrSorted > 0 && next in q1.rqs && Inv(Dispatched(q1, next).(last := Some(id))) == true
  {
    RepositionedInv(q, id);
    DispatchedInv(q1, next);
    LastInv(Dispatched(q1, next), id);
  }

  /** The request that a merge leaves. */
  function Sum(r: Rq, n: Rq): Rq {
    r.(bios := r.bios + n.bios, dataLen := r.dataLen + n.dataLen)
  }

  lemma SumOk(q: Queue, id: nat, next: nat)
    requires InvBut(q, id) == true && id in q.rqs && next in q.rqs && End(q.rqs[id]) == q.rqs[next].sector
    ensures id != next && RqOk(Sum(q.rqs[id], q.rqs[next])) == true && q.nrSorted > 0
  {
    NotItself(q, id, next);
    JoinedOk(q.rqs[id], q.rqs[next], Sum(q.rqs[id], q.rqs[next]));
    assert id in q.rqs.Keys;
  }

  lemma JoinedInv(q: Queue, id: nat, next: nat)
    requires InvBut(q, id) == true && id in q.rqs && next in q.rqs && End(q.rqs[id]) == q.rqs[next].sector
    ensures q.nrSorted > 0 && Inv(Joined(q, id, next)) == true && id != next
  {
    SumOk(q, id, next);
    ExtendedBut(q, id, Sum(q.rqs[id], q.rqs[next]));
    SecondLeaves(WithSum(q, id, next), id, next, Repositioned(WithSum(q, id, next), id));
    JoinedIs(q, id, next);
  }

  function WithSum(q: Queue, id: nat, next: nat): Queue
    requires id in q.rqs && next in q.rqs
  {
    q.(rqs := q.rqs[id := Sum(q.rqs[id], q.rqs[next])])
  }

  lemma JoinedIs(q: Queue, id: nat, next: nat)
    requires id in q.rqs && next in q.rqs && q.nrSorted > 0
    ensures var q1 := Repositioned(WithSum(q, id, next), id);
            next in q1.rqs && q1.nrSorted > 0 && Joined(q, id, next) == Dispatched(q1, next).(last := Some(id))
  {
  }

  lemma JoinedNewInv(q: Queue, id: nat, n: Rq)
    requires Inv(q) && id in q.rqs && RqOk(n) && End(q.rqs[id]) == n.sector
    ensures Inv(JoinedNew(q, id, n)) == true
  {
    JoinedOk(q.rqs[id], n, Sum(q.rqs[id], n));
    InvIsBut(q, id);
    ExtendedBut(q, id, Sum(q.rqs[id], n));
    FirstStays(q.(rqs := q.rqs[id := Sum(q.rqs[id], n)]), id);
    JoinedNewIs(q, id, n);
  }

  lemma FirstStays(q: Queue, id: nat)
    requires InvBut(q, id) == true && id in q.rqs
    ensures Inv(Repositioned(q, id).(last := Some(id))) == true
  {
    RepositionedInv(q, id);
    LastInv(Repositioned(q, id), id);
  }

  lemma JoinedNewIs(q: Queue, id: nat, n: Rq)
    requires id in q.rqs
    ensures JoinedNew(q, id, n) == Repositioned(q.(rqs := q.rqs[id := Sum(q.rqs[id], n)]), id).(last := Some(id))
  {
  }

  // ---------------------------------------------------------------- runs

  /** What happens to a scheduler's requests under the queue lock; a refusal by a limit is part of the step. */
  datatype Action =
    | Insert(id: nat, rq: Rq)
    | Dispatch(id: nat)
    | BackMerge(id: nat, bio: Bio, fits: bool, next: Option<nat>)
    | FrontMerge(id: nat, bio: Bio, fits: bool, prev: Option<nat>)
    | InsertMerge(id: nat, bios: seq<Bio>, from: nat)
    | NoMerge(id: nat)
    | MergeOn(id: nat, behind: nat)
    | Lookup(id: nat)

  /**
   The steps of blk_queue_bio, __elv_add_request and dispatch; a request that is inserted holds one bio or a chain built
   on the plug list; `next` and `prev` are neighbours that merge as well. A lookup drops the entry of a request that
   takes no more merges.
   */
  ghost predicate Step(q: Queue, a: Action, q': Queue) {
    match a
    case Insert(id, rq) =>
      id !in q.rqs && RqOk(rq) && q' == Inserted(q, id, rq)
    case Dispatch(id) =>
      id in q.rqs && q.nrSorted > 0 && q' == Dispatched(q, id)
    case BackMerge(id, bio, fits, next) =>
      && id in q.rqs && q.rqs[id].mergeable && BioOk(bio) && End(q.rqs[id]) == bio.sector
      && if !fits then q' == Refused(q, id)
         else
           var q1 := q.(rqs := q.rqs[id := GrownBack(q.rqs[id], bio)]);
           if next.None? then q' == Repositioned(q1, id).(last := Some(id))
           else && next.value in q1.rqs && q1.rqs[next.value].mergeable && End(q1.rqs[id]) == q1.rqs[next.value].sector
                && q1.nrSorted > 0 && q' == Joined(q1, id, next.value)
    case FrontMerge(id, bio, fits, prev) =>
      && id in q.rqs && q.rqs[id].mergeable && BioOk(bio) && BioEnd(bio) == q.rqs[id].sector
      && if !fits then q' == Refused(q, id)
         else
           var q1 := q.(rqs := q.rqs[id := GrownFront(q.rqs[id], bio)]);
           if prev.None? then q' == q1.(last := Some(id))
           else && prev.value in q1.rqs && q1.rqs[prev.value].mergeable && End(q1.rqs[prev.value]) == q1.rqs[id].sector
                && q1.nrSorted > 0 && q' == Joined(q1, prev.value, id)
    case InsertMerge(id, bios, from) =>
      && id in q.rqs && q.rqs[id].mergeable && bios != [] && End(q.rqs[id]) == from
      && Covers(bios, from, from + SizeSum(bios) / SECTOR)
      && q' == JoinedNew(q, id, Rq(bios, from, SizeSum(bios), true))
    case NoMerge(id) =>
      id in q.rqs && q' == Refused(q, id)
    case MergeOn(id, behind) =>
      && id in q.rqs && behind in q.rqs && q.rqs[id].mergeable && q.rqs[behind].mergeable && q.nrSorted > 0
      && End(q.rqs[id]) == q.rqs[behind].sector && q' == Joined(q, id, behind)
    case Lookup(id) =>
      id in q.rqs && !q.rqs[id].mergeable && q' == q.(hash := Dropped(q.hash, id))
  }

  lemma LookupInv(q: Queue, id: nat)
    requires Inv(q) && id in q.rqs && !q.rqs[id].mergeable
    ensures Inv(q.(hash := Dropped(q.hash, id))) == true
  {
    DroppedIs(q.hash, id);
  }

  lemma BackMergeInv(q: Queue, id: nat, bio: Bio, next: Option<nat>, q': Queue)
    requires Inv(q) && Step(q, BackMerge(id, bio, true, next), q')
    ensures Inv(q')
  {
    GrownBackBut(q, id, bio);
    var q1 := q.(rqs := q.rqs[id := GrownBack(q.rqs[id], bio)]);
    if next.None? {
      RepositionedInv(q1, id);
    } else {
      JoinedInv(q1, id, next.value);
    }
  }

  lemma FrontMergeInv(q: Queue, id: nat, bio: Bio, prev: Option<nat>, q': Queue)
    requires Inv(q) && Step(q, FrontMerge(id, bio, true, prev), q')
    ensures Inv(q')
  {
    GrownFrontInv(q, id, bio);
    var q1 := q.(rqs := q.rqs[id := GrownFront(q.rqs[id], bio)]);
    if prev.Some? {
      InvIsBut(q1, prev.value);
      JoinedInv(q1, prev.value, id);
    }
  }

  lemma StepInv(q: Queue, a: Action, q': Queue)
    requires Inv(q) && Step(q, a, q')
    ensures Inv(q')
  {
    match a
    case Insert(id, rq) => InsertedInv(q, id, rq);
    case Dispatch(id) => DispatchedInv(q, id);
    case BackMerge(id, bio, fits, next) =>
      if fits {
        BackMergeInv(q, id, bio, next, q');
      } else {
        RefusedInv(q, id);
      }
    case FrontMerge(id, bio, fits, prev) =>
      if fits {
        FrontMergeInv(q, id, bio, prev, q');
      } else {
        RefusedInv(q, id);
      }
    case InsertMerge(id, bios, from) =>
      JoinedNewInv(q, id, Rq(bios, from, SizeSum(bios), true));
    case NoMerge(id) => RefusedInv(q, id);
    case MergeOn(id, behind) =>
      InvIsBut(q, id);
      JoinedInv(q, id, behind);
    case Lookup(id) => LookupInv(q, id);
  }

  ghost predicate Run(states: seq<Queue>, actions: seq<Action>) {
    && |states| == |actions| + 1
    && states[0] == Queue(map[], [], None, 0)
    && forall i, j :: 0 <= i < |actions| && j == i + 1 ==> Step(states[i], actions[i], states[j])
  }

  lemma {:induction false} RunInv(states: seq<Queue>, actions: seq<Action>, i: nat)
    requires Run(states, actions) && i < |states|
    ensures Inv(states[i])
  {
    if i > 0 {
      RunInv(states, actions, i - 1);
      StepInv(states[i - 1], actions[i - 1], states[i]);
    }
  }

  /** The request that elv_rqhash_find gives for a sector, if any. */
  ghost predicate Findable(q: Queue, offset: nat, id: nat) {
    id in q.rqs && q.rqs[id].mergeable && End(q.rqs[id]) == offset
  }

  /**
   In every reachable state the hash tells what can be found: a request is findable under a sector exactly when it is
   mergeable and has an entry with that sector as its key, which every hash function puts into the bucket looked at.
   */
  lemma FoundInItsBucket(states: seq<Queue>, actions: seq<Action>, i: nat, h: nat -> nat, offset: nat, id: nat)
    requires Run(states, actions) && i < |states|
    ensures var q := states[i];
            Findable(q, offset, id) <==>
            id in q.rqs && q.rqs[id].mergeable && exists e :: e in q.hash && e.id == id && e.key == offset
    ensures var q := states[i];
            Findable(q, offset, id) ==> exists e :: e in q.hash && e.id == id && h(e.key) == h(offset)
  {
    RunInv(states, actions, i);
    var q := states[i];
    if Findable(q, offset, id) {
      assert Entry(id, offset) in q.hash;
    }
  }
}
