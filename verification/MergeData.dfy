/** The scheduler's requests and their hash, changed in place as bios and requests merge. */
module MergeInPlace {
  import opened Lists
  import opened MergeModel
  import opened MergeIndex
  import opened MergeFlow

  datatype Choice = NoMergeFound | Back(id: nat) | Front(id: nat)

  /** An entry that does not match tells that its request cannot be found. */
  lemma EntrySkipped(q: Queue, e: Entry, bucket: nat -> nat, offset: nat)
    requires Inv(q) && e in q.hash && bucket(e.key) != bucket(offset)
    ensures !Findable(q, offset, e.id)
  {
  }

  lemma FindableHasEntry(q: Queue, offset: nat, id: nat)
    requires Inv(q) && Findable(q, offset, id)
    ensures Entry(id, offset) in q.hash
  {
  }

  lemma JoinedFewer(q: Queue, id: nat, next: nat)
    requires id in q.rqs && next in q.rqs && q.nrSorted > 0 && id != next
    ensures id in Joined(q, id, next).rqs && |Joined(q, id, next).rqs| < |q.rqs|
  {
    var q' := Joined(q, id, next);
    assert q'.rqs.Keys == q.rqs.Keys - {next};
    assert q.rqs.Keys == q'.rqs.Keys + {next};
  }

  /** Whatever is looked for, the same is found. */
  ghost predicate SameFinds(hash: seq<Entry>, hash': seq<Entry>, rqs: map<nat, Rq>) {
    forall offset :: FirstFound(hash', rqs, offset) == FirstFound(hash, rqs, offset)
  }

  lemma DroppedFinds(hash: seq<Entry>, hash': seq<Entry>, rqs: map<nat, Rq>, id: nat)
    requires SameFinds(hash, hash', rqs) && id in rqs && !rqs[id].mergeable
    ensures SameFinds(hash, Dropped(hash', id), rqs)
  {
    forall offset ensures FirstFound(Dropped(hash', id), rqs, offset) == FirstFound(hash, rqs, offset) {
      DroppedFound(hash', rqs, id, offset);
    }
  }

  /** What joining `found` and the request in hand, in this order, leaves. */
  lemma HandJoined(q0: Queue, q: Queue, q': Queue, id: nat, rq: nat, found: nat)
    requires id in q0.rqs && rq in q.rqs && found in q.rqs && found != rq && q.nrSorted > 0
    requires q'.rqs == Joined(q, found, rq).rqs
    requires Conserved(q0, q, []) && OnlyHand(q0, q, rq) && EndsWith(q.rqs[rq].bios, q0.rqs[id].bios)
    ensures Conserved(q0, q', []) && OnlyHand(q0, q', found) && EndsWith(q'.rqs[found].bios, q0.rqs[id].bios)
  {
    ConservedJoin(q, found, rq);
    assert Conserved(q, q', []);
    ConservedTrans(q0, q, q', []);
  }

  lemma NothingMerged(q: Queue, id: nat)
    requires id in q.rqs
    ensures Conserved(q, q, []) && OnlyHand(q, q, id) && EndsWith(q.rqs[id].bios, q.rqs[id].bios)
  {
  }

  lemma NewInHand(q: Queue, id: nat, n: Rq)
    requires id in q.rqs
    ensures MergedInto(q, JoinedNew(q, id, n), id, n) == true
  {
    ConservedNew(q, id, n);
  }

  /** What was merged behind the request that took the new one leaves the new one at the end. */
  lemma HandKept(q0: Queue, q1: Queue, q2: Queue, q3: Queue, id: nat, hand: nat, n: Rq)
    requires q1.rqs == q0.rqs && id in q1.rqs && MergedInto(q1, q2, id, n) && q3.last == Some(hand)
    requires Conserved(q2, q3, []) && OnlyHand(q2, q3, hand) && EndsWith(q3.rqs[hand].bios, q2.rqs[id].bios)
    requires hand != id ==> id !in q3.rqs
    ensures MergedInto(q0, q3, hand, n) == true
  {
    ConservedTrans(q1, q2, q3, n.bios);
    assert Conserved(q0, q3, n.bios);
  }

  /** The new request ends request `hand`, the one merged last; no other request has changed, and no bio is lost. */
  ghost predicate MergedInto(q: Queue, q': Queue, hand: nat, n: Rq) {
    && OnlyHand(q, q', hand) && EndsWith(q'.rqs[hand].bios, n.bios) && q'.last == Some(hand)
    && Conserved(q, q', n.bios)
  }

  /** How request `id` takes the bio, if it does. */
  function Takes(q: Queue, id: nat, bio: Bio, fit: set<nat>): Choice
    requires id in q.rqs
  {
    if !q.rqs[id].mergeable || id !in fit then NoMergeFound
    else if End(q.rqs[id]) == bio.sector then Back(id)
    else if q.rqs[id].sector == BioEnd(bio) then Front(id)
    else NoMergeFound
  }

  /** What elv_merge chooses: last_merge first, then a request that ends at the bio, then one that begins there. */
  function ChoiceFor(q: Queue, bio: Bio, nomerges: bool, noxmerges: bool, fit: set<nat>, front: Option<nat>): Choice
    requires q.last.Some? ==> q.last.value in q.rqs
  {
    var cached := if q.last.None? then NoMergeFound else Takes(q, q.last.value, bio, fit);
    var found := FirstFound(q.hash, q.rqs, bio.sector);
    if nomerges then NoMergeFound
    else if cached != NoMergeFound || noxmerges then cached
    else if found.Some? && found.value in fit then Back(found.value)
    else if front.Some? then Front(front.value)
    else NoMergeFound
  }

  /** Whether elv_attempt_insert_merge merges: last_merge takes the request, or else the one found in the hash. */
  predicate MergesAtInsert(q: Queue, n: Rq, nomerges: bool, noxmerges: bool, allows: nat -> bool) {
    && !nomerges
    && (|| (q.last.Some? && q.last.value in q.rqs && q.rqs[q.last.value].mergeable && allows(q.last.value)
            && End(q.rqs[q.last.value]) == n.sector)
        || (!noxmerges && !Stops(q, n.sector, allows)))
  }

  class ElevatorQueue {
    var rqs: map<nat, Rq>
    var hash: seq<Entry>
    var last: Option<nat>
    var nrSorted: nat
    const bucket: nat -> nat

    ghost function View(): Queue
      reads this
    {
      Queue(rqs, hash, last, nrSorted)
    }

    ghost predicate Valid()
      reads this
    {
      Inv(View()) == true
    }

    constructor (bucket: nat -> nat)
      ensures Valid() && rqs == map[]
    {
      rqs, hash, last, nrSorted := map[], [], None, 0;
      this.bucket := bucket;
    }

    /**
     elv_rqhash_find: entries of requests that merge no more go as the walk meets them. A request is found exactly
     when the scheduler holds a mergeable one that ends at `offset`.
     */
    method Find(offset: nat) returns (found: Option<nat>)
      requires Valid()
      modifies this`hash
      ensures Valid()
      ensures found.Some? ==> Findable(View(), offset, found.value)
      ensures found.None? ==> forall id :: !Findable(View(), offset, id)
      ensures found == FirstFound(old(hash), rqs, offset)
      ensures SameFinds(old(hash), hash, rqs)
    {
      ghost var q0 := View();
      var entries := hash;
      for i := 0 to |entries|
        invariant Inv(View()) == true
        invariant FirstFound(entries, rqs, offset) == FirstFound(entries[i..], rqs, offset)
        invariant SameFinds(entries, hash, rqs)
        invariant forall k :: 0 <= k < i ==> !Findable(q0, offset, entries[k].id)
      {
        var e := entries[i];
        assert e in q0.hash;
        if bucket(e.key) == bucket(offset) {
          if !rqs[e.id].mergeable {
            LookupInv(View(), e.id);
            DroppedFinds(entries, hash, rqs, e.id);
            hash := Dropped(hash, e.id);
          } else if End(rqs[e.id]) == offset {
            return Some(e.id);
          }
        } else {
          EntrySkipped(q0, e, bucket, offset);
        }
      }
      forall id ensures !Findable(View(), offset, id) {
        if Findable(q0, offset, id) {
          FindableHasEntry(q0, offset, id);
        }
      }
      return None;
    }

    /** elv_rqhash_reposition. */
    method Reposition(id: nat)
      requires id in rqs
      modifies this`hash
      ensures View() == Repositioned(old(View()), id)
    {
      hash := Dropped(hash, id);
      hash := [Entry(id, End(rqs[id]))] + hash;
    }

    /** attempt_merge with elv_merge_requests; `allowed` stands for flags, limits and the device. */
    method AttemptMerge(id: nat, next: nat, allowed: bool) returns (ok: bool)
      requires id in rqs && next in rqs && InvBut(View(), id) == true
      modifies this
      ensures ok <==>
                && old(rqs)[id].mergeable && old(rqs)[next].mergeable && allowed
                && End(old(rqs)[id]) == old(rqs)[next].sector
      ensures ok ==> old(nrSorted) > 0 && View() == Joined(old(View()), id, next) && Inv(View()) == true
      ensures ok ==> id in rqs && |rqs| < |old(rqs)|
      ensures !ok ==> View() == old(View())
    {
      if !rqs[id].mergeable || !rqs[next].mergeable || !allowed || End(rqs[id]) != rqs[next].sector {
        return false;
      }
      JoinedInv(View(), id, next);
      JoinedFewer(View(), id, next);
      Join(id, next);
      return true;
    }

    /** The part of attempt_merge and elv_merge_requests that changes things. */
    method Join(id: nat, next: nat)
      requires id in rqs && next in rqs && id != next && nrSorted > 0
      modifies this
      ensures View() == Joined(old(View()), id, next)
    {
      var r, n := rqs[id], rqs[next];
      rqs := rqs[id := r.(bios := r.bios + n.bios, dataLen := r.dataLen + n.dataLen)];
      Reposition(id);
      hash := Dropped(hash, next);
      rqs := rqs - {next};
      nrSorted := nrSorted - 1;
      last := Some(id);
    }

    /** What the ll_merge functions do when the bio does not fit. */
    method Refuse(id: nat)
      requires Valid() && id in rqs
      modifies this`rqs, this`last
      ensures Valid() && View() == Refused(old(View()), id)
    {
      RefusedInv(View(), id);
      rqs := rqs[id := rqs[id].(mergeable := false)];
      if last == Some(id) {
        last := None;
      }
    }

    /** The back merge in blk_queue_bio, with the attempt to merge on with the request behind. */
    method BackMergeBio(id: nat, bio: Bio, fits: bool, next: Option<nat>, allowed: bool)
      returns (joined: Option<nat>)
      requires Valid() && id in rqs && rqs[id].mergeable && BioOk(bio) && End(rqs[id]) == bio.sector
      requires next.Some? ==> next.value in rqs
      modifies this
      ensures Valid() && Step(old(View()), BackMerge(id, bio, fits, joined), View())
      ensures joined.Some? ==> joined == next
    {
      joined := None;
      if !fits {
        Refuse(id);
        return;
      }
      GrownBackBut(View(), id, bio);
      rqs := rqs[id := GrownBack(rqs[id], bio)];
      if next.Some? {
        var ok := AttemptMerge(id, next.value, allowed);
        if ok {
          return next;
        }
      }
      RepositionedInv(View(), id);
      Reposition(id);
      LastInv(View(), id);
      last := Some(id);
    }

    /** The front merge in blk_queue_bio, with the attempt to be merged into the request before. */
    method FrontMergeBio(id: nat, bio: Bio, fits: bool, prev: Option<nat>, allowed: bool)
      returns (joined: Option<nat>)
      requires Valid() && id in rqs && rqs[id].mergeable && BioOk(bio) && BioEnd(bio) == rqs[id].sector
      requires prev.Some? ==> prev.value in rqs
      modifies this
      ensures Valid() && Step(old(View()), FrontMerge(id, bio, fits, joined), View())
      ensures joined.Some? ==> joined == prev
    {
      joined := None;
      if !fits {
        Refuse(id);
        return;
      }
      GrownFrontInv(View(), id, bio);
      rqs := rqs[id := GrownFront(rqs[id], bio)];
      if prev.Some? {
        InvIsBut(View(), prev.value);
        var ok := AttemptMerge(prev.value, id, allowed);
        if ok {
          return prev;
        }
      }
      LastInv(View(), id);
      last := Some(id);
    }

    /** Sorted insertion in __elv_add_request. */
    method AddRequest(id: nat, r: Rq)
      requires Valid() && id !in rqs && RqOk(r)
      modifies this
      ensures Valid() && View() == Inserted(old(View()), id, r)
    {
      InsertedInv(View(), id, r);
      rqs := rqs[id := r];
      nrSorted := nrSorted + 1;
      if r.mergeable {
        hash := [Entry(id, End(r))] + hash;
        if last.None? {
          last := Some(id);
        }
      }
    }

    /** elv_dispatch_add_tail and elv_dispatch_sort on the scheduler's side. */
    method Dispatch(id: nat)
      requires Valid() && id in rqs
      modifies this
      ensures old(nrSorted) > 0 && Valid() && View() == Dispatched(old(View()), id)
    {
      DispatchedInv(View(), id);
      if last == Some(id) {
        last := None;
      }
      hash := Dropped(hash, id);
      nrSorted := nrSorted - 1;
      rqs := rqs - {id};
    }

    /**
     elv_merge: the request merged into last, then the hash, then the scheduler's own choice `front`, whose request
     begins where the bio ends. `fit` holds the requests that flags, direction and device allow.
     */
    method ChooseMerge(bio: Bio, nomerges: bool, noxmerges: bool, fit: set<nat>, front: Option<nat>) returns (c: Choice)
      requires Valid()
      requires front.Some? ==>
                 front.value in rqs && rqs[front.value].mergeable && rqs[front.value].sector == BioEnd(bio)
      modifies this`hash
      ensures Valid()
      ensures c.Back? ==> Findable(View(), bio.sector, c.id) && !nomerges
      ensures c.Front? ==> c.id in rqs && rqs[c.id].mergeable && rqs[c.id].sector == BioEnd(bio) && !nomerges
      ensures c.NoMergeFound? && !nomerges && !noxmerges ==>
                front.None? && ((forall id :: !Findable(View(), bio.sector, id))
                                || exists id :: Findable(View(), bio.sector, id) && id !in fit)
      ensures c == ChoiceFor(old(View()), bio, nomerges, noxmerges, fit, front)
    {
      if nomerges {
        return NoMergeFound;
      }
      if last.Some? && rqs[last.value].mergeable && last.value in fit {
        if End(rqs[last.value]) == bio.sector {
          return Back(last.value);
        } else if rqs[last.value].sector - bio.size / SECTOR == bio.sector {
          return Front(last.value);
        }
      }
      if noxmerges {
        return NoMergeFound;
      }
      var found := Find(bio.sector);
      if found.Some? && found.value in fit {
        return Back(found.value);
      }
      if front.Some? {
        return Front(front.value);
      }
      return NoMergeFound;
    }

    /** attempt_merge of a request that is not in the scheduler yet behind request `id`. */
    method AttemptMergeNew(id: nat, n: Rq, allowed: bool) returns (ok: bool)
      requires Valid() && id in rqs && RqOk(n)
      modifies this
      ensures Valid() && rqs.Keys == old(rqs.Keys)
      ensures ok <==> old(rqs)[id].mergeable && n.mergeable && allowed && End(old(rqs)[id]) == n.sector
      ensures ok ==> View() == JoinedNew(old(View()), id, n)
      ensures !ok ==> View() == old(View())
    {
      if !rqs[id].mergeable || !n.mergeable || !allowed || End(rqs[id]) != n.sector {
        return false;
      }
      JoinedNewInv(View(), id, n);
      JoinNew(id, n);
      return true;
    }

    method JoinNew(id: nat, n: Rq)
      requires id in rqs
      modifies this
      ensures View() == JoinedNew(old(View()), id, n) && rqs.Keys == old(rqs.Keys)
    {
      var r := rqs[id];
      rqs := rqs[id := r.(bios := r.bios + n.bios, dataLen := r.dataLen + n.dataLen)];
      Reposition(id);
      last := Some(id);
    }

    /**
     elv_attempt_insert_merge: the new request is merged behind one in the scheduler, and that one behind another as
     long as the hash finds one. Each further merge leaves one request less, so the loop ends. No bio is lost: those of
     the new request end the chain of one request, no other request has changed, and all bios are held as often as
     before. The search goes on until it comes upon no request, or one that is not allowed.
     */
    method AttemptInsertMerge(n: Rq, nomerges: bool, noxmerges: bool, allows: nat -> bool) returns (merged: bool)
      requires Valid() && RqOk(n) && n.mergeable
      modifies this
      ensures Valid() && |rqs| <= |old(rqs)|
      ensures merged <==> MergesAtInsert(old(View()), n, nomerges, noxmerges, allows)
      ensures merged ==> exists id :: Findable(old(View()), n.sector, id) && allows(id)
      ensures merged ==>
                exists hand :: MergedInto(old(View()), View(), hand, n) &&
                               (old(last) == Some(hand) || Stops(View(), rqs[hand].sector, allows))
      ensures !merged ==> rqs == old(rqs)
      ensures !merged && !nomerges && !noxmerges ==>
                || (forall id :: !Findable(View(), n.sector, id))
                || exists id :: Findable(View(), n.sector, id) && !allows(id)
    {
      if nomerges {
        return false;
      }
      if last.Some? {
        NewInHand(View(), last.value, n);
        assert allows(last.value) && rqs[last.value].mergeable && End(rqs[last.value]) == n.sector ==>
            Findable(View(), n.sector, last.value);
        merged := AttemptMergeNew(last.value, n, allows(last.value));
        if merged {
          return;
        }
      }
      if noxmerges {
        return false;
      }
      merged := MergeByHash(n, allows);
    }

    /** The loop, over what the hash finds. */
    method MergeByHash(n: Rq, allows: nat -> bool) returns (merged: bool)
      requires Valid() && RqOk(n) && n.mergeable
      modifies this
      ensures Valid() && |rqs| <= |old(rqs)|
      ensures merged <==> !Stops(old(View()), n.sector, allows)
      ensures merged ==> exists id :: Findable(old(View()), n.sector, id) && allows(id)
      ensures merged ==>
                exists hand :: MergedInto(old(View()), View(), hand, n) && Stops(View(), rqs[hand].sector, allows)
      ensures !merged ==> rqs == old(rqs)
      ensures !merged ==>
                || (forall id :: !Findable(View(), n.sector, id))
                || exists id :: Findable(View(), n.sector, id) && !allows(id)
    {
      ghost var q0 := View();
      var found := Find(n.sector);
      if found.None? {
        return false;
      }
      ghost var q1 := View();
      assert Findable(q0, n.sector, found.value);
      NewInHand(q1, found.value, n);
      merged := AttemptMergeNew(found.value, n, allows(found.value));
      if merged {
        ghost var q2 := View();
        var hand := MergeOn(found.value, allows);
        HandKept(q0, q1, q2, View(), found.value, hand, n);
      }
    }

    /** The later turns of that loop, with a request of the scheduler in hand. */
    method MergeOn(id: nat, allows: nat -> bool) returns (hand: nat)
      requires Valid() && id in rqs && rqs[id].mergeable && last == Some(id)
      modifies this
      ensures Valid() && |rqs| <= |old(rqs)| && last == Some(hand)
      ensures Conserved(old(View()), View(), []) && OnlyHand(old(View()), View(), hand)
      ensures EndsWith(rqs[hand].bios, old(rqs)[id].bios)
      ensures hand != id ==> id !in rqs
      ensures Stops(View(), rqs[hand].sector, allows)
    {
      hand := id;
      ghost var q0 := View();
      NothingMerged(q0, id);
      while true
        invariant Valid() && hand in rqs && rqs[hand].mergeable && |rqs| <= |old(rqs)| && last == Some(hand)
        invariant Conserved(q0, View(), []) && OnlyHand(q0, View(), hand)
        invariant EndsWith(rqs[hand].bios, q0.rqs[id].bios) && (hand != id ==> id !in rqs)
        decreases |rqs|
      {
        ghost var q1 := View();
        var found := Find(rqs[hand].sector);
        if found.None? {
          break;
        }
        InvIsBut(View(), found.value);
        ghost var q2 := View();
        var ok := AttemptMerge(found.value, hand, allows(found.value));
        if !ok {
          break;
        }
        NotItself(q2, found.value, hand);
        HandJoined(q0, q2, View(), id, hand, found.value);
        hand := found.value;
      }
    }
  }
}
