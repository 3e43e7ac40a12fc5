/** No bio is lost or doubled: what was submitted is what was dispatched and what the requests still hold. */
module MergeFlow {
  import opened Lists
  import opened MergeModel
  import opened MergeIndex

  /** How often a bio is in a chain. */
  ghost function Count(bios: seq<Bio>, b: Bio): nat {
    multiset(bios)[b]
  }

  lemma CountPlus(a: seq<Bio>, c: seq<Bio>, b: Bio)
    ensures Count(a + c, b) == Count(a, b) + Count(c, b)
  {
  }

  /** How often it is in request `id`. */
  ghost function CountIn(rqs: map<nat, Rq>, id: nat, b: Bio): nat {
    if id in rqs then Count(rqs[id].bios, b) else 0
  }

  /** How often it is in the requests with a number below `n`. */
  ghost function Held(rqs: map<nat, Rq>, n: nat, b: Bio): nat {
    if n == 0 then 0 else Held(rqs, n - 1, b) + CountIn(rqs, n - 1, b)
  }

  /** Only request `id` differs. */
  ghost predicate SameBut(m: map<nat, Rq>, m': map<nat, Rq>, id: nat) {
    forall x :: x != id ==> (x in m' <==> x in m) && (x in m ==> m'[x] == m[x])
  }

  lemma {:induction false} HeldChange(m: map<nat, Rq>, m': map<nat, Rq>, id: nat, n: nat, b: Bio)
    requires SameBut(m, m', id)
    ensures Held(m', n, b) - Held(m, n, b) == if id < n then CountIn(m', id, b) - CountIn(m, id, b) else 0
  {
    if n > 0 {
      HeldChange(m, m', id, n - 1, b);
    }
  }

  /** The bios an action brings in, and those it hands to the device. */
  ghost function Brought(a: Action): seq<Bio> {
    match a
    case Insert(_, rq) => rq.bios
    case BackMerge(_, bio, fits, _) => if fits then [bio] else []
    case FrontMerge(_, bio, fits, _) => if fits then [bio] else []
    case InsertMerge(_, bios, _) => bios
    case _ => []
  }

  ghost function Handed(q: Queue, a: Action): seq<Bio> {
    if a.Dispatch? && a.id in q.rqs then q.rqs[a.id].bios else []
  }

  ghost predicate Below(q: Queue, n: nat) {
    forall id :: id in q.rqs ==> id < n
  }

  lemma Replaced(rqs: map<nat, Rq>, id: nat, r: Rq, n: nat, b: Bio)
    requires id in rqs && id < n
    ensures Held(rqs[id := r], n, b) == Held(rqs, n, b) - Count(rqs[id].bios, b) + Count(r.bios, b)
  {
    HeldChange(rqs, rqs[id := r], id, n, b);
  }

  lemma Gone(rqs: map<nat, Rq>, id: nat, n: nat, b: Bio)
    requires id in rqs && id < n
    ensures Held(rqs - {id}, n, b) == Held(rqs, n, b) - Count(rqs[id].bios, b)
  {
    HeldChange(rqs, rqs - {id}, id, n, b);
  }

  /** Merging two requests moves bios between them. */
  lemma JoinedFlow(q: Queue, id: nat, next: nat, n: nat, b: Bio)
    requires id in q.rqs && next in q.rqs && id != next && id < n && next < n && q.nrSorted > 0
    ensures Held(Joined(q, id, next).rqs, n, b) == Held(q.rqs, n, b)
  {
    var r' := Sum(q.rqs[id], q.rqs[next]);
    CountPlus(q.rqs[id].bios, q.rqs[next].bios, b);
    Replaced(q.rqs, id, r', n, b);
    Gone(q.rqs[id := r'], next, n, b);
  }

  /** A step puts in what it brings and takes out what it hands over. */
  ghost predicate Flows(q: Queue, a: Action, q': Queue, n: nat, b: Bio) {
    Held(q'.rqs, n, b) + Count(Handed(q, a), b) == Held(q.rqs, n, b) + Count(Brought(a), b)
  }

  lemma RefusedFlow(q: Queue, id: nat, n: nat, b: Bio)
    requires id in q.rqs && id < n
    ensures Held(Refused(q, id).rqs, n, b) == Held(q.rqs, n, b)
  {
    Replaced(q.rqs, id, q.rqs[id].(mergeable := false), n, b);
  }

  lemma BackFlow(q: Queue, id: nat, bio: Bio, next: Option<nat>, q': Queue, n: nat, b: Bio)
    requires Inv(q) && Below(q, n) && Step(q, BackMerge(id, bio, true, next), q')
    ensures Held(q'.rqs, n, b) == Held(q.rqs, n, b) + Count([bio], b)
  {
    var r' := GrownBack(q.rqs[id], bio);
    CountPlus(q.rqs[id].bios, [bio], b);
    Replaced(q.rqs, id, r', n, b);
    if next.Some? {
      GrownBackBut(q, id, bio);
      var q1 := q.(rqs := q.rqs[id := r']);
      NotItself(q1, id, next.value);
      JoinedFlow(q1, id, next.value, n, b);
    }
  }

  lemma FrontFlow(q: Queue, id: nat, bio: Bio, prev: Option<nat>, q': Queue, n: nat, b: Bio)
    requires Inv(q) && Below(q, n) && Step(q, FrontMerge(id, bio, true, prev), q')
    ensures Held(q'.rqs, n, b) == Held(q.rqs, n, b) + Count([bio], b)
  {
    var r' := GrownFront(q.rqs[id], bio);
    CountPlus([bio], q.rqs[id].bios, b);
    Replaced(q.rqs, id, r', n, b);
    if prev.Some? {
      GrownFrontInv(q, id, bio);
      var q1 := q.(rqs := q.rqs[id := r']);
      NotItself(q1, prev.value, id);
      JoinedFlow(q1, prev.value, id, n, b);
    }
  }

  lemma InsertFlow(q: Queue, id: nat, r: Rq, n: nat, b: Bio)
    requires id !in q.rqs && id < n
    ensures Held(Inserted(q, id, r).rqs, n, b) == Held(q.rqs, n, b) + Count(r.bios, b)
  {
    HeldChange(q.rqs, q.rqs[id := r], id, n, b);
  }

  lemma BioFlow(q: Queue, a: Action, q': Queue, n: nat, b: Bio)
    requires Inv(q) && Step(q, a, q') && Below(q, n) && (a.BackMerge? || a.FrontMerge?)
    ensures Flows(q, a, q', n, b)
  {
    if !a.fits {
      RefusedFlow(q, a.id, n, b);
    } else if a.BackMerge? {
      BackFlow(q, a.id, a.bio, a.next, q', n, b);
    } else {
      FrontFlow(q, a.id, a.bio, a.prev, q', n, b);
    }
  }

  lemma InsertMergeFlow(q: Queue, id: nat, r: Rq, n: nat, b: Bio)
    requires id in q.rqs && id < n
    ensures Held(JoinedNew(q, id, r).rqs, n, b) == Held(q.rqs, n, b) + Count(r.bios, b)
  {
    CountPlus(q.rqs[id].bios, r.bios, b);
    Replaced(q.rqs, id, Sum(q.rqs[id], r), n, b);
  }

  lemma MergeOnFlow(q: Queue, id: nat, behind: nat, n: nat, b: Bio)
    requires Inv(q) && Below(q, n) && id in q.rqs && behind in q.rqs && q.nrSorted > 0
    requires End(q.rqs[id]) == q.rqs[behind].sector
    ensures Held(Joined(q, id, behind).rqs, n, b) == Held(q.rqs, n, b)
  {
    NotItself(q, id, behind);
    JoinedFlow(q, id, behind, n, b);
  }

  lemma StepFlow(q: Queue, a: Action, q': Queue, n: nat, b: Bio)
    requires Inv(q) == true && Step(q, a, q') == true && Below(q, n) && Below(q', n)
    ensures Flows(q, a, q', n, b) == true
  {
    match a
    case Insert(id, rq) =>
      assert id in q'.rqs;
      InsertFlow(q, id, rq, n, b);
    case Dispatch(id) => Gone(q.rqs, id, n, b);
    case BackMerge(_, _, _, _) => BioFlow(q, a, q', n, b);
    case FrontMerge(_, _, _, _) => BioFlow(q, a, q', n, b);
    case InsertMerge(id, bios, from) => InsertMergeFlow(q, id, Rq(bios, from, SizeSum(bios), true), n, b);
    case NoMerge(id) => RefusedFlow(q, id, n, b);
    case MergeOn(id, behind) => MergeOnFlow(q, id, behind, n, b);
    case Lookup(id) =>
  }

  // ---------------------------------------------------------------- merging at insertion

  /** The requests of `q'` hold the bios of those of `q` and `bios`, each as often as before, under numbers of `q`. */
  ghost predicate Conserved(q: Queue, q': Queue, bios: seq<Bio>) {
    && (forall id :: id in q'.rqs ==> id in q.rqs)
    && forall n: nat, b: Bio :: Below(q, n) ==> Held(q'.rqs, n, b) == Held(q.rqs, n, b) + Count(bios, b)
  }

  lemma ConservedTrans(q: Queue, q1: Queue, q2: Queue, bios: seq<Bio>)
    requires Conserved(q, q1, bios) && Conserved(q1, q2, [])
    ensures Conserved(q, q2, bios)
  {
    forall n: nat, b: Bio | Below(q, n) ensures Held(q2.rqs, n, b) == Held(q.rqs, n, b) + Count(bios, b) {
      assert Below(q1, n);
      assert Held(q2.rqs, n, b) == Held(q1.rqs, n, b) + Count([], b);
    }
  }

  lemma ConservedNew(q: Queue, id: nat, r: Rq)
    requires id in q.rqs
    ensures Conserved(q, JoinedNew(q, id, r), r.bios)
  {
    var q' := JoinedNew(q, id, r);
    forall n: nat, b: Bio | Below(q, n) ensures Held(q'.rqs, n, b) == Held(q.rqs, n, b) + Count(r.bios, b) {
      InsertMergeFlow(q, id, r, n, b);
    }
  }

  lemma ConservedJoin(q: Queue, id: nat, next: nat)
    requires id in q.rqs && next in q.rqs && id != next && q.nrSorted > 0
    ensures Conserved(q, Joined(q, id, next), [])
  {
    var q' := Joined(q, id, next);
    forall n: nat, b: Bio | Below(q, n) ensures Held(q'.rqs, n, b) == Held(q.rqs, n, b) + Count([], b) {
      JoinedFlow(q, id, next, n, b);
    }
  }

  /** The chain ends with these bios. */
  predicate EndsWith(chain: seq<Bio>, bios: seq<Bio>) {
    |bios| <= |chain| && chain[|chain| - |bios|..] == bios
  }

  /** Nothing but request `hand` has changed, and the requests that are gone. */
  ghost predicate OnlyHand(q: Queue, q': Queue, hand: nat) {
    hand in q'.rqs && forall x :: x in q'.rqs && x != hand ==> x in q.rqs && q'.rqs[x] == q.rqs[x]
  }

  /** The first request in the hash that is mergeable and ends at `offset`: what elv_rqhash_find comes upon. */
  function FirstFound(hash: seq<Entry>, rqs: map<nat, Rq>, offset: nat): Option<nat> {
    if hash == [] then None
    else if hash[0].id in rqs && rqs[hash[0].id].mergeable && End(rqs[hash[0].id]) == offset then Some(hash[0].id)
    else FirstFound(hash[1..], rqs, offset)
  }

  /** Entries of requests that merge no more do not matter for what is found. */
  lemma {:induction false} DroppedFound(hash: seq<Entry>, rqs: map<nat, Rq>, id: nat, offset: nat)
    requires id in rqs && !rqs[id].mergeable
    ensures FirstFound(Dropped(hash, id), rqs, offset) == FirstFound(hash, rqs, offset)
  {
    if hash != [] {
      DroppedFound(hash[1..], rqs, id, offset);
    }
  }

  lemma {:induction false} FoundEntry(hash: seq<Entry>, rqs: map<nat, Rq>, offset: nat)
    ensures var f := FirstFound(hash, rqs, offset);
            && (f.Some? ==> f.value in rqs && rqs[f.value].mergeable && End(rqs[f.value]) == offset)
            && (f.None? ==> forall e :: e in hash && e.id in rqs && rqs[e.id].mergeable ==> End(rqs[e.id]) != offset)
  {
    if hash != [] {
      FoundEntry(hash[1..], rqs, offset);
      assert hash == [hash[0]] + hash[1..];
    }
  }

  /** With a true index something is found exactly when a mergeable request ends there. */
  lemma FoundIs(q: Queue, offset: nat)
    requires Inv(q)
    ensures var f := FirstFound(q.hash, q.rqs, offset);
            (f.Some? ==> Findable(q, offset, f.value)) && (f.None? ==> forall id :: !Findable(q, offset, id))
  {
    FoundEntry(q.hash, q.rqs, offset);
    if FirstFound(q.hash, q.rqs, offset).None? {
      forall id ensures !Findable(q, offset, id) {
        assert Findable(q, offset, id) ==> Entry(id, offset) in q.hash;
      }
    }
  }

  /** The search for a request to merge behind at `offset` comes to nothing. */
  predicate Stops(q: Queue, offset: nat, allows: nat -> bool) {
    var f := FirstFound(q.hash, q.rqs, offset);
    f.None? || !allows(f.value)
  }

  /** No two mergeable requests end at `offset`. */
  ghost predicate OneEnds(q: Queue, offset: nat) {
    forall x: nat, y: nat :: Findable(q, offset, x) && Findable(q, offset, y) ==> x == y
  }

  /** Where no two mergeable requests end, the search stops only when none that is allowed ends there... */
  lemma StopsMeansNone(q: Queue, offset: nat, allows: nat -> bool)
    requires Inv(q) && OneEnds(q, offset) && Stops(q, offset, allows)
    ensures forall x :: Findable(q, offset, x) ==> !allows(x)
  {
    FoundIs(q, offset);
  }

  /** ...and where two end, it stops for some limits although one that is allowed ends there. */
  lemma TwinsHide(q: Queue, offset: nat) returns (allows: nat -> bool, x: nat)
    requires Inv(q) && !OneEnds(q, offset)
    ensures Stops(q, offset, allows) && Findable(q, offset, x) && allows(x)
  {
    FoundIs(q, offset);
    var f := FirstFound(q.hash, q.rqs, offset).value;
    allows := id => id != f;
    var a: nat, b: nat :| Findable(q, offset, a) && Findable(q, offset, b) && a != b;
    x := if a == f then b else a;
  }

  // ---------------------------------------------------------------- runs

  /** How often the first `i` actions submit a bio, and how often they hand it to the device. */
  ghost function Submitted(actions: seq<Action>, i: nat, b: Bio): nat
    requires i <= |actions|
  {
    if i == 0 then 0 else Submitted(actions, i - 1, b) + Count(Brought(actions[i - 1]), b)
  }

  ghost function Sent(states: seq<Queue>, actions: seq<Action>, i: nat, b: Bio): nat
    requires i <= |actions| && |states| == |actions| + 1
  {
    if i == 0 then 0 else Sent(states, actions, i - 1, b) + Count(Handed(states[i - 1], actions[i - 1]), b)
  }

  /** A number above all those in use up to a point of a run. */
  lemma {:induction false} Bound(states: seq<Queue>, i: nat) returns (n: nat)
    requires i < |states|
    ensures forall j :: 0 <= j <= i ==> Below(states[j], n)
  {
    var m := BoundOf(states[i].rqs);
    if i == 0 {
      n := m;
    } else {
      n := Bound(states, i - 1);
      n := if m > n then m else n;
    }
  }

  lemma {:induction false} BoundOf(rqs: map<nat, Rq>) returns (n: nat)
    ensures forall id :: id in rqs ==> id < n
    decreases |rqs|
  {
    if rqs == map[] {
      n := 0;
    } else {
      var id :| id in rqs;
      assert rqs.Keys == (rqs - {id}).Keys + {id};
      n := BoundOf(rqs - {id});
      n := if id >= n then id + 1 else n;
    }
  }

  /** What was submitted is what was sent and what is held. */
  ghost predicate Balanced(states: seq<Queue>, actions: seq<Action>, i: nat, n: nat, b: Bio) {
    && i < |states| == |actions| + 1
    && Submitted(actions, i, b) == Sent(states, actions, i, b) + Held(states[i].rqs, n, b)
  }

  lemma BalanceKept(states: seq<Queue>, actions: seq<Action>, i: nat, n: nat, b: Bio)
    requires Balanced(states, actions, i, n, b) && i < |actions|
    requires Flows(states[i], actions[i], states[i + 1], n, b)
    ensures Balanced(states, actions, i + 1, n, b) == true
  {
  }

  lemma RunStep(states: seq<Queue>, actions: seq<Action>, i: nat)
    requires Run(states, actions) && i < |actions|
    ensures Inv(states[i]) == true && Step(states[i], actions[i], states[i + 1]) == true
  {
    RunInv(states, actions, i);
  }

  lemma RunStepFlow(states: seq<Queue>, actions: seq<Action>, i: nat, n: nat, b: Bio)
    requires Run(states, actions) && i < |actions| && Below(states[i], n) && Below(states[i + 1], n)
    ensures Flows(states[i], actions[i], states[i + 1], n, b) == true
  {
    RunStep(states, actions, i);
    StepFlow(states[i], actions[i], states[i + 1], n, b);
  }

  lemma {:induction false} RunFlow(states: seq<Queue>, actions: seq<Action>, i: nat, n: nat, b: Bio)
    requires Run(states, actions) && i < |states| && forall j :: 0 <= j <= i ==> Below(states[j], n)
    ensures Balanced(states, actions, i, n, b) == true
  {
    if i == 0 {
      HeldNone(n, b);
    } else {
      RunFlow(states, actions, i - 1, n, b);
      RunStepFlow(states, actions, i - 1, n, b);
      BalanceKept(states, actions, i - 1, n, b);
    }
  }

  lemma {:induction false} HeldNone(n: nat, b: Bio)
    ensures Held(map[], n, b) == 0
  {
    if n > 0 {
      HeldNone(n - 1, b);
    }
  }

  /**
   At every point of every run a bio has been submitted as often as it has been handed to the device in a request and
   is held by the requests in the scheduler, whatever merges moved it between them.
   */
  lemma BiosConserved(states: seq<Queue>, actions: seq<Action>, i: nat, b: Bio) returns (n: nat)
    requires Run(states, actions) && i < |states|
    ensures Below(states[i], n)
    ensures Submitted(actions, i, b) == Sent(states, actions, i, b) + Held(states[i].rqs, n, b)
  {
    n := Bound(states, i);
    RunFlow(states, actions, i, n, b);
  }
}
