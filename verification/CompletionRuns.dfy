/** Any run of completions: each bio ends once, in order, and cleanly exactly when no error touched it. */
module CompletionRuns {
  import opened CompletionModel
  import opened CompletionExact

  datatype Call = Call(error: int, n: nat)

  /** The calls of bio_endio made over a run of completions. */
  ghost function RunLog(r: Req, calls: seq<Call>): seq<Ended>
    decreases |calls|
  {
    if calls == [] then []
    else var o := Updated(r, calls[0].error, calls[0].n); o.log + RunLog(o.req, calls[1..])
  }

  ghost function BytesDone(calls: seq<Call>): nat {
    if calls == [] then 0 else calls[0].n + BytesDone(calls[1..])
  }

  /** No completion that touches the bytes from `lo` up to `hi`, counted from the first call on, has an error. */
  ghost predicate Clean(calls: seq<Call>, lo: int, hi: int) {
    calls != [] ==>
      && (hi > 0 && lo < calls[0].n && calls[0].n > 0 ==> calls[0].error == 0)
      && Clean(calls[1..], lo - calls[0].n, hi - calls[0].n)
  }

  lemma {:induction false} CleanPast(calls: seq<Call>, lo: int, hi: int)
    requires hi <= 0
    ensures Clean(calls, lo, hi)
  {
    if calls != [] {
      CleanPast(calls[1..], lo - calls[0].n, hi - calls[0].n);
    }
  }

  lemma {:induction false} CleanBegun(calls: seq<Call>, lo: int, hi: int)
    requires lo <= 0
    ensures Clean(calls, lo, hi) == Clean(calls, 0, hi)
  {
    if calls != [] {
      CleanBegun(calls[1..], lo - calls[0].n, hi - calls[0].n);
      CleanBegun(calls[1..], 0 - calls[0].n, hi - calls[0].n);
    }
  }

  function Max0(x: int): nat {
    if x < 0 then 0 else x
  }

  ghost predicate DataSized(bios: seq<Bio>) {
    forall i :: 0 <= i < |bios| ==> bios[i].size > 0 && bios[i].vecs != []
  }

  /** A bio that is not ended keeps its place behind those that are... */
  lemma {:induction false} AfterAt(bios: seq<Bio>, error: int, n: nat, i: nat)
    requires DataSized(bios) && i < |bios| && SizeSum(bios[..i + 1]) > n
    ensures var d, left := |Done(bios, error, n)|, After(bios, error, n);
            && d <= i && i - d < |left|
            && left[i - d].id == bios[i].id
            && left[i - d].uptodate == (bios[i].uptodate && (SizeSum(bios[..i]) >= n || error == 0))
    decreases |bios|
  {
    SumTail(bios, i + 1);
    SumTail(bios, i);
    if n >= bios[0].size {
      SumNext(bios, i);
      AfterAt(bios[1..], error, n - bios[0].size, i - 1);
    }
  }

  /** ...and its distance from the first byte that is left. */
  lemma {:induction false} AfterSums(bios: seq<Bio>, error: int, n: nat, i: nat)
    requires DataSized(bios) && i < |bios| && SizeSum(bios[..i + 1]) > n
    ensures var d, left := |Done(bios, error, n)|, After(bios, error, n);
            && d <= i && i - d < |left|
            && SizeSum(left[..i - d + 1]) == SizeSum(bios[..i + 1]) - n
            && SizeSum(left[..i - d]) == Max0(SizeSum(bios[..i]) - n)
    decreases |bios|
  {
    if n < bios[0].size {
      AfterSize(bios[0], error, n);
      FirstSums(bios, BioAfter(bios[0], error, n), n, i);
    } else {
      SumTail(bios, i + 1);
      SumTail(bios, i);
      SumNext(bios, i);
      RestSums(bios, error, n, i);
      AfterSums(bios[1..], error, n - bios[0].size, i - 1);
    }
  }

  /** The sums once the first bio has become shorter... */
  lemma FirstSums(bios: seq<Bio>, b: Bio, n: nat, i: nat)
    requires i < |bios| && n < bios[0].size && b.size == bios[0].size - n
    ensures var left := [b] + bios[1..];
            && SizeSum(left[..i + 1]) == SizeSum(bios[..i + 1]) - n
            && SizeSum(left[..i]) == Max0(SizeSum(bios[..i]) - n)
  {
    var left := [b] + bios[1..];
    assert left[1..] == bios[1..];
    SumTail(bios, i + 1);
    SumTail(bios, i);
    SumTail(left, i + 1);
    SumTail(left, i);
  }

  /** ...or has gone. */
  lemma RestSums(bios: seq<Bio>, error: int, n: nat, i: nat)
    requires DataSized(bios) && i < |bios| && bios[0].size <= n < SizeSum(bios[..i + 1])
    ensures i > 0 && DataSized(bios[1..]) && SizeSum(bios[1..][..i]) > n - bios[0].size
    ensures |Done(bios, error, n)| == |Done(bios[1..], error, n - bios[0].size)| + 1
    ensures After(bios, error, n) == After(bios[1..], error, n - bios[0].size)
  {
    SumTail(bios, i + 1);
    SumTail(bios, i);
    SumNext(bios, i);
  }

  lemma SumTail(bios: seq<Bio>, i: nat)
    requires i <= |bios|
    ensures i > 0 ==> SizeSum(bios[..i]) == bios[0].size + SizeSum(bios[1..][..i - 1])
    ensures i == 0 ==> SizeSum(bios[..i]) == 0
  {
    assert i > 0 ==> bios[..i][1..] == bios[1..][..i - 1];
  }

  lemma AfterSize(b: Bio, error: int, n: nat)
    requires n < b.size && b.vecs != []
    ensures BioAfter(b, error, n).size == b.size - n
  {
  }

  lemma OkDataSized(bios: seq<Bio>)
    requires AllOk(bios)
    ensures DataSized(bios)
  {
    OkSized(bios);
  }

  /** What one call says about bio `i`, which it ends or leaves. */
  lemma OneCall(bios: seq<Bio>, call: Call, i: nat)
    requires DataSized(bios) && i < |bios| && SizeSum(bios[..i + 1]) <= call.n
    ensures i < |Done(bios, call.error, call.n)| && SizeSum(bios[..i]) < call.n && 0 < SizeSum(bios[..i + 1])
    ensures Done(bios, call.error, call.n)[i] == Ended(bios[i].id, PassedOn(bios[i], call.error))
  {
    EndsTheCovered(bios, call.error, call.n, i);
    SumNext(bios, i);
  }

  lemma {:induction false} SumNext(bios: seq<Bio>, i: nat)
    requires i < |bios|
    ensures SizeSum(bios[..i + 1]) == SizeSum(bios[..i]) + bios[i].size
    decreases |bios|
  {
    if i > 0 {
      SumNext(bios[1..], i - 1);
      assert bios[..i + 1][1..] == bios[1..][..i] && bios[..i][1..] == bios[1..][..i - 1];
    } else {
      assert bios[..1][1..] == [];
    }
  }

  lemma CleanNow(calls: seq<Call>, lo: int, hi: int)
    requires calls != [] && 0 < hi <= calls[0].n && lo < calls[0].n
    ensures Clean(calls, lo, hi) <==> calls[0].error == 0
  {
    CleanPast(calls[1..], lo - calls[0].n, hi - calls[0].n);
  }

  lemma CleanLater(calls: seq<Call>, lo: nat, hi: nat)
    requires calls != [] && hi > calls[0].n
    ensures Clean(calls, lo, hi) <==>
            (lo >= calls[0].n || calls[0].error == 0) && Clean(calls[1..], Max0(lo - calls[0].n), hi - calls[0].n)
  {
    if lo < calls[0].n {
      CleanBegun(calls[1..], lo - calls[0].n, hi - calls[0].n);
    }
  }

  /** Entry `i` of a log is the end of bio `b`, of the bytes from `lo` up to `hi`, and tells if it was clean. */
  ghost predicate EndsAs(log: seq<Ended>, i: nat, b: Bio, calls: seq<Call>, lo: nat, hi: nat) {
    i < |log| && log[i].id == b.id && (log[i].error == 0 <==> b.uptodate && Clean(calls, lo, hi))
  }

  lemma EndedNow(r: Req, calls: seq<Call>, i: nat, o: Outcome, tail: seq<Ended>)
    requires DataSized(r.bios) && !r.flushSeq && i < |r.bios| && calls != []
    requires o == Exact(r, calls[0].error, calls[0].n) && SizeSum(r.bios[..i + 1]) <= calls[0].n
    ensures EndsAs(o.log + tail, i, r.bios[i], calls, SizeSum(r.bios[..i]), SizeSum(r.bios[..i + 1]))
  {
    OneCall(r.bios, calls[0], i);
    CleanNow(calls, SizeSum(r.bios[..i]), SizeSum(r.bios[..i + 1]));
  }

  /** A bio that the first call leaves, with what is known of it and of its place after that call. */
  ghost predicate Left(r: Req, call: Call, i: nat, o: Outcome, j: nat) {
    && i < |r.bios| && j < |o.req.bios| && i == |o.log| + j
    && o.req.bios[j].id == r.bios[i].id
    && o.req.bios[j].uptodate == (r.bios[i].uptodate && (SizeSum(r.bios[..i]) >= call.n || call.error == 0))
    && SizeSum(o.req.bios[..j + 1]) == SizeSum(r.bios[..i + 1]) - call.n
    && SizeSum(o.req.bios[..j]) == Max0(SizeSum(r.bios[..i]) - call.n)
  }

  lemma CallLeaves(r: Req, call: Call, i: nat, o: Outcome) returns (j: nat)
    requires DataSized(r.bios) && !r.flushSeq && i < |r.bios|
    requires o == Exact(r, call.error, call.n) && SizeSum(r.bios[..i + 1]) > call.n
    ensures Left(r, call, i, o, j)
  {
    AfterAt(r.bios, call.error, call.n, i);
    AfterSums(r.bios, call.error, call.n, i);
    j := i - |o.log|;
  }

  lemma EndedLater(r: Req, calls: seq<Call>, i: nat, o: Outcome, j: nat, tail: seq<Ended>)
    requires calls != [] && Left(r, calls[0], i, o, j) && SizeSum(r.bios[..i + 1]) > calls[0].n
    requires EndsAs(tail, j, o.req.bios[j], calls[1..], SizeSum(o.req.bios[..j]), SizeSum(o.req.bios[..j + 1]))
    ensures EndsAs(o.log + tail, i, r.bios[i], calls, SizeSum(r.bios[..i]), SizeSum(r.bios[..i + 1]))
  {
    CleanLater(calls, SizeSum(r.bios[..i]), SizeSum(r.bios[..i + 1]));
    assert (o.log + tail)[i] == tail[j];
  }

  /**
   Over any run of completions bio `i` has ended exactly when all bytes up to its last are done. It is the `i`-th to
   end, and it ends without error exactly when it came without one and no completion that touched it had one.
   */
  lemma {:induction false} EndsCleanExactly(r: Req, calls: seq<Call>, i: nat)
    requires ReqOk(r) && !r.flushSeq && i < |r.bios|
    ensures if SizeSum(r.bios[..i + 1]) > BytesDone(calls) then |RunLog(r, calls)| <= i
            else EndsAs(RunLog(r, calls), i, r.bios[i], calls, SizeSum(r.bios[..i]), SizeSum(r.bios[..i + 1]))
    decreases |calls|
  {
    OkDataSized(r.bios);
    SumNext(r.bios, i);
    if calls != [] {
      var call, rest := calls[0], calls[1..];
      var o := Exact(r, call.error, call.n);
      UpdatedIs(r, call.error, call.n);
      if SizeSum(r.bios[..i + 1]) <= call.n {
        EndedNow(r, calls, i, o, RunLog(o.req, rest));
      } else {
        var j := CallLeaves(r, call, i, o);
        ExactCompletes(r, call.error, call.n, o);
        EndsCleanExactly(o.req, rest, j);
        if SizeSum(r.bios[..i + 1]) <= BytesDone(calls) {
          EndedLater(r, calls, i, o, j, RunLog(o.req, rest));
        }
      }
    }
  }
}
