/** Facts about linked lists seen as sequences: unlinking an entry, walking to the next one. */
module Lists {

  datatype Option<+T> = None | Some(value: T)

  ghost predicate NoDup<T(!new)>(s: seq<T>) {
    forall i, j :: 0 <= i < j < |s| ==> s[i] != s[j]
  }

  ghost predicate Disjoint<T(!new)>(a: seq<T>, b: seq<T>) {
    forall x :: x in a ==> x !in b
  }

  /** The list after `x` has been unlinked from it (unchanged when `x` is not on it). */
  function Without<T(==, !new)>(s: seq<T>, x: T): (r: seq<T>)
    ensures forall y :: y in r <==> y in s && y != x
    ensures |r| <= |s|
    ensures x !in s ==> r == s
    ensures x in s ==> |r| < |s|
  {
    if s == [] then []
    else if s[0] == x then Without(s[1..], x)
    else
      assert s == [s[0]] + s[1..];
      [s[0]] + Without(s[1..], x)
  }

  lemma {:induction false} WithoutNoDup<T(!new)>(s: seq<T>, x: T)
    requires NoDup(s)
    ensures NoDup(Without(s, x))
  {
    if s != [] {
      WithoutNoDup(s[1..], x);
      assert s[0] !in s[1..];
    }
  }

  /** Unlinking the first entry of a list without repetitions leaves its tail. */
  lemma WithoutHead<T(!new)>(s: seq<T>)
    requires s != [] && NoDup(s)
    ensures Without(s, s[0]) == s[1..]
  {
  }

  lemma {:induction false} WithoutAt<T(!new)>(s: seq<T>, i: nat)
    requires NoDup(s) && i < |s|
    ensures Without(s, s[i]) == s[..i] + s[i + 1..]
  {
    if i > 0 {
      WithoutAt(s[1..], i - 1);
      assert s == [s[0]] + s[1..];
    }
  }

  lemma AppendNoDup<T(!new)>(s: seq<T>, x: T)
    requires NoDup(s) && x !in s
    ensures NoDup(s + [x])
  {
  }

  /** The entry following `x`, as `list_for_each_entry_safe` reads it; `None` is the list head. */
  function Next<T(==)>(s: seq<T>, x: T): (n: Option<T>)
    requires x in s
    ensures n.Some? ==> n.value in s
  {
    if s[0] == x then (if |s| > 1 then Some(s[1]) else None)
    else Next(s[1..], x)
  }

  lemma {:induction false} NextAt<T(!new)>(s: seq<T>, i: nat)
    requires NoDup(s) && i < |s|
    ensures Next(s, s[i]) == if i + 1 < |s| then Some(s[i + 1]) else None
    ensures Next(s, s[i]).Some? ==> Next(s, s[i]).value != s[i]
  {
    if i > 0 {
      NextAt(s[1..], i - 1);
    }
  }

  function First<T>(s: seq<T>): Option<T> {
    if s == [] then None else Some(s[0])
  }
}
