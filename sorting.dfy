/** `[...s].sort(cmp)`: the list ordered by a comparator, on a copy. JavaScript's
    sort is stable, so this is an insertion sort that puts each element after every
    earlier one it does not compare below. A comparator result of `NaN` counts as 0;
    the comparators here return integers and say so themselves. */
module Sorting {

  /** `cmp` behaves as a consistent ordering on the values satisfying `ok`: swapping
      the arguments flips the sign, and "not after" is transitive. */
  ghost predicate ConsistentOn<T(!new)>(cmp: (T, T) -> int, ok: T -> bool)
  {
    && (forall x, y :: ok(x) && ok(y) ==> (cmp(x, y) > 0 <==> cmp(y, x) < 0))
    && (forall x, y, z {:trigger Chain(cmp, x, y, z)} :: ok(x) && ok(y) && ok(z) && Chain(cmp, x, y, z) ==> cmp(x, z) <= 0)
  }

  /** `x` is not after `y`, and `y` is not after `z`. */
  predicate Chain<T>(cmp: (T, T) -> int, x: T, y: T, z: T)
  {
    cmp(x, y) <= 0 && cmp(y, z) <= 0
  }

  /** No element is placed after one it compares below. */
  predicate Sorted<T>(s: seq<T>, cmp: (T, T) -> int)
  {
    forall i, j :: 0 <= i < j < |s| ==> cmp(s[i], s[j]) <= 0
  }

  predicate AllOk<T>(s: seq<T>, ok: T -> bool)
  {
    forall i :: 0 <= i < |s| ==> ok(s[i])
  }

  /** `x` placed into `s` before the first element that compares above it. */
  function Insert<T>(x: T, s: seq<T>, cmp: (T, T) -> int): (r: seq<T>)
    ensures |r| == |s| + 1
    ensures multiset(r) == multiset(s) + multiset{x}
    ensures forall k :: 0 <= k < |r| ==> r[k] == x || r[k] in s
  {
    if s == [] then [x]
    else if cmp(s[0], x) > 0 then [x] + s
    else
      assert s == [s[0]] + s[1..];
      [s[0]] + Insert(x, s[1..], cmp)
  }

  /** The stable sort of `s` under `cmp`. */
  function Sort<T>(s: seq<T>, cmp: (T, T) -> int): (r: seq<T>)
    ensures |r| == |s|
    ensures multiset(r) == multiset(s)
  {
    if s == [] then []
    else
      assert s == s[..|s| - 1] + [s[|s| - 1]];
      Insert(s[|s| - 1], Sort(s[..|s| - 1], cmp), cmp)
  }

  /** Every element of the sorted list comes from the input. */
  lemma SortElements<T>(s: seq<T>, cmp: (T, T) -> int)
    ensures forall k :: 0 <= k < |Sort(s, cmp)| ==> Sort(s, cmp)[k] in s
  {
    var r := Sort(s, cmp);
    forall k | 0 <= k < |r|
      ensures r[k] in s
    {
      assert r[k] in multiset(r);
    }
  }

  /** An element that compares below the head of a sorted list may go in front of it. */
  lemma PrependSorted<T(!new)>(x: T, s: seq<T>, cmp: (T, T) -> int, ok: T -> bool)
    requires ConsistentOn(cmp, ok) && AllOk(s, ok) && ok(x)
    requires Sorted(s, cmp) && s != [] && cmp(s[0], x) > 0
    ensures Sorted([x] + s, cmp)
  {
    var r := [x] + s;
    forall i, j | 0 <= i < j < |r|
      ensures cmp(r[i], r[j]) <= 0
    {
      if i == 0 {
        assert cmp(x, s[0]) < 0;
        if j > 1 {
          assert Chain(cmp, x, s[0], s[j - 1]);
        }
      } else {
        assert r[i] == s[i - 1] && r[j] == s[j - 1];
      }
    }
  }

  /** A head not after any element of a sorted tail keeps the list sorted. */
  lemma ConsSorted<T>(h: T, tail: seq<T>, cmp: (T, T) -> int)
    requires Sorted(tail, cmp)
    requires forall k :: 0 <= k < |tail| ==> cmp(h, tail[k]) <= 0
    ensures Sorted([h] + tail, cmp)
  {
    var r := [h] + tail;
    forall i, j | 0 <= i < j < |r|
      ensures cmp(r[i], r[j]) <= 0
    {
      assert r[j] == tail[j - 1];
      if i > 0 {
        assert r[i] == tail[i - 1];
      }
    }
  }

  /** Inserting into a sorted list keeps it sorted. */
  lemma {:induction false} InsertSorted<T(!new)>(x: T, s: seq<T>, cmp: (T, T) -> int, ok: T -> bool)
    requires ConsistentOn(cmp, ok) && AllOk(s, ok) && ok(x)
    requires Sorted(s, cmp)
    ensures Sorted(Insert(x, s, cmp), cmp)
  {
    if s == [] {
    } else if cmp(s[0], x) > 0 {
      PrependSorted(x, s, cmp, ok);
    } else {
      var tail := Insert(x, s[1..], cmp);
      InsertSorted(x, s[1..], cmp, ok);
      forall k | 0 <= k < |tail|
        ensures cmp(s[0], tail[k]) <= 0
      {
        if tail[k] != x {
          var m :| 0 <= m < |s[1..]| && s[1..][m] == tail[k];
          assert s[m + 1] == tail[k];
        }
      }
      ConsSorted(s[0], tail, cmp);
    }
  }

  /** Every element of an insertion passes `ok` when `x` and all of `s` do. */
  lemma InsertAllOk<T>(x: T, s: seq<T>, cmp: (T, T) -> int, ok: T -> bool)
    requires AllOk(s, ok) && ok(x)
    ensures AllOk(Insert(x, s, cmp), ok)
  {
    var r := Insert(x, s, cmp);
    forall k | 0 <= k < |r|
      ensures ok(r[k])
    {
      if r[k] != x {
        var m :| 0 <= m < |s| && s[m] == r[k];
      }
    }
  }

  /** Under a consistent comparator the result is sorted. */
  lemma {:induction false} SortSorted<T(!new)>(s: seq<T>, cmp: (T, T) -> int, ok: T -> bool)
    requires ConsistentOn(cmp, ok) && AllOk(s, ok)
    ensures Sorted(Sort(s, cmp), cmp)
    ensures AllOk(Sort(s, cmp), ok)
  {
    if s != [] {
      var init := s[..|s| - 1];
      SortSorted(init, cmp, ok);
      InsertSorted(s[|s| - 1], Sort(init, cmp), cmp, ok);
      InsertAllOk(s[|s| - 1], Sort(init, cmp), cmp, ok);
    }
  }
}
