/** Small shared vocabulary: optional values, error results, and the list
    operations (filter, sum, maximum, distinct) the pages and services use. */
module Common {

  datatype Option<+T> = None | Some(value: T)

  /** The outcome of a service call: a value, or a thrown Error with its message. */
  datatype Result<+T> = Ok(value: T) | Err(msg: string)

  /** `Array.prototype.filter`: the elements satisfying `p`, in their original order. */
  function Filter<T>(s: seq<T>, p: T -> bool): (r: seq<T>)
    ensures |r| <= |s|
    ensures forall i :: 0 <= i < |r| ==> r[i] in s && p(r[i])
    ensures forall i :: 0 <= i < |s| && p(s[i]) ==> s[i] in r
    ensures multiset(r) <= multiset(s)
  {
    if s == [] then []
    else
      assert s == [s[0]] + s[1..];
      if p(s[0]) then [s[0]] + Filter(s[1..], p)
      else Filter(s[1..], p)
  }

  /** `s.findIndex(p)`, with `None` for -1. */
  function FindFirst<T>(s: seq<T>, p: T -> bool): (r: Option<nat>)
    ensures r.Some? ==> r.value < |s| && p(s[r.value])
    ensures r.Some? ==> forall j :: 0 <= j < r.value ==> !p(s[j])
    ensures r.None? ==> forall j :: 0 <= j < |s| ==> !p(s[j])
  {
    if s == [] then None
    else if p(s[0]) then Some(0)
    else
      match FindFirst(s[1..], p)
      case None => None
      case Some(k) => Some(k + 1)
  }

  /** `s.filter(p).length` */
  function Count<T>(s: seq<T>, p: T -> bool): nat
  {
    |Filter(s, p)|
  }

  /** Filtering distributes over concatenation, so it keeps the relative order
      of the elements it retains. */
  lemma {:induction false} FilterAppend<T>(a: seq<T>, b: seq<T>, p: T -> bool)
    ensures Filter(a + b, p) == Filter(a, p) + Filter(b, p)
  {
    if a == [] {
      assert a + b == b;
    } else {
      assert (a + b)[0] == a[0];
      assert (a + b)[1..] == a[1..] + b;
      FilterAppend(a[1..], b, p);
    }
  }

  /** Filtering a filtered list keeps no more than filtering the whole list. */
  lemma {:induction false} FilterOfFilter<T>(s: seq<T>, p: T -> bool, q: T -> bool)
    ensures |Filter(Filter(s, p), q)| <= |Filter(s, q)|
  {
    if s != [] {
      FilterOfFilter(s[1..], p, q);
    }
  }

  /** A filter that every element passes is the identity. */
  lemma {:induction false} FilterAllPass<T>(s: seq<T>, p: T -> bool)
    requires forall i :: 0 <= i < |s| ==> p(s[i])
    ensures Filter(s, p) == s
  {
    if s != [] {
      FilterAllPass(s[1..], p);
    }
  }

  /** A filter that no element passes is empty. */
  lemma {:induction false} FilterNonePass<T>(s: seq<T>, p: T -> bool)
    requires forall i :: 0 <= i < |s| ==> !p(s[i])
    ensures Filter(s, p) == []
  {
    if s != [] {
      FilterNonePass(s[1..], p);
    }
  }

  /** Every element passes exactly one of `p` and its negation. */
  lemma {:induction false} CountComplement<T>(s: seq<T>, p: T -> bool, q: T -> bool)
    requires forall x :: q(x) == !p(x)
    ensures Count(s, p) + Count(s, q) == |s|
  {
    if s != [] {
      CountComplement(s[1..], p, q);
    }
  }

  /** A stronger filter keeps no more elements. */
  lemma {:induction false} CountMonotone<T>(s: seq<T>, p: T -> bool, q: T -> bool)
    requires forall x :: p(x) ==> q(x)
    ensures Count(s, p) <= Count(s, q)
  {
    if s != [] {
      CountMonotone(s[1..], p, q);
    }
  }

  /** Filters with the same verdict on every element agree. */
  lemma {:induction false} FilterSameVerdict<T>(s: seq<T>, p: T -> bool, q: T -> bool)
    requires forall i :: 0 <= i < |s| ==> p(s[i]) == q(s[i])
    ensures Filter(s, p) == Filter(s, q)
  {
    if s != [] {
      FilterSameVerdict(s[1..], p, q);
    }
  }

  /** Three pairwise exclusive filters keep at most all elements between them. */
  lemma {:induction false} CountDisjoint3<T>(s: seq<T>, p: T -> bool, q: T -> bool, u: T -> bool)
    requires forall x :: !(p(x) && q(x)) && !(p(x) && u(x)) && !(q(x) && u(x))
    ensures Count(s, p) + Count(s, q) + Count(s, u) <= |s|
  {
    if s != [] {
      CountDisjoint3(s[1..], p, q, u);
    }
  }

  /** `s.reduce((sum, x) => sum + f(x), 0)` */
  function SumOf<T>(s: seq<T>, f: T -> int): int
  {
    if s == [] then 0 else f(s[0]) + SumOf(s[1..], f)
  }

  /** The sum of a pointwise difference is the difference of the sums. */
  lemma {:induction false} SumOfDifference<T>(s: seq<T>, f: T -> int, g: T -> int, h: T -> int)
    requires forall x :: h(x) == f(x) - g(x)
    ensures SumOf(s, h) == SumOf(s, f) - SumOf(s, g)
  {
    if s != [] {
      SumOfDifference(s[1..], f, g, h);
    }
  }

  /** A sum over a concatenation is the sum of the two sums. */
  lemma {:induction false} SumOfAppend<T>(a: seq<T>, b: seq<T>, f: T -> int)
    ensures SumOf(a + b, f) == SumOf(a, f) + SumOf(b, f)
  {
    if a == [] {
      assert a + b == b;
    } else {
      assert (a + b)[0] == a[0];
      assert (a + b)[1..] == a[1..] + b;
      SumOfAppend(a[1..], b, f);
    }
  }

  /** `Math.max(...s, floor)` for a list of integers. */
  function MaxOr(s: seq<int>, floor: int): (m: int)
    ensures m >= floor
    ensures forall i :: 0 <= i < |s| ==> s[i] <= m
    ensures m == floor || m in s
  {
    if s == [] then floor
    else
      var rest := MaxOr(s[1..], floor);
      if s[0] > rest then s[0] else rest
  }

  /** `Math.max(...s)` for a non-empty list of integers. */
  function Max(s: seq<int>): (m: int)
    requires |s| > 0
    ensures forall i :: 0 <= i < |s| ==> s[i] <= m
    ensures m in s
  {
    if |s| == 1 then s[0]
    else
      var rest := Max(s[1..]);
      if s[0] > rest then s[0] else rest
  }

  /** `s.map(f)` */
  function Map<T, U>(s: seq<T>, f: T -> U): (r: seq<U>)
    ensures |r| == |s|
    ensures forall i :: 0 <= i < |s| ==> r[i] == f(s[i])
  {
    seq(|s|, i requires 0 <= i < |s| => f(s[i]))
  }

  /** `[...new Set(s)]`: each distinct element once, in order of first occurrence. */
  function Distinct<T(==)>(s: seq<T>): (r: seq<T>)
    ensures forall i :: 0 <= i < |r| ==> r[i] in s
    ensures forall i :: 0 <= i < |s| ==> s[i] in r
    ensures forall i, j :: 0 <= i < j < |r| ==> r[i] != r[j]
  {
    DistinctAfterFacts(s, []);
    DistinctAfter(s, [])
  }

  /** The elements of `s` not already in `seen`, each once, in order of first occurrence. */
  function DistinctAfter<T(==)>(s: seq<T>, seen: seq<T>): (r: seq<T>)
    ensures |r| <= |s|
  {
    if s == [] then []
    else if s[0] in seen then DistinctAfter(s[1..], seen)
    else [s[0]] + DistinctAfter(s[1..], seen + [s[0]])
  }

  /** `DistinctAfter` keeps exactly the elements of `s` not in `seen`, each once. */
  lemma {:induction false} DistinctAfterFacts<T>(s: seq<T>, seen: seq<T>)
    ensures forall i :: 0 <= i < |DistinctAfter(s, seen)| ==> DistinctAfter(s, seen)[i] in s && DistinctAfter(s, seen)[i] !in seen
    ensures forall i :: 0 <= i < |s| && s[i] !in seen ==> s[i] in DistinctAfter(s, seen)
    ensures forall i, j :: 0 <= i < j < |DistinctAfter(s, seen)| ==> DistinctAfter(s, seen)[i] != DistinctAfter(s, seen)[j]
  {
    if s != [] {
      if s[0] in seen {
        DistinctAfterFacts(s[1..], seen);
        assert forall i :: 1 <= i < |s| ==> s[i] == s[1..][i - 1];
      } else {
        DistinctAfterFacts(s[1..], seen + [s[0]]);
        assert forall i :: 1 <= i < |s| ==> s[i] == s[1..][i - 1];
      }
    }
  }

  /** Order of first occurrence: the new elements of `a + b` are those of `a`, then
      those of `b` that neither `seen` nor `a` had. */
  lemma {:induction false} DistinctAfterAppend<T>(a: seq<T>, b: seq<T>, seen: seq<T>)
    ensures DistinctAfter(a + b, seen) == DistinctAfter(a, seen) + DistinctAfter(b, seen + DistinctAfter(a, seen))
    decreases |a|, 1
  {
    if a == [] {
      assert a + b == b;
      assert seen + [] == seen;
    } else if a[0] in seen {
      DistinctAfterAppendSkip(a, b, seen);
    } else {
      DistinctAfterAppendTake(a, b, seen);
    }
  }

  /** The step of `DistinctAfterAppend` when the first element is already seen. */
  lemma {:induction false} DistinctAfterAppendSkip<T>(a: seq<T>, b: seq<T>, seen: seq<T>)
    requires a != [] && a[0] in seen
    ensures DistinctAfter(a + b, seen) == DistinctAfter(a, seen) + DistinctAfter(b, seen + DistinctAfter(a, seen))
    decreases |a|, 0
  {
    assert (a + b)[0] == a[0];
    assert (a + b)[1..] == a[1..] + b;
    DistinctAfterAppend(a[1..], b, seen);
  }

  /** The step of `DistinctAfterAppend` when the first element is new. */
  lemma {:induction false} DistinctAfterAppendTake<T>(a: seq<T>, b: seq<T>, seen: seq<T>)
    requires a != [] && a[0] !in seen
    ensures DistinctAfter(a + b, seen) == DistinctAfter(a, seen) + DistinctAfter(b, seen + DistinctAfter(a, seen))
    decreases |a|, 0
  {
    assert (a + b)[0] == a[0];
    assert (a + b)[1..] == a[1..] + b;
    var seen' := seen + [a[0]];
    DistinctAfterAppend(a[1..], b, seen');
    ghost var r := DistinctAfter(a[1..], seen');
    ghost var q := DistinctAfter(b, seen' + r);
    assert DistinctAfter(a, seen) == [a[0]] + r;
    assert DistinctAfter(a + b, seen) == [a[0]] + (r + q);
    assert seen + ([a[0]] + r) == seen' + r;
    assert [a[0]] + (r + q) == ([a[0]] + r) + q;
  }

  /** Mapping a concatenation maps each part. */
  lemma MapAppend<T, U>(a: seq<T>, b: seq<T>, f: T -> U)
    ensures Map(a + b, f) == Map(a, f) + Map(b, f)
  {
    assert forall i :: 0 <= i < |a + b| ==> (a + b)[i] == if i < |a| then a[i] else b[i - |a|];
  }
}
