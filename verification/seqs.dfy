/** Order-preserving filtering and summation over sequences: `Array.prototype.filter`
    and a fold that adds up one integer per element. */
module Seqs {
  import opened Results

  /** `a` can be obtained from `b` by deleting elements, keeping the order of the rest. */
  predicate IsSubsequence<T(==)>(a: seq<T>, b: seq<T>)
    decreases |b|
  {
    if a == [] then true
    else if b == [] then false
    else (a[0] == b[0] && IsSubsequence(a[1..], b[1..])) || IsSubsequence(a, b[1..])
  }

  /** `s.filter(p)`: the elements satisfying `p`, in their original order. */
  function Filter<T(==,!new)>(s: seq<T>, p: T -> bool): (r: seq<T>)
    ensures |r| <= |s|
    ensures forall x :: x in r <==> x in s && p(x)
    ensures IsSubsequence(r, s)
    decreases |s|
  {
    if s == [] then []
    else
      var rest := Filter(s[1..], p);
      if p(s[0]) then
        assert ([s[0]] + rest)[1..] == rest;
        [s[0]] + rest
      else
        rest
  }

  /** Filtering keeps every occurrence of a kept element and drops every occurrence of the others:
      each element appears in the result exactly as often as in the input, or not at all. */
  lemma {:induction false} FilterCounts<T(!new)>(s: seq<T>, p: T -> bool)
    ensures forall x :: multiset(Filter(s, p))[x] == if p(x) then multiset(s)[x] else 0
    decreases |s|
  {
    if s != [] {
      FilterCounts(s[1..], p);
      assert s == [s[0]] + s[1..];
    }
  }

  /** Two predicates that agree everywhere keep the same elements. */
  lemma {:induction false} FilterSamePredicate<T(!new)>(s: seq<T>, p: T -> bool, q: T -> bool)
    requires forall x :: p(x) == q(x)
    ensures Filter(s, p) == Filter(s, q)
    decreases |s|
  {
    if s != [] {
      FilterSamePredicate(s[1..], p, q);
    }
  }

  /** Filtering by the same predicate twice gives what filtering once gives. */
  lemma {:induction false} FilterIdempotent<T(!new)>(s: seq<T>, p: T -> bool)
    ensures Filter(Filter(s, p), p) == Filter(s, p)
    decreases |s|
  {
    if s != [] {
      FilterIdempotent(s[1..], p);
      if p(s[0]) {
        var rest := Filter(s[1..], p);
        assert ([s[0]] + rest)[1..] == rest;
      }
    }
  }

  /** A predicate that holds of every element keeps the whole sequence. */
  lemma {:induction false} FilterKeepsAll<T(!new)>(s: seq<T>, p: T -> bool)
    requires forall x :: x in s ==> p(x)
    ensures Filter(s, p) == s
    decreases |s|
  {
    if s != [] {
      assert s[0] in s;
      assert forall x :: x in s[1..] ==> x in s;
      FilterKeepsAll(s[1..], p);
      assert [s[0]] + s[1..] == s;
    }
  }

  /** A stronger predicate keeps an order-preserving part of what a weaker one keeps. */
  lemma {:induction false} FilterNarrows<T(!new)>(s: seq<T>, p: T -> bool, q: T -> bool)
    requires forall x :: x in s && p(x) ==> q(x)
    ensures IsSubsequence(Filter(s, p), Filter(s, q))
    decreases |s|
  {
    if s != [] {
      assert forall x :: x in s[1..] ==> x in s;
      FilterNarrows(s[1..], p, q);
      var rp, rq := Filter(s[1..], p), Filter(s[1..], q);
      if p(s[0]) {
        assert s[0] in s;
        assert ([s[0]] + rp)[1..] == rp && ([s[0]] + rq)[1..] == rq;
      } else if q(s[0]) {
        assert ([s[0]] + rq)[1..] == rq;
        SubsequenceOfTail(rp, [s[0]] + rq);
      }
    }
  }

  /** Anything that is a subsequence of the tail is a subsequence of the whole. */
  lemma SubsequenceOfTail<T>(a: seq<T>, b: seq<T>)
    requires b != [] && IsSubsequence(a, b[1..])
    ensures IsSubsequence(a, b)
  {
  }

  /** Filtering a sequence extended by one element filters the prefix and then that element. */
  lemma {:induction false} FilterAppend<T(!new)>(s: seq<T>, x: T, p: T -> bool)
    ensures Filter(s + [x], p) == Filter(s, p) + (if p(x) then [x] else [])
    decreases |s|
  {
    if s == [] {
      assert [x][1..] == [];
    } else {
      assert (s + [x])[1..] == s[1..] + [x];
      FilterAppend(s[1..], x, p);
    }
  }

  /** The sum of `f` over the elements of `s`. */
  function Sum<T>(s: seq<T>, f: T -> int): int
    decreases |s|
  {
    if s == [] then 0 else f(s[0]) + Sum(s[1..], f)
  }

  /** Extending a sequence by one element adds that element's value to the sum. */
  lemma {:induction false} SumAppend<T>(s: seq<T>, x: T, f: T -> int)
    ensures Sum(s + [x], f) == Sum(s, f) + f(x)
    decreases |s|
  {
    if s == [] {
      assert [x][1..] == [];
    } else {
      assert (s + [x])[1..] == s[1..] + [x];
      SumAppend(s[1..], x, f);
    }
  }

  /** The position of the first element satisfying `p`, or `None` if there is none;
      `s.find(p)` returns the element at that position. */
  function FindFirst<T>(s: seq<T>, p: T -> bool): (r: Option<nat>)
    ensures r.None? <==> forall i :: 0 <= i < |s| ==> !p(s[i])
    ensures r.Some? ==> r.value < |s| && p(s[r.value])
    ensures r.Some? ==> forall i :: 0 <= i < r.value ==> !p(s[i])
    decreases |s|
  {
    if s == [] then None
    else if p(s[0]) then Some(0)
    else
      match FindFirst(s[1..], p)
      case None => None
      case Some(i) => Some(i + 1)
  }

  /** Appending an element does not change a search that already succeeds. */
  lemma FindFirstAppend<T>(s: seq<T>, x: T, p: T -> bool)
    requires FindFirst(s, p).Some?
    ensures FindFirst(s + [x], p) == FindFirst(s, p)
  {
    var i := FindFirst(s, p).value;
    assert (s + [x])[i] == s[i];
    forall j | 0 <= j < i ensures !p((s + [x])[j]) {
      assert (s + [x])[j] == s[j];
    }
  }
}
