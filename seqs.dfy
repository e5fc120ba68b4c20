/** Generic sequence operations standing for the JavaScript array methods the
    front desk uses: filter, findIndex/find, reduce-with-+, slice(-n).reverse().
    Every recursion goes through the LAST element, which matches the forward
    loops of the source and makes "one more element" lemmas immediate. */
module Seqs {

  datatype Option<T> = None | Some(value: T)

  /** Success or a named failure, for operations that return nothing else. */
  datatype Outcome<E> = Pass | Fail(error: E)

  /** A value or a named failure. */
  datatype Result<T, E> = Ok(value: T) | Err(error: E)

  /** The elements of s that satisfy p, in their original order (Array.prototype.filter). */
  function Filter<T>(s: seq<T>, p: T -> bool): (r: seq<T>)
    ensures |r| <= |s|
    ensures forall k :: 0 <= k < |r| ==> p(r[k])
  {
    if s == [] then []
    else Filter(s[..|s| - 1], p) + (if p(s[|s| - 1]) then [s[|s| - 1]] else [])
  }

  /** Index of the first element of s that satisfies p (Array.prototype.findIndex,
      with None for -1). */
  function FirstIndex<T>(s: seq<T>, p: T -> bool): (r: Option<nat>)
    ensures r.Some? ==> r.value < |s| && p(s[r.value])
    ensures r.Some? ==> forall k :: 0 <= k < r.value ==> !p(s[k])
    ensures r.None? ==> forall k :: 0 <= k < |s| ==> !p(s[k])
  {
    if s == [] then None
    else match FirstIndex(s[..|s| - 1], p)
      case Some(i) => Some(i)
      case None => if p(s[|s| - 1]) then Some(|s| - 1) else None
  }

  /** Sum of f over s, added left to right from 0 (reduce((sum, x) => sum + f(x), 0)). */
  function Sum<T>(s: seq<T>, f: T -> real): real
  {
    if s == [] then 0.0 else Sum(s[..|s| - 1], f) + f(s[|s| - 1])
  }

  /** s in the opposite order (Array.prototype.reverse on a copy). */
  function Reverse<T>(s: seq<T>): (r: seq<T>)
    ensures |r| == |s|
    ensures forall k :: 0 <= k < |s| ==> r[k] == s[|s| - 1 - k]
  {
    if s == [] then [] else [s[|s| - 1]] + Reverse(s[..|s| - 1])
  }

  /** s.slice(-n).reverse() for n > 0: the last n elements (all of them when
      there are fewer), most recent first. */
  function Recent<T>(s: seq<T>, n: nat): (r: seq<T>)
    requires n > 0
  {
    Reverse(s[if |s| <= n then 0 else |s| - n..])
  }

  /** The findIndex loop the source runs, returning -1 when nothing matches. */
  method FindIndex<T>(s: seq<T>, p: T -> bool) returns (i: int)
    ensures -1 <= i < |s|
    ensures i == (match FirstIndex(s, p) case Some(k) => k case None => -1)
  {
    i := 0;
    while i < |s| && !p(s[i])
      invariant 0 <= i <= |s|
      invariant forall k :: 0 <= k < i ==> !p(s[k])
    {
      i := i + 1;
    }
    if i == |s| {
      i := -1;
    }
  }

  // ---------------------------------------------------------------------------
  // Lemmas

  lemma FilterSnoc<T>(s: seq<T>, x: T, p: T -> bool)
    ensures Filter(s + [x], p) == Filter(s, p) + (if p(x) then [x] else [])
  {
    assert (s + [x])[..|s|] == s;
  }

  lemma SumSnoc<T>(s: seq<T>, x: T, f: T -> real)
    ensures Sum(s + [x], f) == Sum(s, f) + f(x)
  {
    assert (s + [x])[..|s|] == s;
  }

  lemma FirstIndexSnoc<T>(s: seq<T>, x: T, p: T -> bool)
    ensures FirstIndex(s + [x], p) ==
      if FirstIndex(s, p).Some? then FirstIndex(s, p)
      else if p(x) then Some(|s|) else None
  {
    assert (s + [x])[..|s|] == s;
  }

  /** Recent keeps exactly the most recent min(n, |s|) elements, newest first. */
  lemma RecentIsNewestFirst<T>(s: seq<T>, n: nat)
    requires n > 0
    ensures |Recent(s, n)| == if |s| <= n then |s| else n
    ensures forall k :: 0 <= k < |Recent(s, n)| ==> Recent(s, n)[k] == s[|s| - 1 - k]
  {
    var start := if |s| <= n then 0 else |s| - n;
    var tail := s[start..];
    assert forall k :: 0 <= k < |tail| ==> tail[k] == s[start + k];
  }

  /** Membership in a filter: the elements kept are exactly those of s that satisfy p. */
  lemma {:induction false} FilterMembership<T>(s: seq<T>, p: T -> bool, x: T)
    ensures x in Filter(s, p) <==> x in s && p(x)
  {
    if s != [] {
      var init, last := s[..|s| - 1], s[|s| - 1];
      assert s == init + [last];
      FilterMembership(init, p, x);
    }
  }

  /** A filter that rejects nothing returns its input unchanged. */
  lemma {:induction false} FilterKeepsAll<T>(s: seq<T>, p: T -> bool)
    requires forall k :: 0 <= k < |s| ==> p(s[k])
    ensures Filter(s, p) == s
  {
    if s != [] {
      FilterKeepsAll(s[..|s| - 1], p);
    }
  }

  /** Nothing matches exactly when the filter is empty. */
  lemma {:induction false} FilterEmptyIffNoMatch<T>(s: seq<T>, p: T -> bool)
    ensures |Filter(s, p)| == 0 <==> FirstIndex(s, p).None?
  {
    if s != [] {
      FilterEmptyIffNoMatch(s[..|s| - 1], p);
    }
  }

  /** Replacing one element changes the number of matches only by what the old
      and new element contribute. */
  lemma {:induction false} FilterUpdateCount<T>(s: seq<T>, k: nat, y: T, p: T -> bool)
    requires k < |s|
    ensures |Filter(s[k := y], p)| + (if p(s[k]) then 1 else 0)
         == |Filter(s, p)| + (if p(y) then 1 else 0)
  {
    var n := |s| - 1;
    var t := s[k := y];
    assert t[..n] == if k == n then s[..n] else s[..n][k := y];
    if k < n {
      FilterUpdateCount(s[..n], k, y, p);
    }
  }

  /** Replacing an element that p rejects by another that p rejects changes
      neither the filter nor the first match. */
  lemma {:induction false} UpdateIrrelevant<T>(s: seq<T>, k: nat, y: T, p: T -> bool)
    requires k < |s| && !p(s[k]) && !p(y)
    ensures Filter(s[k := y], p) == Filter(s, p)
    ensures FirstIndex(s[k := y], p) == FirstIndex(s, p)
  {
    var n := |s| - 1;
    var t := s[k := y];
    assert t[..n] == if k == n then s[..n] else s[..n][k := y];
    if k < n {
      UpdateIrrelevant(s[..n], k, y, p);
    }
  }

  /** A sum of non-negative terms over a sub-filter is at most the sum over the
      larger filter. */
  lemma {:induction false} SumFilterMonotone<T>(s: seq<T>, p: T -> bool, q: T -> bool, f: T -> real)
    requires forall k :: 0 <= k < |s| ==> p(s[k]) ==> q(s[k])
    requires forall k :: 0 <= k < |s| ==> q(s[k]) ==> f(s[k]) >= 0.0
    ensures Sum(Filter(s, p), f) <= Sum(Filter(s, q), f)
  {
    if s != [] {
      var init, last := s[..|s| - 1], s[|s| - 1];
      SumFilterMonotone(init, p, q, f);
      if p(last) {
        assert Filter(s, p) == Filter(init, p) + [last];
        SumSnoc(Filter(init, p), last, f);
      } else {
        assert Filter(s, p) == Filter(init, p);
      }
      if q(last) {
        assert f(s[|s| - 1]) >= 0.0;
        assert Filter(s, q) == Filter(init, q) + [last];
        SumSnoc(Filter(init, q), last, f);
      } else {
        assert Filter(s, q) == Filter(init, q);
      }
    }
  }

  /** Replacing an element by one that p judges the same way leaves the first
      match where it was. */
  lemma {:induction false} FirstIndexUpdateSame<T>(s: seq<T>, k: nat, y: T, p: T -> bool)
    requires k < |s| && p(y) == p(s[k])
    ensures FirstIndex(s[k := y], p) == FirstIndex(s, p)
  {
    var n := |s| - 1;
    var t := s[k := y];
    assert t[..n] == if k == n then s[..n] else s[..n][k := y];
    if k < n {
      FirstIndexUpdateSame(s[..n], k, y, p);
    }
  }

  /** Replacing one term of a sum changes the sum by the difference. */
  lemma {:induction false} SumUpdate<T>(s: seq<T>, k: nat, y: T, f: T -> real)
    requires k < |s|
    ensures Sum(s[k := y], f) == Sum(s, f) - f(s[k]) + f(y)
  {
    var n := |s| - 1;
    var t := s[k := y];
    assert t[..n] == if k == n then s[..n] else s[..n][k := y];
    if k < n {
      SumUpdate(s[..n], k, y, f);
    }
  }

  /** When every element satisfies exactly one of p and q, the two filters
      together have as many elements as s. */
  lemma {:induction false} FilterSplit<T>(s: seq<T>, p: T -> bool, q: T -> bool)
    requires forall k :: 0 <= k < |s| ==> p(s[k]) != q(s[k])
    ensures |Filter(s, p)| + |Filter(s, q)| == |s|
  {
    if s != [] {
      FilterSplit(s[..|s| - 1], p, q);
    }
  }

  /** Filtering by p and then by q keeps what filtering by "p and q" keeps. */
  lemma {:induction false} FilterFilter<T>(s: seq<T>, p: T -> bool, q: T -> bool, pq: T -> bool)
    requires forall k :: 0 <= k < |s| ==> pq(s[k]) == (p(s[k]) && q(s[k]))
    ensures Filter(Filter(s, p), q) == Filter(s, pq)
  {
    if s != [] {
      var init, x := s[..|s| - 1], s[|s| - 1];
      FilterFilter(init, p, q, pq);
      assert pq(x) == (p(x) && q(x));
      if p(x) {
        assert Filter(s, p) == Filter(init, p) + [x];
        FilterSnoc(Filter(init, p), x, q);
      } else {
        assert Filter(s, p) == Filter(init, p);
      }
    }
  }

  /** A filter by a stronger predicate keeps no more elements. */
  lemma {:induction false} FilterLengthMonotone<T>(s: seq<T>, p: T -> bool, q: T -> bool)
    requires forall k :: 0 <= k < |s| ==> p(s[k]) ==> q(s[k])
    ensures |Filter(s, p)| <= |Filter(s, q)|
  {
    if s != [] {
      FilterLengthMonotone(s[..|s| - 1], p, q);
    }
  }

  /** A sum of terms each at most the corresponding term of another is at most
      that other sum. */
  lemma {:induction false} SumPointwise<T>(s: seq<T>, f: T -> real, g: T -> real)
    requires forall k :: 0 <= k < |s| ==> f(s[k]) <= g(s[k])
    ensures Sum(s, f) <= Sum(s, g)
  {
    if s != [] {
      SumPointwise(s[..|s| - 1], f, g);
    }
  }

  /** A sum of non-negative terms is non-negative. */
  lemma {:induction false} SumNonNegative<T>(s: seq<T>, f: T -> real)
    requires forall k :: 0 <= k < |s| ==> f(s[k]) >= 0.0
    ensures Sum(s, f) >= 0.0
  {
    if s != [] {
      SumNonNegative(s[..|s| - 1], f);
    }
  }
}
