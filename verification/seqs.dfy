/** Sequence operations the pages use through `Array.prototype.filter` and
    `Array.prototype.reduce`, with the facts the page models rely on. */
module Seqs {

  /** `a` is obtained from `b` by deleting elements (order kept). */
  predicate IsSubsequence<T(==)>(a: seq<T>, b: seq<T>)
    decreases |b|
  {
    if a == [] then true
    else if b == [] then false
    else (a[0] == b[0] && IsSubsequence(a[1..], b[1..])) || IsSubsequence(a, b[1..])
  }

  /** Number of elements of `s` that satisfy `f`. */
  function Count<T>(f: T -> bool, s: seq<T>): nat
  {
    if s == [] then 0 else (if f(s[0]) then 1 else 0) + Count(f, s[1..])
  }

  /** `s.filter(f)`: the elements that satisfy `f`, in their original order. */
  function Filter<T(==)>(f: T -> bool, s: seq<T>): (r: seq<T>)
    ensures |r| == Count(f, s)
    ensures forall k :: 0 <= k < |r| ==> r[k] in s && f(r[k])
    ensures forall k :: 0 <= k < |s| && f(s[k]) ==> s[k] in r
    ensures IsSubsequence(r, s)
  {
    if s == [] then []
    else
      var rest := Filter(f, s[1..]);
      assert ([s[0]] + rest)[1..] == rest;
      if f(s[0]) then [s[0]] + rest else rest
  }

  /** `s.filter(y => y !== x)`. */
  function Remove<T(==)>(s: seq<T>, x: T): (r: seq<T>)
    ensures x !in r
    ensures forall k :: 0 <= k < |r| ==> r[k] in s
    ensures forall k :: 0 <= k < |s| && s[k] != x ==> s[k] in r
    ensures IsSubsequence(r, s)
  {
    Filter(y => y != x, s)
  }

  /** `s.reduce((sum, x) => sum + f(x), 0)`: a left fold starting at zero. */
  function SumOf<T>(f: T -> real, s: seq<T>): real
  {
    if s == [] then 0.0 else SumOf(f, s[..|s| - 1]) + f(s[|s| - 1])
  }

  /** A subsequence all of whose elements satisfy `f` has at most as many
      elements as `s` has elements satisfying `f`. */
  lemma {:induction false} SubsequenceCountBound<T>(f: T -> bool, r: seq<T>, s: seq<T>)
    requires IsSubsequence(r, s)
    requires forall k :: 0 <= k < |r| ==> f(r[k])
    ensures |r| <= Count(f, s)
    decreases |s|
  {
    if r != [] && s != [] {
      if r[0] == s[0] && IsSubsequence(r[1..], s[1..]) {
        SubsequenceCountBound(f, r[1..], s[1..]);
      } else {
        SubsequenceCountBound(f, r, s[1..]);
      }
    }
  }

  /** The filter is the only subsequence of `s` whose elements all satisfy
      `f` and that keeps every one of them: "exactly the elements that
      satisfy `f`, in order". */
  lemma {:induction false} FilterUnique<T>(f: T -> bool, r: seq<T>, s: seq<T>)
    requires IsSubsequence(r, s)
    requires forall k :: 0 <= k < |r| ==> f(r[k])
    requires |r| == Count(f, s)
    ensures r == Filter(f, s)
    decreases |s|
  {
    if s == [] {
    } else if r == [] {
      CountZero(f, s);
    } else if f(s[0]) {
      if r[0] == s[0] && IsSubsequence(r[1..], s[1..]) {
        FilterUnique(f, r[1..], s[1..]);
        assert r == [r[0]] + r[1..];
      } else {
        SubsequenceCountBound(f, r, s[1..]);
        assert false;
      }
    } else if IsSubsequence(r, s[1..]) {
      FilterUnique(f, r, s[1..]);
    } else {
      assert false;
    }
  }

  lemma {:induction false} CountZero<T>(f: T -> bool, s: seq<T>)
    requires Count(f, s) == 0
    ensures Filter(f, s) == []
  {
  }

  /** Filtering distributes over concatenation. */
  lemma {:induction false} FilterAppend<T>(f: T -> bool, a: seq<T>, b: seq<T>)
    ensures Filter(f, a + b) == Filter(f, a) + Filter(f, b)
    decreases |a|
  {
    if a == [] {
      assert a + b == b;
    } else {
      assert (a + b)[0] == a[0];
      assert (a + b)[1..] == a[1..] + b;
      FilterAppend(f, a[1..], b);
    }
  }

  /** Filtering keeps a sequence whose elements all pass unchanged. */
  lemma {:induction false} FilterAllPass<T>(f: T -> bool, s: seq<T>)
    requires forall k :: 0 <= k < |s| ==> f(s[k])
    ensures Filter(f, s) == s
    decreases |s|
  {
    if s != [] {
      FilterAllPass(f, s[1..]);
      assert s == [s[0]] + s[1..];
    }
  }

  /** Removing an absent element leaves the sequence as it was. */
  lemma RemoveAbsent<T>(s: seq<T>, x: T)
    requires x !in s
    ensures Remove(s, x) == s
  {
    FilterAllPass(y => y != x, s);
  }

  /** Removing `x` from `s + [x]` gives `s` with `x` removed. */
  lemma RemoveAppended<T>(s: seq<T>, x: T)
    ensures Remove(s + [x], x) == Remove(s, x)
  {
    FilterAppend(y => y != x, s, [x]);
    assert Filter(y => y != x, [x][1..]) == [];
  }

  /** Removing `x` deletes every occurrence of it and keeps every other
      element as often as it occurred. */
  lemma {:induction false} RemoveMultiset<T>(s: seq<T>, x: T)
    ensures multiset(Remove(s, x)) == multiset(s)[x := 0]
    decreases |s|
  {
    if s != [] {
      RemoveMultiset(s[1..], x);
      assert s == [s[0]] + s[1..];
    }
  }

  /** The left fold splits over concatenation. */
  lemma {:induction false} SumOfAppend<T>(f: T -> real, a: seq<T>, b: seq<T>)
    ensures SumOf(f, a + b) == SumOf(f, a) + SumOf(f, b)
    decreases |b|
  {
    if b == [] {
      assert a + b == a;
    } else {
      var b' := b[..|b| - 1];
      assert (a + b)[..|a + b| - 1] == a + b';
      SumOfAppend(f, a, b');
    }
  }

  /** Filtering by `f` and by its complement `nf` splits the sum of `s`. */
  lemma {:induction false} SumOfPartition<T>(f: T -> bool, nf: T -> bool, g: T -> real, s: seq<T>)
    requires forall k :: 0 <= k < |s| ==> nf(s[k]) == !f(s[k])
    ensures SumOf(g, Filter(f, s)) + SumOf(g, Filter(nf, s)) == SumOf(g, s)
    decreases |s|
  {
    if s != [] {
      SumOfPartition(f, nf, g, s[1..]);
      assert s == [s[0]] + s[1..];
      SumOfAppend(g, [s[0]], s[1..]);
      if f(s[0]) {
        SumOfAppend(g, [s[0]], Filter(f, s[1..]));
      } else {
        SumOfAppend(g, [s[0]], Filter(nf, s[1..]));
      }
    }
  }

  /** Every element of `s` has a non-negative `f`. */
  predicate AllNonNegative<T>(f: T -> real, s: seq<T>)
  {
    forall k :: 0 <= k < |s| ==> f(s[k]) >= 0.0
  }

  /** A sum of non-negative terms is non-negative. */
  lemma {:induction false} SumOfNonNegative<T>(f: T -> real, s: seq<T>)
    ensures AllNonNegative(f, s) ==> SumOf(f, s) >= 0.0
    decreases |s|
  {
    if s != [] && AllNonNegative(f, s) {
      SumOfNonNegative(f, s[..|s| - 1]);
    }
  }

  /** Two sequences whose terms agree position by position have the same sum. */
  lemma {:induction false} SumOfPointwise<A, B>(f: A -> real, a: seq<A>, g: B -> real, b: seq<B>)
    requires |a| == |b|
    requires forall k :: 0 <= k < |a| ==> f(a[k]) == g(b[k])
    ensures SumOf(f, a) == SumOf(g, b)
    decreases |a|
  {
    if a != [] {
      SumOfPointwise(f, a[..|a| - 1], g, b[..|b| - 1]);
    }
  }
}
