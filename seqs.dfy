/** Small facts about sequences used by the cache's key order and the invalidation map. */
module Seqs {

  /** No element occurs twice in `s`. */
  ghost predicate NoDups<T>(s: seq<T>)
  {
    forall i, j :: 0 <= i < j < |s| ==> s[i] != s[j]
  }

  /** `s` with every occurrence of `x` removed, the rest in their original order. */
  function Without<T(==)>(s: seq<T>, x: T): seq<T>
    decreases |s|
  {
    if s == [] then []
    else Without(s[..|s| - 1], x) + (if s[|s| - 1] == x then [] else [s[|s| - 1]])
  }

  /** Removing `x` keeps exactly the other elements. */
  lemma {:induction false} WithoutMembers<T>(s: seq<T>, x: T)
    ensures forall y :: y in Without(s, x) <==> y in s && y != x
    decreases |s|
  {
    if s != [] {
      var p := s[..|s| - 1];
      WithoutMembers(p, x);
      assert s == p + [s[|s| - 1]];
    }
  }

  /** Removing an element from a duplicate-free sequence leaves it duplicate-free. */
  lemma {:induction false} WithoutNoDups<T>(s: seq<T>, x: T)
    requires NoDups(s)
    ensures NoDups(Without(s, x))
    decreases |s|
  {
    if s != [] {
      var p := s[..|s| - 1];
      var last := s[|s| - 1];
      assert NoDups(p);
      WithoutNoDups(p, x);
      WithoutMembers(p, x);
      if last != x {
        assert last !in p;
        var w := Without(p, x);
        assert Without(s, x) == w + [last];
        forall i, j | 0 <= i < j < |w| + 1
          ensures (w + [last])[i] != (w + [last])[j]
        {
          if j == |w| {
            assert w[i] in w;
          }
        }
      }
    }
  }

  /** Removing an element that does not occur changes nothing. */
  lemma {:induction false} WithoutAbsent<T>(s: seq<T>, x: T)
    requires x !in s
    ensures Without(s, x) == s
    decreases |s|
  {
    if s != [] {
      var p := s[..|s| - 1];
      assert s == p + [s[|s| - 1]];
      WithoutAbsent(p, x);
    }
  }

  /** Removing from a sequence that grew by one element. */
  lemma WithoutSnoc<T>(s: seq<T>, y: T, x: T)
    ensures Without(s + [y], x) == Without(s, x) + (if y == x then [] else [y])
  {
    assert (s + [y])[..|s|] == s;
  }

  /** The elements of `s` that satisfy `p`, in their original order (a list comprehension with a filter). */
  function Filter<T(==)>(s: seq<T>, p: T -> bool): (r: seq<T>)
    ensures |r| <= |s|
    ensures forall i :: 0 <= i < |r| ==> r[i] in s && p(r[i])
    ensures forall i :: 0 <= i < |s| && p(s[i]) ==> s[i] in r
    decreases |s|
  {
    if s == [] then []
    else
      var init := s[..|s| - 1];
      var last := s[|s| - 1];
      assert s == init + [last];
      Filter(init, p) + (if p(last) then [last] else [])
  }

  /** The test "is not `x`". */
  function Other<T(==)>(x: T): T -> bool
  {
    y => y != x
  }

  /** Removing `x` is filtering by "is not `x`": the same order-keeping filter. */
  lemma {:induction false} WithoutIsFilter<T>(s: seq<T>, x: T)
    ensures Without(s, x) == Filter(s, Other(x))
    decreases |s|
  {
    if s != [] {
      WithoutIsFilter(s[..|s| - 1], x);
    }
  }

  /** Filtering keeps every occurrence of a satisfying element and none of the others. */
  lemma {:induction false} FilterMultiset<T>(s: seq<T>, p: T -> bool)
    ensures forall x :: multiset(Filter(s, p))[x] == if p(x) then multiset(s)[x] else 0
    decreases |s|
  {
    if s != [] {
      var init := s[..|s| - 1];
      var last := s[|s| - 1];
      FilterMultiset(init, p);
      assert s == init + [last];
      assert multiset(s) == multiset(init) + multiset{last};
    }
  }

  /** Filtering keeps the original order: filtering a concatenation filters each part. */
  lemma {:induction false} FilterAppend<T>(a: seq<T>, b: seq<T>, p: T -> bool)
    ensures Filter(a + b, p) == Filter(a, p) + Filter(b, p)
    decreases |b|
  {
    if b == [] {
      assert a + b == a;
    } else {
      var init := b[..|b| - 1];
      var last := b[|b| - 1];
      FilterAppend(a, init, p);
      assert a + b == (a + init) + [last];
      assert (a + b)[..|a + b| - 1] == a + init;
    }
  }

  /** Filters by two predicates that never hold together select at most `|s|` elements between them. */
  lemma {:induction false} DisjointFilters<T>(s: seq<T>, p: T -> bool, q: T -> bool)
    requires forall x :: !(p(x) && q(x))
    ensures |Filter(s, p)| + |Filter(s, q)| <= |s|
    decreases |s|
  {
    if s != [] {
      DisjointFilters(s[..|s| - 1], p, q);
    }
  }
}
