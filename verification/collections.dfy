/**
 * Sequence operations the handlers rely on: `Array.prototype.filter`, summing with `reduce`,
 * and ordering (`Array.prototype.sort` and the store's `orderBy`), modelled as an
 * insertion sort under a caller-supplied "may come first" relation; elements the relation
 * cannot tell apart come out in reverse input order.
 */
module Collections {

  /** `s.filter(p)`. */
  function Filter<T(!new)>(s: seq<T>, p: T -> bool): (r: seq<T>)
    ensures |r| <= |s|
    ensures forall x :: x in r <==> x in s && p(x)
    ensures multiset(r) <= multiset(s)
    decreases |s|
  {
    if s == [] then []
    else
      var rest := Filter(s[..|s| - 1], p);
      assert s == s[..|s| - 1] + [s[|s| - 1]];
      if p(s[|s| - 1]) then rest + [s[|s| - 1]] else rest
  }

  /** The filter keeps every occurrence of a passing element and none of a failing one. */
  lemma {:induction false} FilterCounts<T(!new)>(s: seq<T>, p: T -> bool)
    ensures forall x :: multiset(Filter(s, p))[x] == if p(x) then multiset(s)[x] else 0
    decreases |s|
  {
    if s != [] {
      var init, last := s[..|s| - 1], s[|s| - 1];
      FilterCounts(init, p);
      assert s == init + [last];
      var r, rest := Filter(s, p), Filter(init, p);
      assert r == if p(last) then rest + [last] else rest;
    }
  }

  /** Filtering a sequence without repetitions leaves none. */
  lemma FilterKeepsDistinct<T(!new)>(s: seq<T>, p: T -> bool)
    requires Distinct(s)
    ensures Distinct(Filter(s, p))
  {
    var r := Filter(s, p);
    FilterCounts(s, p);
    forall x
      ensures multiset(r)[x] <= 1
    {
      DistinctMultiplicity(s, x);
    }
    MultiplicityDistinct(r);
  }

  /** `r` is `s` with some elements deleted, the others kept in their relative order. */
  ghost predicate Subsequence<T>(r: seq<T>, s: seq<T>)
    decreases |s|
  {
    if r == [] then true
    else if s == [] then false
    else if r[|r| - 1] == s[|s| - 1] then Subsequence(r[..|r| - 1], s[..|s| - 1])
    else Subsequence(r, s[..|s| - 1])
  }

  lemma {:induction false} FilterIsSubsequence<T(!new)>(s: seq<T>, p: T -> bool)
    ensures Subsequence(Filter(s, p), s)
    decreases |s|
  {
    if s != [] {
      var init, last := s[..|s| - 1], s[|s| - 1];
      FilterIsSubsequence(init, p);
      var r, rest := Filter(s, p), Filter(init, p);
      if p(last) {
        assert r == rest + [last];
        assert r[..|r| - 1] == rest;
      } else {
        assert r == rest;
      }
    }
  }

  lemma {:induction false} SubsequenceOfItself<T>(s: seq<T>)
    ensures Subsequence(s, s)
    decreases |s|
  {
    if s != [] {
      SubsequenceOfItself(s[..|s| - 1]);
    }
  }

  /** `s.reduce((sum, x) => sum + f(x), 0)`. */
  function SumOf<T>(s: seq<T>, f: T -> int): int
    decreases |s|
  {
    if s == [] then 0 else SumOf(s[..|s| - 1], f) + f(s[|s| - 1])
  }

  lemma {:induction false} SumOfAppend<T>(a: seq<T>, b: seq<T>, f: T -> int)
    ensures SumOf(a + b, f) == SumOf(a, f) + SumOf(b, f)
    decreases |b|
  {
    if b == [] {
      assert a + b == a;
    } else {
      assert (a + b)[..|a + b| - 1] == a + b[..|b| - 1];
      SumOfAppend(a, b[..|b| - 1], f);
    }
  }

  /** A sum does not depend on the order of its terms. */
  lemma {:induction false} SumOfPermutation<T>(a: seq<T>, b: seq<T>, f: T -> int)
    requires multiset(a) == multiset(b)
    ensures SumOf(a, f) == SumOf(b, f)
    decreases |a|
  {
    if a == [] {
      assert |b| == |multiset(b)| == 0;
    } else {
      var x := a[|a| - 1];
      var init := a[..|a| - 1];
      assert a == init + [x];
      assert x in multiset(b);
      var j :| 0 <= j < |b| && b[j] == x;
      var rest := RemovedMultiset(b, j);
      assert multiset(init) == multiset(a) - multiset{x};
      SumOfPermutation(init, rest, f);
      SumOfRemoved(b, j, f);
    }
  }

  /** `s` without its element at `j`, and the multiset that leaves. */
  lemma RemovedMultiset<T>(s: seq<T>, j: int) returns (rest: seq<T>)
    requires 0 <= j < |s|
    ensures rest == s[..j] + s[j + 1..]
    ensures multiset(rest) == multiset(s) - multiset{s[j]}
  {
    rest := s[..j] + s[j + 1..];
    assert s == s[..j] + [s[j]] + s[j + 1..];
    assert multiset(s) == multiset(s[..j]) + multiset{s[j]} + multiset(s[j + 1..]);
  }

  /** A sum is the term at `j` plus the sum of the rest. */
  lemma SumOfRemoved<T>(s: seq<T>, j: int, f: T -> int)
    requires 0 <= j < |s|
    ensures SumOf(s, f) == SumOf(s[..j] + s[j + 1..], f) + f(s[j])
  {
    var left, x, right := s[..j], s[j], s[j + 1..];
    assert s == left + [x] + right;
    SumOfAppend(left + [x], right, f);
    SumOfAppend(left, [x], f);
    SumOfAppend(left, right, f);
    SumOfSingleton(x, f);
  }

  lemma SumOfSingleton<T>(x: T, f: T -> int)
    ensures SumOf([x], f) == f(x)
  {
    assert [x][..0] == [];
  }

  /** Two sums agree when their terms agree position by position. */
  lemma {:induction false} SumOfPointwise<A, B>(a: seq<A>, f: A -> int, b: seq<B>, g: B -> int)
    requires |a| == |b|
    requires forall i :: 0 <= i < |a| ==> f(a[i]) == g(b[i])
    ensures SumOf(a, f) == SumOf(b, g)
    decreases |a|
  {
    if a != [] {
      SumOfPointwise(a[..|a| - 1], f, b[..|b| - 1], g);
    }
  }

  /** No element occurs twice. */
  ghost predicate Distinct<T>(s: seq<T>) {
    forall i, j :: 0 <= i < j < |s| ==> s[i] != s[j]
  }

  lemma {:induction false} DistinctMultiplicity<T>(s: seq<T>, x: T)
    requires Distinct(s)
    ensures multiset(s)[x] <= 1
    decreases |s|
  {
    if s != [] {
      var init := s[..|s| - 1];
      assert s == init + [s[|s| - 1]];
      DistinctMultiplicity(init, x);
      if x == s[|s| - 1] {
        assert x !in init;
      }
    }
  }

  /** A sequence in which nothing occurs twice over has no repetitions. */
  lemma MultiplicityDistinct<T>(s: seq<T>)
    requires forall x :: multiset(s)[x] <= 1
    ensures Distinct(s)
  {
    forall i, j | 0 <= i < j < |s|
      ensures s[i] != s[j]
    {
      var a, b, c := s[..i], s[i + 1..j], s[j + 1..];
      assert s == a + [s[i]] + b + [s[j]] + c;
      assert multiset(s) == multiset(a) + multiset{s[i]} + multiset(b) + multiset{s[j]} + multiset(c);
      assert multiset(s)[s[i]] <= 1;
    }
  }

  /** A permutation of a sequence without repetitions has none either. */
  lemma PermutationKeepsDistinct<T>(a: seq<T>, b: seq<T>)
    requires multiset(a) == multiset(b) && Distinct(a)
    ensures Distinct(b)
  {
    forall x
      ensures multiset(b)[x] <= 1
    {
      DistinctMultiplicity(a, x);
    }
    MultiplicityDistinct(b);
  }

  /** A permutation holds the same elements. */
  lemma PermutationSameElements<T>(a: seq<T>, b: seq<T>)
    requires multiset(a) == multiset(b)
    ensures forall x :: x in a <==> x in b
  {
    forall x
      ensures x in a <==> x in b
    {
      assert x in a <==> x in multiset(a);
      assert x in b <==> x in multiset(b);
    }
  }

  /** Two sequences without repetitions that hold the same elements are permutations of each other. */
  lemma SameElementsPermutation<T>(a: seq<T>, b: seq<T>)
    requires Distinct(a) && Distinct(b)
    requires forall x :: x in a <==> x in b
    ensures multiset(a) == multiset(b)
  {
    forall x
      ensures multiset(a)[x] == multiset(b)[x]
    {
      DistinctMultiplicity(a, x);
      DistinctMultiplicity(b, x);
      assert x in a <==> x in multiset(a);
      assert x in b <==> x in multiset(b);
    }
  }

  ghost predicate TotalRelation<T(!new)>(le: (T, T) -> bool) {
    forall x, y :: le(x, y) || le(y, x)
  }

  ghost predicate TransitiveRelation<T(!new)>(le: (T, T) -> bool) {
    forall x, y, z :: le(x, y) && le(y, z) ==> le(x, z)
  }

  ghost predicate Sorted<T>(s: seq<T>, le: (T, T) -> bool) {
    forall i, j :: 0 <= i < j < |s| ==> le(s[i], s[j])
  }

  /** Inserts `x` before the first element that `x` may precede. */
  function Insert<T>(x: T, s: seq<T>, le: (T, T) -> bool): (r: seq<T>)
    ensures multiset(r) == multiset(s) + multiset{x}
    decreases |s|
  {
    if s == [] then [x]
    else if le(x, s[0]) then [x] + s
    else
      assert s == [s[0]] + s[1..];
      [s[0]] + Insert(x, s[1..], le)
  }

  lemma {:induction false} InsertSorted<T(!new)>(x: T, s: seq<T>, le: (T, T) -> bool)
    requires TotalRelation(le) && TransitiveRelation(le) && Sorted(s, le)
    ensures Sorted(Insert(x, s, le), le)
    decreases |s|
  {
    if s == [] {
    } else if le(x, s[0]) {
      InsertInFront(x, s, le);
    } else {
      assert Sorted(s[1..], le);
      InsertSorted(x, s[1..], le);
      InsertBehindHead(x, s, le);
    }
  }

  /** An element no greater than the head of a sorted sequence goes in front and keeps it sorted. */
  lemma InsertInFront<T(!new)>(x: T, s: seq<T>, le: (T, T) -> bool)
    requires TransitiveRelation(le) && Sorted(s, le)
    requires s != [] && le(x, s[0])
    ensures Sorted(Insert(x, s, le), le)
  {
    var r := Insert(x, s, le);
    assert r == [x] + s;
    forall j | 0 < j < |s|
      ensures le(x, s[j])
    {
      assert le(s[0], s[j]);
    }
    forall i, j | 0 <= i < j < |r|
      ensures le(r[i], r[j])
    {
      if i > 0 {
        assert r[i] == s[i - 1] && r[j] == s[j - 1];
      }
    }
  }

  /** An element greater than the head goes into the sorted tail, behind the head. */
  lemma InsertBehindHead<T(!new)>(x: T, s: seq<T>, le: (T, T) -> bool)
    requires TotalRelation(le) && Sorted(s, le)
    requires s != [] && !le(x, s[0])
    requires Sorted(Insert(x, s[1..], le), le)
    ensures Sorted(Insert(x, s, le), le)
  {
    var r := Insert(x, s, le);
    var tail := Insert(x, s[1..], le);
    assert r == [s[0]] + tail;
    HeadBelowInserted(x, s, le);
    forall i, j | 0 <= i < j < |r|
      ensures le(r[i], r[j])
    {
      if i == 0 {
        assert r[j] == tail[j - 1];
      } else {
        assert r[i] == tail[i - 1] && r[j] == tail[j - 1];
      }
    }
  }

  /** The head of a sorted sequence is no greater than anything inserted into its tail after a greater `x`. */
  lemma HeadBelowInserted<T(!new)>(x: T, s: seq<T>, le: (T, T) -> bool)
    requires TotalRelation(le) && Sorted(s, le)
    requires s != [] && !le(x, s[0])
    ensures forall j :: 0 <= j < |Insert(x, s[1..], le)| ==> le(s[0], Insert(x, s[1..], le)[j])
  {
    var rest := s[1..];
    var tail := Insert(x, rest, le);
    assert le(s[0], x);
    forall j | 0 <= j < |tail|
      ensures le(s[0], tail[j])
    {
      InsertedElement(x, rest, le, j);
      if tail[j] != x {
        var k :| 0 <= k < |rest| && rest[k] == tail[j];
        assert s[k + 1] == tail[j];
      }
    }
  }

  /** Every element of `Insert(x, s, le)` is `x` or an element of `s`. */
  lemma InsertedElement<T>(x: T, s: seq<T>, le: (T, T) -> bool, j: int)
    requires 0 <= j < |Insert(x, s, le)|
    ensures Insert(x, s, le)[j] == x || Insert(x, s, le)[j] in s
  {
    var y := Insert(x, s, le)[j];
    assert y in multiset(Insert(x, s, le));
  }

  /** The elements of `s` ordered by `le`: the model of `sort` and of the store's `orderBy`. */
  function SortBy<T>(s: seq<T>, le: (T, T) -> bool): (r: seq<T>)
    ensures multiset(r) == multiset(s)
    decreases |s|
  {
    if s == [] then []
    else
      assert s == s[..|s| - 1] + [s[|s| - 1]];
      Insert(s[|s| - 1], SortBy(s[..|s| - 1], le), le)
  }

  /** Under a total, transitive relation the result of `SortBy` is ordered. */
  lemma {:induction false} SortBySorted<T(!new)>(s: seq<T>, le: (T, T) -> bool)
    requires TotalRelation(le) && TransitiveRelation(le)
    ensures Sorted(SortBy(s, le), le)
    decreases |s|
  {
    if s != [] {
      SortBySorted(s[..|s| - 1], le);
      InsertSorted(s[|s| - 1], SortBy(s[..|s| - 1], le), le);
    }
  }
}
