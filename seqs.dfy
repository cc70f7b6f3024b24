/** Generic sequence helpers: JavaScript's filter/reduce over arrays and the
    ORDER BY ... LIMIT pipeline of the store, stated once for every table. */
module Seqs {

  /** The elements of s that satisfy p, in their original order. */
  function Filter<T(!new)>(s: seq<T>, p: T -> bool): (r: seq<T>)
    ensures |r| <= |s|
    ensures forall x :: x in r <==> x in s && p(x)
    ensures multiset(r) <= multiset(s)
  {
    if s == [] then []
    else
      var rest := Filter(s[1..], p);
      assert s == [s[0]] + s[1..];
      if p(s[0]) then [s[0]] + rest else rest
  }

  lemma {:induction false} FilterAppend<T(!new)>(a: seq<T>, b: seq<T>, p: T -> bool)
    ensures Filter(a + b, p) == Filter(a, p) + Filter(b, p)
  {
    if a == [] {
      assert a + b == b;
    } else {
      assert (a + b)[1..] == a[1..] + b;
      FilterAppend(a[1..], b, p);
    }
  }

  /** Filtering a one-element sequence. */
  lemma FilterSingleton<T(!new)>(x: T, p: T -> bool)
    ensures Filter([x], p) == if p(x) then [x] else []
  {
    assert [x][1..] == [];
  }

  /** How often x occurs among the filtered rows: as often as in s when it
      passes, never otherwise. */
  lemma {:induction false} FilterMultiplicity<T(!new)>(s: seq<T>, p: T -> bool, x: T)
    ensures multiset(Filter(s, p))[x] == if p(x) then multiset(s)[x] else 0
  {
    if s != [] {
      var tail := s[1..];
      FilterMultiplicity(tail, p, x);
      assert s == [s[0]] + tail;
      assert multiset(s) == multiset{s[0]} + multiset(tail);
      var rest := Filter(tail, p);
      if p(s[0]) {
        assert multiset(Filter(s, p)) == multiset{s[0]} + multiset(rest);
      } else {
        assert Filter(s, p) == rest;
      }
    }
  }

  /** Filtering by two predicates that agree everywhere gives the same rows. */
  lemma {:induction false} FilterExt<T(!new)>(s: seq<T>, p: T -> bool, q: T -> bool)
    requires forall x :: p(x) == q(x)
    ensures Filter(s, p) == Filter(s, q)
  {
    if s != [] {
      FilterExt(s[1..], p, q);
    }
  }

  /** Filtering keeps the relative order of what it keeps. */
  lemma {:induction false} FilterSorted<T(!new)>(s: seq<T>, p: T -> bool, le: (T, T) -> bool)
    requires SortedBy(s, le)
    ensures SortedBy(Filter(s, p), le)
  {
    if s != [] {
      var tail := s[1..];
      assert SortedBy(tail, le);
      FilterSorted(tail, p, le);
      var rest := Filter(tail, p);
      if p(s[0]) {
        forall y | y in rest ensures le(s[0], y) {
          HeadBelowTail(s, le, y);
        }
        ConsSorted(s[0], rest, le);
      }
    }
  }

  /** In a sorted sequence the first element is below every later one. */
  lemma HeadBelowTail<T>(s: seq<T>, le: (T, T) -> bool, y: T)
    requires SortedBy(s, le) && s != [] && y in s[1..]
    ensures le(s[0], y)
  {
    var m :| 0 <= m < |s[1..]| && s[1..][m] == y;
    assert s[m + 1] == y;
  }

  /** An element below every element of a sorted sequence can go in front. */
  lemma ConsSorted<T>(x: T, s: seq<T>, le: (T, T) -> bool)
    requires SortedBy(s, le)
    requires forall y :: y in s ==> le(x, y)
    ensures SortedBy([x] + s, le)
  {
    var r := [x] + s;
    forall i, j | 0 <= i < j < |r| ensures le(r[i], r[j]) {
      assert r[j] == s[j - 1];
      if i > 0 {
        assert r[i] == s[i - 1];
      }
    }
  }

  /** `arr.map(f)`. */
  function Map<T, U>(f: T -> U, s: seq<T>): (r: seq<U>)
    ensures |r| == |s|
    ensures forall i :: 0 <= i < |s| ==> r[i] == f(s[i])
  {
    seq(|s|, i requires 0 <= i < |s| => f(s[i]))
  }

  /** Mapping peels off the last element. */
  lemma MapLast<T, U>(f: T -> U, s: seq<T>)
    requires s != []
    ensures Map(f, s) == Map(f, s[..|s| - 1]) + [f(s[|s| - 1])]
  {
  }

  lemma MapSnoc<T, U>(f: T -> U, s: seq<T>, x: T)
    ensures Map(f, s + [x]) == Map(f, s) + [f(x)]
  {
  }

  /** Filtering one more element at the end. */
  lemma FilterSnoc<T(!new)>(s: seq<T>, x: T, p: T -> bool)
    ensures Filter(s + [x], p) == if p(x) then Filter(s, p) + [x] else Filter(s, p)
  {
    FilterAppend(s, [x], p);
    FilterSingleton(x, p);
  }

  /** Every element satisfies p. */
  predicate All<T>(s: seq<T>, p: T -> bool)
  {
    forall i :: 0 <= i < |s| ==> p(s[i])
  }

  lemma AllAppend<T>(s: seq<T>, x: T, p: T -> bool)
    requires All(s, p) && p(x)
    ensures All(s + [x], p)
  {
    assert forall i :: 0 <= i < |s| ==> (s + [x])[i] == s[i];
  }

  lemma AllReplace<T>(s: seq<T>, k: nat, x: T, p: T -> bool)
    requires All(s, p) && k < |s| && p(x)
    ensures All(s[k := x], p)
  {
  }

  lemma AllFilter<T(!new)>(s: seq<T>, q: T -> bool, p: T -> bool)
    requires All(s, p)
    ensures All(Filter(s, q), p)
  {
    var r := Filter(s, q);
    forall i | 0 <= i < |r| ensures p(r[i]) {
      assert r[i] in s;
    }
  }

  /** Nothing passes, so nothing is kept. */
  lemma {:induction false} FilterNone<T(!new)>(s: seq<T>, p: T -> bool)
    requires forall i :: 0 <= i < |s| ==> !p(s[i])
    ensures Filter(s, p) == []
  {
    if s != [] {
      FilterNone(s[1..], p);
    }
  }

  /** Number of elements of s satisfying p (`arr.filter(p).length`). */
  function Count<T(!new)>(s: seq<T>, p: T -> bool): (n: nat)
    ensures n <= |s|
  {
    |Filter(s, p)|
  }

  /** Sum of a sequence of integers (`reduce((a, x) => a + x, 0)`). */
  function Sum(s: seq<int>): int
  {
    if s == [] then 0 else s[0] + Sum(s[1..])
  }

  lemma {:induction false} SumAppend(a: seq<int>, b: seq<int>)
    ensures Sum(a + b) == Sum(a) + Sum(b)
  {
    if a == [] {
      assert a + b == b;
    } else {
      assert (a + b)[1..] == a[1..] + b;
      SumAppend(a[1..], b);
    }
  }

  /** A preorder in which any two elements are comparable: what ORDER BY needs. */
  ghost predicate TotalPreorder<T(!new)>(le: (T, T) -> bool)
  {
    && (forall a, b :: le(a, b) || le(b, a))
    && (forall a, b, c :: le(a, b) && le(b, c) ==> le(a, c))
  }

  predicate SortedBy<T>(s: seq<T>, le: (T, T) -> bool)
  {
    forall i, j :: 0 <= i < j < |s| ==> le(s[i], s[j])
  }

  /** Inserts x before the first element it is not above. */
  function InsertBy<T>(x: T, s: seq<T>, le: (T, T) -> bool): (r: seq<T>)
    ensures |r| == |s| + 1
    ensures multiset(r) == multiset(s) + multiset{x}
  {
    if s == [] then [x]
    else if le(x, s[0]) then [x] + s
    else
      assert s == [s[0]] + s[1..];
      [s[0]] + InsertBy(x, s[1..], le)
  }

  /** A stable insertion sort: the order a row set comes back in after ORDER BY. */
  function SortBy<T>(s: seq<T>, le: (T, T) -> bool): (r: seq<T>)
    ensures |r| == |s|
    ensures multiset(r) == multiset(s)
  {
    if s == [] then []
    else
      assert s == [s[0]] + s[1..];
      InsertBy(s[0], SortBy(s[1..], le), le)
  }

  /** A lower bound of x and of every element of s bounds the insertion too. */
  lemma {:induction false} InsertByLowerBound<T>(x: T, s: seq<T>, le: (T, T) -> bool, y: T)
    requires le(y, x)
    requires forall k :: 0 <= k < |s| ==> le(y, s[k])
    ensures forall k :: 0 <= k < |InsertBy(x, s, le)| ==> le(y, InsertBy(x, s, le)[k])
  {
    if s != [] && !le(x, s[0]) {
      InsertByLowerBound(x, s[1..], le, y);
      var ins := InsertBy(x, s[1..], le);
      assert InsertBy(x, s, le) == [s[0]] + ins;
    }
  }

  lemma {:induction false} InsertBySorted<T(!new)>(x: T, s: seq<T>, le: (T, T) -> bool)
    requires TotalPreorder(le)
    requires SortedBy(s, le)
    ensures SortedBy(InsertBy(x, s, le), le)
  {
    if s != [] && !le(x, s[0]) {
      var tail := s[1..];
      InsertBySorted(x, tail, le);
      InsertByLowerBound(x, tail, le, s[0]);
      var ins := InsertBy(x, tail, le);
      var r := [s[0]] + ins;
      forall i, j | 0 <= i < j < |r| ensures le(r[i], r[j]) {
        if i == 0 {
          assert r[j] == ins[j - 1];
        } else {
          assert r[i] == ins[i - 1] && r[j] == ins[j - 1];
        }
      }
    }
  }

  lemma {:induction false} SortBySorted<T(!new)>(s: seq<T>, le: (T, T) -> bool)
    requires TotalPreorder(le)
    ensures SortedBy(SortBy(s, le), le)
  {
    if s != [] {
      SortBySorted(s[1..], le);
      InsertBySorted(s[0], SortBy(s[1..], le), le);
    }
  }

  /** The first n elements, or all of them when there are fewer (SQL LIMIT n). */
  function Limit<T>(s: seq<T>, n: nat): (r: seq<T>)
    ensures |r| <= n && |r| <= |s|
    ensures |r| == if |s| < n then |s| else n
    ensures forall k :: 0 <= k < |r| ==> r[k] == s[k]
  {
    if |s| <= n then s else s[..n]
  }

  lemma LimitSorted<T>(s: seq<T>, n: nat, le: (T, T) -> bool)
    requires SortedBy(s, le)
    ensures SortedBy(Limit(s, n), le)
  {
  }

  /** A row LIMIT leaves out of a sorted result sorts after every row it keeps. */
  lemma LimitOmitsOnlyLater<T>(s: seq<T>, n: nat, le: (T, T) -> bool, x: T)
    requires SortedBy(s, le)
    requires x in s && x !in Limit(s, n)
    ensures forall k :: 0 <= k < |Limit(s, n)| ==> le(Limit(s, n)[k], x)
  {
    var m :| 0 <= m < |s| && s[m] == x;
    var r := Limit(s, n);
    assert r == s[..|r|];
    assert |r| <= m;
  }

  /** The distinct elements of xs in order of first appearance. */
  function Distinct<T(!new, ==)>(xs: seq<T>): (r: seq<T>)
    ensures forall x :: x in r <==> x in xs
    ensures forall i, j :: 0 <= i < j < |r| ==> r[i] != r[j]
  {
    if xs == [] then []
    else
      var rest := Distinct(xs[..|xs| - 1]);
      var x := xs[|xs| - 1];
      assert xs == xs[..|xs| - 1] + [x];
      if x in rest then rest else rest + [x]
  }

  /** `WHERE p ORDER BY le LIMIT n`: the first min(n, matches) matching rows
      in order, each as often as it matches; every match is returned when
      there are at most n, and a match left out sorts after every row returned. */
  function TopBy<T(!new)>(s: seq<T>, p: T -> bool, le: (T, T) -> bool, n: nat): (r: seq<T>)
    requires TotalPreorder(le)
    ensures |r| == if |Filter(s, p)| < n then |Filter(s, p)| else n
    ensures multiset(r) <= multiset(Filter(s, p))
    ensures forall x :: x in r ==> x in s && p(x)
    ensures SortedBy(r, le)
    ensures |Filter(s, p)| <= n ==> multiset(r) == multiset(Filter(s, p))
    ensures forall x :: x in s && p(x) && x !in r ==> forall k :: 0 <= k < |r| ==> le(r[k], x)
  {
    var matching := Filter(s, p);
    SortBySorted(matching, le);
    var sorted := SortBy(matching, le);
    LimitSorted(sorted, n, le);
    var r := Limit(sorted, n);
    assert multiset(r) <= multiset(sorted) by {
      assert sorted == r + sorted[|r|..];
    }
    forall x | x in r ensures x in s && p(x) {
      assert x in multiset(sorted);
    }
    forall x | x in s && p(x) && x !in r ensures forall k :: 0 <= k < |r| ==> le(r[k], x) {
      assert x in multiset(sorted);
      LimitOmitsOnlyLater(sorted, n, le, x);
    }
    r
  }

  /** Distinct grows by an element only the first time it appears. */
  lemma DistinctSnoc<T(!new)>(xs: seq<T>, y: T)
    ensures Distinct(xs + [y]) == if y in Distinct(xs) then Distinct(xs) else Distinct(xs) + [y]
  {
    assert (xs + [y])[..|xs|] == xs;
  }

  /** Counting by a disjunction of two exclusive conditions adds their counts. */
  lemma {:induction false} CountOr<T(!new)>(s: seq<T>, p: T -> bool, q: T -> bool, r: T -> bool)
    requires forall x :: r(x) == (p(x) || q(x))
    requires forall x :: !(p(x) && q(x))
    ensures Count(s, r) == Count(s, p) + Count(s, q)
  {
    if s != [] {
      CountOr(s[1..], p, q, r);
    }
  }

  /** Replacing one element changes a count by that element's contribution only. */
  lemma {:induction false} CountReplace<T(!new)>(s: seq<T>, k: nat, x: T, p: T -> bool)
    requires k < |s|
    ensures Count(s[k := x], p) + (if p(s[k]) then 1 else 0) == Count(s, p) + (if p(x) then 1 else 0)
  {
    var a, b := s[..k], s[k + 1..];
    assert s == a + [s[k]] + b;
    assert s[k := x] == a + [x] + b;
    FilterAppend(a + [s[k]], b, p);
    FilterAppend(a, [s[k]], p);
    FilterAppend(a + [x], b, p);
    FilterAppend(a, [x], p);
    FilterSingleton(s[k], p);
    FilterSingleton(x, p);
  }
}
