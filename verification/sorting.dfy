/** Sorting under a strict total order, as Python's `sorted` and
    `list.sort` are used by the service: the file listings sorted by name
    and the document listing sorted by a key. */
module Sorting {
  import opened Base

  /** `lt` is a strict total order on the elements of `xs`. */
  predicate StrictTotalOn<T(==)>(lt: (T, T) -> bool, xs: seq<T>) {
    && (forall a | a in xs :: !lt(a, a))
    && (forall a, b | a in xs && b in xs :: a == b || lt(a, b) || lt(b, a))
    && (forall a, b, c | a in xs && b in xs && c in xs && lt(a, b) && lt(b, c) :: lt(a, c))
  }

  /** Strictly increasing: every earlier element is below every later one. */
  predicate SortedBy<T>(s: seq<T>, lt: (T, T) -> bool) {
    forall i, j | 0 <= i < j < |s| :: lt(s[i], s[j])
  }

  /** Put `x` in front of the first element it is below. */
  function Insert<T>(x: T, ys: seq<T>, lt: (T, T) -> bool): (r: seq<T>)
    ensures multiset(r) == multiset(ys) + multiset{x}
  {
    if ys == [] then [x]
    else if lt(x, ys[0]) then [x] + ys
    else
      assert ys == [ys[0]] + ys[1..];
      [ys[0]] + Insert(x, ys[1..], lt)
  }

  function Sort<T>(xs: seq<T>, lt: (T, T) -> bool): (r: seq<T>)
    ensures multiset(r) == multiset(xs)
  {
    if xs == [] then []
    else
      assert xs == [xs[0]] + xs[1..];
      Insert(xs[0], Sort(xs[1..], lt), lt)
  }

  lemma StrictTotalOnSuffix<T>(lt: (T, T) -> bool, xs: seq<T>, k: nat)
    requires StrictTotalOn(lt, xs) && k <= |xs|
    ensures StrictTotalOn(lt, xs[k..])
  {
    assert forall a | a in xs[k..] :: a in xs;
  }

  lemma {:induction false} InsertSorted<T>(x: T, ys: seq<T>, lt: (T, T) -> bool, all: seq<T>)
    requires StrictTotalOn(lt, all)
    requires x in all && (forall y | y in ys :: y in all) && x !in ys
    requires SortedBy(ys, lt)
    ensures SortedBy(Insert(x, ys, lt), lt)
  {
    if ys != [] && !lt(x, ys[0]) {
      var t := ys[1..];
      assert forall y | y in t :: y in ys;
      InsertSorted(x, t, lt, all);
      var rest := Insert(x, t, lt);
      assert lt(ys[0], x);
      forall y | y in rest
        ensures lt(ys[0], y)
      {
        assert y in multiset(rest);
        if y in t {
          var k :| 0 <= k < |t| && t[k] == y;
          assert ys[k + 1] == y;
        }
      }
      ConsSorted(ys[0], rest, lt);
    } else if ys != [] {
      forall y | y in ys
        ensures lt(x, y)
      {
        var k :| 0 <= k < |ys| && ys[k] == y;
        if k > 0 {
          assert lt(ys[0], ys[k]);
        }
      }
      ConsSorted(x, ys, lt);
    }
  }

  /** An element below every element of a strictly increasing sequence
      can go in front of it. */
  lemma ConsSorted<T>(h: T, rest: seq<T>, lt: (T, T) -> bool)
    requires SortedBy(rest, lt) && forall y | y in rest :: lt(h, y)
    ensures SortedBy([h] + rest, lt)
  {
    var r := [h] + rest;
    forall i, j | 0 <= i < j < |r|
      ensures lt(r[i], r[j])
    {
      assert r[j] == rest[j - 1];
      if i > 0 {
        assert r[i] == rest[i - 1];
      }
    }
  }

  /** The result is strictly increasing when the elements are distinct and
      `lt` orders them totally. */
  lemma {:induction false} SortSorted<T>(xs: seq<T>, lt: (T, T) -> bool)
    requires StrictTotalOn(lt, xs) && Distinct(xs)
    ensures SortedBy(Sort(xs, lt), lt)
  {
    if xs != [] {
      var t := xs[1..];
      StrictTotalOnSuffix(lt, xs, 1);
      assert Distinct(t) by {
        forall i, j | 0 <= i < j < |t| ensures t[i] != t[j] {
          assert t[i] == xs[i + 1] && t[j] == xs[j + 1];
        }
      }
      SortSorted(t, lt);
      var s := Sort(t, lt);
      assert forall y | y in s :: y in multiset(t);
      assert forall y | y in t :: y in xs;
      forall k | 0 <= k < |t|
        ensures t[k] != xs[0]
      {
        assert t[k] == xs[k + 1];
      }
      assert xs[0] !in multiset(s);
      InsertSorted(xs[0], s, lt, xs);
    }
  }

  /** The head of a strictly increasing sequence is below every other
      element of it. */
  lemma SortedHead<T>(s: seq<T>, lt: (T, T) -> bool, x: T)
    requires SortedBy(s, lt) && x in s && x != s[0]
    ensures lt(s[0], x)
  {
    var k :| 0 <= k < |s| && s[k] == x;
  }

  lemma MultisetTail<T>(a: seq<T>, b: seq<T>)
    requires a != [] && b != [] && a[0] == b[0] && multiset(a) == multiset(b)
    ensures multiset(a[1..]) == multiset(b[1..])
  {
    assert a == [a[0]] + a[1..] && b == [b[0]] + b[1..];
    assert multiset(a) == multiset{a[0]} + multiset(a[1..]);
    assert multiset(b) == multiset{b[0]} + multiset(b[1..]);
    assert multiset(a[1..]) == multiset(a) - multiset{a[0]};
    assert multiset(b[1..]) == multiset(b) - multiset{b[0]};
  }

  /** Two strictly increasing sequences with the same elements start with
      the same element. */
  lemma SortedSameHead<T>(a: seq<T>, b: seq<T>, lt: (T, T) -> bool)
    requires SortedBy(a, lt) && SortedBy(b, lt)
    requires a != [] && b != [] && multiset(a) == multiset(b)
    requires StrictTotalOn(lt, a)
    ensures a[0] == b[0]
  {
    assert b[0] in multiset(a) && a[0] in multiset(b);
    if a[0] != b[0] {
      SortedHead(a, lt, b[0]);
      SortedHead(b, lt, a[0]);
      assert false;
    }
  }

  /** Two strictly increasing sequences with the same elements are equal:
      the sorted order does not depend on the order of the input. */
  lemma {:induction false} SortedUnique<T>(a: seq<T>, b: seq<T>, lt: (T, T) -> bool)
    requires SortedBy(a, lt) && SortedBy(b, lt)
    requires multiset(a) == multiset(b)
    requires StrictTotalOn(lt, a)
    ensures a == b
    decreases |a|
  {
    assert |b| == |multiset(b)| == |a|;
    if a != [] {
      SortedSameHead(a, b, lt);
      MultisetTail(a, b);
      StrictTotalOnSuffix(lt, a, 1);
      SortedUnique(a[1..], b[1..], lt);
      assert a == [a[0]] + a[1..] && b == [b[0]] + b[1..];
    }
  }

  /** Sorting two listings of the same distinct elements gives the same
      sequence. */
  lemma SortIgnoresInputOrder<T>(xs: seq<T>, ys: seq<T>, lt: (T, T) -> bool)
    requires StrictTotalOn(lt, xs) && Distinct(xs) && Distinct(ys)
    requires multiset(xs) == multiset(ys)
    ensures Sort(xs, lt) == Sort(ys, lt)
  {
    assert forall y | y in ys :: y in multiset(xs);
    StrictTotalOnSubset(lt, xs, ys);
    SortSorted(xs, lt);
    SortSorted(ys, lt);
    var a, b := Sort(xs, lt), Sort(ys, lt);
    assert forall y | y in a :: y in multiset(xs);
    StrictTotalOnSubset(lt, xs, a);
    SortedUnique(a, b, lt);
  }

  /** An order total on `xs` is total on any sequence of its elements. */
  lemma StrictTotalOnSubset<T>(lt: (T, T) -> bool, xs: seq<T>, ys: seq<T>)
    requires StrictTotalOn(lt, xs) && forall y | y in ys :: y in xs
    ensures StrictTotalOn(lt, ys)
  {
  }
  /** Leaving elements out of a strictly increasing sequence keeps it
      strictly increasing. */
  lemma {:induction false} SubsequenceSorted<T>(a: seq<T>, b: seq<T>, lt: (T, T) -> bool)
    requires IsSubsequence(a, b) && SortedBy(b, lt)
    ensures SortedBy(a, lt)
    decreases |b|
  {
    if a != [] {
      var t := b[1..];
      assert SortedBy(t, lt) by {
        forall i, j | 0 <= i < j < |t| ensures lt(t[i], t[j]) {
          assert t[i] == b[i + 1] && t[j] == b[j + 1];
        }
      }
      if a[0] == b[0] {
        SubsequenceSorted(a[1..], t, lt);
        SubsequenceMembers(a[1..], t);
        forall i, j | 0 <= i < j < |a| ensures lt(a[i], a[j]) {
          if i == 0 {
            assert a[j] in a[1..];
            var k :| 0 <= k < |t| && t[k] == a[j];
            assert b[k + 1] == a[j];
          } else {
            assert a[i] == a[1..][i - 1] && a[j] == a[1..][j - 1];
          }
        }
      } else {
        SubsequenceSorted(a, t, lt);
      }
    }
  }

  /** The positions `0 .. n-1` of a sequence of length `n`. */
  function Positions(n: nat): (r: seq<nat>)
    ensures |r| == n && forall i | 0 <= i < n :: r[i] == i
  {
    seq(n, i requires 0 <= i < n => i)
  }

  /** The elements of `xs` taken at positions `p`. */
  function Permute<T>(xs: seq<T>, p: seq<nat>): (r: seq<T>)
    requires forall k | 0 <= k < |p| :: p[k] < |xs|
    ensures |r| == |p| && forall k | 0 <= k < |p| :: r[k] == xs[p[k]]
  {
    seq(|p|, k requires 0 <= k < |p| => xs[p[k]])
  }

  /** A rearrangement of the positions `0 .. n-1` holds each of them once. */
  lemma PermutesPositions(p: seq<nat>, n: nat)
    requires multiset(p) == multiset(Positions(n))
    ensures |p| == n
    ensures forall k | 0 <= k < |p| :: p[k] < n
    ensures forall i | 0 <= i < n :: i in p
  {
    var xs := Positions(n);
    assert |p| == |multiset(p)| == |multiset(xs)| == n;
    forall k | 0 <= k < |p| ensures p[k] < n {
      assert p[k] in multiset(xs);
      var j :| 0 <= j < n && xs[j] == p[k];
    }
    forall i | 0 <= i < n ensures i in p {
      assert xs[i] in multiset(p);
    }
  }
}
