/** Small failure-carrying datatypes and sequence helpers shared by every
    other module of the model. */
module Base {

  /** Python's `X | None`. */
  datatype Option<+T> = None | Some(value: T) {
    function GetOr(default: T): T {
      match this
      case Some(v) => v
      case None => default
    }
  }

  /** The result of a Python computation that may raise. `Raised` stands
      for any exception that escapes (TypeError, AttributeError, ...). */
  datatype Outcome<+T> = Ok(value: T) | Raised

  predicate HasPrefix<T(==)>(s: seq<T>, p: seq<T>) {
    |p| <= |s| && s[..|p|] == p
  }

  predicate HasSuffix<T(==)>(s: seq<T>, p: seq<T>) {
    |p| <= |s| && s[|s| - |p|..] == p
  }

  /** `sub` occurs in `s` starting at index `i`. */
  predicate OccursAt<T(==)>(s: seq<T>, sub: seq<T>, i: int) {
    0 <= i && i + |sub| <= |s| && s[i..i + |sub|] == sub
  }

  /** Python's `sub in s` on two strings. */
  predicate IsSubstring<T(==)>(sub: seq<T>, s: seq<T>) {
    exists i | 0 <= i <= |s| - |sub| :: OccursAt(s, sub, i)
  }

  /** The first `n` elements, or all of them when there are fewer. */
  function Take<T>(s: seq<T>, n: int): (r: seq<T>)
    ensures |r| == if n <= 0 then 0 else if n < |s| then n else |s|
    ensures r == s[..|r|]
  {
    if n <= 0 then [] else if n < |s| then s[..n] else s
  }

  function Max(a: int, b: int): int { if a < b then b else a }

  function Min(a: int, b: int): int { if a < b then a else b }

  predicate Distinct<T(==)>(s: seq<T>) {
    forall i, j :: 0 <= i < j < |s| ==> s[i] != s[j]
  }

  /** `s` lists every element of `keys` exactly once, in some order: what a
      directory listing (`glob`, `iterdir`) returns. */
  predicate Enumerates<T(==)>(s: seq<T>, keys: set<T>) {
    && Distinct(s)
    && (forall i | 0 <= i < |s| :: s[i] in keys)
    && (forall x | x in keys :: x in s)
  }

  /** Python's bound normalisation for `s[lo:hi]` with step 1. */
  function SliceBound(i: int, n: nat): (r: nat)
    ensures r <= n
    ensures 0 <= i <= n ==> r == i
  {
    if i < 0 then (if i + n < 0 then 0 else i + n) else if i > n then n else i
  }

  /** Python's `s[lo:hi]`, negative and out-of-range bounds included. */
  function PySlice<T>(s: seq<T>, lo: int, hi: int): (r: seq<T>)
    ensures |r| <= |s|
    ensures 0 <= lo <= hi ==> r == s[Min(lo, |s|)..Min(hi, |s|)]
    ensures lo == 0 ==> r == s[..|r|]
  {
    var a := SliceBound(lo, |s|);
    var b := SliceBound(hi, |s|);
    if a < b then s[a..b] else []
  }

  /** `a` is `b` with some elements left out, the rest kept in order. */
  predicate IsSubsequence<T(==)>(a: seq<T>, b: seq<T>)
    decreases |b|
  {
    if a == [] then true
    else if b == [] then false
    else if a[0] == b[0] then IsSubsequence(a[1..], b[1..])
    else IsSubsequence(a, b[1..])
  }

  lemma {:induction false} SubsequenceMembers<T>(a: seq<T>, b: seq<T>)
    requires IsSubsequence(a, b)
    ensures |a| <= |b|
    ensures forall x :: x in a ==> x in b
    decreases |b|
  {
    if a == [] {
    } else if a[0] == b[0] {
      SubsequenceMembers(a[1..], b[1..]);
      assert forall x :: x in a ==> x == a[0] || x in a[1..];
    } else {
      SubsequenceMembers(a, b[1..]);
    }
  }
}
