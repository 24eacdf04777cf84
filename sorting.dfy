/**
 * `Array.prototype.sort` with a comparator, as a stable insertion sort.
 * A comparator returns a negative, zero or positive number, as in
 * JavaScript; `a` may stay before `b` when `cmp(a, b) <= 0`.
 */
module Sorting {

  /** The comparator never asks for both `a` after `b` and `b` after `a`. */
  ghost predicate Antisymmetric<T(!new)>(cmp: (T, T) -> int)
  {
    forall a, b :: cmp(a, b) > 0 ==> cmp(b, a) <= 0
  }

  /** Every neighbouring pair is in comparator order. */
  ghost predicate SortedBy<T>(s: seq<T>, cmp: (T, T) -> int)
  {
    forall i :: 0 <= i < |s| - 1 ==> cmp(s[i], s[i + 1]) <= 0
  }

  /** Inserts `x` before the first element it may precede; equal elements stay ahead of it only if they came first. */
  function Insert<T(==)>(x: T, s: seq<T>, cmp: (T, T) -> int): (r: seq<T>)
    ensures multiset(r) == multiset(s) + multiset{x}
    ensures |r| == |s| + 1
  {
    if s == [] then [x]
    else if cmp(x, s[0]) <= 0 then [x] + s
    else
      assert s == [s[0]] + s[1..];
      [s[0]] + Insert(x, s[1..], cmp)
  }

  /** The sorted copy `[...s].sort(cmp)`. */
  function SortBy<T(==)>(s: seq<T>, cmp: (T, T) -> int): (r: seq<T>)
    ensures multiset(r) == multiset(s)
    ensures |r| == |s|
  {
    if s == [] then []
    else
      assert s == [s[0]] + s[1..];
      Insert(s[0], SortBy(s[1..], cmp), cmp)
  }

  lemma {:induction false} InsertSorted<T(!new)>(x: T, s: seq<T>, cmp: (T, T) -> int)
    requires Antisymmetric(cmp) && SortedBy(s, cmp)
    ensures SortedBy(Insert(x, s, cmp), cmp)
    ensures Insert(x, s, cmp)[0] == x || (s != [] && Insert(x, s, cmp)[0] == s[0])
  {
    if s != [] && cmp(x, s[0]) > 0 {
      InsertSorted(x, s[1..], cmp);
    }
  }

  /** With a comparator that never contradicts itself, the result is in comparator order. */
  lemma {:induction false} SortBySorted<T(!new)>(s: seq<T>, cmp: (T, T) -> int)
    requires Antisymmetric(cmp)
    ensures SortedBy(SortBy(s, cmp), cmp)
  {
    if s != [] {
      SortBySorted(s[1..], cmp);
      InsertSorted(s[0], SortBy(s[1..], cmp), cmp);
    }
  }
}
