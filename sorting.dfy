/**
 * Insertion sort by an integer rank: the order an `ORDER BY` clause gives a
 * query's rows, and the order JavaScript lists an object's array-index keys.
 * Rows of equal rank keep their order.
 */
module Sorting {
  predicate SortedBy<T>(s: seq<T>, rank: T -> int) {
    forall i, j :: 0 <= i < j < |s| ==> rank(s[i]) <= rank(s[j])
  }

  /** Puts `x` before the first element of higher rank. */
  function InsertBy<T(==)>(x: T, sorted: seq<T>, rank: T -> int): (r: seq<T>)
    ensures multiset(r) == multiset(sorted) + multiset{x}
  {
    if sorted == [] || rank(x) <= rank(sorted[0]) then [x] + sorted
    else
      assert sorted == [sorted[0]] + sorted[1..];
      [sorted[0]] + InsertBy(x, sorted[1..], rank)
  }

  function SortBy<T(==)>(s: seq<T>, rank: T -> int): (r: seq<T>)
    ensures multiset(r) == multiset(s)
  {
    if s == [] then []
    else
      assert s == [s[0]] + s[1..];
      InsertBy(s[0], SortBy(s[1..], rank), rank)
  }

  lemma {:induction false} InsertBySorted<T>(x: T, sorted: seq<T>, rank: T -> int)
    requires SortedBy(sorted, rank)
    ensures SortedBy(InsertBy(x, sorted, rank), rank)
  {
    if sorted != [] && rank(x) > rank(sorted[0]) {
      var rest := InsertBy(x, sorted[1..], rank);
      InsertBySorted(x, sorted[1..], rank);
      forall j | 0 <= j < |rest| ensures rank(sorted[0]) <= rank(rest[j]) {
        assert rest[j] in multiset(rest);
        if rest[j] != x {
          assert rest[j] in multiset(sorted[1..]);
          assert rest[j] in sorted[1..];
        }
      }
    }
  }

  /** The result is ordered by rank (and, by its contract, a permutation of the input). */
  lemma {:induction false} SortBySorted<T>(s: seq<T>, rank: T -> int)
    ensures SortedBy(SortBy(s, rank), rank)
  {
    if s != [] {
      SortBySorted(s[1..], rank);
      InsertBySorted(s[0], SortBy(s[1..], rank), rank);
    }
  }
}
