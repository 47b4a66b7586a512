/**
  Swift's `sorted(by: areInIncreasingOrder)`, modelled as an insertion sort
  over a comparator given as a function value. Swift demands a strict weak
  ordering of the comparator; the sortedness lemma needs only its strict
  partial-order part (irreflexive and transitive).
*/
module Sorting {

  ghost predicate StrictOrder<T(!new)>(less: (T, T) -> bool) {
    && (forall x :: !less(x, x))
    && (forall x, y, z :: less(x, y) && less(y, z) ==> less(x, z))
  }

  /** No later element is strictly before an earlier one. */
  ghost predicate SortedBy<T>(less: (T, T) -> bool, s: seq<T>) {
    forall i, j :: 0 <= i < j < |s| ==> !less(s[j], s[i])
  }

  function Insert<T>(less: (T, T) -> bool, x: T, s: seq<T>): (r: seq<T>)
    ensures multiset(r) == multiset(s) + multiset{x}
  {
    if s == [] then [x]
    else if less(x, s[0]) then [x] + s
    else assert s == [s[0]] + s[1..]; [s[0]] + Insert(less, x, s[1..])
  }

  function InsertionSort<T>(less: (T, T) -> bool, s: seq<T>): (r: seq<T>)
    ensures multiset(r) == multiset(s)
    ensures |r| == |s|
  {
    if s == [] then []
    else assert s == [s[0]] + s[1..]; Insert(less, s[0], InsertionSort(less, s[1..]))
  }

  lemma {:induction false} InsertSorted<T(!new)>(less: (T, T) -> bool, x: T, s: seq<T>)
    requires StrictOrder(less) && SortedBy(less, s)
    ensures SortedBy(less, Insert(less, x, s))
  {
    if s == [] {
    } else if less(x, s[0]) {
      var r := [x] + s;
      forall i, j | 0 <= i < j < |r| ensures !less(r[j], r[i]) {
        if i == 0 {
          var y, first := s[j - 1], s[0];
          assert r[j] == y;
          assert less(y, x) ==> less(y, first);
        } else {
          assert r[i] == s[i - 1] && r[j] == s[j - 1];
        }
      }
    } else {
      var t := Insert(less, x, s[1..]);
      InsertSorted(less, x, s[1..]);
      forall k | 0 <= k < |t| ensures !less(t[k], s[0]) {
        assert t[k] in multiset(t);
        assert t[k] == x || t[k] in s[1..];
      }
      var r := [s[0]] + t;
      forall i, j | 0 <= i < j < |r| ensures !less(r[j], r[i]) {
        if i > 0 {
          assert r[i] == t[i - 1] && r[j] == t[j - 1];
        }
      }
    }
  }

  /** Given a strict order, the result of the sort is ordered by it. */
  lemma {:induction false} InsertionSortSorted<T(!new)>(less: (T, T) -> bool, s: seq<T>)
    requires StrictOrder(less)
    ensures SortedBy(less, InsertionSort(less, s))
  {
    if s != [] {
      InsertionSortSorted(less, s[1..]);
      InsertSorted(less, s[0], InsertionSort(less, s[1..]));
    }
  }

  /** Swift's `String <`: lexicographic order on characters. */
  predicate LexLess(a: string, b: string) {
    if a == [] then b != []
    else if b == [] then false
    else if a[0] != b[0] then a[0] < b[0]
    else LexLess(a[1..], b[1..])
  }

  lemma {:induction false} LexLessIrreflexive(a: string)
    ensures !LexLess(a, a)
  {
    if a != [] {
      LexLessIrreflexive(a[1..]);
    }
  }

  lemma {:induction false} LexLessTransitive(a: string, b: string, c: string)
    requires LexLess(a, b) && LexLess(b, c)
    ensures LexLess(a, c)
  {
    if a != [] && b != [] && c != [] && a[0] == b[0] && b[0] == c[0] {
      LexLessTransitive(a[1..], b[1..], c[1..]);
    }
  }
}
