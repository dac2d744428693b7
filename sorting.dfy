/** A sort by a caller-chosen ordering, standing for the library sorts the
    source calls (`sort_values`). Only sortedness and permutation are promised:
    the order of ties is not. */
module Sorting {

  import opened Seqs

  /** `le` orders every pair and is transitive: what a sort key comparison gives. */
  ghost predicate TotalPreorder<T(!new)>(le: (T, T) -> bool) {
    && (forall a, b :: le(a, b) || le(b, a))
    && (forall a, b, c :: le(a, b) && le(b, c) ==> le(a, c))
  }

  predicate SortedBy<T>(s: seq<T>, le: (T, T) -> bool) {
    forall i, j :: 0 <= i < j < |s| ==> le(s[i], s[j])
  }

  function Insert<T>(x: T, s: seq<T>, le: (T, T) -> bool): (r: seq<T>)
    ensures multiset(r) == multiset(s) + multiset{x}
    ensures |r| == |s| + 1
  {
    if s == [] then [x]
    else if le(x, s[0]) then [x] + s
    else
      assert s == [s[0]] + s[1..];
      [s[0]] + Insert(x, s[1..], le)
  }

  /** Insertion sort of `s` by `le`; it returns a permutation of `s`. */
  function SortBy<T>(s: seq<T>, le: (T, T) -> bool): (r: seq<T>)
    ensures multiset(r) == multiset(s)
    ensures |r| == |s|
  {
    if s == [] then []
    else
      assert s == [s[0]] + s[1..];
      Insert(s[0], SortBy(s[1..], le), le)
  }

  lemma {:induction false} InsertSorted<T(!new)>(x: T, s: seq<T>, le: (T, T) -> bool)
    requires TotalPreorder(le)
    requires SortedBy(s, le)
    ensures SortedBy(Insert(x, s, le), le)
  {
    if s == [] {
    } else if le(x, s[0]) {
      var r := [x] + s;
      forall i, j | 0 <= i < j < |r| ensures le(r[i], r[j]) {
        if i == 0 && j > 1 {
          assert le(x, s[0]) && le(s[0], s[j - 1]);
        }
      }
    } else {
      assert le(s[0], x);
      var tail := Insert(x, s[1..], le);
      InsertSorted(x, s[1..], le);
      var r := [s[0]] + tail;
      forall i, j | 0 <= i < j < |r| ensures le(r[i], r[j]) {
        if i == 0 {
          var y := tail[j - 1];
          assert y in multiset(tail);
          assert y in multiset(s[1..]) || y == x;
          if y != x {
            var m :| 0 <= m < |s[1..]| && s[1..][m] == y;
            assert s[m + 1] == y;
          }
        }
      }
    }
  }

  lemma {:induction false} SortBySorted<T(!new)>(s: seq<T>, le: (T, T) -> bool)
    requires TotalPreorder(le)
    ensures SortedBy(SortBy(s, le), le)
  {
    if s != [] {
      SortBySorted(s[1..], le);
      InsertSorted(s[0], SortBy(s[1..], le), le);
    }
  }

  /** Selecting rows from a sorted table leaves them sorted. */
  lemma {:induction false} FilterSorted<T>(s: seq<T>, p: T -> bool, le: (T, T) -> bool)
    requires SortedBy(s, le)
    ensures SortedBy(Filter(s, p), le)
  {
    if s != [] {
      FilterSorted(s[1..], p, le);
      var rest := Filter(s[1..], p);
      forall j | 0 <= j < |rest| ensures le(s[0], rest[j]) {
        assert rest[j] in rest;
        var m :| 0 <= m < |s[1..]| && s[1..][m] == rest[j];
        assert s[m + 1] == rest[j];
      }
    }
  }
}
