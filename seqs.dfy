/** Whole-column operations on sequences of rows: boolean-mask selection,
    map-then-dropna, and the order-of-appearance `unique`. */
module Seqs {

  import opened Wrappers

  /** The elements of `s` that satisfy `p`, in their original order
      (a table indexed by a boolean mask). */
  function Filter<T>(s: seq<T>, p: T -> bool): (r: seq<T>)
    ensures |r| <= |s|
    ensures forall x :: x in r ==> x in s && p(x)
    ensures forall x :: x in s && p(x) ==> x in r
    ensures multiset(r) <= multiset(s)
  {
    if s == [] then []
    else
      assert s == [s[0]] + s[1..];
      (if p(s[0]) then [s[0]] else []) + Filter(s[1..], p)
  }

  /** Selection keeps relative order: filtering a concatenation filters each part. */
  lemma {:induction false} FilterConcat<T>(a: seq<T>, b: seq<T>, p: T -> bool)
    ensures Filter(a + b, p) == Filter(a, p) + Filter(b, p)
  {
    if a == [] {
      assert a + b == b;
    } else {
      var head := if p(a[0]) then [a[0]] else [];
      assert (a + b)[0] == a[0] && (a + b)[1..] == a[1..] + b;
      calc {
        Filter(a + b, p);
        head + Filter(a[1..] + b, p);
        { FilterConcat(a[1..], b, p); }
        head + (Filter(a[1..], p) + Filter(b, p));
        (head + Filter(a[1..], p)) + Filter(b, p);
      }
    }
  }

  /** Converts every element with `f` and drops the ones that did not convert
      (a column conversion followed by `dropna`), keeping the order. */
  function Collect<A, B>(s: seq<A>, f: A -> Option<B>): (r: seq<B>)
    ensures |r| <= |s|
    ensures forall x :: x in s && f(x).Some? ==> f(x).value in r
    ensures forall y :: y in r ==> exists x :: x in s && f(x) == Some(y)
  {
    if s == [] then []
    else
      var rest := Collect(s[1..], f);
      assert forall y :: y in rest ==> exists x :: x in s && f(x) == Some(y) by {
        forall y | y in rest ensures exists x :: x in s && f(x) == Some(y) {
          var x :| x in s[1..] && f(x) == Some(y);
          assert x in s;
        }
      }
      (match f(s[0]) case Some(y) => [y] case None => []) + rest
  }

  /** Conversion with dropping keeps relative order as well. */
  lemma {:induction false} CollectConcat<A, B>(a: seq<A>, b: seq<A>, f: A -> Option<B>)
    ensures Collect(a + b, f) == Collect(a, f) + Collect(b, f)
  {
    if a == [] {
      assert a + b == b;
    } else {
      var head := match f(a[0]) case Some(y) => [y] case None => [];
      assert (a + b)[0] == a[0] && (a + b)[1..] == a[1..] + b;
      calc {
        Collect(a + b, f);
        head + Collect(a[1..] + b, f);
        { CollectConcat(a[1..], b, f); }
        head + (Collect(a[1..], f) + Collect(b, f));
        (head + Collect(a[1..], f)) + Collect(b, f);
      }
    }
  }

  /** Sequences with the same multiset hold the same values. */
  lemma SameElements<T>(s: seq<T>, t: seq<T>)
    requires multiset(s) == multiset(t)
    ensures forall x :: x in s <==> x in t
  {
    forall x ensures x in s <==> x in t {
      assert x in s <==> x in multiset(s);
      assert x in t <==> x in multiset(t);
    }
  }

  /** The values occurring in `s`. */
  function Elements<T>(s: seq<T>): set<T> {
    set x | x in s
  }

  /** No value occurs twice in `s`. */
  predicate NoDuplicates<T(==)>(s: seq<T>) {
    forall i, j :: 0 <= i < j < |s| ==> s[i] != s[j]
  }

  /** The distinct elements of `s` in order of first appearance (pandas `unique`). */
  function Distinct<T(==)>(s: seq<T>): (r: seq<T>)
    ensures forall x :: x in r ==> x in s
    ensures forall x :: x in s ==> x in r
    ensures NoDuplicates(r)
  {
    if s == [] then []
    else
      var r := Distinct(s[..|s| - 1]);
      var x := s[|s| - 1];
      assert s == s[..|s| - 1] + [x];
      if x in r then r else r + [x]
  }
}
