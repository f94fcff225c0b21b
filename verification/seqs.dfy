/** The LINQ `Where` operator over sequences, and how many elements it keeps. */
module Seqs {

  /** The elements of `s` that satisfy `p`, in their original order. */
  function Filter<T(!new)>(s: seq<T>, p: T -> bool): (r: seq<T>)
    ensures |r| <= |s|
    ensures forall x :: x in r <==> x in s && p(x)
    ensures forall i :: 0 <= i < |r| ==> p(r[i])
    ensures multiset(r) <= multiset(s)
    decreases |s|
  {
    if s == [] then []
    else
      assert s == [s[0]] + s[1..];
      if p(s[0]) then [s[0]] + Filter(s[1..], p)
    else Filter(s[1..], p)
  }

  /** Every element satisfying the predicate is kept as often as it occurs; no other is kept. */
  lemma {:induction false} FilterCounts<T(!new)>(s: seq<T>, p: T -> bool, x: T)
    ensures multiset(Filter(s, p))[x] == if p(x) then multiset(s)[x] else 0
    decreases |s|
  {
    if s != [] {
      FilterCounts(s[1..], p, x);
      assert s == [s[0]] + s[1..];
    }
  }

  /**
   * Filtering a concatenation filters each part and keeps the parts in order;
   * with a one-element left part this says every kept element keeps its place.
   */
  lemma {:induction false} FilterConcat<T(!new)>(a: seq<T>, b: seq<T>, p: T -> bool)
    ensures Filter(a + b, p) == Filter(a, p) + Filter(b, p)
    decreases |a|
  {
    if a != [] {
      var ab := a + b;
      assert ab[0] == a[0] && ab[1..] == a[1..] + b;
      FilterConcat(a[1..], b, p);
      if p(a[0]) {
        assert Filter(ab, p) == [a[0]] + Filter(a[1..] + b, p);
        assert Filter(a, p) == [a[0]] + Filter(a[1..], p);
      } else {
        assert Filter(ab, p) == Filter(a[1..] + b, p);
        assert Filter(a, p) == Filter(a[1..], p);
      }
    } else {
      assert a + b == b;
    }
  }

  /** Nothing is kept exactly when no element satisfies the predicate. */
  lemma FilterEmpty<T(!new)>(s: seq<T>, p: T -> bool)
    ensures |Filter(s, p)| == 0 <==> forall i :: 0 <= i < |s| ==> !p(s[i])
  {
    if |Filter(s, p)| != 0 {
      var x := Filter(s, p)[0];
      assert x in Filter(s, p);
    }
  }

  /** If at least two elements are kept, two distinct positions satisfy the predicate. */
  lemma {:induction false} FilterTwoSound<T(!new)>(s: seq<T>, p: T -> bool)
    requires |Filter(s, p)| >= 2
    ensures exists i, j :: 0 <= i < j < |s| && p(s[i]) && p(s[j])
    decreases |s|
  {
    var t := s[1..];
    if p(s[0]) {
      assert Filter(t, p)[0] in Filter(t, p);
      var j' :| 0 <= j' < |t| && t[j'] == Filter(t, p)[0];
      assert 0 < j' + 1 < |s| && p(s[0]) && p(s[j' + 1]);
    } else {
      FilterTwoSound(t, p);
      var i', j' :| 0 <= i' < j' < |t| && p(t[i']) && p(t[j']);
      assert 0 <= i' + 1 < j' + 1 < |s| && p(s[i' + 1]) && p(s[j' + 1]);
    }
  }

  /** Two distinct positions that satisfy the predicate make the filter keep at least two elements. */
  lemma {:induction false} FilterTwoComplete<T(!new)>(s: seq<T>, p: T -> bool, i: nat, j: nat)
    requires i < j < |s| && p(s[i]) && p(s[j])
    ensures |Filter(s, p)| >= 2
    decreases |s|
  {
    var t := s[1..];
    if i == 0 {
      assert t[j - 1] in Filter(t, p);
    } else {
      FilterTwoComplete(t, p, i - 1, j - 1);
    }
  }

  /** At least two elements are kept exactly when two distinct positions satisfy the predicate. */
  lemma FilterTwo<T(!new)>(s: seq<T>, p: T -> bool)
    ensures |Filter(s, p)| >= 2 <==> exists i, j :: 0 <= i < j < |s| && p(s[i]) && p(s[j])
  {
    if |Filter(s, p)| >= 2 {
      FilterTwoSound(s, p);
    }
    if exists i, j :: 0 <= i < j < |s| && p(s[i]) && p(s[j]) {
      var i, j :| 0 <= i < j < |s| && p(s[i]) && p(s[j]);
      FilterTwoComplete(s, p, i, j);
    }
  }

  /** A predicate that holds everywhere keeps the whole sequence. */
  lemma {:induction false} FilterAll<T(!new)>(s: seq<T>, p: T -> bool)
    requires forall i :: 0 <= i < |s| ==> p(s[i])
    ensures Filter(s, p) == s
    decreases |s|
  {
    if s != [] {
      FilterAll(s[1..], p);
    }
  }
}
