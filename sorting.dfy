/**
  Ascending integer sort, the result of `xs.sort((a, b) => a - b)`.
  The comparator `a - b` orders integers numerically, so every correct
  sort yields the one ascending permutation of its input (SortedUnique);
  Sort below computes that permutation by insertion.
 */
module Sorting {

  /** Ascending order under the comparator `(a, b) => a - b`. */
  predicate Sorted(s: seq<int>) {
    forall i, j :: 0 <= i < j < |s| ==> s[i] <= s[j]
  }

  /** A bound below every element of `u` and below `x` is below every
      element of a sequence holding exactly those. */
  lemma LowerBoundKept(t: seq<int>, u: seq<int>, x: int, lo: int)
    requires multiset(t) == multiset(u) + multiset{x}
    requires lo <= x && forall i :: 0 <= i < |u| ==> lo <= u[i]
    ensures forall k :: 0 <= k < |t| ==> lo <= t[k]
  {
    forall k | 0 <= k < |t| ensures lo <= t[k] {
      assert t[k] in multiset(t);
      if t[k] != x {
        assert t[k] in multiset(u);
        var i :| 0 <= i < |u| && u[i] == t[k];
      }
    }
  }

  /** A value below every element of an ascending sequence can go first. */
  lemma ConsSorted(x: int, t: seq<int>)
    requires Sorted(t) && forall k :: 0 <= k < |t| ==> x <= t[k]
    ensures Sorted([x] + t)
  {
  }

  /** Puts `x` into its place in the ascending sequence `s`. */
  function Insert(s: seq<int>, x: int): (r: seq<int>)
    requires Sorted(s)
    ensures Sorted(r)
    ensures multiset(r) == multiset(s) + multiset{x}
  {
    if s == [] then [x]
    else if x <= s[0] then [x] + s
    else
      var tail := Insert(s[1..], x);
      assert s == [s[0]] + s[1..];
      LowerBoundKept(tail, s[1..], x, s[0]);
      ConsSorted(s[0], tail);
      assert multiset([s[0]] + tail) == multiset{s[0]} + multiset(tail);
      [s[0]] + tail
  }

  /** The ascending permutation of `s`. */
  function Sort(s: seq<int>): (r: seq<int>)
    ensures Sorted(r)
    ensures multiset(r) == multiset(s)
  {
    if s == [] then []
    else
      assert s == s[..|s| - 1] + [s[|s| - 1]];
      Insert(Sort(s[..|s| - 1]), s[|s| - 1])
  }

  /** The head of an ascending sequence is its least element. */
  lemma HeadIsLeast(s: seq<int>, x: int)
    requires Sorted(s) && x in s
    ensures s[0] <= x
  {
    var k :| 0 <= k < |s| && s[k] == x;
  }

  /** Removing the head keeps a sequence ascending. */
  lemma TailSorted(s: seq<int>)
    requires Sorted(s) && s != []
    ensures Sorted(s[1..])
  {
  }

  /** Equal heads and equal elements leave equal elements in the tails. */
  lemma SameTails(a: seq<int>, b: seq<int>)
    requires a != [] && b != [] && a[0] == b[0]
    requires multiset(a) == multiset(b)
    ensures multiset(a[1..]) == multiset(b[1..])
  {
    assert a == [a[0]] + a[1..];
    assert b == [b[0]] + b[1..];
    var ta, tb := multiset(a[1..]), multiset(b[1..]);
    assert multiset{a[0]} + ta == multiset{a[0]} + tb;
    forall v ensures ta[v] == tb[v] {
      assert (multiset{a[0]} + ta)[v] == (multiset{a[0]} + tb)[v];
    }
  }

  /** Two ascending sequences with the same elements are equal: the sorted
      order of a list is independent of the sorting algorithm. */
  lemma {:induction false} SortedUnique(a: seq<int>, b: seq<int>)
    requires Sorted(a) && Sorted(b)
    requires multiset(a) == multiset(b)
    ensures a == b
  {
    if a != [] {
      assert |b| == |a| by {
        assert |b| == |multiset(b)|;
      }
      var x, y := a[0], b[0];
      assert x == y by {
        assert x in multiset(b) && y in multiset(a);
        HeadIsLeast(a, y);
        HeadIsLeast(b, x);
      }
      assert a == [x] + a[1..];
      assert b == [y] + b[1..];
      SameTails(a, b);
      TailSorted(a);
      TailSorted(b);
      SortedUnique(a[1..], b[1..]);
    }
  }

  /** Appending one value and sorting again is a sorted insertion. */
  lemma AppendThenSort(s: seq<int>, x: int)
    requires Sorted(s)
    ensures Sort(s + [x]) == Insert(s, x)
  {
    SortedUnique(Sort(s + [x]), Insert(s, x));
  }
}
