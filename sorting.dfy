/**
 * `std::sort` over a vector of ids, specified only by what it promises: the
 * result is ascending and a permutation of the input.
 */
module Sorting {
  import opened Types

  predicate Sorted(s: seq<Id>)
  {
    forall i, j :: 0 <= i < j < |s| ==> s[i] <= s[j]
  }

  predicate StrictlyAscending(s: seq<Id>)
  {
    forall i, j :: 0 <= i < j < |s| ==> s[i] < s[j]
  }

  /** Sorts a copy of `s` in an array by insertion. */
  method Sort(s: seq<Id>) returns (r: seq<Id>)
    ensures Sorted(r)
    ensures multiset(r) == multiset(s)
  {
    var a := new Id[|s|](i requires 0 <= i < |s| => s[i]);
    assert a[..] == s;
    var i := 0;
    while i < a.Length
      invariant 0 <= i <= a.Length
      invariant Sorted(a[..i])
      invariant multiset(a[..]) == multiset(s)
    {
      InsertLast(a, i);
      i := i + 1;
    }
    assert a[..a.Length] == a[..];
    r := a[..];
  }

  /** Moves `a[i]` left into place, so that the sorted prefix `a[..i]` grows by one. */
  method InsertLast(a: array<Id>, i: int)
    requires 0 <= i < a.Length
    requires Sorted(a[..i])
    modifies a
    ensures Sorted(a[..i + 1])
    ensures multiset(a[..]) == multiset(old(a[..]))
  {
    var j := i;
    while 0 < j && a[j] < a[j - 1]
      invariant 0 <= j <= i
      invariant multiset(a[..]) == multiset(old(a[..]))
      invariant forall p, q :: 0 <= p < q < j ==> a[p] <= a[q]
      invariant forall p, q :: j <= p < q <= i ==> a[p] <= a[q]
      invariant forall p, q :: 0 <= p < j < q <= i ==> a[p] <= a[q]
    {
      Swap(a, j - 1, j);
      j := j - 1;
    }
  }

  method Swap(a: array<Id>, i: int, j: int)
    requires 0 <= i < j < a.Length
    modifies a
    ensures a[i] == old(a[j]) && a[j] == old(a[i])
    ensures forall k :: 0 <= k < a.Length && k != i && k != j ==> a[k] == old(a[k])
    ensures multiset(a[..]) == multiset(old(a[..]))
  {
    a[i], a[j] := a[j], a[i];
  }

  /** A multiset has exactly one ascending arrangement. */
  lemma {:induction false} SortedUnique(a: seq<Id>, b: seq<Id>)
    requires Sorted(a) && Sorted(b)
    requires multiset(a) == multiset(b)
    ensures a == b
    decreases |a|
  {
    if |a| == 0 {
      assert |multiset(b)| == 0;
    } else {
      assert |b| == |multiset(b)| == |multiset(a)| == |a|;
      HeadIsLeast(a, b[0]);
      HeadIsLeast(b, a[0]);
      assert multiset(a[1..]) == multiset(b[1..]) by {
        assert a == [a[0]] + a[1..] && b == [b[0]] + b[1..];
        assert multiset(a) == multiset{a[0]} + multiset(a[1..]);
        assert multiset(b) == multiset{b[0]} + multiset(b[1..]);
        assert a[0] == b[0];
        assert multiset(a[1..]) == multiset(a) - multiset{a[0]};
        assert multiset(b[1..]) == multiset(b) - multiset{b[0]};
      }
      SortedUnique(a[1..], b[1..]);
    }
  }

  /** The head of a sorted non-empty sequence is its least element. */
  lemma HeadIsLeast(a: seq<Id>, x: Id)
    requires Sorted(a)
    requires x in multiset(a)
    ensures a[0] <= x
  {
    var k :| 0 <= k < |a| && a[k] == x;
  }

  /** A sorted permutation of a strictly ascending sequence is that sequence. */
  lemma SortedPermutationOfAscending(r: seq<Id>, s: seq<Id>)
    requires StrictlyAscending(s)
    requires Sorted(r) && multiset(r) == multiset(s)
    ensures r == s
    ensures StrictlyAscending(r)
  {
    SortedUnique(r, s);
  }
}
