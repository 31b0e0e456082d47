/** An in-place, stable insertion sort over any total preorder, the shape of `Array.prototype.sort`
    with a consistent comparator. */
module Sorting {
  import opened Seqs

  /** Any two elements are related one way or the other. */
  ghost predicate Total<T(!new)>(le: (T, T) -> bool) {
    forall x, y :: le(x, y) || le(y, x)
  }

  ghost predicate TotalPreorder<T(!new)>(le: (T, T) -> bool) {
    Total(le) && (forall x, y, z :: le(x, y) && le(y, z) ==> le(x, z))
  }

  predicate Sorted<T>(s: seq<T>, le: (T, T) -> bool) {
    forall i, j :: 0 <= i < j < |s| ==> le(s[i], s[j])
  }

  predicate AdjacentSorted<T>(s: seq<T>, le: (T, T) -> bool) {
    forall k :: 0 < k < |s| ==> le(s[k - 1], s[k])
  }

  lemma {:induction false} AdjacentSortedIsSorted<T(!new)>(s: seq<T>, le: (T, T) -> bool)
    requires TotalPreorder(le)
    requires AdjacentSorted(s, le)
    ensures Sorted(s, le)
  {
    if |s| > 1 {
      var t := s[..|s| - 1];
      assert AdjacentSorted(t, le);
      AdjacentSortedIsSorted(t, le);
      forall i | 0 <= i < |s| - 1
        ensures le(s[i], s[|s| - 1])
      {
        if i < |s| - 2 {
          assert le(t[i], t[|s| - 2]);
        }
      }
    }
  }

  /** Neither may come before the other without the other coming before it: equal keys. */
  function SameKey<T>(e: T, le: (T, T) -> bool): T -> bool {
    x => le(x, e) && le(e, x)
  }

  /** The elements with the same key as `e`, in the order they occur in `s`. */
  function Equivalents<T(!new)>(s: seq<T>, e: T, le: (T, T) -> bool): seq<T> {
    Filter(s, SameKey(e, le))
  }

  /** Two elements with the key of `e` are ordered either way: what transitivity gives the
      swaps of the sort. */
  ghost predicate KeysAgree<T(!new)>(le: (T, T) -> bool) {
    forall e, u, v :: SameKey(e, le)(u) && SameKey(e, le)(v) ==> le(u, v)
  }

  lemma PreorderKeysAgree<T(!new)>(le: (T, T) -> bool)
    requires TotalPreorder(le)
    ensures KeysAgree(le)
  {
    forall e, u, v | SameKey(e, le)(u) && SameKey(e, le)(v)
      ensures le(u, v)
    {
      assert le(u, e) && le(e, v);
    }
  }

  /** A sort is stable when every run of equal-key elements keeps its order. */
  ghost predicate SameEquivalents<T(!new)>(s: seq<T>, t: seq<T>, le: (T, T) -> bool) {
    forall e :: Equivalents(s, e, le) == Equivalents(t, e, le)
  }

  /** Exchanging two neighbours with different keys keeps every run of equal keys in order. */
  lemma SwapKeepsEquivalents<T(!new)>(front: seq<T>, u: T, v: T, back: seq<T>, le: (T, T) -> bool)
    requires KeysAgree(le)
    requires !le(u, v)
    ensures SameEquivalents(front + [v, u] + back, front + [u, v] + back, le)
  {
    forall e
      ensures Equivalents(front + [v, u] + back, e, le) == Equivalents(front + [u, v] + back, e, le)
    {
      FilterSwap(front, u, v, back, SameKey(e, le));
    }
  }

  /** Sorted with the same runs of equal keys determines the sequence: a stable sort has
      exactly one possible result. */
  lemma {:induction false} StableSortUnique<T(!new)>(r1: seq<T>, r2: seq<T>, le: (T, T) -> bool)
    requires TotalPreorder(le)
    requires Sorted(r1, le) && Sorted(r2, le)
    requires SameEquivalents(r1, r2, le)
    ensures r1 == r2
    decreases |r1|
  {
    if r1 == [] || r2 == [] {
      if r1 != [] {
        HeadIsEquivalent(r1, le);
        assert false;
      } else if r2 != [] {
        HeadIsEquivalent(r2, le);
        assert false;
      }
    } else {
      var x, y := r1[0], r2[0];
      assert le(x, x) && le(y, y);
      EquivalentsCons(r1, x, le);
      FilterMembers(r2, SameKey(x, le));
      assert le(y, x);
      EquivalentsCons(r2, y, le);
      FilterMembers(r1, SameKey(y, le));
      assert le(x, y);
      EquivalentsCons(r2, x, le);
      assert SameKey(x, le)(x) && SameKey(x, le)(y);
      assert Equivalents(r1, x, le) == Equivalents(r2, x, le);
      assert Equivalents(r1, x, le)[0] == x && Equivalents(r2, x, le)[0] == y;
      forall e
        ensures Equivalents(r1[1..], e, le) == Equivalents(r2[1..], e, le)
      {
        EquivalentsCons(r1, e, le);
        EquivalentsCons(r2, e, le);
        var head := if SameKey(e, le)(x) then [x] else [];
        assert Equivalents(r1, e, le) == head + Equivalents(r1[1..], e, le);
        assert Equivalents(r2, e, le) == head + Equivalents(r2[1..], e, le);
        assert Equivalents(r1, e, le) == Equivalents(r2, e, le);
        assert (head + Equivalents(r1[1..], e, le))[|head|..] == Equivalents(r1[1..], e, le);
        assert (head + Equivalents(r2[1..], e, le))[|head|..] == Equivalents(r2[1..], e, le);
      }
      StableSortUnique(r1[1..], r2[1..], le);
      assert r1 == [x] + r1[1..] && r2 == [y] + r2[1..];
    }
  }

  lemma EquivalentsCons<T(!new)>(s: seq<T>, e: T, le: (T, T) -> bool)
    requires s != []
    ensures Equivalents(s, e, le) == (if SameKey(e, le)(s[0]) then [s[0]] else []) + Equivalents(s[1..], e, le)
  {
  }

  /** An element has the same key as itself, so it is among its own equivalents. */
  lemma HeadIsEquivalent<T(!new)>(s: seq<T>, le: (T, T) -> bool)
    requires Total(le) && s != []
    ensures Equivalents(s, s[0], le) != []
  {
    assert le(s[0], s[0]);
  }

  /** Sorts `a` stably so that every element may come before every later one, keeping its
      elements. */
  method InsertionSort<T(!new)>(a: array<T>, le: (T, T) -> bool)
    requires TotalPreorder(le)
    modifies a
    ensures Sorted(a[..], le)
    ensures multiset(a[..]) == multiset(old(a[..]))
    ensures SameEquivalents(a[..], old(a[..]), le)
  {
    PreorderKeysAgree(le);
    var i := 0;
    while i < a.Length
      invariant 0 <= i <= a.Length
      invariant forall k :: 0 < k < i ==> le(a[k - 1], a[k])
      invariant multiset(a[..]) == multiset(old(a[..]))
      invariant SameEquivalents(a[..], old(a[..]), le)
    {
      InsertBack(a, i, le);
      i := i + 1;
    }
    assert AdjacentSorted(a[..], le);
    AdjacentSortedIsSorted(a[..], le);
  }

  /** Moves `a[i]` back past the sorted prefix `a[..i]` until it is in place. */
  method InsertBack<T(!new)>(a: array<T>, i: int, le: (T, T) -> bool)
    requires Total(le) && KeysAgree(le)
    requires 0 <= i < a.Length
    requires forall k :: 0 < k < i ==> le(a[k - 1], a[k])
    modifies a
    ensures forall k :: 0 < k <= i ==> le(a[k - 1], a[k])
    ensures multiset(a[..]) == multiset(old(a[..]))
    ensures forall k :: i < k < a.Length ==> a[k] == old(a[k])
    ensures SameEquivalents(a[..], old(a[..]), le)
  {
    var j := i;
    while j > 0 && !le(a[j - 1], a[j])
      invariant 0 <= j <= i
      invariant forall k :: 0 < k < j ==> le(a[k - 1], a[k])
      invariant forall k :: j + 1 < k <= i ==> le(a[k - 1], a[k])
      invariant 0 < j < i ==> le(a[j - 1], a[j + 1])
      invariant j < i ==> le(a[j], a[j + 1])
      invariant multiset(a[..]) == multiset(old(a[..]))
      invariant forall k :: i < k < a.Length ==> a[k] == old(a[k])
      invariant SameEquivalents(a[..], old(a[..]), le)
    {
      assert le(a[j], a[j - 1]);
      SwapBack(a, j, le);
      j := j - 1;
    }
  }

  /** Exchanges `a[j - 1]` and `a[j]`, two neighbours with different keys. */
  method SwapBack<T(!new)>(a: array<T>, j: int, le: (T, T) -> bool)
    requires KeysAgree(le)
    requires 0 < j < a.Length && !le(a[j - 1], a[j])
    modifies a
    ensures a[j - 1] == old(a[j]) && a[j] == old(a[j - 1])
    ensures forall k :: 0 <= k < a.Length && k != j - 1 && k != j ==> a[k] == old(a[k])
    ensures multiset(a[..]) == multiset(old(a[..]))
    ensures SameEquivalents(a[..], old(a[..]), le)
  {
    ghost var front, u, v, back := a[..j - 1], a[j - 1], a[j], a[j + 1..];
    assert a[..] == front + [u, v] + back;
    SwapKeepsEquivalents(front, u, v, back, le);
    a[j - 1], a[j] := a[j], a[j - 1];
    assert a[..] == front + [v, u] + back;
  }
}
