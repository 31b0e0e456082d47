/** `Array.prototype.filter`, `slice(0, n)` and the facts about them the views depend on. */
module Seqs {

  /** `s.filter(keep)`: the elements that pass, in their original order. */
  function Filter<T(!new)>(s: seq<T>, keep: T -> bool): (r: seq<T>)
    ensures |r| <= |s|
  {
    if s == [] then [] else (if keep(s[0]) then [s[0]] else []) + Filter(s[1..], keep)
  }

  /** The kept elements are exactly the elements that pass. */
  lemma {:induction false} FilterMembers<T(!new)>(s: seq<T>, keep: T -> bool)
    ensures forall x :: x in Filter(s, keep) <==> x in s && keep(x)
  {
    if s != [] {
      FilterMembers(s[1..], keep);
      assert s == [s[0]] + s[1..];
    }
  }

  /** Filtering distributes over concatenation, so the relative order is kept. */
  lemma {:induction false} FilterAppend<T(!new)>(a: seq<T>, b: seq<T>, keep: T -> bool)
    ensures Filter(a + b, keep) == Filter(a, keep) + Filter(b, keep)
  {
    if a == [] {
      assert a + b == b;
    } else {
      assert (a + b)[1..] == a[1..] + b;
      FilterAppend(a[1..], b, keep);
      var head := if keep(a[0]) then [a[0]] else [];
      assert Filter(a + b, keep) == head + (Filter(a[1..], keep) + Filter(b, keep));
    }
  }

  /** Exchanging two neighbours that do not both pass leaves the filtered sequence as it was. */
  lemma FilterSwap<T(!new)>(front: seq<T>, u: T, v: T, back: seq<T>, keep: T -> bool)
    requires !(keep(u) && keep(v))
    ensures Filter(front + [v, u] + back, keep) == Filter(front + [u, v] + back, keep)
  {
    assert Filter([u, v], keep) == Filter([v, u], keep) by {
      assert [u, v][1..] == [v] && [v, u][1..] == [u];
    }
    FilterAppend(front, [u, v], keep);
    FilterAppend(front + [u, v], back, keep);
    FilterAppend(front, [v, u], keep);
    FilterAppend(front + [v, u], back, keep);
  }

  /** When everything passes, nothing is removed. */
  lemma {:induction false} FilterKeepsAll<T(!new)>(s: seq<T>, keep: T -> bool)
    requires forall i :: 0 <= i < |s| ==> keep(s[i])
    ensures Filter(s, keep) == s
  {
    if s != [] {
      FilterKeepsAll(s[1..], keep);
    }
  }

  /** When nothing passes, nothing is kept. */
  lemma {:induction false} FilterKeepsNone<T(!new)>(s: seq<T>, keep: T -> bool)
    requires forall i :: 0 <= i < |s| ==> !keep(s[i])
    ensures Filter(s, keep) == []
  {
    if s != [] {
      FilterKeepsNone(s[1..], keep);
    }
  }

  /** When exactly the element at `k` fails, filtering removes just that element. */
  lemma {:induction false} FilterDropsOne<T(!new)>(s: seq<T>, k: nat, keep: T -> bool)
    requires k < |s| && !keep(s[k])
    requires forall i :: 0 <= i < |s| && i != k ==> keep(s[i])
    ensures Filter(s, keep) == s[..k] + s[k + 1..]
  {
    var t := s[1..];
    if k == 0 {
      forall i | 0 <= i < |t|
        ensures keep(t[i])
      {
        assert t[i] == s[i + 1];
      }
      FilterKeepsAll(t, keep);
      assert s[..0] + s[1..] == t;
    } else {
      forall i | 0 <= i < |t| && i != k - 1
        ensures keep(t[i])
      {
        assert t[i] == s[i + 1];
      }
      FilterDropsOne(t, k - 1, keep);
      assert keep(s[0]);
      assert Filter(s, keep) == [s[0]] + Filter(t, keep);
      assert t[..k - 1] == s[1..k] && t[k..] == s[k + 1..];
      assert s[..k] == [s[0]] + s[1..k];
      ConcatAssoc([s[0]], s[1..k], s[k + 1..]);
    }
  }

  lemma ConcatAssoc<T>(a: seq<T>, b: seq<T>, c: seq<T>)
    ensures a + (b + c) == (a + b) + c
  {
  }

  lemma Regroup<T>(a: seq<T>, b: seq<T>, c: seq<T>, d: seq<T>, e: seq<T>)
    ensures a + b + c + d + e == a + ((b + c + d) + e)
  {
  }

  /** Filtering twice is filtering once by the conjunction. */
  lemma {:induction false} FilterFilter<T(!new)>(s: seq<T>, first: T -> bool, second: T -> bool, both: T -> bool)
    requires forall x :: both(x) == (first(x) && second(x))
    ensures Filter(Filter(s, first), second) == Filter(s, both)
  {
    if s != [] {
      FilterFilter(s[1..], first, second, both);
      FilterAppend(if first(s[0]) then [s[0]] else [], Filter(s[1..], first), second);
    }
  }

  /** Three filters that split every element into exactly one class count it exactly once. */
  lemma {:induction false} FilterPartition<T(!new)>(s: seq<T>, f: T -> bool, g: T -> bool, h: T -> bool)
    requires forall i :: 0 <= i < |s| ==>
               (f(s[i]) && !g(s[i]) && !h(s[i])) || (!f(s[i]) && g(s[i]) && !h(s[i])) || (!f(s[i]) && !g(s[i]) && h(s[i]))
    ensures |Filter(s, f)| + |Filter(s, g)| + |Filter(s, h)| == |s|
  {
    if s != [] {
      FilterPartition(s[1..], f, g, h);
    }
  }

  /** `s.slice(0, n)`: at most the first `n` elements. */
  function Take<T>(s: seq<T>, n: nat): (r: seq<T>)
    ensures |r| == if |s| < n then |s| else n
    ensures r <= s
  {
    if |s| <= n then s else s[..n]
  }

  /** `[...new Set(xs)]`: each value once, where it first appears. */
  function Distinct<T(==,!new)>(xs: seq<T>): (r: seq<T>)
    ensures forall x :: x in r <==> x in xs
    ensures forall i, j :: 0 <= i < j < |r| ==> r[i] != r[j]
  {
    if xs == [] then []
    else
      var init := xs[..|xs| - 1];
      var d := Distinct(init);
      assert xs == init + [xs[|xs| - 1]];
      if xs[|xs| - 1] in d then d else d + [xs[|xs| - 1]]
  }

  /** Where `x` first appears in `xs`. */
  function FirstIndex<T(==)>(xs: seq<T>, x: T): (i: nat)
    requires x in xs
    ensures i < |xs| && xs[i] == x
    ensures forall k :: 0 <= k < i ==> xs[k] != x
  {
    if xs[0] == x then 0 else 1 + FirstIndex(xs[1..], x)
  }

  /** `findIndex`: the first position whose element satisfies `p`, or `|xs|` when none does. */
  function FirstWhere<T>(xs: seq<T>, p: T -> bool): (i: nat)
    ensures i <= |xs|
    ensures i < |xs| ==> p(xs[i])
    ensures forall k :: 0 <= k < i ==> !p(xs[k])
  {
    if xs == [] then 0
    else if p(xs[0]) then 0
    else
      var rest := xs[1..];
      assert forall k :: 0 <= k < |rest| ==> rest[k] == xs[k + 1];
      1 + FirstWhere(rest, p)
  }

  lemma {:induction false} FirstIndexAppend<T>(xs: seq<T>, y: T, x: T)
    requires x in xs + [y]
    ensures x in xs ==> FirstIndex(xs + [y], x) == FirstIndex(xs, x)
    ensures x !in xs ==> FirstIndex(xs + [y], x) == |xs|
  {
    var i := FirstIndex(xs + [y], x);
    if x in xs {
      var j := FirstIndex(xs, x);
      assert (xs + [y])[j] == x;
      assert i <= j;
    }
  }

  /** The distinct values keep the order in which they first appear. */
  lemma {:induction false} DistinctFirstAppearance<T(!new)>(xs: seq<T>)
    ensures forall i, j :: 0 <= i < j < |Distinct(xs)| ==>
              FirstIndex(xs, Distinct(xs)[i]) < FirstIndex(xs, Distinct(xs)[j])
  {
    if xs != [] {
      var init := xs[..|xs| - 1];
      var y := xs[|xs| - 1];
      assert xs == init + [y];
      DistinctFirstAppearance(init);
      var d := Distinct(init);
      var r := Distinct(xs);
      forall i, j | 0 <= i < j < |r|
        ensures FirstIndex(xs, r[i]) < FirstIndex(xs, r[j])
      {
        FirstIndexAppend(init, y, r[i]);
        FirstIndexAppend(init, y, r[j]);
        if j == |d| {
          assert r[j] == y && y !in init;
          assert r[i] == d[i] && r[i] in init;
        }
      }
    }
  }
}
