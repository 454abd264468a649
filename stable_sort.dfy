/** The stable in-place sort by key that `get_songs` and `get_albums` apply
    to their mutable vectors (`sort_by_key`). Keys are mapped to integer
    ranks; each caller proves that its rank order is the order of the key
    type the source sorts by. */
module StableSort {

  /** Non-decreasing by rank. */
  ghost predicate Sorted<T>(s: seq<T>, rank: T -> int) {
    forall i, j :: 0 <= i < j < |s| ==> rank(s[i]) <= rank(s[j])
  }

  /** The elements of `s` whose rank is `k`, in their order in `s`. */
  function WithRank<T>(s: seq<T>, rank: T -> int, k: int): (r: seq<T>)
    ensures |r| <= |s|
  {
    if s == [] then []
    else WithRank(s[..|s| - 1], rank, k) + (if rank(s[|s| - 1]) == k then [s[|s| - 1]] else [])
  }

  /** Places `x` after every element of `s` whose rank is at most its own. */
  function Insert<T>(s: seq<T>, x: T, rank: T -> int): (r: seq<T>)
    ensures |r| == |s| + 1
  {
    if s == [] || rank(s[|s| - 1]) <= rank(x) then s + [x]
    else Insert(s[..|s| - 1], x, rank) + [s[|s| - 1]]
  }

  /** The result of a stable sort by rank: insertion of each element, left
      to right, into the sorted prefix. */
  function SortByRank<T>(s: seq<T>, rank: T -> int): (r: seq<T>)
    ensures |r| == |s|
  {
    if s == [] then [] else Insert(SortByRank(s[..|s| - 1], rank), s[|s| - 1], rank)
  }

  lemma {:induction false} WithRankAppend<T>(a: seq<T>, b: seq<T>, rank: T -> int, k: int)
    ensures WithRank(a + b, rank, k) == WithRank(a, rank, k) + WithRank(b, rank, k)
    decreases |b|
  {
    if b == [] {
      assert a + b == a;
    } else {
      var b' := b[..|b| - 1];
      assert (a + b)[..|a + b| - 1] == a + b';
      assert (a + b)[|a + b| - 1] == b[|b| - 1];
      WithRankAppend(a, b', rank, k);
    }
  }

  lemma WithRankSingle<T>(x: T, rank: T -> int, k: int)
    ensures WithRank([x], rank, k) == if rank(x) == k then [x] else []
  {
    assert [x][..0] == [];
  }

  lemma {:induction false} InsertMultiset<T>(s: seq<T>, x: T, rank: T -> int)
    ensures multiset(Insert(s, x, rank)) == multiset(s) + multiset{x}
    decreases |s|
  {
    if !(s == [] || rank(s[|s| - 1]) <= rank(x)) {
      var s' := s[..|s| - 1];
      assert s == s' + [s[|s| - 1]];
      InsertMultiset(s', x, rank);
    }
  }

  lemma {:induction false} InsertBounded<T>(s: seq<T>, x: T, rank: T -> int, b: int)
    requires forall i :: 0 <= i < |s| ==> rank(s[i]) <= b
    requires rank(x) <= b
    ensures forall i :: 0 <= i < |s| + 1 ==> rank(Insert(s, x, rank)[i]) <= b
    decreases |s|
  {
    if !(s == [] || rank(s[|s| - 1]) <= rank(x)) {
      InsertBounded(s[..|s| - 1], x, rank, b);
    }
  }

  lemma {:induction false} InsertSorted<T>(s: seq<T>, x: T, rank: T -> int)
    requires Sorted(s, rank)
    ensures Sorted(Insert(s, x, rank), rank)
    decreases |s|
  {
    if !(s == [] || rank(s[|s| - 1]) <= rank(x)) {
      var s', last := s[..|s| - 1], s[|s| - 1];
      InsertSorted(s', x, rank);
      InsertBounded(s', x, rank, rank(last));
    }
  }

  /** Two singletons of distinct ranks commute once filtered to one rank. */
  lemma WithRankSwap<T>(p: seq<T>, x: T, y: T, rank: T -> int, k: int)
    requires rank(x) != rank(y)
    ensures p + WithRank([x], rank, k) + WithRank([y], rank, k) == p + WithRank([y], rank, k) + WithRank([x], rank, k)
  {
    WithRankSingle(x, rank, k);
    WithRankSingle(y, rank, k);
  }

  lemma {:induction false} InsertWithRank<T>(s: seq<T>, x: T, rank: T -> int, k: int)
    ensures WithRank(Insert(s, x, rank), rank, k) == WithRank(s, rank, k) + WithRank([x], rank, k)
    decreases |s|
  {
    if s == [] || rank(s[|s| - 1]) <= rank(x) {
      WithRankAppend(s, [x], rank, k);
    } else {
      var s', last := s[..|s| - 1], s[|s| - 1];
      var ins' := Insert(s', x, rank);
      assert s == s' + [last];
      assert Insert(s, x, rank) == ins' + [last];
      InsertWithRank(s', x, rank, k);
      WithRankAppend(ins', [last], rank, k);
      WithRankAppend(s', [last], rank, k);
      WithRankSwap(WithRank(s', rank, k), x, last, rank, k);
    }
  }

  lemma {:induction false} SortByRankFacts<T>(s: seq<T>, rank: T -> int)
    ensures Sorted(SortByRank(s, rank), rank)
    ensures multiset(SortByRank(s, rank)) == multiset(s)
    ensures forall k :: WithRank(SortByRank(s, rank), rank, k) == WithRank(s, rank, k)
    decreases |s|
  {
    if s != [] {
      var s', last := s[..|s| - 1], s[|s| - 1];
      assert s == s' + [last];
      SortByRankFacts(s', rank);
      InsertSorted(SortByRank(s', rank), last, rank);
      InsertMultiset(SortByRank(s', rank), last, rank);
      forall k ensures WithRank(SortByRank(s, rank), rank, k) == WithRank(s, rank, k) {
        InsertWithRank(SortByRank(s', rank), last, rank, k);
        WithRankAppend(s', [last], rank, k);
      }
    }
  }

  /** The sort is a permutation of its input, non-decreasing by rank, and
      stable: the elements of each rank keep their input order. */
  lemma SortByRankIsStableSort<T>(s: seq<T>, rank: T -> int)
    ensures multiset(SortByRank(s, rank)) == multiset(s)
    ensures forall i, j :: 0 <= i < j < |s| ==>
              rank(SortByRank(s, rank)[i]) <= rank(SortByRank(s, rank)[j])
    ensures forall k :: WithRank(SortByRank(s, rank), rank, k) == WithRank(s, rank, k)
  {
    SortByRankFacts(s, rank);
  }

  lemma InsertShift<T>(s: seq<T>, j: nat, x: T, rank: T -> int)
    requires 0 < j <= |s| && rank(s[j - 1]) > rank(x)
    ensures Insert(s[..j], x, rank) + s[j..] == Insert(s[..j - 1], x, rank) + s[j - 1..]
  {
    assert s[..j][..j - 1] == s[..j - 1];
    assert s[j - 1..] == [s[j - 1]] + s[j..];
  }

  /** The contents of the array while `a[i]` moves left: the elements of
      `t[j..i]` each one place right, so `t[j]` appears twice. */
  ghost function Shifted<T>(t: seq<T>, i: nat, j: nat): (r: seq<T>)
    requires j <= i < |t|
    ensures |r| == |t|
  {
    t[..j + 1] + t[j..i] + t[i + 1..]
  }

  lemma ShiftedStep<T>(t: seq<T>, i: nat, j: nat)
    requires 0 < j <= i < |t|
    ensures Shifted(t, i, j)[j - 1] == t[j - 1]
    ensures Shifted(t, i, j)[j := t[j - 1]] == Shifted(t, i, j - 1)
  {
  }

  lemma ShiftedFill<T>(t: seq<T>, i: nat, j: nat, x: T)
    requires j <= i < |t|
    ensures Shifted(t, i, j)[j := x][..i + 1] == t[..i][..j] + [x] + t[..i][j..]
    ensures Shifted(t, i, j)[j := x][i + 1..] == t[i + 1..]
  {
  }

  /** Shifts one place right every element at the end of the sorted prefix
      `a[..i]` whose rank exceeds that of `x`, and returns the hole left. */
  method ShiftLarger<T>(a: array<T>, i: nat, x: T, rank: T -> int) returns (j: nat)
    requires i < a.Length
    modifies a
    ensures j <= i && a[..] == Shifted(old(a[..]), i, j)
    ensures Insert(old(a[..i]), x, rank) == Insert(old(a[..i])[..j], x, rank) + old(a[..i])[j..]
    ensures j == 0 || rank(old(a[..i])[j - 1]) <= rank(x)
  {
    ghost var t := a[..];
    ghost var s := a[..i];
    j := i;
    assert s[..j] == s && s[j..] == [];
    assert t == t[..i + 1] + t[i + 1..];
    while j > 0 && rank(a[j - 1]) > rank(x)
      invariant 0 <= j <= i
      invariant a[..] == Shifted(t, i, j)
      invariant Insert(s, x, rank) == Insert(s[..j], x, rank) + s[j..]
    {
      ShiftedStep(t, i, j);
      InsertShift(s, j, x, rank);
      a[j] := a[j - 1];
      j := j - 1;
    }
    if j > 0 {
      ShiftedStep(t, i, j);
    }
  }

  /** Moves `a[i]` left past every element of the sorted prefix `a[..i]`
      whose rank exceeds its own. */
  method InsertAt<T>(a: array<T>, i: nat, rank: T -> int)
    requires i < a.Length
    modifies a
    ensures a[..i + 1] == Insert(old(a[..i]), old(a[i]), rank)
    ensures a[i + 1..] == old(a[i + 1..])
  {
    ghost var t := a[..];
    ghost var s := a[..i];
    var x := a[i];
    var j := ShiftLarger(a, i, x, rank);
    a[j] := x;
    ShiftedFill(t, i, j, x);
    assert s[..j] + [x] == Insert(s[..j], x, rank) by {
      if j > 0 { assert s[..j][j - 1] == s[j - 1]; }
    }
  }

  /** Sorts `a` in place, stably, by `rank`. */
  method SortInPlace<T>(a: array<T>, rank: T -> int)
    modifies a
    ensures a[..] == SortByRank(old(a[..]), rank)
  {
    ghost var a0 := a[..];
    var n := a.Length;
    for i := 0 to n
      invariant a[..i] == SortByRank(a0[..i], rank)
      invariant a[i..] == a0[i..]
    {
      assert a[i] == a0[i];
      InsertAt(a, i, rank);
      assert a0[..i + 1][..i] == a0[..i];
    }
    assert a0[..n] == a0;
  }
}
