/** `Array.prototype.sort(compareFn)` on an array, in place. The engine's own
    algorithm is not visible; an insertion sort stands for it, and its contract
    is what the language promises for a consistent comparator: the array ends
    up a permutation of what it held, ordered by the comparator. */
module Sorting {
  import opened Seqs

  /** Exchanges the elements at `j - 1` and `j`. */
  method SwapDown<T>(a: array<T>, j: int)
    requires 0 < j < a.Length
    modifies a
    ensures a[..] == old(a[..])[j - 1 := old(a[j])][j := old(a[j - 1])]
    ensures multiset(a[..]) == old(multiset(a[..]))
  {
    a[j - 1], a[j] := a[j], a[j - 1];
  }

  /** Within `s[..i + 1]`, every pair not involving position `j` is in order. */
  ghost predicate OrderedExcept<T>(cmp: (T, T) -> int, s: seq<T>, i: int, j: int)
    requires i < |s|
  {
    forall k, l :: 0 <= k < l <= i && k != j && l != j ==> cmp(s[k], s[l]) <= 0
  }

  /** The element at `j` may come before every element after it, up to `i`. */
  ghost predicate BeforeRest<T>(cmp: (T, T) -> int, s: seq<T>, i: int, j: int)
    requires 0 <= j <= i < |s|
  {
    forall l :: j < l <= i ==> cmp(s[j], s[l]) <= 0
  }

  /** One step of insertion: exchanging an out-of-order pair moves the inserted
      element one place down and keeps the rest in order. */
  lemma InsertStep<T(!new)>(cmp: (T, T) -> int, s: seq<T>, i: int, j: int)
    requires TotalPreorder(cmp)
    requires 0 < j <= i < |s|
    requires OrderedExcept(cmp, s, i, j) && BeforeRest(cmp, s, i, j)
    requires cmp(s[j - 1], s[j]) > 0
    ensures var s' := s[j - 1 := s[j]][j := s[j - 1]];
      OrderedExcept(cmp, s', i, j - 1) && BeforeRest(cmp, s', i, j - 1)
  {
  }

  /** When the inserted element is in order with its left neighbour, the whole
      of `s[..i + 1]` is in order. */
  lemma InsertDone<T(!new)>(cmp: (T, T) -> int, s: seq<T>, i: int, j: int)
    requires TotalPreorder(cmp)
    requires 0 <= j <= i < |s|
    requires OrderedExcept(cmp, s, i, j) && BeforeRest(cmp, s, i, j)
    requires j == 0 || cmp(s[j - 1], s[j]) <= 0
    ensures forall k, l :: 0 <= k < l <= i ==> cmp(s[k], s[l]) <= 0
  {
    forall k | 0 <= k < j
      ensures cmp(s[k], s[j]) <= 0
    {
      if k < j - 1 {
        assert cmp(s[k], s[j - 1]) <= 0;
      }
    }
  }

  /** Moves `a[i]` down into the sorted prefix `a[..i]`, so that `a[..i + 1]` is sorted. */
  method InsertLast<T(!new)>(a: array<T>, i: int, cmp: (T, T) -> int)
    requires TotalPreorder(cmp)
    requires 0 <= i < a.Length
    requires forall k, l :: 0 <= k < l < i ==> cmp(a[k], a[l]) <= 0
    modifies a
    ensures forall k, l :: 0 <= k < l <= i ==> cmp(a[k], a[l]) <= 0
    ensures multiset(a[..]) == old(multiset(a[..]))
  {
    var j := i;
    while j > 0 && cmp(a[j - 1], a[j]) > 0
      invariant 0 <= j <= i
      invariant OrderedExcept(cmp, a[..], i, j) && BeforeRest(cmp, a[..], i, j)
      invariant multiset(a[..]) == old(multiset(a[..]))
    {
      InsertStep(cmp, a[..], i, j);
      SwapDown(a, j);
      j := j - 1;
    }
    InsertDone(cmp, a[..], i, j);
  }

  method SortInPlace<T(!new)>(a: array<T>, cmp: (T, T) -> int)
    requires TotalPreorder(cmp)
    modifies a
    ensures SortedBy(cmp, a[..])
    ensures multiset(a[..]) == old(multiset(a[..]))
  {
    for i := 0 to a.Length
      invariant forall k, l :: 0 <= k < l < i ==> cmp(a[k], a[l]) <= 0
      invariant multiset(a[..]) == old(multiset(a[..]))
    {
      InsertLast(a, i, cmp);
    }
  }
}
