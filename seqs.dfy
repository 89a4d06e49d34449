/** Sequence notions shared by the model: `Array.prototype.filter`, the
    positions a filtered sequence comes from, and orderings for `sort`. */
module Seqs {

  /** `s.filter(p)`. */
  function Filter<T>(p: T -> bool, s: seq<T>): (r: seq<T>)
    ensures |r| <= |s|
    ensures forall k :: 0 <= k < |r| ==> p(r[k]) && r[k] in s
  {
    if s == [] then []
    else if p(s[0]) then [s[0]] + Filter(p, s[1..])
    else Filter(p, s[1..])
  }

  /** `idx` lists, strictly increasing, the positions of `s` whose elements make up `r`. */
  ghost predicate Enumerates<T>(r: seq<T>, s: seq<T>, idx: seq<int>) {
    && |idx| == |r|
    && (forall k :: 0 <= k < |idx| ==> 0 <= idx[k] < |s| && r[k] == s[idx[k]])
    && (forall k, l :: 0 <= k < l < |idx| ==> idx[k] < idx[l])
  }

  /** Every position moved one place to the right. */
  function Shifted(idx: seq<int>): (r: seq<int>)
    ensures |r| == |idx|
    ensures forall k :: 0 <= k < |idx| ==> r[k] == idx[k] + 1
  {
    seq(|idx|, k requires 0 <= k < |idx| => idx[k] + 1)
  }

  /** Positions into `s[1..]` become positions into `s` once shifted. */
  lemma ShiftedEnumerates<T>(r: seq<T>, s: seq<T>, idx: seq<int>)
    requires s != [] && Enumerates(r, s[1..], idx)
    ensures Enumerates(r, s, Shifted(idx))
    ensures forall i :: 1 <= i < |s| ==> (i in Shifted(idx) <==> i - 1 in idx)
    ensures 0 !in Shifted(idx)
  {
    var sh := Shifted(idx);
    forall i | 1 <= i < |s|
      ensures i in sh <==> i - 1 in idx
    {
      if i - 1 in idx {
        var k :| 0 <= k < |idx| && idx[k] == i - 1;
        assert sh[k] == i;
      }
    }
  }

  /** Taking `s[0]` in front of a sequence drawn from later positions adds position 0. */
  lemma PrependEnumerates<T>(r: seq<T>, s: seq<T>, idx: seq<int>)
    requires s != [] && Enumerates(r, s, idx) && 0 !in idx
    ensures Enumerates([s[0]] + r, s, [0] + idx)
    ensures forall i :: i in [0] + idx <==> i == 0 || i in idx
  {
    var r', idx' := [s[0]] + r, [0] + idx;
    forall k | 1 <= k < |idx'|
      ensures 0 <= idx'[k] < |s| && r'[k] == s[idx'[k]]
    {
      assert idx'[k] == idx[k - 1] && r'[k] == r[k - 1];
    }
    forall k, l | 0 <= k < l < |idx'|
      ensures idx'[k] < idx'[l]
    {
      assert idx[l - 1] in idx;
    }
  }

  /** The filtered sequence is made of exactly the positions of `s` whose element
      satisfies `p`, in their original order. */
  lemma {:induction false} FilterPositions<T>(p: T -> bool, s: seq<T>) returns (idx: seq<int>)
    ensures Enumerates(Filter(p, s), s, idx)
    ensures forall i :: 0 <= i < |s| ==> (i in idx <==> p(s[i]))
  {
    if s == [] {
      idx := [];
    } else {
      var tail := FilterPositions(p, s[1..]);
      var rest := Filter(p, s[1..]);
      ShiftedEnumerates(rest, s, tail);
      if p(s[0]) {
        PrependEnumerates(rest, s, Shifted(tail));
        idx := [0] + Shifted(tail);
      } else {
        idx := Shifted(tail);
      }
    }
  }

  /** The first `n` elements come from the first `n` positions. */
  lemma TakeEnumerates<T>(r: seq<T>, s: seq<T>, idx: seq<int>, n: nat)
    requires Enumerates(r, s, idx) && n <= |idx|
    ensures Enumerates(r[..n], s, idx[..n])
  {
  }

  /** In a strictly increasing list of positions, a listed position no greater
      than the `n`-th is among the first `n`. */
  lemma TakeKeepsEarlier(idx: seq<int>, n: nat, i: int)
    requires 0 < n <= |idx| && i in idx && i <= idx[n - 1]
    requires forall k, l :: 0 <= k < l < |idx| ==> idx[k] < idx[l]
    ensures i in idx[..n]
  {
    var m :| 0 <= m < |idx| && idx[m] == i;
    assert m < n;
    assert idx[..n][m] == i;
  }

  /** The first `n` elements of a filtered sequence come, in order, from the
      first `n` positions whose element satisfies `p`; when `n` is all of them,
      from every such position. */
  lemma FilterPrefixPositions<T>(p: T -> bool, s: seq<T>, n: nat) returns (idx: seq<int>)
    requires 0 < n <= |Filter(p, s)|
    ensures Enumerates(Filter(p, s)[..n], s, idx)
    ensures forall i :: 0 <= i <= idx[n - 1] && p(s[i]) ==> i in idx
    ensures n == |Filter(p, s)| ==> forall i :: 0 <= i < |s| && p(s[i]) ==> i in idx
  {
    var all := FilterPositions(p, s);
    TakeEnumerates(Filter(p, s), s, all, n);
    idx := all[..n];
    forall i | 0 <= i <= idx[n - 1] && p(s[i])
      ensures i in idx
    {
      TakeKeepsEarlier(all, n, i);
    }
    assert n == |all| ==> idx == all;
  }

  /** Filtering with a predicate that every element satisfies keeps everything. */
  lemma {:induction false} FilterAll<T>(p: T -> bool, s: seq<T>)
    requires forall k :: 0 <= k < |s| ==> p(s[k])
    ensures Filter(p, s) == s
  {
    if s != [] {
      FilterAll(p, s[1..]);
    }
  }

  /** Filtering never duplicates an element: the result is a sub-multiset of the input. */
  lemma {:induction false} FilterSubMultiset<T>(p: T -> bool, s: seq<T>)
    ensures multiset(Filter(p, s)) <= multiset(s)
  {
    if s != [] {
      FilterSubMultiset(p, s[1..]);
      assert s == [s[0]] + s[1..];
    }
  }

  /** `cmp(x, y) <= 0` ("x may come before y") is a total preorder: any two
      elements are ordered one way or the other, and the order is transitive.
      These are the conditions under which `Array.prototype.sort` with this
      comparator has a defined outcome. */
  ghost predicate TotalPreorder<T(!new)>(cmp: (T, T) -> int) {
    && (forall x, y :: cmp(x, y) <= 0 || cmp(y, x) <= 0)
    && (forall x, y, z :: cmp(x, y) <= 0 && cmp(y, z) <= 0 ==> cmp(x, z) <= 0)
  }

  /** No element of `s` compares greater than one after it. */
  ghost predicate SortedBy<T>(cmp: (T, T) -> int, s: seq<T>) {
    forall i, j :: 0 <= i < j < |s| ==> cmp(s[i], s[j]) <= 0
  }
}
