/** Capacity_detect: a ring through all elements of a pool, in the order of a random permutation. */
module PointerChase {
  import opened TypeLists

  /** A pair of IndexMap: a random key and the index it came with. */
  datatype Pair = Pair(key: int, index: nat)

  function Indexed(keys: seq<int>): (r: seq<Pair>)
    ensures |r| == |keys| && forall i :: 0 <= i < |keys| ==> r[i] == Pair(keys[i], i)
  {
    seq(|keys|, i requires 0 <= i < |keys| => Pair(keys[i], i))
  }

  /** Each index below n stands in the order exactly once. */
  ghost predicate IsPermutation(order: seq<Pair>, n: nat) {
    && |order| == n && (forall i :: 0 <= i < n ==> order[i].index < n)
    && (forall i, j :: 0 <= i < j < n ==> order[i].index != order[j].index)
    && forall k :: 0 <= k < n ==> HasIndex(order, k)
  }

  ghost predicate HasIndex(order: seq<Pair>, k: nat) { exists i :: 0 <= i < |order| && order[i].index == k }

  /** However the pairs are sorted, their indices form a permutation. */
  lemma SortingPermutes(keys: seq<int>, sorted: seq<Pair>)
    requires multiset(sorted) == multiset(Indexed(keys))
    ensures IsPermutation(sorted, |keys|)
  {
    var pairs := Indexed(keys);
    assert |sorted| == |multiset(sorted)| == |pairs|;
    PermutationKeepsDistinct(pairs, sorted);
    forall i | 0 <= i < |sorted| ensures sorted[i].index < |keys| && sorted[i] == pairs[sorted[i].index] {
      assert sorted[i] in multiset(pairs);
    }
    forall k | 0 <= k < |keys| ensures HasIndex(sorted, k) {
      assert pairs[k] in multiset(sorted);
      assert pairs[k] in sorted;
    }
  }

  ghost predicate InPool(next: seq<nat>) { forall i :: 0 <= i < |next| ==> next[i] < |next| }

  /** Following the links k times. */
  function Follow(next: seq<nat>, from: nat, k: nat): (to: nat)
    requires InPool(next) && from < |next|
    ensures to < |next|
  {
    if k == 0 then from else next[Follow(next, from, k - 1)]
  }

  function Wrapped(i: nat, n: nat): nat { if i < n then i else i - n }

  /** The links of an order: each member points at the one after it, the last at the first. */
  ghost predicate Links(order: seq<Pair>, next: seq<nat>) {
    && |order| == |next|
    && (forall i :: 0 <= i < |order| ==> order[i].index < |next|)
    && (forall i :: 0 <= i < |order| - 1 ==> next[order[i].index] == order[i + 1].index)
    && (order != [] ==> next[order[|order| - 1].index] == order[0].index)
  }

  lemma LinksStayInPool(order: seq<Pair>, next: seq<nat>)
    requires IsPermutation(order, |next|) && Links(order, next)
    ensures InPool(next)
  {
    forall k | 0 <= k < |next| ensures next[k] < |next| {
      assert HasIndex(order, k);
      var i :| 0 <= i < |order| && order[i].index == k;
      assert next[k] == order[if i < |order| - 1 then i + 1 else 0].index;
    }
  }

  lemma {:induction false} FollowOrder(order: seq<Pair>, next: seq<nat>, i: nat, k: nat)
    requires Links(order, next) && InPool(next) && i < |order| && k <= |order|
    ensures Follow(next, order[i].index, k) == order[Wrapped(i + k, |order|)].index
  {
    if k > 0 { FollowOrder(order, next, i, k - 1); }
  }

  lemma PlaceOf(order: seq<Pair>, next: seq<nat>, from: nat) returns (i: nat)
    requires IsPermutation(order, |next|) && from < |next|
    ensures i < |order| && order[i].index == from
  {
    assert HasIndex(order, from);
    i :| 0 <= i < |order| && order[i].index == from;
  }

  /** From any index, as many links as there are elements lead back to it. */
  lemma CycleCloses(order: seq<Pair>, next: seq<nat>, from: nat)
    requires IsPermutation(order, |next|) && Links(order, next) && from < |next|
    ensures InPool(next) && Follow(next, from, |next|) == from
  {
    LinksStayInPool(order, next);
    var i := PlaceOf(order, next, from);
    FollowOrder(order, next, i, |order|);
  }

  /** No index is met twice on the way, so no shorter walk returns. */
  lemma NoIndexTwice(order: seq<Pair>, next: seq<nat>, from: nat, j: nat, k: nat)
    requires IsPermutation(order, |next|) && Links(order, next) && from < |next| && j < k < |next|
    ensures InPool(next) && Follow(next, from, j) != Follow(next, from, k)
  {
    LinksStayInPool(order, next);
    var i := PlaceOf(order, next, from);
    FollowOrder(order, next, i, j);
    FollowOrder(order, next, i, k);
  }

  /** Every index is met on the way. */
  lemma EveryIndexMet(order: seq<Pair>, next: seq<nat>, from: nat, to: nat) returns (steps: nat)
    requires IsPermutation(order, |next|) && Links(order, next) && from < |next| && to < |next|
    ensures InPool(next) && steps < |next| && Follow(next, from, steps) == to
  {
    LinksStayInPool(order, next);
    var i := PlaceOf(order, next, from);
    var t := PlaceOf(order, next, to);
    steps := if t >= i then t - i else t + |order| - i;
    FollowOrder(order, next, i, steps);
  }

  /** Builds the links for the sorted pairs, which the program ends with one more pair that is not used. */
  method BuildRing(keys: seq<int>, indexMap: seq<Pair>) returns (next: array<nat>)
    requires keys != [] && |indexMap| == |keys| + 1
    requires multiset(indexMap[..|keys|]) == multiset(Indexed(keys))
    ensures IsPermutation(indexMap[..|keys|], |keys|) && Links(indexMap[..|keys|], next[..])
  {
    ghost var order := indexMap[..|keys|];
    SortingPermutes(keys, order);
    var n := |keys|;
    next := new nat[n];
    var head := indexMap[0].index;
    assert indexMap[0] == order[0];
    var current := head;
    for i := 1 to |indexMap| - 1
      invariant current == order[i - 1].index && next.Length == n
      invariant forall j :: 0 <= j < i - 1 ==> next[order[j].index] == order[j + 1].index
    {
      assert indexMap[i] == order[i];
      next[current] := indexMap[i].index;
      current := indexMap[i].index;
    }
    next[current] := head;
  }
}
