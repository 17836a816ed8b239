/** The list algebra of Typelist.hpp: type lists are sequences, templates are functions. */
module TypeLists {
  import opened Common

  function Map<T, R>(xs: seq<T>, f: T --> R): (r: seq<R>)
    requires forall i :: 0 <= i < |xs| ==> f.requires(xs[i])
    ensures |r| == |xs| && forall i :: 0 <= i < |xs| ==> r[i] == f(xs[i])
  {
    if xs == [] then [] else [f(xs[0])] + Map(xs[1..], f)
  }

  /** Keeps, in order, exactly the members that satisfy `p`. */
  function Filter<T(!new)>(xs: seq<T>, p: T -> bool): (r: seq<T>)
    ensures forall x :: x in r <==> x in xs && p(x)
  {
    if xs == [] then []
    else (if p(xs[0]) then [xs[0]] else []) + Filter(xs[1..], p)
  }

  /** `at` are the places of the members kept: in order, each satisfying `p`, and no other place does. */
  ghost predicate KeptAt<T(!new)>(xs: seq<T>, p: T -> bool, r: seq<T>, at: seq<nat>) {
    && |at| == |r|
    && (forall i :: 0 <= i < |at| ==> at[i] < |xs| && p(xs[at[i]]) && r[i] == xs[at[i]])
    && (forall i, j :: 0 <= i < j < |at| ==> at[i] < at[j])
    && (forall k: nat :: k < |xs| && p(xs[k]) ==> k in at)
  }

  function Shift(at: seq<nat>): (r: seq<nat>)
    ensures |r| == |at| && forall i :: 0 <= i < |at| ==> r[i] == at[i] + 1
  {
    seq(|at|, i requires 0 <= i < |at| => at[i] + 1)
  }

  lemma KeptAfterSkip<T(!new)>(xs: seq<T>, p: T -> bool, r: seq<T>, at: seq<nat>)
    requires xs != [] && !p(xs[0]) && KeptAt(xs[1..], p, r, at)
    ensures KeptAt(xs, p, r, Shift(at))
  {
    forall k: nat | k < |xs| && p(xs[k]) ensures k in Shift(at) {
      ShiftedIn(at, k);
      assert xs[k] == xs[1..][k - 1];
    }
  }

  lemma KeptAfterTake<T(!new)>(xs: seq<T>, p: T -> bool, r: seq<T>, at: seq<nat>)
    requires xs != [] && p(xs[0]) && KeptAt(xs[1..], p, r, at)
    ensures KeptAt(xs, p, [xs[0]] + r, [0] + Shift(at))
  {
    var more, places := [xs[0]] + r, [0] + Shift(at);
    forall i | 0 <= i < |places| ensures places[i] < |xs| && p(xs[places[i]]) && more[i] == xs[places[i]] {
      if i > 0 { TakenAt(xs, p, r, at, i - 1); }
    }
    ZeroFirst(at);
    forall k: nat | k < |xs| && p(xs[k]) ensures k in places {
      if k > 0 { TakenIn(xs, p, r, at, k); }
    }
  }

  lemma TakenAt<T(!new)>(xs: seq<T>, p: T -> bool, r: seq<T>, at: seq<nat>, i: nat)
    requires xs != [] && KeptAt(xs[1..], p, r, at) && i < |at|
    ensures ([0] + Shift(at))[i + 1] == at[i] + 1 < |xs| && p(xs[at[i] + 1]) && r[i] == xs[at[i] + 1]
  {
    assert xs[at[i] + 1] == xs[1..][at[i]];
  }

  lemma TakenIn<T(!new)>(xs: seq<T>, p: T -> bool, r: seq<T>, at: seq<nat>, k: nat)
    requires xs != [] && KeptAt(xs[1..], p, r, at) && 0 < k < |xs| && p(xs[k])
    ensures k in [0] + Shift(at)
  {
    assert xs[k] == xs[1..][k - 1];
    ShiftedIn(at, k);
  }

  lemma ZeroFirst(at: seq<nat>)
    requires forall i, j :: 0 <= i < j < |at| ==> at[i] < at[j]
    ensures var places := [0] + Shift(at); forall i, j :: 0 <= i < j < |places| ==> places[i] < places[j]
  {
  }

  lemma ShiftedIn(at: seq<nat>, k: nat)
    ensures k > 0 && k - 1 in at ==> k in Shift(at)
  {
    if k > 0 && k - 1 in at {
      var i :| 0 <= i < |at| && at[i] == k - 1;
      assert Shift(at)[i] == k;
    }
  }

  /** Filtering loses, repeats and reorders nothing that it keeps. */
  lemma {:induction false} FilterKeepsOrder<T(!new)>(xs: seq<T>, p: T -> bool) returns (at: seq<nat>)
    ensures KeptAt(xs, p, Filter(xs, p), at)
  {
    if xs == [] {
      at := [];
    } else {
      var rest := FilterKeepsOrder(xs[1..], p);
      if p(xs[0]) {
        KeptAfterTake(xs, p, Filter(xs[1..], p), rest);
        at := [0] + Shift(rest);
      } else {
        KeptAfterSkip(xs, p, Filter(xs[1..], p), rest);
        at := Shift(rest);
        assert [] + Filter(xs[1..], p) == Filter(xs[1..], p);
      }
    }
  }

  /** The first member that satisfies `p`. */
  function FindBy<T>(xs: seq<T>, p: T -> bool): (r: Option<T>)
    ensures r.Some? ==> r.value in xs && p(r.value) && exists k :: IsFirst(xs, p, k) && xs[k] == r.value
    ensures r.None? ==> forall x :: x in xs ==> !p(x)
  {
    if xs == [] then None
    else if p(xs[0]) then
      assert IsFirst(xs, p, 0);
      Some(xs[0])
    else
      var r := FindBy(xs[1..], p);
      assert r.Some? ==> exists k :: IsFirst(xs[1..], p, k) && xs[1..][k] == r.value;
      assert forall k :: IsFirst(xs[1..], p, k) ==> IsFirst(xs, p, k + 1);
      r
  }

  ghost predicate IsFirst<T>(xs: seq<T>, p: T -> bool, k: int) {
    0 <= k < |xs| && p(xs[k]) && forall j :: 0 <= j < k ==> !p(xs[j])
  }

  ghost predicate NoDuplicates<T>(xs: seq<T>) {
    forall i, j :: 0 <= i < j < |xs| ==> xs[i] != xs[j]
  }

  /** A left fold that appends a member only when the accumulator does not hold it yet. */
  function UniqueFrom<T(==,!new)>(xs: seq<T>, acc: seq<T>): (r: seq<T>)
    requires NoDuplicates(acc)
    ensures NoDuplicates(r)
    ensures forall x :: x in r <==> x in acc || x in xs
  {
    if xs == [] then acc
    else UniqueFrom(xs[1..], if xs[0] in acc then acc else acc + [xs[0]])
  }

  function Unique<T(==,!new)>(xs: seq<T>): (r: seq<T>)
    ensures NoDuplicates(r)
    ensures forall x :: x in r <==> x in xs
  {
    UniqueFrom(xs, [])
  }

  /** The first place of a member. */
  ghost function FirstAt<T>(xs: seq<T>, x: T): (k: nat)
    requires x in xs
    ensures k < |xs| && xs[k] == x && forall j :: 0 <= j < k ==> xs[j] != x
  {
    if xs[0] == x then 0
    else
      assert forall j :: 1 <= j < |xs| ==> xs[j] == xs[1..][j - 1];
      1 + FirstAt(xs[1..], x)
  }

  /** The members of `r` stand in the order of their first places in `xs`. */
  ghost predicate ByFirstPlace<T>(xs: seq<T>, r: seq<T>) {
    && (forall i :: 0 <= i < |r| ==> r[i] in xs)
    && forall i, j :: 0 <= i < j < |r| ==> FirstAt(xs, r[i]) < FirstAt(xs, r[j])
  }

  lemma NewIsLater<T(!new)>(seen: seq<T>, xs: seq<T>, acc: seq<T>)
    requires xs != [] && ByFirstPlace(seen + xs, acc) && xs[0] !in acc
    requires forall x :: x in acc <==> x in seen
    ensures ByFirstPlace(seen + xs, acc + [xs[0]])
  {
    var all, more := seen + xs, acc + [xs[0]];
    assert all[|seen|] == xs[0];
    forall i, j | 0 <= i < j < |more| ensures FirstAt(all, more[i]) < FirstAt(all, more[j]) {
      if j == |acc| {
        assert acc[i] in seen;
        var k :| 0 <= k < |seen| && seen[k] == acc[i];
        assert all[k] == acc[i];
        forall n | 0 <= n < |seen| ensures all[n] != xs[0] { assert all[n] == seen[n] && seen[n] in seen; }
      }
    }
  }

  lemma {:induction false} UniqueFromKeepsOrder<T(!new)>(seen: seq<T>, xs: seq<T>, acc: seq<T>)
    requires NoDuplicates(acc) && ByFirstPlace(seen + xs, acc) && forall x :: x in acc <==> x in seen
    ensures ByFirstPlace(seen + xs, UniqueFrom(xs, acc))
    decreases |xs|
  {
    if xs != [] {
      if xs[0] !in acc { NewIsLater(seen, xs, acc); }
      assert seen + xs == seen + [xs[0]] + xs[1..];
      UniqueFromKeepsOrder(seen + [xs[0]], xs[1..], if xs[0] in acc then acc else acc + [xs[0]]);
    }
  }

  /** Of every member the first occurrence stays, in place. */
  lemma UniqueKeepsFirst<T(!new)>(xs: seq<T>)
    ensures ByFirstPlace(xs, Unique(xs))
  {
    assert [] + xs == xs;
    UniqueFromKeepsOrder([], xs, []);
  }

  /** Splits with two accumulators, as the template does. */
  function Partition<T(!new)>(xs: seq<T>, p: T -> bool, s: seq<T>, r: seq<T>): (out: (seq<T>, seq<T>))
    ensures multiset(out.0) + multiset(out.1) == multiset(s) + multiset(r) + multiset(xs)
    ensures |out.0| + |out.1| == |s| + |r| + |xs|
    ensures forall x :: x in out.0 ==> x in s || (x in xs && p(x))
    ensures forall x :: x in out.1 ==> x in r || (x in xs && !p(x))
  {
    if xs == [] then (s, r)
    else
      assert xs == [xs[0]] + xs[1..];
      if p(xs[0]) then Partition(xs[1..], p, s + [xs[0]], r)
      else Partition(xs[1..], p, s, r + [xs[0]])
  }

  function Not<T>(p: T -> bool): T -> bool {
    x => !p(x)
  }

  /** Both parts keep the order of the list. */
  lemma {:induction false} PartitionIsFilter<T(!new)>(xs: seq<T>, p: T -> bool, s: seq<T>, r: seq<T>)
    ensures Partition(xs, p, s, r) == (s + Filter(xs, p), r + Filter(xs, Not(p)))
    decreases |xs|
  {
    if xs == [] {
      assert s + [] == s && r + [] == r;
    } else {
      var x := xs[0];
      if p(x) {
        PartitionIsFilter(xs[1..], p, s + [x], r);
        Associative(s, [x], Filter(xs[1..], p));
      } else {
        PartitionIsFilter(xs[1..], p, s, r + [x]);
        Associative(r, [x], Filter(xs[1..], Not(p)));
      }
      assert [] + Filter(xs[1..], p) == Filter(xs[1..], p);
      assert [] + Filter(xs[1..], Not(p)) == Filter(xs[1..], Not(p));
    }
  }

  function Below<T>(cmp: (T, T) -> bool, h: T): T -> bool {
    e => cmp(e, h)
  }

  /** Quicksort around the head: what compares below it goes left, the rest goes right. */
  function Sort<T(!new)>(xs: seq<T>, cmp: (T, T) -> bool): seq<T>
    decreases |xs|
  {
    if xs == [] then []
    else
      var p := Partition(xs[1..], Below(cmp, xs[0]), [], []);
      Sort(p.0, cmp) + [xs[0]] + Sort(p.1, cmp)
  }

  lemma HeadAndTail<T>(xs: seq<T>)
    requires xs != []
    ensures multiset(xs) == multiset{xs[0]} + multiset(xs[1..])
  {
    assert xs == [xs[0]] + xs[1..];
  }

  lemma {:induction false} SortIsPermutation<T(!new)>(xs: seq<T>, cmp: (T, T) -> bool)
    ensures multiset(Sort(xs, cmp)) == multiset(xs)
    decreases |xs|
  {
    if xs != [] {
      var p := Partition(xs[1..], Below(cmp, xs[0]), [], []);
      HeadAndTail(xs);
      SortIsPermutation(p.0, cmp);
      SortIsPermutation(p.1, cmp);
      var small, big := Sort(p.0, cmp), Sort(p.1, cmp);
      assert Sort(xs, cmp) == small + [xs[0]] + big;
      calc {
        multiset(Sort(xs, cmp));
        multiset(small) + multiset{xs[0]} + multiset(big);
        multiset{xs[0]} + (multiset(p.0) + multiset(p.1));
        multiset{xs[0]} + multiset(xs[1..]);
      }
    }
  }

  /** Irreflexive and transitive on the members of a list; nothing says that it is total. */
  ghost predicate StrictPartialOrder<T(!new)>(cmp: (T, T) -> bool, xs: seq<T>) {
    && (forall x :: x in xs ==> !cmp(x, x))
    && (forall x, y, z :: x in xs && y in xs && z in xs && cmp(x, y) && cmp(y, z) ==> cmp(x, z))
  }

  ghost predicate NoInversion<T(!new)>(cmp: (T, T) -> bool, xs: seq<T>) {
    forall i, j :: 0 <= i < j < |xs| ==> !cmp(xs[j], xs[i])
  }

  lemma SortMembers<T(!new)>(xs: seq<T>, cmp: (T, T) -> bool)
    ensures forall x :: x in Sort(xs, cmp) <==> x in xs
  {
    SortIsPermutation(xs, cmp);
    assert forall x :: x in xs <==> x in multiset(xs);
  }

  lemma PivotHasNoInversion<T(!new)>(cmp: (T, T) -> bool, small: seq<T>, h: T, big: seq<T>)
    requires NoInversion(cmp, small) && NoInversion(cmp, big)
    requires forall x :: x in small ==> !cmp(h, x)
    requires forall y :: y in big ==> !cmp(y, h)
    requires forall x, y :: x in small && y in big ==> !cmp(y, x)
    ensures NoInversion(cmp, small + [h] + big)
  {
    var out, n := small + [h] + big, |small|;
    forall i, j | 0 <= i < j < |out| ensures !cmp(out[j], out[i]) {
      assert i < n ==> out[i] == small[i];
      assert j < n ==> out[j] == small[j];
      assert i > n ==> out[i] == big[i - n - 1];
      assert j > n ==> out[j] == big[j - n - 1];
    }
  }

  /** The two parts a pivot leaves: sorted, each holds the same members as before. */
  lemma PartsOfSort<T(!new)>(xs: seq<T>, cmp: (T, T) -> bool)
    requires xs != [] && StrictPartialOrder(cmp, xs)
    ensures var p := Partition(xs[1..], Below(cmp, xs[0]), [], []);
            && |p.0| < |xs| && |p.1| < |xs|
            && StrictPartialOrder(cmp, p.0) && StrictPartialOrder(cmp, p.1)
            && (forall x :: x in Sort(p.0, cmp) ==> x in xs && cmp(x, xs[0]))
            && (forall y :: y in Sort(p.1, cmp) ==> y in xs && !cmp(y, xs[0]))
  {
    var p := Partition(xs[1..], Below(cmp, xs[0]), [], []);
    SortMembers(p.0, cmp);
    SortMembers(p.1, cmp);
  }

  /** A comparator that is only a strict partial order still sorts to a linear extension. */
  lemma {:induction false} SortHasNoInversion<T(!new)>(xs: seq<T>, cmp: (T, T) -> bool)
    requires StrictPartialOrder(cmp, xs)
    ensures NoInversion(cmp, Sort(xs, cmp))
    decreases |xs|
  {
    if xs != [] {
      PartsOfSort(xs, cmp);
      var p := Partition(xs[1..], Below(cmp, xs[0]), [], []);
      SortHasNoInversion(p.0, cmp);
      SortHasNoInversion(p.1, cmp);
      PivotHasNoInversion(cmp, Sort(p.0, cmp), xs[0], Sort(p.1, cmp));
    }
  }

  lemma PermutationKeepsDistinct<T>(a: seq<T>, b: seq<T>)
    requires NoDuplicates(a) && multiset(a) == multiset(b)
    ensures NoDuplicates(b)
  {
    forall i, j | 0 <= i < j < |b| ensures b[i] != b[j] {
      if b[i] == b[j] {
        assert b == b[..i] + [b[i]] + b[i+1..j] + [b[j]] + b[j+1..];
        assert multiset(b)[b[i]] >= 2;
        DistinctCounts(a, b[i]);
        assert false;
      }
    }
  }

  lemma DistinctCounts<T>(a: seq<T>, x: T)
    requires NoDuplicates(a)
    ensures multiset(a)[x] <= 1
  {
    if a != [] {
      assert a == [a[0]] + a[1..];
      DistinctCounts(a[1..], x);
      if x == a[0] {
        assert x !in a[1..];
        assert multiset(a[1..])[x] == 0;
      }
    }
  }
}
