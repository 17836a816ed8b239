/** bitop.hpp and MemoryRingBuffer2.hpp: a slice allocator over a bitmap of 64-bit words, 0 free and 1 allocated.
    Slots count from 1, as acquire and release use them; 0 means that nothing was found. */
module Bitmap {

  const BITS: nat := 64                            // BITS_PER_LONG

  /** A machine word as its bits, the least significant first. */
  type Word = w: seq<bool> | |w| == BITS witness seq(BITS, _ => false)

  // ----- bitop.hpp

  function Filled(v: bool): (w: Word)
    ensures forall i :: 0 <= i < BITS ==> w[i] == v
  {
    seq(BITS, _ => v)
  }

  function Complement(w: seq<bool>): (c: seq<bool>)
    ensures |c| == |w| && forall i :: 0 <= i < |w| ==> c[i] == !w[i]
  {
    if w == [] then [] else [!w[0]] + Complement(w[1..])
  }

  /** Trailing zero bits. */
  function Tzcnt(w: seq<bool>): (n: nat)
    ensures n <= |w| && (forall i :: 0 <= i < n ==> !w[i]) && (n < |w| ==> w[n])
  {
    if w == [] || w[0] then 0
    else
      assert forall i :: 1 <= i < |w| ==> w[i] == w[1..][i - 1];
      1 + Tzcnt(w[1..])
  }

  /** ffsll: one more than the number of trailing zeros, and 0 for the word 0. */
  function Ffsll(w: seq<bool>): nat {
    if Tzcnt(w) == |w| then 0 else Tzcnt(w) + 1
  }

  /** The first zero bit counted from 1, and 0 when there is none. */
  function Ffzll(w: seq<bool>): (n: nat)
    ensures n <= |w|
    ensures n == 0 ==> forall i :: 0 <= i < |w| ==> w[i]
    ensures n > 0 ==> !w[n - 1] && forall i :: 0 <= i < n - 1 ==> w[i]
  {
    assert forall i :: 0 <= i < |w| ==> Complement(w)[i] == !w[i];
    Ffsll(Complement(w))
  }

  function BitSetCount(w: seq<bool>): nat {
    if w == [] then 0 else BitSetCount(w[..|w| - 1]) + if w[|w| - 1] then 1 else 0
  }

  // ----- The bitmap as one row of bits

  predicate Bit(ws: seq<Word>, i: nat)
    requires i < BITS * |ws|
  {
    ws[i / BITS][i % BITS]
  }

  /** Exactly the bits lo..hi have become v. */
  ghost predicate Changed(before: seq<Word>, ws: seq<Word>, lo: nat, hi: nat, v: bool) {
    && |ws| == |before|
    && forall j: nat :: j < BITS * |ws| ==> Bit(ws, j) == if lo <= j < hi then v else Bit(before, j)
  }

  function WithBit(ws: seq<Word>, i: nat, v: bool): (r: seq<Word>)
    requires i < BITS * |ws|
    ensures |r| == |ws|
  {
    ws[i / BITS := ws[i / BITS][i % BITS := v]]
  }

  lemma OneMoreBit(before: seq<Word>, ws: seq<Word>, lo: nat, hi: nat, v: bool)
    requires Changed(before, ws, lo, hi, v) && lo <= hi < BITS * |ws|
    ensures Changed(before, WithBit(ws, hi, v), lo, hi + 1, v)
  {
    var r := WithBit(ws, hi, v);
    forall j: nat | j < BITS * |r| ensures Bit(r, j) == if lo <= j < hi + 1 then v else Bit(before, j) {
      assert Bit(ws, j) == if lo <= j < hi then v else Bit(before, j);
      if j / BITS == hi / BITS && j % BITS == hi % BITS {
        assert j == j / BITS * BITS + j % BITS && hi == hi / BITS * BITS + hi % BITS;
      }
    }
  }

  lemma OneMoreWord(before: seq<Word>, ws: seq<Word>, lo: nat, p: nat, v: bool)
    requires p < |ws| && lo <= BITS * p && Changed(before, ws, lo, BITS * p, v)
    ensures Changed(before, ws[p := Filled(v)], lo, BITS * (p + 1), v)
  {
    var r := ws[p := Filled(v)];
    forall j: nat | j < BITS * |r| ensures Bit(r, j) == if lo <= j < BITS * (p + 1) then v else Bit(before, j) {
      assert Bit(ws, j) == if lo <= j < BITS * p then v else Bit(before, j);
      assert j / BITS == p <==> BITS * p <= j < BITS * (p + 1);
    }
  }

  // ----- Counting

  function CountOnes(ws: seq<Word>, k: nat): (n: nat)
    requires k <= BITS * |ws|
    ensures n <= k
  {
    if k == 0 then 0 else CountOnes(ws, k - 1) + if Bit(ws, k - 1) then 1 else 0
  }

  function Overlap(k: nat, lo: nat, hi: nat): int {
    if k <= lo then 0 else if k <= hi then k - lo else if lo <= hi then hi - lo else 0
  }

  /** Changing bits that all had the other value moves the count by exactly their number. */
  lemma {:induction false} ChangedCount(before: seq<Word>, ws: seq<Word>, lo: nat, hi: nat, v: bool, k: nat)
    requires Changed(before, ws, lo, hi, v) && lo <= hi && k <= BITS * |ws|
    requires forall j: nat :: lo <= j < hi && j < BITS * |ws| ==> Bit(before, j) == !v
    ensures CountOnes(ws, k) == CountOnes(before, k) + if v then Overlap(k, lo, hi) else -Overlap(k, lo, hi)
  {
    if k > 0 {
      ChangedCount(before, ws, lo, hi, v, k - 1);
      assert Bit(ws, k - 1) == if lo <= k - 1 < hi then v else Bit(before, k - 1);
    }
  }

  lemma {:induction false} CountOneWord(ws: seq<Word>, p: nat, k: nat)
    requires p < |ws| && k <= BITS
    ensures BITS * p + k <= BITS * |ws|
    ensures CountOnes(ws, BITS * p + k) == CountOnes(ws, BITS * p) + BitSetCount(ws[p][..k])
  {
    if k > 0 {
      CountOneWord(ws, p, k - 1);
      assert ws[p][..k][..k - 1] == ws[p][..k - 1];
      assert (BITS * p + (k - 1)) / BITS == p && (BITS * p + (k - 1)) % BITS == k - 1;
    }
  }

  lemma {:induction false} CountComplement(w: seq<bool>)
    ensures BitSetCount(Complement(w)) == |w| - BitSetCount(w)
  {
    if w != [] {
      var n := |w| - 1;
      assert Complement(w)[..n] == Complement(w[..n]);
      CountComplement(w[..n]);
    }
  }

  // ----- Runs of free slices

  ghost predicate FreeRun(ws: seq<Word>, start: nat, n: nat) {
    start + n <= BITS * |ws| && forall j: nat :: start <= j < start + n ==> !Bit(ws, j)
  }

  /** `slot` names, from 1, the least start of a free run of n slices, or is 0 when there is no such run. */
  ghost predicate IsFirstFit(ws: seq<Word>, n: nat, slot: nat) {
    if slot == 0 then forall s: nat :: !FreeRun(ws, s, n)
    else FreeRun(ws, slot - 1, n) && forall s: nat :: s < slot - 1 ==> !FreeRun(ws, s, n)
  }

  /** First fit leaves no choice, so searches that meet it agree with each other. */
  lemma FirstFitIsUnique(ws: seq<Word>, n: nat, a: nat, b: nat)
    requires IsFirstFit(ws, n, a) && IsFirstFit(ws, n, b)
    ensures a == b
  {
    if a != 0 { assert FreeRun(ws, a - 1, n); }
    if b != 0 { assert FreeRun(ws, b - 1, n); }
  }

  lemma UsedBitBreaksRuns(ws: seq<Word>, s: nat, n: nat, j: nat)
    requires j < BITS * |ws| && Bit(ws, j) && s <= j < s + n
    ensures !FreeRun(ws, s, n)
  {
  }

  // ----- Extents handed out

  /** The slices first, ..., first + count - 1, counted from 0. */
  datatype Extent = Extent(first: nat, count: nat)

  predicate Covers(e: Extent, i: nat) { e.first <= i < e.first + e.count }

  predicate Covered(live: seq<Extent>, i: nat) { exists k :: 0 <= k < |live| && Covers(live[k], i) }

  function Total(live: seq<Extent>): nat {
    if live == [] then 0 else Total(live[..|live| - 1]) + live[|live| - 1].count
  }

  ghost predicate Disjoint(live: seq<Extent>) {
    forall i, j, x: nat :: 0 <= i < j < |live| && Covers(live[i], x) ==> !Covers(live[j], x)
  }

  /** The bitmap is the union of the live extents, which are disjoint, and the counts agree. */
  ghost predicate Represents(ws: seq<Word>, live: seq<Extent>) {
    && Disjoint(live)
    && (forall k :: 0 <= k < |live| ==> live[k].count > 0 && live[k].first + live[k].count <= BITS * |ws|)
    && (forall x: nat :: x < BITS * |ws| ==> (Bit(ws, x) <==> Covered(live, x)))
    && CountOnes(ws, BITS * |ws|) == Total(live)
  }

  function Without(live: seq<Extent>, k: nat): seq<Extent>
    requires k < |live|
  {
    live[..k] + live[k + 1..]
  }

  lemma {:induction false} TotalWithout(live: seq<Extent>, k: nat)
    requires k < |live|
    ensures Total(live) == Total(Without(live, k)) + live[k].count
    decreases |live|
  {
    var n := |live| - 1;
    if k < n {
      TotalWithout(live[..n], k);
      assert Without(live, k)[..n - 1] == Without(live[..n], k);
    } else {
      assert Without(live, k) == live[..n];
    }
  }

  lemma AcquireRepresents(ws: seq<Word>, r: seq<Word>, live: seq<Extent>, first: nat, n: nat)
    requires Represents(ws, live) && n > 0 && FreeRun(ws, first, n) && Changed(ws, r, first, first + n, true)
    ensures Represents(r, live + [Extent(first, n)])
  {
    var e, more := Extent(first, n), live + [Extent(first, n)];
    ChangedCount(ws, r, first, first + n, true, BITS * |ws|);
    assert more[..|more| - 1] == live;
    forall i, x: nat | 0 <= i < |live| && Covers(live[i], x) ensures !Covers(e, x) {
      assert Covered(live, x);
    }
    forall x: nat | x < BITS * |r| ensures Bit(r, x) <==> Covered(more, x) {
      CoveredByMore(live, e, x);
    }
  }

  lemma CoveredByMore(live: seq<Extent>, e: Extent, x: nat)
    ensures Covered(live + [e], x) <==> Covered(live, x) || Covers(e, x)
  {
    var more := live + [e];
    if Covered(live, x) {
      var k :| 0 <= k < |live| && Covers(live[k], x);
      assert Covers(more[k], x);
    }
    if Covers(e, x) { assert Covers(more[|live|], x); }
  }

  lemma CoveredWithout(live: seq<Extent>, k: nat, x: nat)
    requires k < |live| && Disjoint(live)
    ensures Covered(Without(live, k), x) <==> Covered(live, x) && !Covers(live[k], x)
  {
    var less := Without(live, k);
    if Covered(less, x) {
      var i :| 0 <= i < |less| && Covers(less[i], x);
      var j := if i < k then i else i + 1;
      assert Covers(live[j], x);
    }
    if Covered(live, x) && !Covers(live[k], x) {
      var i :| 0 <= i < |live| && Covers(live[i], x);
      assert Covers(less[if i < k then i else i - 1], x);
    }
  }

  lemma WithoutIsDisjoint(live: seq<Extent>, k: nat)
    requires k < |live| && Disjoint(live)
    ensures Disjoint(Without(live, k))
  {
    var less := Without(live, k);
    forall i, j, x: nat | 0 <= i < j < |less| && Covers(less[i], x) ensures !Covers(less[j], x) {
      var a, b := if i < k then i else i + 1, if j < k then j else j + 1;
      assert Covers(live[a], x) && less[j] == live[b];
    }
  }

  lemma ReleaseRepresents(ws: seq<Word>, r: seq<Word>, live: seq<Extent>, k: nat)
    requires Represents(ws, live) && k < |live|
    requires Changed(ws, r, live[k].first, live[k].first + live[k].count, false)
    ensures Represents(r, Without(live, k))
  {
    var e := live[k];
    forall j: nat | e.first <= j < e.first + e.count && j < BITS * |ws| ensures Bit(ws, j) {
      assert Covers(live[k], j);
    }
    ChangedCount(ws, r, e.first, e.first + e.count, false, BITS * |ws|);
    TotalWithout(live, k);
    WithoutIsDisjoint(live, k);
    forall x: nat | x < BITS * |r| ensures Bit(r, x) <==> Covered(Without(live, k), x) {
      CoveredWithout(live, k, x);
    }
  }

  /** Releasing an extent right after acquiring it restores every word. */
  lemma ReleaseUndoesAcquire(ws: seq<Word>, r: seq<Word>, t: seq<Word>, first: nat, n: nat)
    requires FreeRun(ws, first, n)
    requires Changed(ws, r, first, first + n, true) && Changed(r, t, first, first + n, false)
    ensures t == ws
  {
    forall i | 0 <= i < |ws| ensures t[i] == ws[i] {
      forall b | 0 <= b < BITS ensures t[i][b] == ws[i][b] {
        var j := i * BITS + b;
        assert j / BITS == i && j % BITS == b;
        assert Bit(t, j) == Bit(ws, j) by { assert Bit(r, j) == if first <= j < first + n then true else Bit(ws, j); }
      }
    }
  }

  class MemoryRingBuffer {
    const mFreeBitMap: array<Word>
    ghost var live: seq<Extent>

    ghost predicate Valid()
      reads this, mFreeBitMap
    {
      mFreeBitMap.Length > 0 && Represents(mFreeBitMap[..], live)
    }

    function Capacity(): nat { BITS * mFreeBitMap.Length }     // FIXED_SLICE_CNT

    constructor (wordCount: nat)
      requires wordCount > 0
      ensures Valid() && fresh(mFreeBitMap) && live == [] && Capacity() == BITS * wordCount
    {
      mFreeBitMap := new Word[wordCount](_ => Filled(false));
      live := [];
      new;
      NothingSet(mFreeBitMap[..], Capacity());
    }

    /** Sets or clears bits nr, ..., nr + bits - 1: odd bits on the left, whole words, odd bits on the right. */
    method BitmapOP(value: bool, nr: nat, bits: nat)
      requires nr + bits <= Capacity()
      modifies mFreeBitMap
      ensures Changed(old(mFreeBitMap[..]), mFreeBitMap[..], nr, nr + bits, value)
    {
      ghost var ws := mFreeBitMap[..];
      var endBit := nr + bits;
      var pos := nr / BITS;
      var leftEndBit := (nr / BITS + 1) * BITS;
      var i := nr;
      while i < endBit && i < leftEndBit
        invariant nr <= i && (i <= endBit && i <= leftEndBit)
        invariant Changed(ws, mFreeBitMap[..], nr, i, value)
      {
        OneMoreBit(ws, mFreeBitMap[..], nr, i, value);
        assert i / BITS == pos;
        mFreeBitMap[pos] := mFreeBitMap[pos][i % BITS := value];
        i := i + 1;
      }
      if endBit <= leftEndBit { return; }
      pos := pos + 1;
      var words := endBit / BITS - pos;
      i := pos;
      while i < pos + words
        invariant pos <= i <= pos + words
        invariant Changed(ws, mFreeBitMap[..], nr, BITS * i, value)
      {
        OneMoreWord(ws, mFreeBitMap[..], nr, i, value);
        mFreeBitMap[i] := Filled(value);
        i := i + 1;
      }
      pos := pos + words;
      var rightOddBits, bit := endBit % BITS, 0;
      while bit < rightOddBits
        invariant bit <= rightOddBits
        invariant Changed(ws, mFreeBitMap[..], nr, BITS * pos + bit, value)
      {
        OneMoreBit(ws, mFreeBitMap[..], nr, BITS * pos + bit, value);
        assert (BITS * pos + bit) / BITS == pos && (BITS * pos + bit) % BITS == bit;
        mFreeBitMap[pos] := mFreeBitMap[pos][bit := value];
        bit := bit + 1;
      }
    }

    /** Find(): the first zero bit, word by word. */
    method FindOne() returns (slot: nat)
      ensures IsFirstFit(mFreeBitMap[..], 1, slot)
    {
      ghost var ws := mFreeBitMap[..];
      var i := 0;
      while i < mFreeBitMap.Length
        invariant i <= mFreeBitMap.Length
        invariant forall j: nat :: j < BITS * i ==> Bit(ws, j)
      {
        var nr := Ffzll(mFreeBitMap[i]);
        if nr != 0 {
          FirstZeroOfWord(ws, i, nr);
          return i * BITS + nr;
        }
        FullWord(ws, i);
        i := i + 1;
      }
      forall s: nat ensures !FreeRun(ws, s, 1) {
        if s + 1 <= BITS * |ws| { UsedBitBreaksRuns(ws, s, 1, s); }
      }
      slot := 0;
    }

    /** Find<SLICES>(): trailing zeros of word 0 if they suffice, else bit by bit. */
    method Find(slices: nat) returns (slot: nat)
      requires slices > 0 && mFreeBitMap.Length > 0
      ensures IsFirstFit(mFreeBitMap[..], slices, slot)
    {
      ghost var ws := mFreeBitMap[..];
      if Tzcnt(mFreeBitMap[0]) >= slices {
        assert FreeRun(ws, 0, slices);
        return 1;
      }
      var bit, maxSoFar, currentRet, data := 0, 0, 0, mFreeBitMap[0];
      while bit < BITS * mFreeBitMap.Length
        invariant bit <= BITS * |ws| && currentRet <= bit && currentRet <= maxSoFar < slices
        invariant bit % BITS != 0 ==> data == ws[bit / BITS]
        invariant RunEnds(ws, bit, currentRet)
        invariant forall s: nat :: s + slices <= bit ==> !FreeRun(ws, s, slices)
      {
        var shift := bit % BITS;
        if shift == 0 { data := mFreeBitMap[bit / BITS]; }
        if data[shift] {
          NoRunEndsAfter(ws, bit, 0, slices);
          currentRet := 0;
        } else {
          LongerRun(ws, bit, currentRet);
          currentRet := currentRet + 1;
          maxSoFar := if currentRet > maxSoFar then currentRet else maxSoFar;
          if maxSoFar == slices { return bit + 1 - slices + 1; }
          NoRunEndsAfter(ws, bit, currentRet, slices);
        }
        bit := bit + 1;
      }
      slot := 0;
    }

    /** The number of free slices. */
    method Size() returns (zeroBits: nat)
      requires Valid()
      ensures zeroBits + Total(live) == Capacity()
    {
      zeroBits := 0;
      var i := 0;
      while i < mFreeBitMap.Length
        invariant i <= mFreeBitMap.Length
        invariant zeroBits + CountOnes(mFreeBitMap[..], BITS * i) == BITS * i
      {
        CountOneWord(mFreeBitMap[..], i, BITS);
        CountComplement(mFreeBitMap[i]);
        assert mFreeBitMap[i][..BITS] == mFreeBitMap[i];
        zeroBits := zeroBits + BitSetCount(Complement(mFreeBitMap[i]));
        i := i + 1;
      }
    }

    /** empty() answers whether no slice is free. */
    method Empty() returns (r: bool)
      ensures r <==> forall j: nat :: j < Capacity() ==> Bit(mFreeBitMap[..], j)
    {
      ghost var ws := mFreeBitMap[..];
      var i := 0;
      while i < mFreeBitMap.Length
        invariant i <= mFreeBitMap.Length
        invariant forall j: nat :: j < BITS * i ==> Bit(ws, j)
      {
        var nr := Ffzll(mFreeBitMap[i]);
        if nr != 0 {
          FirstZeroOfWord(ws, i, nr);
          var z: nat := i * BITS + nr - 1;
          assert FreeRun(ws, z, 1) && ws == mFreeBitMap[..];
          assert !Bit(mFreeBitMap[..], z);
          return false;
        }
        FullWord(ws, i);
        i := i + 1;
      }
      r := true;
    }

    method Take(first: nat, slices: nat)
      requires Valid() && slices > 0 && FreeRun(mFreeBitMap[..], first, slices)
      modifies this, mFreeBitMap
      ensures Valid() && live == old(live) + [Extent(first, slices)]
    {
      ghost var ws := mFreeBitMap[..];
      BitmapOP(true, first, slices);
      AcquireRepresents(ws, mFreeBitMap[..], live, first, slices);
      live := live + [Extent(first, slices)];
    }

    /** acquire<SIZE>(): `slices` is SIZE rounded up to slices. */
    method Acquire(slices: nat) returns (slot: nat)
      requires Valid() && slices > 0
      modifies this, mFreeBitMap
      ensures Valid() && IsFirstFit(old(mFreeBitMap[..]), slices, slot)
      ensures live == old(live) + if slot == 0 then [] else [Extent(slot - 1, slices)]
    {
      if slices == 1 { slot := FindOne(); } else { slot := Find(slices); }
      if slot != 0 { Take(slot - 1, slices); }
    }

    /** release<SIZE>(): gives back live extent k. */
    method Release(slot: nat, slices: nat, ghost k: nat)
      requires Valid() && slot > 0 && k < |live| && live[k] == Extent(slot - 1, slices)
      modifies this, mFreeBitMap
      ensures Valid() && live == Without(old(live), k)
    {
      ghost var ws := mFreeBitMap[..];
      BitmapOP(false, slot - 1, slices);
      ReleaseRepresents(ws, mFreeBitMap[..], live, k);
      live := Without(live, k);
    }
  }

  lemma {:induction false} NothingSet(ws: seq<Word>, k: nat)
    requires k <= BITS * |ws| && forall i :: 0 <= i < |ws| ==> ws[i] == Filled(false)
    ensures CountOnes(ws, k) == 0 && forall j: nat :: j < k ==> !Bit(ws, j)
  {
    if k > 0 { NothingSet(ws, k - 1); }
  }

  lemma FirstZeroOfWord(ws: seq<Word>, i: nat, nr: nat)
    requires i < |ws| && nr == Ffzll(ws[i]) > 0 && forall j: nat :: j < BITS * i ==> Bit(ws, j)
    ensures IsFirstFit(ws, 1, i * BITS + nr)
  {
    var z := i * BITS + nr - 1;
    assert z / BITS == i && z % BITS == nr - 1;
    forall s: nat | s < z ensures !FreeRun(ws, s, 1) {
      if s >= i * BITS { assert s / BITS == i && s % BITS == s - i * BITS; }
      UsedBitBreaksRuns(ws, s, 1, s);
    }
  }

  lemma FullWord(ws: seq<Word>, i: nat)
    requires i < |ws| && Ffzll(ws[i]) == 0 && forall j: nat :: j < BITS * i ==> Bit(ws, j)
    ensures forall j: nat :: j < BITS * (i + 1) ==> Bit(ws, j)
  {
    forall j: nat | BITS * i <= j < BITS * (i + 1) ensures Bit(ws, j) {
      assert j / BITS == i;
    }
  }

  /** The longest free run that ends just before `bit` has length n. */
  ghost predicate RunEnds(ws: seq<Word>, bit: nat, n: nat) {
    && n <= bit <= BITS * |ws|
    && (forall j: nat :: bit - n <= j < bit ==> !Bit(ws, j))
    && (n < bit ==> Bit(ws, bit - n - 1))
  }

  lemma LongerRun(ws: seq<Word>, bit: nat, n: nat)
    requires RunEnds(ws, bit, n) && bit < BITS * |ws| && !Bit(ws, bit)
    ensures RunEnds(ws, bit + 1, n + 1)
  {
  }

  lemma NoRunEndsAfter(ws: seq<Word>, bit: nat, n: nat, slices: nat)
    requires bit < BITS * |ws| && n < slices
    requires if n == 0 then Bit(ws, bit) else RunEnds(ws, bit + 1, n)
    requires forall s: nat :: s + slices <= bit ==> !FreeRun(ws, s, slices)
    ensures forall s: nat :: s + slices <= bit + 1 ==> !FreeRun(ws, s, slices)
  {
    forall s: nat | s + slices == bit + 1 ensures !FreeRun(ws, s, slices) {
      UsedBitBreaksRuns(ws, s, slices, bit - n);
    }
  }
}
