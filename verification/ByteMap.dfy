/** The store as a sparse byte map: what reads return and what writes change. */
module ByteMap {
  import opened Bytes
  import opened Common
  import opened QuantumStore

  /** Two stores hold the same quanta. */
  ghost predicate SameBlocks(a: seq<Item>, b: seq<Item>, qset: nat)
    requires qset > 0
  {
    forall n: nat :: BlockAt(a, qset, n) == BlockAt(b, qset, n)
  }

  lemma SameBlocksSameBytes(a: seq<Item>, b: seq<Item>, quantum: nat, qset: nat, p: nat)
    requires quantum > 0 && qset > 0 && SameBlocks(a, b, qset)
    ensures ByteAt(a, quantum, qset, p) == ByteAt(b, quantum, qset, p)
  {
    assert BlockAt(a, qset, p / quantum) == BlockAt(b, qset, p / quantum);
  }

  /** What one write did: `raw` is the memory of a quantum it had to allocate, which nobody cleared. */
  ghost predicate WroteAt(items: seq<Item>, items': seq<Item>, quantum: nat, qset: nat, pos: nat, data: seq<byte>,
                          raw: seq<byte>)
    requires quantum > 0 && qset > 0
  {
    && |raw| == quantum && pos % quantum + |data| <= quantum
    && forall p: nat ::
      ByteAt(items', quantum, qset, p) == NewByte(ByteAt(items, quantum, qset, p), quantum, pos, data, raw, p)
  }

  function NewByte(was: Option<byte>, quantum: nat, pos: nat, data: seq<byte>, raw: seq<byte>, p: nat): Option<byte>
    requires |raw| == quantum > 0
  {
    if pos <= p < pos + |data| then Some(data[p - pos])
    else if p / quantum == pos / quantum && was == None then Some(raw[p % quantum])
    else was
  }

  /** Outside its range a write leaves the map as it was. */
  ghost predicate OnlyRange(items: seq<Item>, items': seq<Item>, quantum: nat, qset: nat, pos: nat, n: nat)
    requires quantum > 0 && qset > 0
  {
    forall p: nat :: pos <= p < pos + n || ByteAt(items', quantum, qset, p) == ByteAt(items, quantum, qset, p)
  }

  /**
   * A write changes its range and nothing else exactly when its quantum was there before, or it fills the whole
   * quantum: otherwise the rest of the new quantum, a hole before, reads as whatever the allocator handed out.
   */
  lemma OnlyRangeIff(items: seq<Item>, items': seq<Item>, quantum: nat, qset: nat, pos: nat, data: seq<byte>,
                     raw: seq<byte>)
    requires StoreOk(items, quantum, qset) && WroteAt(items, items', quantum, qset, pos, data, raw)
    ensures OnlyRange(items, items', quantum, qset, pos, |data|)
            <==> BlockAt(items, qset, pos / quantum).Quantum? || |data| == quantum
  {
    BlockIsOk(items, quantum, qset, pos / quantum);
    if BlockAt(items, qset, pos / quantum).Hole? && |data| < quantum {
      var p := if pos % quantum > 0 then pos - pos % quantum else pos + |data|;
      AnotherInQuantum(pos, |data|, quantum);
      assert ByteAt(items', quantum, qset, p) != ByteAt(items, quantum, qset, p);
    } else {
      forall p: nat
        ensures pos <= p < pos + |data| || ByteAt(items', quantum, qset, p) == ByteAt(items, quantum, qset, p)
      {
        OutsideRange(pos, |data|, quantum, p);
      }
    }
  }

  lemma AnotherInQuantum(pos: nat, n: nat, quantum: nat)
    requires quantum > 0 && pos % quantum + n <= quantum && n < quantum
    ensures pos >= pos % quantum
    ensures var p := if pos % quantum > 0 then pos - pos % quantum else pos + n;
            p / quantum == pos / quantum && !(pos <= p < pos + n)
  {
    DivMod(pos, quantum);
    QuotientAndRest(pos - pos % quantum, quantum, pos / quantum, 0);
    if pos % quantum == 0 { SameQuantum(pos, n, quantum); }
  }

  /** The bytes written since the device was emptied, each with its last value. */
  function Overwritten(m: map<nat, byte>, pos: nat, data: seq<byte>): map<nat, byte> {
    if data == [] then m
    else Overwritten(m, pos, data[..|data| - 1])[pos + |data| - 1 := data[|data| - 1]]
  }

  lemma {:induction false} OverwrittenAt(m: map<nat, byte>, pos: nat, data: seq<byte>, p: nat)
    ensures var w := Overwritten(m, pos, data);
            && (p in w <==> pos <= p < pos + |data| || p in m)
            && (p in w ==> w[p] == if pos <= p < pos + |data| then data[p - pos] else m[p])
    decreases |data|
  {
    if data != [] { OverwrittenAt(m, pos, data[..|data| - 1], p); }
  }

  /** Every written byte is in the store, below the size. */
  ghost predicate Holds(items: seq<Item>, quantum: nat, qset: nat, size: nat, written: map<nat, byte>)
    requires quantum > 0 && qset > 0
  {
    forall p :: p in written ==> p < size && ByteAt(items, quantum, qset, p) == Some(written[p])
  }

  lemma WriteKeepsWritten(items: seq<Item>, items': seq<Item>, quantum: nat, qset: nat, size: nat,
                          written: map<nat, byte>, pos: nat, data: seq<byte>, raw: seq<byte>)
    requires quantum > 0 && qset > 0 && Holds(items, quantum, qset, size, written)
    requires WroteAt(items, items', quantum, qset, pos, data, raw)
    ensures Holds(items', quantum, qset, if size < pos + |data| then pos + |data| else size,
                  Overwritten(written, pos, data))
  {
    var w := Overwritten(written, pos, data);
    forall p | p in w
      ensures p < (if size < pos + |data| then pos + |data| else size)
      ensures ByteAt(items', quantum, qset, p) == Some(w[p])
    {
      OverwrittenAt(written, pos, data, p);
    }
  }

  ghost predicate OtherBlocksSame(items: seq<Item>, items': seq<Item>, qset: nat, block: nat)
    requires qset > 0
  {
    forall b: nat :: b != block ==> BlockAt(items', qset, b) == BlockAt(items, qset, b)
  }

  lemma OtherBlock(items: seq<Item>, items': seq<Item>, qset: nat, block: nat, b: nat)
    requires qset > 0 && OtherBlocksSame(items, items', qset, block)
    ensures b != block ==> BlockAt(items', qset, b) == BlockAt(items, qset, b)
  {
  }

  /** An existing or new quantum, patched, with all others left alone. */
  ghost predicate IsPatch(items: seq<Item>, items': seq<Item>, quantum: nat, qset: nat, pos: nat, data: seq<byte>,
                          raw: seq<byte>, before: seq<byte>)
    requires quantum > 0 && qset > 0
  {
    && |before| == |raw| == quantum && pos % quantum + |data| <= quantum
    && (var s := BlockAt(items, qset, pos / quantum); before == if s.Hole? then raw else s.bytes)
    && BlockAt(items', qset, pos / quantum) == Quantum(Patch(before, pos % quantum, data))
    && OtherBlocksSame(items, items', qset, pos / quantum)
  }

  lemma PatchIsWrite(items: seq<Item>, items': seq<Item>, quantum: nat, qset: nat, pos: nat, data: seq<byte>,
                     raw: seq<byte>, before: seq<byte>)
    requires quantum > 0 && qset > 0 && IsPatch(items, items', quantum, qset, pos, data, raw, before)
    ensures WroteAt(items, items', quantum, qset, pos, data, raw)
  {
    forall p: nat
      ensures ByteAt(items', quantum, qset, p) == NewByte(ByteAt(items, quantum, qset, p), quantum, pos, data, raw, p)
    {
      PatchedByte(items, items', quantum, qset, pos, data, raw, before, p);
    }
  }

  lemma PatchedByte(items: seq<Item>, items': seq<Item>, quantum: nat, qset: nat, pos: nat, data: seq<byte>,
                    raw: seq<byte>, before: seq<byte>, p: nat)
    requires quantum > 0 && qset > 0 && IsPatch(items, items', quantum, qset, pos, data, raw, before)
    ensures ByteAt(items', quantum, qset, p) == NewByte(ByteAt(items, quantum, qset, p), quantum, pos, data, raw, p)
  {
    OtherBlock(items, items', qset, pos / quantum, p / quantum);
    ByteAfterWrite(items, items', quantum, qset, pos, before, data, p);
    BeforeInQuantum(items, quantum, qset, pos, raw, before, p);
  }

  lemma BeforeInQuantum(items: seq<Item>, quantum: nat, qset: nat, pos: nat, raw: seq<byte>, before: seq<byte>, p: nat)
    requires quantum > 0 && qset > 0 && |before| == |raw| == quantum
    requires var s := BlockAt(items, qset, pos / quantum); before == if s.Hole? then raw else s.bytes
    ensures p / quantum == pos / quantum ==>
              var was := ByteAt(items, quantum, qset, p);
              Some(before[p % quantum]) == if was == None then Some(raw[p % quantum]) else was
  {
  }

  /** The quantum of a write is there: the one from before, or a new one with `raw` memory. */
  ghost predicate Ensured(was: seq<Item>, items: seq<Item>, quantum: nat, qset: nat, block: nat, raw: seq<byte>)
    requires qset > 0
  {
    && |raw| == quantum
    && BlockAt(items, qset, block) == (var s := BlockAt(was, qset, block); if s.Hole? then Quantum(raw) else s)
    && OtherBlocksSame(was, items, qset, block)
  }

  lemma PutIsEnsured(was: seq<Item>, quantum: nat, qset: nat, block: nat, raw: seq<byte>)
    requires StoreOk(was, quantum, qset) && |raw| == quantum && block / qset < |was| && was[block / qset].Set?
    requires BlockAt(was, qset, block) == Hole
    ensures block % qset < |was[block / qset].slots|
    ensures var items := Put(was, block / qset, block % qset, raw);
            StoreOk(items, quantum, qset) && Ensured(was, items, quantum, qset, block, raw)
  {
    var items := Put(was, block / qset, block % qset, raw);
    PutIsOk(was, quantum, qset, block / qset, block % qset, raw);
    forall b: nat ensures BlockAt(items, qset, b) == if b == block then Quantum(raw) else BlockAt(was, qset, b) {
      PutChangesOne(was, quantum, qset, block, raw, b);
    }
  }

  lemma EnsuredIsEmptyWrite(was: seq<Item>, items: seq<Item>, quantum: nat, qset: nat, pos: nat, raw: seq<byte>)
    requires StoreOk(was, quantum, qset) && Ensured(was, items, quantum, qset, pos / quantum, raw)
    ensures WroteAt(was, items, quantum, qset, pos, [], raw)
  {
    BlockIsOk(was, quantum, qset, pos / quantum);
    var before := BlockAt(items, qset, pos / quantum).bytes;
    assert Patch(before, pos % quantum, []) == before;
    PatchIsWrite(was, items, quantum, qset, pos, [], raw, before);
  }

  lemma PatchedIsWrite(was: seq<Item>, mid: seq<Item>, quantum: nat, qset: nat, pos: nat, data: seq<byte>, raw: seq<byte>)
    requires StoreOk(was, quantum, qset) && StoreOk(mid, quantum, qset) && pos % quantum + |data| <= quantum
    requires Ensured(was, mid, quantum, qset, pos / quantum, raw)
    ensures var block := pos / quantum; var before := BlockAt(mid, qset, block).bytes;
            && |before| == quantum && block / qset < |mid| && mid[block / qset].Set? && |mid[block / qset].slots| == qset
            && var items' := Put(mid, block / qset, block % qset, Patch(before, pos % quantum, data));
               StoreOk(items', quantum, qset) && WroteAt(was, items', quantum, qset, pos, data, raw)
  {
    var block := pos / quantum;
    BlockIsOk(mid, quantum, qset, block);
    var before := BlockAt(mid, qset, block).bytes;
    var after := Patch(before, pos % quantum, data);
    PutIsOk(mid, quantum, qset, block / qset, block % qset, after);
    var items' := Put(mid, block / qset, block % qset, after);
    forall b: nat
      ensures BlockAt(items', qset, b) == if b == block then Quantum(after) else BlockAt(mid, qset, b)
    {
      PutChangesOne(mid, quantum, qset, block, after, b);
    }
    PatchIsWrite(was, items', quantum, qset, pos, data, raw, before);
  }

  /** What a read returns. */
  ghost function ReadBytes(items: seq<Item>, quantum: nat, qset: nat, size: nat, pos: nat, count: nat): seq<byte>
    requires StoreOk(items, quantum, qset)
  {
    var s := BlockAt(items, qset, pos / quantum);
    if pos >= size || s.Hole? then []
    else
      BlockIsOk(items, quantum, qset, pos / quantum);
      var n := Min(Min(count, size - pos), quantum - pos % quantum);
      s.bytes[pos % quantum..pos % quantum + n]
  }

  /** A read returns consecutive bytes of the map, and nothing when it starts in a hole. */
  lemma ReadIsTheMap(items: seq<Item>, quantum: nat, qset: nat, size: nat, pos: nat, count: nat, i: nat)
    requires StoreOk(items, quantum, qset)
    ensures var r := ReadBytes(items, quantum, qset, size, pos, count);
            && (i < |r| ==> ByteAt(items, quantum, qset, pos + i) == Some(r[i]))
            && (pos < size && count > 0 ==> (r == [] <==> ByteAt(items, quantum, qset, pos) == None))
            && |r| <= count
  {
    BlockIsOk(items, quantum, qset, pos / quantum);
    if i < |ReadBytes(items, quantum, qset, size, pos, count)| { SameQuantum(pos, i, quantum); }
  }

  /**
   * A read stays within the size, and takes as much as it can: all that was asked for, or up to the size, or up to
   * the end of the quantum.
   */
  lemma ReadIsAsLongAsItCan(items: seq<Item>, quantum: nat, qset: nat, size: nat, pos: nat, count: nat)
    requires StoreOk(items, quantum, qset)
    ensures var r := ReadBytes(items, quantum, qset, size, pos, count);
            && (r != [] ==> pos + |r| <= size)
            && (pos < size && ByteAt(items, quantum, qset, pos) != None ==>
                  |r| == count || pos + |r| == size || (pos + |r|) % quantum == 0)
  {
    BlockIsOk(items, quantum, qset, pos / quantum);
    DivMod(pos, quantum);
    var r := ReadBytes(items, quantum, qset, size, pos, count);
    if |r| == quantum - pos % quantum { NextQuantum(pos, quantum); }
  }

  lemma NextQuantum(pos: nat, quantum: nat)
    requires quantum > 0
    ensures (pos + (quantum - pos % quantum)) % quantum == 0
  {
    DivMod(pos, quantum);
    QuotientAndRest(pos + (quantum - pos % quantum), quantum, pos / quantum + 1, 0);
  }

  /** So a read returns, at every written position it covers, the byte written last. */
  lemma ReadReturnsLastWritten(items: seq<Item>, quantum: nat, qset: nat, size: nat, written: map<nat, byte>,
                               pos: nat, count: nat, i: nat)
    requires StoreOk(items, quantum, qset) && Holds(items, quantum, qset, size, written)
    ensures var r := ReadBytes(items, quantum, qset, size, pos, count);
            && (i < |r| && pos + i in written ==> r[i] == written[pos + i])
            && (count > 0 && pos in written ==> r != [])
  {
    ReadIsTheMap(items, quantum, qset, size, pos, count, i);
  }

  // ----- Memory that is cleared when it is allocated

  function ZeroFilled(b: Option<byte>): byte { if b == None then 0 else b.value }

  /** When new quanta are cleared, and holes are taken as zeros, a write changes its range and nothing else. */
  lemma ClearedWriteChangesOnlyRange(items: seq<Item>, items': seq<Item>, quantum: nat, qset: nat, pos: nat,
                                     data: seq<byte>, raw: seq<byte>, p: nat)
    requires quantum > 0 && qset > 0 && WroteAt(items, items', quantum, qset, pos, data, raw)
    requires forall i :: 0 <= i < |raw| ==> raw[i] == 0
    ensures ZeroFilled(ByteAt(items', quantum, qset, p))
            == if pos <= p < pos + |data| then data[p - pos] else ZeroFilled(ByteAt(items, quantum, qset, p))
  {
    assert ByteAt(items', quantum, qset, p) == NewByte(ByteAt(items, quantum, qset, p), quantum, pos, data, raw, p);
  }

  // ----- The store through another geometry

  /** Looked up with `q` and `s`, every store of quanta of `quantum` bytes in sets of `qset` shows its own map. */
  ghost predicate ShowsTheMap(q: nat, s: nat, quantum: nat, qset: nat)
    requires q > 0 && s > 0 && quantum > 0 && qset > 0
  {
    forall items, p: nat :: StoreOk(items, quantum, qset) ==> ByteAt(items, q, s, p) == ByteAt(items, quantum, qset, p)
  }

  /** A store with a single quantum. */
  function Lone(quantum: nat, qset: nat, block: nat): seq<Item>
    requires qset > 0
  {
    seq(block / qset, i => NoSet) + [Set(Holes(qset)[block % qset := Quantum(Zeros(quantum))])]
  }

  lemma LoneHolds(quantum: nat, qset: nat, block: nat, at: nat)
    requires at < quantum && qset > 0
    ensures StoreOk(Lone(quantum, qset, block), quantum, qset)
    ensures ByteAt(Lone(quantum, qset, block), quantum, qset, block * quantum + at) == Some(0)
  {
    var items := Lone(quantum, qset, block);
    QuotientAndRest(block * quantum + at, quantum, block, at);
    forall i | 0 <= i < |items| ensures ItemOk(items[i], quantum, qset) {}
    assert BlockAt(items, qset, block) == Quantum(Zeros(quantum));
  }

  /** The position that goes wrong, for two geometries that differ. */
  function WrongBlock(q: nat, s: nat, quantum: nat, qset: nat): nat {
    if q < quantum then 0 else if q > quantum then 1 else Min(s, qset)
  }

  lemma LoneIsMissed(q: nat, s: nat, quantum: nat, qset: nat)
    requires q > 0 && s > 0 && quantum > 0 && qset > 0 && (q != quantum || s != qset)
    ensures var block := WrongBlock(q, s, quantum, qset);
            var p := block * quantum + (if q < quantum then q else 0);
            ByteAt(Lone(quantum, qset, block), q, s, p) == None
  {
    var block := WrongBlock(q, s, quantum, qset);
    var items := Lone(quantum, qset, block);
    if q < quantum {
      QuotientAndRest(q, q, 1, 0);
      LookUp(s, 1);
    } else if q > quantum {
      QuotientAndRest(quantum, q, 0, quantum);
      LookUp(s, 0);
    } else {
      QuotientAndRest(block * quantum, q, block, 0);
      LookUp(s, block);
      LookUp(qset, block);
    }
  }

  lemma LookUp(s: nat, b: nat)
    requires s > 0
    ensures b < s ==> b / s == 0 && b % s == b
    ensures b == s ==> b / s == 1 && b % s == 0
  {
    if b < s { QuotientAndRest(b, s, 0, b); }
    if b == s { QuotientAndRest(b, s, 1, 0); }
  }

  /** A geometry shows the map of every store exactly when it is the store's own. */
  lemma ShowsTheMapIff(q: nat, s: nat, quantum: nat, qset: nat)
    requires q > 0 && s > 0 && quantum > 0 && qset > 0
    ensures ShowsTheMap(q, s, quantum, qset) <==> q == quantum && s == qset
  {
    if q != quantum || s != qset {
      var block := WrongBlock(q, s, quantum, qset);
      LoneIsMissed(q, s, quantum, qset);
      LoneHolds(quantum, qset, block, if q < quantum then q else 0);
    }
  }
}
