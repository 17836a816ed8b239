/** The list of quantum sets behind scull and scullp, and where a position lives in it. */
module QuantumStore {
  import opened Bytes
  import opened Common

  // ----- Positions

  lemma MultipleIsFar(k: int, d: int)
    requires d >= 0
    ensures k >= 1 ==> k * d >= d
    ensures k <= -1 ==> k * d <= -d
  {
    if k >= 1 {
      assert k * d == (k - 1) * d + d;
    } else if k <= -1 {
      assert k * d == (k + 1) * d - d;
    }
  }

  /** Quotient and remainder are the only numbers of their kind. */
  lemma SameQuotient(d: nat, q: nat, r: nat, q': nat, r': nat)
    requires r < d && r' < d && q * d + r == q' * d + r'
    ensures q == q' && r == r'
  {
    MultipleIsFar(q - q', d);
    assert (q - q') * d == q * d - q' * d;
  }

  lemma QuotientAndRest(x: nat, d: nat, q: nat, r: nat)
    requires r < d && x == q * d + r
    ensures x / d == q && x % d == r
  {
    DivMod(x, d);
    SameQuotient(d, q, r, x / d, x % d);
  }

  lemma DivMod(x: nat, d: nat)
    requires d > 0
    ensures x == x / d * d + x % d
  {
  }

  /** The nested divisions of the drivers number the quanta consecutively, across items. */
  lemma NestedDivision(pos: nat, quantum: nat, qset: nat)
    requires quantum > 0 && qset > 0
    ensures quantum * qset > 0
    ensures pos / (quantum * qset) == pos / quantum / qset
    ensures pos % (quantum * qset) / quantum == pos / quantum % qset
    ensures pos % (quantum * qset) % quantum == pos % quantum
  {
    var block, at := pos / quantum, pos % quantum;
    var item, slot := block / qset, block % qset;
    DivMod(pos, quantum);
    DivMod(block, qset);
    NestedParts(pos, quantum, qset, item, slot, at);
  }

  lemma NestedParts(pos: nat, quantum: nat, qset: nat, item: nat, slot: nat, at: nat)
    requires at < quantum && slot < qset && pos == (item * qset + slot) * quantum + at
    ensures quantum * qset > 0
    ensures pos / (quantum * qset) == item && pos % (quantum * qset) / quantum == slot
    ensures pos % (quantum * qset) % quantum == at
  {
    var rest := slot * quantum + at;
    RestIsSmall(quantum, qset, slot, at);
    ItemTimesSize(pos, quantum, qset, item, slot, at);
    QuotientAndRest(pos, quantum * qset, item, rest);
    QuotientAndRest(rest, quantum, slot, at);
  }

  lemma RestIsSmall(quantum: nat, qset: nat, slot: nat, at: nat)
    requires at < quantum && slot < qset
    ensures slot * quantum + at < quantum * qset
  {
    assert (slot + 1) * quantum <= qset * quantum;
  }

  lemma ItemTimesSize(pos: nat, quantum: nat, qset: nat, item: nat, slot: nat, at: nat)
    requires pos == (item * qset + slot) * quantum + at
    ensures pos == item * (quantum * qset) + (slot * quantum + at)
  {
    assert (item * qset + slot) * quantum == item * qset * quantum + slot * quantum;
    assert item * qset * quantum == item * (quantum * qset);
  }

  /** Further on in the same quantum. */
  lemma SameQuantum(pos: nat, i: nat, quantum: nat)
    requires quantum > 0 && pos % quantum + i < quantum
    ensures (pos + i) / quantum == pos / quantum && (pos + i) % quantum == pos % quantum + i
  {
    QuotientAndRest(pos + i, quantum, pos / quantum, pos % quantum + i);
  }

  // ----- The store

  datatype Slot = Hole | Quantum(bytes: seq<byte>)

  /** A list item: its array of slots may not be allocated yet. */
  datatype Item = NoSet | Set(slots: seq<Slot>)

  ghost predicate SlotOk(s: Slot, quantum: nat) { s.Quantum? ==> |s.bytes| == quantum }

  ghost predicate ItemOk(item: Item, quantum: nat, qset: nat) {
    item.Set? ==> |item.slots| == qset && forall s :: 0 <= s < qset ==> SlotOk(item.slots[s], quantum)
  }

  ghost predicate StoreOk(items: seq<Item>, quantum: nat, qset: nat) {
    quantum > 0 && qset > 0 && forall i :: 0 <= i < |items| ==> ItemOk(items[i], quantum, qset)
  }

  /** The b-th quantum of the device, wherever it is. */
  function BlockAt(items: seq<Item>, qset: nat, b: nat): Slot
    requires qset > 0
  {
    if b / qset < |items| && items[b / qset].Set? && b % qset < |items[b / qset].slots|
    then items[b / qset].slots[b % qset] else Hole
  }

  lemma BlockIsOk(items: seq<Item>, quantum: nat, qset: nat, b: nat)
    requires StoreOk(items, quantum, qset)
    ensures SlotOk(BlockAt(items, qset, b), quantum)
  {
    var i := b / qset;
    if i < |items| && items[i].Set? && b % qset < |items[i].slots| { assert ItemOk(items[i], quantum, qset); }
  }

  /** The sparse byte map that the store stands for. */
  function ByteAt(items: seq<Item>, quantum: nat, qset: nat, pos: nat): Option<byte>
    requires quantum > 0 && qset > 0
  {
    var s := BlockAt(items, qset, pos / quantum);
    if s.Quantum? && pos % quantum < |s.bytes| then Some(s.bytes[pos % quantum]) else None
  }

  /** An item more, without slots, holds nothing. */
  lemma AppendHoldsNothing(items: seq<Item>, quantum: nat, qset: nat)
    requires StoreOk(items, quantum, qset)
    ensures StoreOk(items + [NoSet], quantum, qset)
    ensures forall b :: BlockAt(items + [NoSet], qset, b) == BlockAt(items, qset, b)
  {
    forall i | 0 <= i < |items| + 1 ensures ItemOk((items + [NoSet])[i], quantum, qset) {
      if i < |items| { assert ItemOk(items[i], quantum, qset); }
    }
  }

  function Holes(n: nat): (r: seq<Slot>)
    ensures |r| == n && forall i :: 0 <= i < n ==> r[i] == Hole
  {
    seq(n, i => Hole)
  }

  /** A set of holes holds nothing either. */
  lemma FreshSetHoldsNothing(items: seq<Item>, quantum: nat, qset: nat, i: nat)
    requires StoreOk(items, quantum, qset) && i < |items| && items[i] == NoSet
    ensures StoreOk(items[i := Set(Holes(qset))], quantum, qset)
    ensures forall b :: BlockAt(items[i := Set(Holes(qset))], qset, b) == BlockAt(items, qset, b)
  {
    var items' := items[i := Set(Holes(qset))];
    forall j | 0 <= j < |items'| ensures ItemOk(items'[j], quantum, qset) {
      if j != i { assert ItemOk(items[j], quantum, qset); }
    }
  }

  /** The store with one quantum in place. */
  function Put(items: seq<Item>, i: nat, s: nat, bytes: seq<byte>): seq<Item>
    requires i < |items| && items[i].Set? && s < |items[i].slots|
  {
    items[i := Set(items[i].slots[s := Quantum(bytes)])]
  }

  lemma PutIsOk(items: seq<Item>, quantum: nat, qset: nat, i: nat, s: nat, bytes: seq<byte>)
    requires StoreOk(items, quantum, qset) && i < |items| && items[i].Set? && s < qset && |bytes| == quantum
    ensures ItemOk(items[i], quantum, qset) && StoreOk(Put(items, i, s, bytes), quantum, qset)
  {
    assert ItemOk(items[i], quantum, qset);
    var items' := Put(items, i, s, bytes);
    forall j | 0 <= j < |items'| ensures ItemOk(items'[j], quantum, qset) {
      assert ItemOk(items[j], quantum, qset);
    }
  }

  /** Putting a quantum changes that quantum and no other. */
  lemma PutChangesOne(items: seq<Item>, quantum: nat, qset: nat, block: nat, bytes: seq<byte>, b: nat)
    requires StoreOk(items, quantum, qset) && |bytes| == quantum
    requires block / qset < |items| && items[block / qset].Set?
    ensures |items[block / qset].slots| == qset
    ensures BlockAt(Put(items, block / qset, block % qset, bytes), qset, b)
            == if b == block then Quantum(bytes) else BlockAt(items, qset, b)
  {
    assert ItemOk(items[block / qset], quantum, qset);
    DivMod(b, qset);
    DivMod(block, qset);
  }

  /** A quantum with some of its bytes overwritten. */
  function Patch(bytes: seq<byte>, at: nat, data: seq<byte>): seq<byte>
    requires at + |data| <= |bytes|
  {
    bytes[..at] + data + bytes[at + |data|..]
  }

  lemma PatchedAt(bytes: seq<byte>, at: nat, data: seq<byte>, k: nat)
    requires at + |data| <= |bytes| && k < |bytes|
    ensures Patch(bytes, at, data)[k] == if at <= k < at + |data| then data[k - at] else bytes[k]
  {
  }

  /** A position outside a written range lies in another quantum, or outside the patch of the same one. */
  lemma OutsideRange(pos: nat, n: nat, quantum: nat, p: nat)
    requires quantum > 0 && pos % quantum + n <= quantum
    ensures pos <= p < pos + n
            <==> p / quantum == pos / quantum && pos % quantum <= p % quantum < pos % quantum + n
  {
    DivMod(pos, quantum);
    DivMod(p, quantum);
    if pos <= p < pos + n {
      SameQuantum(pos, p - pos, quantum);
    } else if p / quantum == pos / quantum {
      assert p / quantum * quantum == pos / quantum * quantum;
    }
  }

  /** The byte map after a write of `data` at `pos` into a quantum that held `before`. */
  lemma ByteAfterWrite(items: seq<Item>, items': seq<Item>, quantum: nat, qset: nat, pos: nat, before: seq<byte>,
                       data: seq<byte>, p: nat)
    requires quantum > 0 && qset > 0 && |before| == quantum && pos % quantum + |data| <= quantum
    requires BlockAt(items', qset, pos / quantum) == Quantum(Patch(before, pos % quantum, data))
    requires p / quantum != pos / quantum ==> BlockAt(items', qset, p / quantum) == BlockAt(items, qset, p / quantum)
    ensures ByteAt(items', quantum, qset, p)
            == if pos <= p < pos + |data| then Some(data[p - pos])
               else if p / quantum == pos / quantum then Some(before[p % quantum])
               else ByteAt(items, quantum, qset, p)
  {
    OutsideRange(pos, |data|, quantum, p);
    if p / quantum == pos / quantum {
      PatchedAt(before, pos % quantum, data, p % quantum);
      if pos <= p < pos + |data| { SameQuantum(pos, p - pos, quantum); }
    }
  }
}
