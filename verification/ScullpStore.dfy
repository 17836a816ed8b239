/** The scullp device with pages of order 0: the fault handler and the read path look up the same page. */
module ScullpStore {
  import opened Bytes
  import opened Common
  import opened Memory
  import opened QuantumStore
  import opened ByteMap

  const PAGE_SIZE: nat := 4096

  /** What the fault handler leaves behind: nothing beyond the size, SIGBUS at a hole, else the page. */
  datatype Fault = OutOfRange | SigBus | Page(bytes: seq<byte>)

  /** The page that the nested division and remainder of the read path reach. */
  function FaultAt(items: seq<Item>, qset: nat, size: nat, offset: nat): Fault
    requires qset > 0
  {
    if offset >= size then OutOfRange
    else
      match BlockAt(items, qset, offset / PAGE_SIZE)
      case Hole => SigBus
      case Quantum(bytes) => Page(bytes)
  }

  /** A fault and a read at the same offset agree: SIGBUS where the read meets a hole, else the same byte. */
  lemma FaultAgreesWithRead(items: seq<Item>, qset: nat, size: nat, offset: nat)
    requires StoreOk(items, PAGE_SIZE, qset) && offset < size
    ensures var f := FaultAt(items, qset, size, offset);
            var r := ReadBytes(items, PAGE_SIZE, qset, size, offset, 1);
            && (f == SigBus <==> r == [])
            && (f == SigBus <==> ByteAt(items, PAGE_SIZE, qset, offset) == None)
            && (f.Page? ==> |f.bytes| == PAGE_SIZE && r == [f.bytes[offset % PAGE_SIZE]])
  {
    BlockIsOk(items, PAGE_SIZE, qset, offset / PAGE_SIZE);
    ReadIsTheMap(items, PAGE_SIZE, qset, size, offset, 1, 0);
  }

  /** Walking item by item, a list item at a time, ends where division would have gone. */
  lemma WalkIsDivision(items: seq<Item>, qset: nat, block: nat, ptr: nat, rest: nat)
    requires qset > 0 && ptr <= |items| && block == ptr * qset + rest
    requires ptr == |items| || rest < qset
    ensures ptr == |items| ==> block / qset >= |items|
    ensures ptr < |items| ==> block / qset == ptr && block % qset == rest
  {
    if ptr == |items| {
      DivMod(rest, qset);
      Distribute(ptr, rest / qset, qset);
      QuotientAndRest(block, qset, ptr + rest / qset, rest % qset);
    } else {
      QuotientAndRest(block, qset, ptr, rest);
    }
  }

  lemma Distribute(a: nat, b: nat, d: nat)
    ensures (a + b) * d == a * d + b * d
  {
  }

  datatype WriteResult = Wrote(n: nat) | NoMemory

  class Device {
    var items: seq<Item>
    var size: nat
    const qset: nat

    ghost predicate Valid()
      reads this
    {
      items != [] && StoreOk(items, PAGE_SIZE, qset)
    }

    constructor (qset: nat)
      requires qset > 0
      ensures Valid() && items == [NoSet] && size == 0 && this.qset == qset
    {
      items, size, this.qset := [NoSet], 0, qset;
    }

    /** scullp_vma_nopage; `offset` is the address in the mapping plus the offset of the mapping. */
    method NoPage(offset: nat) returns (r: Fault)
      requires Valid()
      ensures r == FaultAt(items, qset, size, offset)
    {
      if offset >= size { return OutOfRange; }
      var block := offset / PAGE_SIZE;
      var rest: nat, ptr: nat := block, 0;
      while ptr < |items| && rest >= qset
        invariant ptr <= |items| && block == ptr * qset + rest
        decreases |items| - ptr
      {
        Distribute(ptr, 1, qset);
        ptr, rest := ptr + 1, rest - qset;
      }
      WalkIsDivision(items, qset, block, ptr, rest);
      if ptr < |items| && items[ptr].Set? {
        assert ItemOk(items[ptr], PAGE_SIZE, qset);
        if items[ptr].slots[rest].Quantum? { return Page(items[ptr].slots[rest].bytes); }
      }
      r := SigBus;
    }

    /** scullp_follow. */
    method Follow(n: nat)
      requires Valid()
      modifies `items
      ensures Valid() && SameBlocks(items, old(items), qset) && n < |items|
    {
      var i := 0;
      while i < n
        invariant i <= n && i < |items| && Valid() && SameBlocks(items, old(items), qset)
      {
        if i + 1 == |items| {
          AppendHoldsNothing(items, PAGE_SIZE, qset);
          items := items + [NoSet];
        }
        i := i + 1;
      }
    }

    /** scullp_read. */
    method Read(pos: nat, count: nat) returns (bytes: seq<byte>)
      requires Valid()
      modifies `items
      ensures Valid() && SameBlocks(items, old(items), qset)
      ensures bytes == ReadBytes(items, PAGE_SIZE, qset, size, pos, count)
    {
      if pos > size { return []; }
      var n := Min(count, size - pos);
      var itemSize := PAGE_SIZE * qset;
      NestedDivision(pos, PAGE_SIZE, qset);
      var item, rest := pos / itemSize, pos % itemSize;
      var slot, at := rest / PAGE_SIZE, rest % PAGE_SIZE;
      Follow(item);
      if items[item] == NoSet { return []; }
      assert ItemOk(items[item], PAGE_SIZE, qset);
      if items[item].slots[slot] == Hole { return []; }
      BlockIsOk(items, PAGE_SIZE, qset, pos / PAGE_SIZE);
      n := Min(n, PAGE_SIZE - at);
      bytes := items[item].slots[slot].bytes[at..at + n];
    }

    /** The slot array and the page of a write, allocated and cleared where they are missing. */
    method EnsurePage(item: nat, slot: nat, a: Allocator, ghost block: nat) returns (ok: bool)
      requires Valid() && item < |items| && item == block / qset && slot == block % qset
      modifies `items, a
      ensures Valid() && |items| == |old(items)| && a.failed == (old(a.failed) || !ok)
      ensures !ok ==> SameBlocks(items, old(items), qset)
      ensures ok ==> Ensured(old(items), items, PAGE_SIZE, qset, block, Zeros(PAGE_SIZE))
    {
      if items[item] == NoSet {
        var memory := a.Kmalloc(8 * qset);
        if memory == None { return false; }
        FreshSetHoldsNothing(items, PAGE_SIZE, qset, item);
        items := items[item := Set(Holes(qset))];
      }
      ghost var mid := items;
      assert SameBlocks(mid, old(items), qset);
      assert ItemOk(items[item], PAGE_SIZE, qset);
      if items[item].slots[slot] == Hole {
        var memory := a.Kmalloc(PAGE_SIZE);
        if memory == None { return false; }
        var page := Zeros(PAGE_SIZE);
        PutIsOk(items, PAGE_SIZE, qset, item, slot, page);
        forall b: nat
          ensures BlockAt(Put(mid, item, slot, page), qset, b) == if b == block then Quantum(page) else BlockAt(mid, qset, b)
        {
          PutChangesOne(mid, PAGE_SIZE, qset, block, page, b);
        }
        items := Put(items, item, slot, page);
      }
      ok := true;
    }

    /** scullp_write. */
    method Write(pos: nat, data: seq<byte>, a: Allocator) returns (r: WriteResult)
      requires Valid()
      modifies `items, `size, a
      ensures Valid() && a.failed == (old(a.failed) || r == NoMemory)
      ensures r == NoMemory ==> size == old(size) && SameBlocks(items, old(items), qset)
      ensures r.Wrote? ==> && r.n == Min(|data|, PAGE_SIZE - pos % PAGE_SIZE)
                           && WroteAt(old(items), items, PAGE_SIZE, qset, pos, data[..r.n], Zeros(PAGE_SIZE))
                           && size == if old(size) < pos + r.n then pos + r.n else old(size)
    {
      ghost var was := items;
      var itemSize := PAGE_SIZE * qset;
      NestedDivision(pos, PAGE_SIZE, qset);
      var item, rest := pos / itemSize, pos % itemSize;
      var slot, at := rest / PAGE_SIZE, rest % PAGE_SIZE;
      Follow(item);
      var ok := EnsurePage(item, slot, a, pos / PAGE_SIZE);
      if !ok { return NoMemory; }
      var n := Min(|data|, PAGE_SIZE - at);
      PatchedIsWrite(was, items, PAGE_SIZE, qset, pos, data[..n], Zeros(PAGE_SIZE));
      items := Put(items, item, slot, Patch(items[item].slots[slot].bytes, at, data[..n]));
      if size < pos + n { size := pos + n; }
      r := Wrote(n);
    }
  }
}
