/** The bare scull device: a list of quantum sets that stands for a sparse byte map. */
module ScullStore {
  import opened Bytes
  import opened Common
  import opened Memory
  import opened QuantumStore
  import opened ByteMap

  const SCULL_QUANTUM: int := 4000
  const SCULL_QSET: int := 1000

  // ----- The module parameters

  /** The ioctl commands on one of the two parameters, and the reset of both. */
  datatype Command = Reset | SetTo(arg: int) | Tell(arg: int) | Get | Query | Exchange(arg: int) | Shift(arg: int)

  datatype Reply = NotPermitted | Success(value: int)

  class Parameters {
    var quantum: int
    var qset: int

    constructor ()
      ensures quantum == SCULL_QUANTUM && qset == SCULL_QSET
    {
      quantum, qset := SCULL_QUANTUM, SCULL_QSET;
    }

    /** scull_ioctl; `onQset` chooses the parameter. Set, Tell, Exchange and Shift need CAP_SYS_ADMIN. */
    method Ioctl(cmd: Command, onQset: bool, capable: bool) returns (r: Reply)
      modifies this
      ensures r.NotPermitted? <==> !capable && (cmd.SetTo? || cmd.Tell? || cmd.Exchange? || cmd.Shift?)
      ensures r.NotPermitted? || cmd.Get? || cmd.Query? ==> quantum == old(quantum) && qset == old(qset)
      ensures cmd.Reset? ==> quantum == SCULL_QUANTUM && qset == SCULL_QSET
      ensures r.Success? && (cmd.SetTo? || cmd.Tell? || cmd.Exchange? || cmd.Shift?)
              ==> if onQset then qset == cmd.arg && quantum == old(quantum) else quantum == cmd.arg && qset == old(qset)
      ensures r.Success? && (cmd.Reset? || cmd.SetTo? || cmd.Tell?) ==> r.value == 0
      ensures r.Success? && (cmd.Get? || cmd.Query? || cmd.Exchange? || cmd.Shift?)
              ==> r.value == if onQset then old(qset) else old(quantum)
    {
      var tmp := if onQset then qset else quantum;
      match cmd {
        case Reset =>
          quantum, qset := SCULL_QUANTUM, SCULL_QSET;
          r := Success(0);
        case Get => r := Success(tmp);
        case Query => r := Success(tmp);
        case _ =>
          if !capable { return NotPermitted; }
          if onQset { qset := cmd.arg; } else { quantum := cmd.arg; }
          r := Success(if cmd.Exchange? || cmd.Shift? then tmp else 0);
      }
    }
  }

  // ----- The device

  /** `Outside`: the call indexes past the end of an array, which C leaves undefined. */
  datatype WriteResult = Wrote(n: nat) | NoMemory | WriteFault | WriteOutside
  datatype ReadResult = Bytes(bytes: seq<byte>) | ReadFault | ReadOutside
  datatype Place = Ready | NoPlace | Outside

  predicate NoSetAt(items: seq<Item>, i: nat) { i >= |items| || items[i] == NoSet }

  predicate HasQuantum(items: seq<Item>, i: nat, slot: nat) {
    i < |items| && items[i].Set? && slot < |items[i].slots| && items[i].slots[slot].Quantum?
  }

  /** An array of `s` slots, with a quantum of `q` bytes in one of them. */
  predicate OfSizes(item: Item, q: nat, s: nat, slot: nat) {
    item.Set? && |item.slots| == s && slot < s && item.slots[slot].Quantum? && |item.slots[slot].bytes| == q
  }

  /** The list item of a position. */
  function ItemOf(q: nat, s: nat, pos: nat): nat
    requires q > 0 && s > 0
  {
    pos / q / s
  }

  class Device {
    var items: seq<Item>
    var size: nat
    var quantum: int
    var qset: int
    ghost var written: map<nat, byte>

    ghost predicate Valid()
      reads this
    {
      && quantum > 0 && qset > 0 && StoreOk(items, quantum, qset)
      && Holds(items, quantum, qset, size, written)
    }

    /** The byte map; a position beyond every quantum is None. */
    ghost function At(p: nat): Option<byte>
      requires quantum > 0 && qset > 0
      reads this
    {
      ByteAt(items, quantum, qset, p)
    }

    constructor (p: Parameters)
      requires p.quantum > 0 && p.qset > 0
      ensures Valid() && size == 0 && items == [] && written == map[] && quantum == p.quantum && qset == p.qset
    {
      items, size, quantum, qset, written := [], 0, p.quantum, p.qset, map[];
    }

    /** scull_trim: the one place where the device takes over the parameters. */
    method Trim(p: Parameters)
      modifies this
      ensures items == [] && size == 0 && written == map[] && quantum == p.quantum && qset == p.qset
      ensures Valid() <==> p.quantum > 0 && p.qset > 0
    {
      items, size, quantum, qset, written := [], 0, p.quantum, p.qset, map[];
    }

    /** scull_follow: grow the list up to item n; a failed allocation stops it part way. */
    method Follow(n: nat, a: Allocator) returns (found: bool)
      requires quantum > 0 && qset > 0 && StoreOk(items, quantum, qset)
      modifies `items, a
      ensures StoreOk(items, quantum, qset) && SameBlocks(items, old(items), qset)
      ensures found <==> n < |items|
      ensures a.failed == (old(a.failed) || !found)
      ensures n < |old(items)| ==> items == old(items)
      ensures forall k :: 0 <= k < |items| && NoSetAt(old(items), k) ==> items[k] == NoSet
    {
      if items == [] {
        var memory := a.Kmalloc(16);
        if memory == None { return false; }
        AppendHoldsNothing(items, quantum, qset);
        items := items + [NoSet];
      }
      var i := 0;
      while i < n
        invariant i <= n && i < |items| && StoreOk(items, quantum, qset) && SameBlocks(items, old(items), qset)
        invariant n < |old(items)| ==> items == old(items)
        invariant a.failed == old(a.failed)
        invariant forall k :: 0 <= k < |items| && NoSetAt(old(items), k) ==> items[k] == NoSet
      {
        if i + 1 == |items| {
          var memory := a.Kmalloc(16);
          if memory == None { return false; }
          AppendHoldsNothing(items, quantum, qset);
          items := items + [NoSet];
        }
        i := i + 1;
      }
      found := true;
    }

    /** The slot array and the quantum of a write, allocated with the call's sizes where they are missing. */
    method EnsureQuantum(q: nat, s: nat, item: nat, slot: nat, a: Allocator, ghost block: nat)
      returns (place: Place, ghost raw: seq<byte>)
      requires q > 0 && s > 0 && item < |items| && item == block / s && slot == block % s
      modifies `items, a
      ensures a.failed == (old(a.failed) || place == NoPlace)
      ensures StoreOk(old(items), q, s) ==>
                && place != Outside && StoreOk(items, q, s)
                && (place == NoPlace ==> SameBlocks(items, old(items), s))
                && (place == Ready ==> Ensured(old(items), items, q, s, block, raw))
      ensures |items| == |old(items)| && |raw| == q
      ensures place == Ready ==> HasQuantum(items, item, slot)
      ensures place == Ready && old(items)[item] == NoSet ==> OfSizes(items[item], q, s, slot)
    {
      raw := seq(q, _ => 0);
      if items[item] == NoSet {
        var memory := a.Kmalloc(8 * s);
        if memory == None { return NoPlace, raw; }
        if StoreOk(items, q, s) { FreshSetHoldsNothing(items, q, s, item); }
        items := items[item := Set(Holes(s))];
      }
      ghost var mid := items;
      assert StoreOk(mid, q, s) ==> ItemOk(mid[item], q, s);
      if slot >= |items[item].slots| { return Outside, raw; }
      if items[item].slots[slot] == Hole {
        var memory := a.Kmalloc(q);
        if memory == None { return NoPlace, raw; }
        raw := memory.value;
        if StoreOk(mid, q, s) { PutIsEnsured(mid, q, s, block, raw); }
        items := Put(items, item, slot, memory.value);
      }
      place := Ready;
    }

    /** scull_read: up to the end of the quantum, nothing at a hole; `q` and `s` were read before the semaphore. */
    method Read(q: nat, s: nat, pos: nat, count: nat, a: Allocator, copyFails: bool) returns (r: ReadResult)
      requires Valid() && q > 0 && s > 0
      modifies `items, a
      ensures Valid() && forall p: nat :: At(p) == old(At(p))
      ensures q == quantum && s == qset ==>
                var bytes := ReadBytes(items, quantum, qset, size, pos, count);
                if copyFails && BlockAt(items, qset, pos / quantum).Quantum? && pos < size then r == ReadFault
                else r == Bytes(bytes)
      ensures r.Bytes? && r.bytes != [] ==> |r.bytes| <= count && pos + |r.bytes| <= size
      ensures r.ReadFault? ==> copyFails
      ensures r.Bytes? ==> forall i :: 0 <= i < |r.bytes| ==> ByteAt(items, q, s, pos + i) == Some(r.bytes[i])
    {
      if pos >= size { return Bytes([]); }
      var n := Min(count, size - pos);
      var itemSize := q * s;
      NestedDivision(pos, q, s);
      var item, rest := pos / itemSize, pos % itemSize;
      var slot, at := rest / q, rest % q;
      var found := Follow(item, a);
      MapKept(old(items));
      if !found || items[item] == NoSet { return Bytes([]); }
      assert ItemOk(items[item], quantum, qset);
      if slot >= |items[item].slots| { return ReadOutside; }
      if items[item].slots[slot] == Hole { return Bytes([]); }
      BlockIsOk(items, quantum, qset, pos / quantum);
      n := Min(n, q - at);
      if copyFails { return ReadFault; }
      if at + n > |items[item].slots[slot].bytes| { return ReadOutside; }
      r := Bytes(items[item].slots[slot].bytes[at..at + n]);
      forall i | 0 <= i < n ensures ByteAt(items, q, s, pos + i) == Some(r.bytes[i]) { SameQuantum(pos, i, q); }
    }

    /** The part of a write before its copy: down the list, then to the quantum. */
    method ReachQuantum(q: nat, s: nat, item: nat, slot: nat, a: Allocator, ghost block: nat)
      returns (place: Place, ghost raw: seq<byte>)
      requires Valid() && q > 0 && s > 0 && item == block / s && slot == block % s
      modifies `items, a
      ensures a.failed == (old(a.failed) || place == NoPlace)
      ensures q == quantum && s == qset ==>
                && place != Outside && StoreOk(items, quantum, qset)
                && (place == NoPlace ==> SameBlocks(items, old(items), qset))
                && (place == Ready ==> Ensured(old(items), items, quantum, qset, block, raw))
      ensures place == Ready ==> HasQuantum(items, item, slot)
      ensures place == Ready && NoSetAt(old(items), item) ==> OfSizes(items[item], q, s, slot)
    {
      raw := seq(q, _ => 0);
      var ok := Follow(item, a);
      if !ok { return NoPlace, raw; }
      place, raw := EnsureQuantum(q, s, item, slot, a, block);
    }

    /** The copy into the quantum: a patch of it. */
    method CopyIn(item: nat, slot: nat, at: nat, data: seq<byte>, ghost pos: nat, ghost was: seq<Item>,
                  ghost raw: seq<byte>, ghost current: bool) returns (inside: bool)
      requires HasQuantum(items, item, slot)
      requires current ==> Current(was, item, slot, at, data, pos, raw)
      modifies `items
      ensures !inside ==> items == old(items)
      ensures current ==> inside && Written(was, pos, data, raw)
      ensures inside ==> HasQuantum(items, item, slot)
      ensures inside ==> forall q, s :: OfSizes(old(items)[item], q, s, slot) ==> OfSizes(items[item], q, s, slot)
    {
      if current { PatchedIsWrite(was, items, quantum, qset, pos, data, raw); }
      var bytes := items[item].slots[slot].bytes;
      if at + |data| > |bytes| { return false; }
      items := Put(items, item, slot, Patch(bytes, at, data));
      if current { WriteKeepsWritten(was, items, quantum, qset, size, written, pos, data, raw); }
      inside := true;
    }

    /** The quantum of a write with the device's own geometry is there. */
    ghost predicate Current(was: seq<Item>, item: nat, slot: nat, at: nat, data: seq<byte>, pos: nat, raw: seq<byte>)
      reads this
    {
      && quantum > 0 && qset > 0
      && StoreOk(was, quantum, qset) && StoreOk(items, quantum, qset) && Holds(was, quantum, qset, size, written)
      && item == pos / quantum / qset && slot == pos / quantum % qset && at == pos % quantum && at + |data| <= quantum
      && Ensured(was, items, quantum, qset, pos / quantum, raw)
    }

    /** The data is in the byte map, the size and the history still to be updated. */
    ghost predicate Written(was: seq<Item>, pos: nat, data: seq<byte>, raw: seq<byte>)
      reads this
    {
      && quantum > 0 && qset > 0
      && StoreOk(items, quantum, qset) && WroteAt(was, items, quantum, qset, pos, data, raw)
      && Holds(items, quantum, qset, if size < pos + |data| then pos + |data| else size,
               Overwritten(written, pos, data))
    }

    /** scull_write: up to the end of the quantum, allocating what is missing; `q` and `s` as in a read. */
    method Write(q: nat, s: nat, pos: nat, data: seq<byte>, a: Allocator, copyFails: bool)
      returns (r: WriteResult, ghost raw: seq<byte>)
      requires Valid() && q > 0 && s > 0
      modifies `items, `size, `written, a
      ensures a.failed == (old(a.failed) || r == NoMemory)
      ensures if copyFails then !r.Wrote? else r != WriteFault
      ensures q == quantum && s == qset ==> Valid() && r != WriteOutside
      ensures !r.Wrote? ==> size == old(size) && written == old(written)
      ensures r.Wrote? ==> && r.n == Min(|data|, q - pos % q)
                           && size == (if old(size) < pos + r.n then pos + r.n else old(size))
                           && written == Overwritten(old(written), pos, data[..r.n])
      ensures q == quantum && s == qset ==>
                && (r == NoMemory ==> forall p: nat :: At(p) == old(At(p)))
                && (r == WriteFault ==> WroteAt(old(items), items, quantum, qset, pos, [], raw))
                && (r.Wrote? ==> WroteAt(old(items), items, quantum, qset, pos, data[..r.n], raw))
      ensures r.Wrote? && (q != quantum || s != qset) && NoSetAt(old(items), ItemOf(q, s, pos)) ==> !Valid()
    {
      var itemSize := q * s;
      NestedDivision(pos, q, s);
      var item, rest := pos / itemSize, pos % itemSize;
      r, raw := WriteAt(q, s, item, rest / q, rest % q, pos, data, a, copyFails);
    }

    /** The write, with its position taken apart. */
    method WriteAt(q: nat, s: nat, item: nat, slot: nat, at: nat, pos: nat, data: seq<byte>, a: Allocator,
                   copyFails: bool)
      returns (r: WriteResult, ghost raw: seq<byte>)
      requires Valid() && q > 0 && s > 0 && item == pos / q / s && slot == pos / q % s && at == pos % q
      modifies `items, `size, `written, a
      ensures a.failed == (old(a.failed) || r == NoMemory)
      ensures if copyFails then !r.Wrote? else r != WriteFault
      ensures q == quantum && s == qset ==> Valid() && r != WriteOutside
      ensures !r.Wrote? ==> size == old(size) && written == old(written)
      ensures r.Wrote? ==> && r.n == Min(|data|, q - at)
                           && size == (if old(size) < pos + r.n then pos + r.n else old(size))
                           && written == Overwritten(old(written), pos, data[..r.n])
      ensures q == quantum && s == qset ==>
                && (r == NoMemory ==> forall p: nat :: At(p) == old(At(p)))
                && (r == WriteFault ==> WroteAt(old(items), items, quantum, qset, pos, [], raw))
                && (r.Wrote? ==> WroteAt(old(items), items, quantum, qset, pos, data[..r.n], raw))
      ensures r.Wrote? && (q != quantum || s != qset) && NoSetAt(old(items), item) ==> !Valid()
    {
      ghost var was := items;
      ghost var current := q == quantum && s == qset;
      var place;
      place, raw := ReachQuantum(q, s, item, slot, a, pos / q);
      if place != Ready {
        if current { MapKept(was); }
        return if place == Outside then WriteOutside else NoMemory, raw;
      }
      if copyFails {
        if current { EmptyWriteKeeps(was, pos, raw); }
        return WriteFault, raw;
      }
      var n := Min(|data|, q - at);
      var inside := CopyIn(item, slot, at, data[..n], pos, was, raw, current);
      if !inside { return WriteOutside, raw; }
      written := Overwritten(written, pos, data[..n]);
      if size < pos + n { size := pos + n; }
      r := Wrote(n);
      assert OfSizes(items[item], q, s, slot) && !current ==> !ItemOk(items[item], quantum, qset);
    }

    lemma EmptyWriteKeeps(was: seq<Item>, pos: nat, raw: seq<byte>)
      requires quantum > 0 && qset > 0 && StoreOk(was, quantum, qset) && Holds(was, quantum, qset, size, written)
      requires Ensured(was, items, quantum, qset, pos / quantum, raw)
      ensures WroteAt(was, items, quantum, qset, pos, [], raw) && Holds(items, quantum, qset, size, written)
    {
      EnsuredIsEmptyWrite(was, items, quantum, qset, pos, raw);
      WriteKeepsWritten(was, items, quantum, qset, size, written, pos, [], raw);
    }

    lemma MapKept(was: seq<Item>)
      requires quantum > 0 && qset > 0 && SameBlocks(items, was, qset)
      ensures forall p: nat :: At(p) == ByteAt(was, quantum, qset, p)
    {
      forall p: nat ensures At(p) == ByteAt(was, quantum, qset, p) {
        SameBlocksSameBytes(items, was, quantum, qset, p);
      }
    }
  }
}
