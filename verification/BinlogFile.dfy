/** binlog/serialization.h: the record format of the binlog file and LogRead, which polls the file while it grows. */
module BinlogFile {
  import opened Bytes
  import opened Common

  const HEAD: nat := 32                            // sizeof(LogEntryHead)
  const DESCRIPTOR: nat := 560                     // sizeof(EventDescDump)
  const TAG_OFFSET: nat := 432                     // offsetof(EventDescDump, mClassTag)
  const TAG_SIZE: nat := 128
  const MAX_PAYLOAD: nat := 256                    // sizeof(LogEntry::mBuffer)
  const FLAG: nat := 0x8000_0000_0000_0000         // DESCDUMP_BIT_FLAG

  /** A record of the stream: its bytes, and what a reader should make of them. */
  datatype Record =
    | Descriptor(raw: seq<byte>, index: nat, tag: seq<byte>)
    | Entry(raw: seq<byte>, id: nat, payload: seq<byte>)

  /** The first eight bytes of a record, as a number. */
  function Header(r: Record): nat { if r.Descriptor? then FLAG + r.index else r.id }

  function Size(r: Record): nat {
    match r
    case Descriptor(_, _, _) => DESCRIPTOR
    case Entry(_, _, payload) => HEAD + |payload|
  }

  /** The bytes are laid out as EventDescDump, or as LogEntryHead and payload. */
  ghost predicate Valid(r: Record) {
    && |r.raw| == Size(r) && FromLittleEndian(r.raw[..8]) == Header(r)
    && match r
       case Descriptor(raw, index, tag) => index < FLAG && tag == raw[TAG_OFFSET..TAG_OFFSET + TAG_SIZE]
       case Entry(raw, id, payload) =>
         && id < FLAG && |payload| <= MAX_PAYLOAD
         && FromLittleEndian(raw[8..16]) == |payload| && raw[HEAD..] == payload
  }

  /** ParseEventSection: `rest` are the 552 bytes after the event id. */
  function MakeDescriptor(index: nat, rest: seq<byte>): Record
    requires index < FLAG && |rest| == DESCRIPTOR - 8
  {
    Descriptor(ToLittleEndian(FLAG + index, 8) + rest, index, rest[TAG_OFFSET - 8..TAG_OFFSET - 8 + TAG_SIZE])
  }

  /** UBI_LITERAL_LOG_INFO: `stamp` are the 16 bytes of time stamp and thread id. */
  function MakeEntry(id: nat, stamp: seq<byte>, payload: seq<byte>): Record
    requires id < FLAG && |stamp| == HEAD - 16 && |payload| <= MAX_PAYLOAD
  {
    Entry(ToLittleEndian(id, 8) + ToLittleEndian(|payload|, 8) + stamp + payload, id, payload)
  }

  /** What the writers build is laid out as the reader expects. */
  lemma MakersAreValid(id: nat, stamp: seq<byte>, payload: seq<byte>, rest: seq<byte>)
    requires id < FLAG && |stamp| == HEAD - 16 && |payload| <= MAX_PAYLOAD && |rest| == DESCRIPTOR - 8
    ensures Valid(MakeEntry(id, stamp, payload)) && Valid(MakeDescriptor(id, rest))
  {
    DescriptorIsValid(id, rest);
    EntryIsValid(id, stamp, payload);
  }

  lemma DescriptorIsValid(index: nat, rest: seq<byte>)
    requires index < FLAG && |rest| == DESCRIPTOR - 8
    ensures Valid(MakeDescriptor(index, rest))
  {
    PowersOf256();
    LittleEndianRoundTrip(FLAG + index, 8);
    var r := MakeDescriptor(index, rest);
    assert r.raw[..8] == ToLittleEndian(FLAG + index, 8);
    assert r.raw[TAG_OFFSET..TAG_OFFSET + TAG_SIZE] == r.tag;
  }

  lemma EntryIsValid(id: nat, stamp: seq<byte>, payload: seq<byte>)
    requires id < FLAG && |stamp| == HEAD - 16 && |payload| <= MAX_PAYLOAD
    ensures Valid(MakeEntry(id, stamp, payload))
  {
    PowersOf256();
    LittleEndianRoundTrip(id, 8);
    LittleEndianRoundTrip(|payload|, 8);
    HeadParts(ToLittleEndian(id, 8), ToLittleEndian(|payload|, 8), stamp, payload);
  }

  lemma HeadParts(a: seq<byte>, b: seq<byte>, c: seq<byte>, d: seq<byte>)
    requires |a| == 8 && |b| == 8 && |c| == HEAD - 16
    ensures var s := a + b + c + d; s[..8] == a && s[8..16] == b && s[HEAD..] == d
  {
  }

  ghost predicate AllValid(rs: seq<Record>) {
    forall i {:trigger Valid(rs[i])} :: 0 <= i < |rs| ==> Valid(rs[i])
  }

  function EncodeAll(rs: seq<Record>): seq<byte> {
    if rs == [] then [] else rs[0].raw + EncodeAll(rs[1..])
  }

  // ----- Offsets of records

  function Offset(rs: seq<Record>, i: nat): nat
    requires i <= |rs|
  {
    if i == 0 then 0 else Offset(rs, i - 1) + Size(rs[i - 1])
  }

  lemma {:induction false} OffsetsGrow(rs: seq<Record>, i: nat, j: nat)
    requires i <= j <= |rs|
    ensures Offset(rs, i) <= Offset(rs, j)
    decreases j - i
  {
    if i < j { OffsetsGrow(rs, i, j - 1); }
  }

  /** As much of an encoded record as the file holds from this offset on. */
  ghost predicate HoldsAt(file: seq<byte>, off: nat, e: seq<byte>) {
    if off + |e| <= |file| then file[off..off + |e|] == e else off <= |file| ==> file[off..] <= e
  }

  /** `file` is the stream of `rs` up to some length, however that length cuts the last record. */
  ghost predicate FileOf(file: seq<byte>, rs: seq<Record>) {
    && AllValid(rs) && |file| <= Offset(rs, |rs|)
    && forall i :: 0 <= i < |rs| ==> RecordHeld(file, rs, i)
  }

  ghost predicate RecordHeld(file: seq<byte>, rs: seq<Record>, i: nat)
    requires i < |rs|
  {
    HoldsAt(file, Offset(rs, i), rs[i].raw)
  }

  lemma {:induction false} OffsetOfTail(rs: seq<Record>, i: nat)
    requires 1 <= i <= |rs|
    ensures Offset(rs, i) == Size(rs[0]) + Offset(rs[1..], i - 1)
  {
    if i > 1 { OffsetOfTail(rs, i - 1); }
  }

  lemma HoldsBehind(before: seq<byte>, file: seq<byte>, off: nat, e: seq<byte>)
    requires HoldsAt(file, off, e)
    ensures HoldsAt(before + file, |before| + off, e)
  {
    if off + |e| <= |file| {
      assert (before + file)[|before| + off..|before| + off + |e|] == file[off..off + |e|];
    } else if off <= |file| {
      assert (before + file)[|before| + off..] == file[off..];
    }
  }

  /** Every prefix of the encoded stream is such a file: the two descriptions of the format agree. */
  lemma {:induction false} PrefixIsFile(file: seq<byte>, rs: seq<Record>)
    requires AllValid(rs) && file <= EncodeAll(rs)
    ensures FileOf(file, rs)
    decreases |rs|
  {
    if rs != [] {
      var n := Size(rs[0]);
      assert Valid(rs[0]);
      OffsetOfTail(rs, |rs|);
      var rest := if |file| <= n then [] else file[n..];
      if |file| > n {
        assert file == rs[0].raw + rest;
        assert rest <= EncodeAll(rs[1..]);
      } else {
        assert file <= rs[0].raw;
      }
      PrefixIsFile(rest, rs[1..]);
      forall i | 0 <= i < |rs| ensures RecordHeld(file, rs, i) {
        if i > 0 {
          OffsetOfTail(rs, i);
          assert rs[1..][i - 1] == rs[i] && RecordHeld(rest, rs[1..], i - 1);
          PrefixHolds(file, n, rest, rs, i);
        }
      }
    }
  }

  lemma PrefixHolds(file: seq<byte>, n: nat, rest: seq<byte>, rs: seq<Record>, i: nat)
    requires 0 < i < |rs| && Offset(rs, i) == n + Offset(rs[1..], i - 1) && n == Size(rs[0]) == |rs[0].raw|
    requires if |file| > n then file == rs[0].raw + rest else rest == []
    requires HoldsAt(rest, Offset(rs[1..], i - 1), rs[i].raw)
    ensures HoldsAt(file, Offset(rs, i), rs[i].raw)
  {
    if |file| > n {
      HoldsBehind(rs[0].raw, rest, Offset(rs[1..], i - 1), rs[i].raw);
    } else if Offset(rs, i) <= |file| {
      assert file[Offset(rs, i)..] == [];
    }
  }

  // ----- Reading the mapping: bytes past the end of the file read as zero

  function Read(file: seq<byte>, off: nat, n: nat): (r: seq<byte>)
    ensures |r| == n
  {
    if off + n <= |file| then file[off..off + n]
    else if off < |file| then file[off..] + Zeros(off + n - |file|)
    else Zeros(n)
  }

  function ReadU64(file: seq<byte>, off: nat): nat { FromLittleEndian(Read(file, off, 8)) }

  /** The top bit of the first eight bytes: set exactly in the 64-bit numbers from FLAG on. */
  predicate IsEventDesc(file: seq<byte>, off: nat) { ReadU64(file, off) >= FLAG }

  lemma CutHeaderIsNoDescriptor(file: seq<byte>, off: nat)
    requires off + 8 > |file|
    ensures !IsEventDesc(file, off)
  {
    var s := Read(file, off, 8);
    assert s[7] == 0;
    TopByteZero(s);
    PowersOf256();
  }

  lemma ReadHeld(file: seq<byte>, off: nat, e: seq<byte>, skip: nat, n: nat)
    requires HoldsAt(file, off, e) && skip + n <= |e| && off + skip + n <= |file|
    ensures Read(file, off + skip, n) == e[skip..skip + n]
  {
    var part := if off + |e| <= |file| then file[off..off + |e|] else file[off..];
    var slice := file[off + skip..off + skip + n];
    forall k | 0 <= k < n ensures slice[k] == e[skip..skip + n][k] {
      assert slice[k] == part[skip + k];
    }
  }

  lemma HeaderHeld(file: seq<byte>, off: nat, r: Record)
    requires Valid(r) && HoldsAt(file, off, r.raw) && off + 8 <= |file|
    ensures ReadU64(file, off) == Header(r)
  {
    ReadHeld(file, off, r.raw, 0, 8);
    assert Read(file, off, 8) == r.raw[..8];
  }

  /** At a record boundary the first eight bytes tell, once they are in the file, which kind of record it is. */
  lemma HeaderInFile(file: seq<byte>, rs: seq<Record>, i: nat)
    requires FileOf(file, rs) && i <= |rs| && Offset(rs, i) + 8 <= |file|
    ensures i < |rs|
    ensures ReadU64(file, Offset(rs, i)) == Header(rs[i])
    ensures IsEventDesc(file, Offset(rs, i)) <==> rs[i].Descriptor?
  {
    assert Valid(rs[i]) && RecordHeld(file, rs, i);
    HeaderHeld(file, Offset(rs, i), rs[i]);
  }

  // ----- What a poll should do, said on records

  /** Descriptors are taken in as soon as their first eight bytes are in a file of `size` bytes. */
  function Skip(rs: seq<Record>, i: nat, size: nat): (j: nat)
    requires i <= |rs|
    ensures i <= j <= |rs|
    decreases |rs| - i
  {
    if i < |rs| && rs[i].Descriptor? && Offset(rs, i) + 8 <= size then Skip(rs, i + 1, size) else i
  }

  /**
   * The next record after a poll, and whether the poll returned the entry before it. `size` is the length that
   * fstat gave, `seen` the length, perhaps longer by then, of what the loads from the mapping find.
   */
  function Poll(rs: seq<Record>, i: nat, size: nat, seen: nat): (out: (nat, bool))
    requires i <= |rs|
    ensures i <= out.0 <= |rs| && (out.1 ==> out.0 > i)
  {
    var j := Skip(rs, i, seen);
    if Offset(rs, i) + 8 > size then (i, false)
    else if j < |rs| && rs[j].Entry? && Offset(rs, j + 1) <= size then (j + 1, true) else (j, false)
  }

  /** The last descriptor with this index among the first n records. */
  function LastDescriptor(rs: seq<Record>, n: nat, id: nat): Option<nat>
    requires n <= |rs|
  {
    if n == 0 then None
    else if rs[n - 1].Descriptor? && rs[n - 1].index == id then Some(n - 1)
    else LastDescriptor(rs, n - 1, id)
  }

  function TagFor(rs: seq<Record>, i: nat): Option<seq<byte>>
    requires i < |rs| && rs[i].Entry?
  {
    DescriptorIsOne(rs, i, rs[i].id);
    match LastDescriptor(rs, i, rs[i].id)
    case None => None
    case Some(d) => Some(rs[d].tag)
  }

  lemma DescriptorIsOne(rs: seq<Record>, n: nat, id: nat)
    requires n <= |rs|
    ensures LastDescriptor(rs, n, id).Some? ==>
              LastDescriptor(rs, n, id).value < n && rs[LastDescriptor(rs, n, id).value].Descriptor?
  {
  }

  /** The map after the first n records: each index leads to the offset of its last descriptor. */
  ghost predicate MapOk(m: map<nat, nat>, rs: seq<Record>, n: nat)
    requires n <= |rs|
  {
    forall id: nat ::
      && (id in m <==> LastDescriptor(rs, n, id).Some?)
      && (id in m ==> LastDescriptor(rs, n, id).value < n && m[id] == Offset(rs, LastDescriptor(rs, n, id).value))
  }

  lemma MapAfterDescriptor(m: map<nat, nat>, rs: seq<Record>, n: nat)
    requires n < |rs| && rs[n].Descriptor? && MapOk(m, rs, n)
    ensures MapOk(m[rs[n].index := Offset(rs, n)], rs, n + 1)
  {
  }

  lemma MapAfterEntry(m: map<nat, nat>, rs: seq<Record>, n: nat)
    requires n < |rs| && rs[n].Entry? && MapOk(m, rs, n)
    ensures MapOk(m, rs, n + 1)
  {
    assert forall id: nat :: LastDescriptor(rs, n + 1, id) == LastDescriptor(rs, n, id);
  }

  lemma EntryInFile(file: seq<byte>, rs: seq<Record>, i: nat)
    requires FileOf(file, rs) && i < |rs| && rs[i].Entry?
    requires Offset(rs, i) + HEAD <= |file|
    ensures ReadU64(file, Offset(rs, i) + 8) == |rs[i].payload|
    ensures Offset(rs, i + 1) == Offset(rs, i) + HEAD + |rs[i].payload|
    ensures Offset(rs, i + 1) <= |file| ==> Read(file, Offset(rs, i) + HEAD, |rs[i].payload|) == rs[i].payload
  {
    assert Valid(rs[i]);
    assert RecordHeld(file, rs, i);
    ReadHeld(file, Offset(rs, i), rs[i].raw, 8, 8);
    if Offset(rs, i + 1) <= |file| {
      ReadHeld(file, Offset(rs, i), rs[i].raw, HEAD, |rs[i].payload|);
      assert rs[i].raw[HEAD..HEAD + |rs[i].payload|] == rs[i].raw[HEAD..];
    }
  }

  /** An entry that is complete has its descriptor complete as well. */
  lemma TagInFile(file: seq<byte>, rs: seq<Record>, i: nat, d: nat)
    requires FileOf(file, rs) && d < i < |rs| && rs[d].Descriptor? && Offset(rs, i) <= |file|
    ensures Read(file, Offset(rs, d) + TAG_OFFSET, TAG_SIZE) == rs[d].tag
  {
    OffsetsGrow(rs, d + 1, i);
    assert Valid(rs[d]);
    assert RecordHeld(file, rs, d);
    ReadHeld(file, Offset(rs, d), rs[d].raw, TAG_OFFSET, TAG_SIZE);
  }

  lemma CutEntryIsNotReturned(rs: seq<Record>, i: nat, size: nat)
    requires AllValid(rs) && i <= |rs| && Offset(rs, i) + HEAD > size
    ensures i < |rs| ==> Offset(rs, i + 1) > size
  {
    if i < |rs| {
        assert Valid(rs[i]);
    }
  }

  lemma ClearFlag(index: nat)
    requires index < FLAG
    ensures (FLAG + index) % FLAG == index
  {
  }

  /** One turn of LogRead's loop over descriptors. */
  lemma TakeOne(file: seq<byte>, rs: seq<Record>, k: nat, m: map<nat, nat>)
    requires FileOf(file, rs) && k <= |rs| && MapOk(m, rs, k) && IsEventDesc(file, Offset(rs, k))
    ensures k < |rs| && rs[k].Descriptor? && ReadU64(file, Offset(rs, k)) % FLAG == rs[k].index
    ensures Offset(rs, k + 1) == Offset(rs, k) + DESCRIPTOR
    ensures MapOk(m[rs[k].index := Offset(rs, k)], rs, k + 1)
    ensures Skip(rs, k, |file|) == Skip(rs, k + 1, |file|)
  {
    if Offset(rs, k) + 8 > |file| { CutHeaderIsNoDescriptor(file, Offset(rs, k)); }
    HeaderInFile(file, rs, k);
    MapAfterDescriptor(m, rs, k);
    assert Valid(rs[k]);
    ClearFlag(rs[k].index);
  }

  lemma NoMoreDescriptors(file: seq<byte>, rs: seq<Record>, k: nat)
    requires FileOf(file, rs) && k <= |rs| && !IsEventDesc(file, Offset(rs, k))
    ensures Skip(rs, k, |file|) == k
  {
    if Offset(rs, k) + 8 <= |file| { HeaderInFile(file, rs, k); }
  }

  lemma TagLookup(file: seq<byte>, rs: seq<Record>, j: nat, m: map<nat, nat>)
    requires FileOf(file, rs) && j < |rs| && rs[j].Entry? && MapOk(m, rs, j) && Offset(rs, j + 1) <= |file|
    ensures TagFor(rs, j) ==
            if rs[j].id in m then Some(Read(file, m[rs[j].id] + TAG_OFFSET, TAG_SIZE)) else None
  {
    var id := rs[j].id;
    if id in m {
      DescriptorIsOne(rs, j, id);
      TagInFile(file, rs, j, LastDescriptor(rs, j, id).value);
    }
  }

  /** `e` is what record n holds: its payload and the tag of its event's descriptor. */
  ghost predicate IsEntry(rs: seq<Record>, n: nat, e: (seq<byte>, Option<seq<byte>>)) {
    AllValid(rs) && n < |rs| && rs[n].Entry? && e == (rs[n].payload, TagFor(rs, n))
  }

  function TagRead(file: seq<byte>, m: map<nat, nat>, id: nat): Option<seq<byte>> {
    if id in m then Some(Read(file, m[id] + TAG_OFFSET, TAG_SIZE)) else None
  }

  /** The entry LogRead builds at offset `off`. */
  function EntryRead(file: seq<byte>, m: map<nat, nat>, off: nat): (seq<byte>, Option<seq<byte>>) {
    (Read(file, off + HEAD, ReadU64(file, off + 8)), TagRead(file, m, ReadU64(file, off)))
  }

  /** What LogRead finds once its cursor is past the descriptors and a whole entry head is in the file. */
  lemma EntryFound(file: seq<byte>, rs: seq<Record>, j: nat, m: map<nat, nat>)
    requires FileOf(file, rs) && j <= |rs| && MapOk(m, rs, j)
    requires !IsEventDesc(file, Offset(rs, j)) && Offset(rs, j) + HEAD <= |file|
    ensures j < |rs| && rs[j].Entry?
    ensures Offset(rs, j + 1) == Offset(rs, j) + HEAD + ReadU64(file, Offset(rs, j) + 8)
    ensures Offset(rs, j + 1) <= |file| ==> IsEntry(rs, j, EntryRead(file, m, Offset(rs, j))) && MapOk(m, rs, j + 1)
  {
    HeaderInFile(file, rs, j);
    EntryInFile(file, rs, j);
    if Offset(rs, j + 1) <= |file| {
      TagLookup(file, rs, j, m);
      MapAfterEntry(m, rs, j);
    }
  }

  /** A null pointer for no tag, else a pointer to where the tag stands in the file. */
  predicate PointsAt(file: seq<byte>, pointer: Option<nat>, tag: Option<seq<byte>>) {
    match pointer
    case None => tag == None
    case Some(off) => tag == Some(Read(file, off, TAG_SIZE))
  }

  class LogReader {
    var mCurBinLogSize: nat
    var mEventDescMap: map<nat, nat>
    var mCurEntry: Option<nat>                     // offsets into the mapping
    var mCurTag: Option<nat>

    constructor ()
      ensures mCurBinLogSize == 0 && mEventDescMap == map[]
    {
      mCurBinLogSize, mEventDescMap, mCurEntry, mCurTag := 0, map[], None, None;
    }

    /** The cursor stands on the boundary before record i, and the map knows the descriptors before it. */
    ghost predicate At(rs: seq<Record>, i: nat)
      reads this
    {
      i <= |rs| && mCurBinLogSize == Offset(rs, i) && MapOk(mEventDescMap, rs, i)
    }

    /** The loop that takes in descriptors. */
    method TakeDescriptors(file: seq<byte>, ghost rs: seq<Record>, ghost i: nat)
      requires FileOf(file, rs) && At(rs, i)
      modifies this
      ensures At(rs, Skip(rs, i, |file|)) && !IsEventDesc(file, mCurBinLogSize)
      ensures mCurEntry == old(mCurEntry) && mCurTag == old(mCurTag)
    {
      ghost var k := i;
      while IsEventDesc(file, mCurBinLogSize)
        invariant At(rs, k) && Skip(rs, i, |file|) == Skip(rs, k, |file|)
        invariant mCurEntry == old(mCurEntry) && mCurTag == old(mCurTag)
        decreases |rs| - k
      {
        TakeOne(file, rs, k, mEventDescMap);
        mEventDescMap := mEventDescMap[ReadU64(file, mCurBinLogSize) % FLAG := mCurBinLogSize];
        mCurBinLogSize := mCurBinLogSize + DESCRIPTOR;
        k := k + 1;
      }
      NoMoreDescriptors(file, rs, k);
    }

    /** The rest of LogRead: the entry at the cursor, if all of it was in the file at fstat. */
    method TakeEntry(size: nat, file: seq<byte>, ghost rs: seq<Record>, ghost j: nat)
      returns (entry: Option<(seq<byte>, Option<seq<byte>>)>, ghost next: nat)
      requires FileOf(file, rs) && At(rs, j) && size <= |file| && !IsEventDesc(file, mCurBinLogSize)
      modifies this
      ensures At(rs, next)
      ensures if entry.Some? then next == j + 1 && Offset(rs, next) <= size && IsEntry(rs, j, entry.value)
              else next == j && (j < |rs| ==> Offset(rs, j + 1) > size)
      ensures if entry.Some? then
                mCurEntry == Some(Offset(rs, j)) && (entry.value.1.None? ==> mCurTag == old(mCurTag))
                && (entry.value.1.Some? ==> PointsAt(file, mCurTag, entry.value.1))
              else mCurEntry == old(mCurEntry) && mCurTag == old(mCurTag)
    {
      entry, next := None, j;
      if mCurBinLogSize + HEAD > size {
        CutEntryIsNotReturned(rs, j, size);
        return;
      }
      EntryFound(file, rs, j, mEventDescMap);
      var length := ReadU64(file, mCurBinLogSize + 8);
      if mCurBinLogSize + HEAD + length > size { return; }
      mCurEntry := Some(mCurBinLogSize);
      var id := ReadU64(file, mCurBinLogSize);
      if id in mEventDescMap { mCurTag := Some(mEventDescMap[id] + TAG_OFFSET); }
      entry := Some(EntryRead(file, mEventDescMap, mCurBinLogSize));
      mCurBinLogSize := mCurBinLogSize + HEAD + length;
      next := j + 1;
    }

    /**
     * One poll of a file of any length, which may grow on between fstat and the loads: the next entry, or nothing.
     * `file` is what the last load of the descriptor loop finds; bytes that were there earlier are the same in it.
     */
    method LogRead(size: nat, file: seq<byte>, ghost rs: seq<Record>, ghost i: nat)
      returns (entry: Option<(seq<byte>, Option<seq<byte>>)>, ghost next: nat)
      requires FileOf(file, rs) && At(rs, i) && size <= |file|
      modifies this
      ensures At(rs, next) && Poll(rs, i, size, |file|) == (next, entry.Some?)
      ensures entry.Some? ==> next > 0 && IsEntry(rs, next - 1, entry.value)
      ensures mCurEntry == if entry.Some? then Some(Offset(rs, next - 1)) else None
      ensures PointsAt(file, mCurTag, if entry.Some? then entry.value.1 else None)
    {
      mCurEntry, mCurTag, entry, next := None, None, None, i;
      if mCurBinLogSize + 8 > size { return; }
      TakeDescriptors(file, rs, i);
      entry, next := TakeEntry(size, file, rs, Skip(rs, i, |file|));
    }
  }

  // ----- Any number of polls

  /** What the entries of records from..to are, in order, each with its class tag. */
  function EntriesBetween(rs: seq<Record>, from: nat, to: nat): seq<(seq<byte>, Option<seq<byte>>)>
    requires from <= to <= |rs| && AllValid(rs)
  {
    if from == to then []
    else EntriesBetween(rs, from, to - 1) + if rs[to - 1].Entry? then [(rs[to - 1].payload, TagFor(rs, to - 1))] else []
  }

  lemma {:induction false} SkipPassesNoEntry(rs: seq<Record>, i: nat, size: nat, k: nat)
    requires i <= |rs| && i <= k <= Skip(rs, i, size) && AllValid(rs)
    ensures EntriesBetween(rs, i, k) == []
    decreases k - i
  {
    if i < k {
      SkipPassesNoEntry(rs, i, size, k - 1);
      SkippedIsDescriptor(rs, i, size, k - 1);
    }
  }

  lemma {:induction false} SkippedIsDescriptor(rs: seq<Record>, i: nat, size: nat, k: nat)
    requires i <= |rs| && i <= k < Skip(rs, i, size)
    ensures rs[k].Descriptor?
    decreases k - i
  {
    if i < k { SkippedIsDescriptor(rs, i + 1, size, k); }
  }

  lemma {:induction false} EntriesSplit(rs: seq<Record>, a: nat, b: nat, c: nat)
    requires a <= b <= c <= |rs| && AllValid(rs)
    ensures EntriesBetween(rs, a, c) == EntriesBetween(rs, a, b) + EntriesBetween(rs, b, c)
    decreases c - b
  {
    if b < c { EntriesSplit(rs, a, b, c - 1); }
  }

  lemma OnePollReturnsNextEntry(rs: seq<Record>, i: nat, size: nat, seen: nat)
    requires i <= |rs| && AllValid(rs)
    ensures var (n, got) := Poll(rs, i, size, seen);
            && (got ==> rs[n - 1].Entry?)
            && EntriesBetween(rs, i, n) == if got then [(rs[n - 1].payload, TagFor(rs, n - 1))] else []
  {
    var j := Skip(rs, i, seen);
    SkipPassesNoEntry(rs, i, seen, j);
  }

  /** A poll that returns nothing leaves no entry unread that was complete at fstat: none is lost. */
  lemma EmptyPollMeansNothingComplete(rs: seq<Record>, i: nat, size: nat, seen: nat, e: nat)
    requires AllValid(rs) && i <= |rs| && size <= seen && !Poll(rs, i, size, seen).1
    requires i <= e < |rs| && rs[e].Entry?
    ensures Offset(rs, e + 1) > size
  {
    var j := Skip(rs, i, seen);
    if Offset(rs, i) + 8 > size {
      OffsetsGrow(rs, i, e);
      assert Valid(rs[e]);
    } else {
      if e < j { SkippedIsDescriptor(rs, i, seen, e); }
      StoppedRecordIsCut(rs, i, size, seen);
      OffsetsGrow(rs, j + 1, e + 1);
    }
  }

  lemma StoppedRecordIsCut(rs: seq<Record>, i: nat, size: nat, seen: nat)
    requires AllValid(rs) && i <= |rs| && size <= seen && Offset(rs, i) + 8 <= size && !Poll(rs, i, size, seen).1
    ensures var j := Skip(rs, i, seen); j < |rs| ==> Offset(rs, j + 1) > size
  {
    var j := Skip(rs, i, seen);
    SkipStops(rs, i, seen);
    if j < |rs| {
      assert Valid(rs[j]);
    }
  }

  lemma {:induction false} SkipStops(rs: seq<Record>, i: nat, size: nat)
    requires i <= |rs|
    ensures var j := Skip(rs, i, size); j < |rs| && rs[j].Descriptor? ==> Offset(rs, j) + 8 > size
    decreases |rs| - i
  {
    if i < |rs| && rs[i].Descriptor? && Offset(rs, i) + 8 <= size { SkipStops(rs, i + 1, size); }
  }

  /** A reader polls a growing file: `files` are the contents it loads, one per poll, and `sizes` the lengths that
      fstat gave before. Whatever these are, it gets a run of the first entries, in order, each with the tag of the
      last descriptor of its id before it, if any; after an empty poll none that was complete at fstat is missing. */
  method PollAll(reader: LogReader, sizes: seq<nat>, files: seq<seq<byte>>, ghost rs: seq<Record>)
    returns (entries: seq<(seq<byte>, Option<seq<byte>>)>, lastWasEmpty: bool, ghost next: nat)
    requires reader.At(rs, 0) && AllValid(rs) && |sizes| == |files|
    requires forall k :: 0 <= k < |files| ==> FileOf(files[k], rs) && sizes[k] <= |files[k]|
    modifies reader
    ensures reader.At(rs, next) && entries == EntriesBetween(rs, 0, next)
    ensures lastWasEmpty ==> sizes != [] && forall e: nat :: next <= e < |rs| && rs[e].Entry? ==>
                               Offset(rs, e + 1) > sizes[|sizes| - 1]
  {
    entries, lastWasEmpty, next := [], false, 0;
    for k := 0 to |files|
      invariant reader.At(rs, next) && entries == EntriesBetween(rs, 0, next)
      invariant lastWasEmpty ==> k > 0 && forall e: nat :: next <= e < |rs| && rs[e].Entry? ==>
                                   Offset(rs, e + 1) > sizes[k - 1]
    {
      ghost var start, seen := next, |files[k]|;
      var e;
      e, next := reader.LogRead(sizes[k], files[k], rs, start);
      OnePollReturnsNextEntry(rs, start, sizes[k], seen);
      EntriesSplit(rs, 0, start, next);
      lastWasEmpty := e.None?;
      if e.Some? {
        entries := entries + [e.value];
      } else {
        forall e: nat | start <= e < |rs| && rs[e].Entry? ensures Offset(rs, e + 1) > sizes[k] {
          EmptyPollMeansNothingComplete(rs, start, sizes[k], seen, e);
        }
      }
    }
  }
}
