/** binlog/serialization.h: threads log into their own queues of fixed-size cells, a dumper thread drains the
    queues into one file. A descriptor is larger than a cell and takes two. */
module BinlogDump {
  import opened Bytes
  import opened BinlogFile
  import opened Common

  const CELL: nat := 288                           // sizeof(LogEntry)

  type Cell = seq<byte>

  /** `queues` are the cells of every thread; `middle` is the thread whose descriptor is half written, and `half`
      tells which threads are between the two cells of one. The rest is history: the records in the file before
      the dumper started, records pushed and not yet dumped, all records pushed, and the records dumped with
      their threads. */
  datatype State = State(
    queues: seq<seq<Cell>>, half: seq<bool>, middle: Option<nat>, file: seq<byte>, start: seq<Record>,
    waiting: seq<seq<Record>>, pushed: seq<seq<Record>>, dumped: seq<(nat, Record)>)

  datatype Action =
    | PushEntry(t: nat, r: Record, cell: Cell)     // one cell, the entry's bytes first
    | PushFirstCell(t: nat, r: Record)
    | PushSecondCell(t: nat, cell: Cell)
    | DumpFront(t: nat)
    | DumpSecond

  predicate Fits(s: State) { |s.queues| == |s.half| == |s.waiting| == |s.pushed| }

  ghost predicate Enabled(s: State, a: Action) {
    && Fits(s)
    && match a
       case PushEntry(t, r, cell) =>
         && t < |s.queues| && !s.half[t] && r.Entry? && Valid(r) && |cell| == CELL && r.raw <= cell
       case PushFirstCell(t, r) => t < |s.queues| && !s.half[t] && r.Descriptor? && Valid(r)
       case PushSecondCell(t, cell) =>
         && t < |s.queues| && s.half[t] && |cell| == CELL && s.pushed[t] != []
         && SecondHalf(s.pushed[t][|s.pushed[t]| - 1], cell)
       case DumpFront(t) =>
         && t < |s.queues| && s.middle.None? && s.queues[t] != [] && s.waiting[t] != []
         && |s.queues[t][0]| == CELL && EntryLength(s.queues[t][0]) <= CELL
       case DumpSecond =>
         && s.middle.Some? && s.middle.value < |s.queues| && s.queues[s.middle.value] != []
         && s.waiting[s.middle.value] != [] && |s.queues[s.middle.value][0]| == CELL
  }

  ghost predicate SecondHalf(r: Record, cell: Cell) {
    |r.raw| == DESCRIPTOR && r.raw[CELL..] <= cell
  }

  predicate IsDescriptorCell(c: Cell)
    requires |c| == CELL
  {
    FromLittleEndian(c[..8]) >= FLAG
  }

  /** How much of an entry's cell goes to the file; a descriptor's first cell goes whole. */
  function EntryLength(c: Cell): nat
    requires |c| == CELL
  {
    if IsDescriptorCell(c) then CELL else HEAD + FromLittleEndian(c[8..16])
  }

  ghost function Step(s: State, a: Action): State {
    if !Enabled(s, a) then s else
    match a
    case PushEntry(t, r, cell) =>
      s.(queues := s.queues[t := s.queues[t] + [cell]],
         waiting := s.waiting[t := s.waiting[t] + [r]], pushed := s.pushed[t := s.pushed[t] + [r]])
    case PushFirstCell(t, r) =>
      s.(queues := s.queues[t := s.queues[t] + [r.raw[..CELL]]], half := s.half[t := true],
         waiting := s.waiting[t := s.waiting[t] + [r]], pushed := s.pushed[t := s.pushed[t] + [r]])
    case PushSecondCell(t, cell) =>
      s.(queues := s.queues[t := s.queues[t] + [cell]], half := s.half[t := false])
    case DumpFront(t) =>
      var c := s.queues[t][0];
      var u := s.(queues := s.queues[t := s.queues[t][1..]], file := s.file + c[..EntryLength(c)]);
      if IsDescriptorCell(c) then u.(middle := Some(t))
      else u.(waiting := s.waiting[t := s.waiting[t][1..]], dumped := s.dumped + [(t, s.waiting[t][0])])
    case DumpSecond =>
      var t := s.middle.value;
      s.(queues := s.queues[t := s.queues[t][1..]], middle := None,
         file := s.file + s.queues[t][0][..DESCRIPTOR - CELL],
         waiting := s.waiting[t := s.waiting[t][1..]], dumped := s.dumped + [(t, s.waiting[t][0])])
  }

  ghost function Run(s: State, actions: seq<Action>): State
    decreases |actions|
  {
    if actions == [] then s else Run(Step(s, actions[0]), actions[1..])
  }

  /** The marker that ParseEventSection writes at the head of the file: a descriptor with all bits of its id set. */
  predicate IsEndMarker(r: Record) { r.Descriptor? && r.index == FLAG - 1 }

  /** Whole records, the end marker first. */
  ghost predicate IsLogFile(file: seq<byte>, rs: seq<Record>) {
    AllValid(rs) && rs != [] && IsEndMarker(rs[0]) && file == EncodeAll(rs)
  }

  /** The end of ParseEventSection: the marker goes to the first bytes of the file, whatever was there. */
  function WriteMarker(file: seq<byte>, marker: Record): seq<byte> {
    marker.raw + if |file| > |marker.raw| then file[|marker.raw|..] else []
  }

  /** On a new file, and again on one that an earlier run left whole, that leaves the file the dumper appends to. */
  lemma MarkerStartsLogFile(file: seq<byte>, rs: seq<Record>, marker: Record)
    requires Valid(marker) && IsEndMarker(marker) && ((file == [] && rs == []) || IsLogFile(file, rs))
    ensures IsLogFile(WriteMarker(file, marker), [marker] + if rs == [] then [] else rs[1..])
  {
    var after := [marker] + if rs == [] then [] else rs[1..];
    assert after[1..] == if rs == [] then [] else rs[1..];
    if rs != [] {
      assert Valid(rs[0]);
      assert EncodeAll(rs)[DESCRIPTOR..] == EncodeAll(rs[1..]);
    }
    forall i {:trigger Valid(after[i])} | 0 <= i < |after| ensures Valid(after[i]) {
      if i > 0 { assert Valid(rs[i]); }
    }
  }

  ghost predicate Initial(s: State) {
    && Fits(s) && s.middle == None && IsLogFile(s.file, s.start) && s.dumped == []
    && forall t :: 0 <= t < |s.queues| ==> s.queues[t] == [] && !s.half[t] && s.waiting[t] == [] && s.pushed[t] == []
  }

  // ----- The invariant

  /** The cells of a queue, given the records they belong to; `half` when the last descriptor lacks its second cell. */
  ghost predicate CellsOf(q: seq<Cell>, rs: seq<Record>, half: bool)
    decreases |rs|, 1
  {
    if rs == [] then q == [] && !half
    else
      && Valid(rs[0]) && q != [] && |q[0]| == CELL
      && if rs[0].Entry? then rs[0].raw <= q[0] && CellsOf(q[1..], rs[1..], half)
         else q[0] == rs[0].raw[..CELL] && AfterFirstCell(q[1..], rs, half)
  }

  /** The same after the first cell of rs[0] is gone. */
  ghost predicate AfterFirstCell(q: seq<Cell>, rs: seq<Record>, half: bool)
    requires rs != []
    decreases |rs|, 0
  {
    && Valid(rs[0]) && rs[0].Descriptor?
    && if half && |rs| == 1 then q == []
       else q != [] && |q[0]| == CELL && SecondHalf(rs[0], q[0]) && CellsOf(q[1..], rs[1..], half)
  }

  function Records(d: seq<(nat, Record)>): seq<Record> {
    if d == [] then [] else Records(d[..|d| - 1]) + [d[|d| - 1].1]
  }

  /** The whole records in the file. */
  function Stream(s: State): seq<Record> { s.start + Records(s.dumped) }

  /** The dumped records of one thread, in the order in which they were dumped. */
  function DumpedBy(d: seq<(nat, Record)>, t: nat): seq<Record> {
    if d == [] then []
    else DumpedBy(d[..|d| - 1], t) + if d[|d| - 1].0 == t then [d[|d| - 1].1] else []
  }

  /** The cells of a queue whose first record is whole, or whose first record's first cell is taken. */
  ghost predicate QueueOk(q: seq<Cell>, rs: seq<Record>, half: bool, taken: bool) {
    (half ==> rs != []) && if taken then rs != [] && AfterFirstCell(q, rs, half) else CellsOf(q, rs, half)
  }

  ghost predicate ThreadOk(s: State, t: nat)
    requires Fits(s) && t < |s.queues|
  {
    && s.pushed[t] == DumpedBy(s.dumped, t) + s.waiting[t]
    && QueueOk(s.queues[t], s.waiting[t], s.half[t], s.middle == Some(t))
  }

  /** What the file holds beyond the complete records: the first cell of the descriptor under way. */
  ghost function Partial(s: State): seq<byte>
    requires Fits(s)
  {
    if s.middle.Some? && s.middle.value < |s.waiting| && s.waiting[s.middle.value] != []
       && |s.waiting[s.middle.value][0].raw| == DESCRIPTOR
    then s.waiting[s.middle.value][0].raw[..CELL] else []
  }

  ghost predicate Inv(s: State) {
    && Fits(s)
    && (s.middle.Some? ==> s.middle.value < |s.queues|)
    && (forall t :: 0 <= t < |s.queues| ==> ThreadOk(s, t))
    && AllValid(Stream(s))
    && s.file == EncodeAll(Stream(s)) + Partial(s)
  }

  // ----- Pushing cells

  lemma {:induction false} PushEntryKeepsCells(q: seq<Cell>, rs: seq<Record>, r: Record, cell: Cell)
    requires CellsOf(q, rs, false)
    requires Valid(r) && r.Entry? && |cell| == CELL && r.raw <= cell
    ensures CellsOf(q + [cell], rs + [r], false)
    decreases |rs|
  {
    if rs == [] {
      assert q + [cell] == [cell] && rs + [r] == [r];
      assert [cell][1..] == [] && [r][1..] == [];
    } else {
      assert (q + [cell])[1..] == q[1..] + [cell] && (rs + [r])[1..] == rs[1..] + [r];
      if rs[0].Entry? {
        PushEntryKeepsCells(q[1..], rs[1..], r, cell);
      } else {
        assert (q[1..] + [cell])[1..] == q[1..][1..] + [cell];
        PushEntryKeepsCells(q[1..][1..], rs[1..], r, cell);
      }
    }
  }

  lemma {:induction false} PushFirstKeepsCells(q: seq<Cell>, rs: seq<Record>, r: Record)
    requires CellsOf(q, rs, false)
    requires Valid(r) && r.Descriptor?
    ensures CellsOf(q + [r.raw[..CELL]], rs + [r], true)
    decreases |rs|
  {
    var cell := r.raw[..CELL];
    if rs == [] {
      assert q + [cell] == [cell] && rs + [r] == [r];
      assert [cell][1..] == [];
    } else {
      assert (q + [cell])[1..] == q[1..] + [cell] && (rs + [r])[1..] == rs[1..] + [r];
      if rs[0].Entry? {
        PushFirstKeepsCells(q[1..], rs[1..], r);
      } else {
        assert (q[1..] + [cell])[1..] == q[1..][1..] + [cell];
        PushFirstKeepsCells(q[1..][1..], rs[1..], r);
      }
    }
  }

  lemma {:induction false} PushSecondKeepsCells(q: seq<Cell>, rs: seq<Record>, cell: Cell)
    requires CellsOf(q, rs, true) && rs != []
    requires |cell| == CELL && SecondHalf(rs[|rs| - 1], cell)
    ensures CellsOf(q + [cell], rs, false)
    decreases |rs|
  {
    assert (q + [cell])[1..] == q[1..] + [cell];
    if rs[0].Entry? {
      LastIsDescriptor(q[1..], rs[1..]);
      PushSecondKeepsCells(q[1..], rs[1..], cell);
    } else {
      PushSecondAfterFirst(q[1..], rs, cell);
    }
  }

  lemma LastIsDescriptor(q: seq<Cell>, rs: seq<Record>)
    requires CellsOf(q, rs, true)
    ensures rs != []
  {
  }

  lemma {:induction false} PushSecondAfterFirst(q: seq<Cell>, rs: seq<Record>, cell: Cell)
    requires rs != [] && AfterFirstCell(q, rs, true)
    requires |cell| == CELL && SecondHalf(rs[|rs| - 1], cell)
    ensures AfterFirstCell(q + [cell], rs, false)
    decreases |rs|, 0
  {
    if |rs| == 1 {
      assert q + [cell] == [cell] && [cell][1..] == [] && rs[1..] == [];
    } else {
      assert (q + [cell])[1..] == q[1..] + [cell];
      LastIsDescriptor(q[1..], rs[1..]);
      PushSecondKeepsCells(q[1..], rs[1..], cell);
    }
  }

  lemma PushAfterFirst(q: seq<Cell>, rs: seq<Record>, r: Record, cell: Cell)
    requires rs != [] && AfterFirstCell(q, rs, false) && Valid(r) && |cell| == CELL
    ensures r.Entry? && r.raw <= cell ==> AfterFirstCell(q + [cell], rs + [r], false)
    ensures r.Descriptor? && cell == r.raw[..CELL] ==> AfterFirstCell(q + [cell], rs + [r], true)
  {
    assert (q + [cell])[1..] == q[1..] + [cell] && (rs + [r])[1..] == rs[1..] + [r];
    if r.Entry? && r.raw <= cell { PushEntryKeepsCells(q[1..], rs[1..], r, cell); }
    if r.Descriptor? && cell == r.raw[..CELL] { PushFirstKeepsCells(q[1..], rs[1..], r); }
  }

  // ----- Every step keeps the invariant

  lemma OthersKept(s: State, t: State, k: nat)
    requires Inv(s) && Fits(t) && |t.queues| == |s.queues|
    requires forall i :: 0 <= i < |s.queues| && i != k ==>
               && t.queues[i] == s.queues[i] && t.half[i] == s.half[i] && t.waiting[i] == s.waiting[i]
               && t.pushed[i] == s.pushed[i] && DumpedBy(t.dumped, i) == DumpedBy(s.dumped, i)
               && (t.middle == Some(i) <==> s.middle == Some(i))
    requires k < |s.queues| ==> ThreadOk(t, k)
    ensures forall i :: 0 <= i < |t.queues| ==> ThreadOk(t, i)
  {
    forall i | 0 <= i < |t.queues| ensures ThreadOk(t, i) {
      assert ThreadOk(s, i);
    }
  }

  lemma PushKeepsQueue(q: seq<Cell>, rs: seq<Record>, taken: bool, r: Record, cell: Cell)
    requires QueueOk(q, rs, false, taken) && Valid(r) && |cell| == CELL
    ensures r.Entry? && r.raw <= cell ==> QueueOk(q + [cell], rs + [r], false, taken)
    ensures r.Descriptor? && cell == r.raw[..CELL] ==> QueueOk(q + [cell], rs + [r], true, taken)
  {
    if taken {
      PushAfterFirst(q, rs, r, cell);
    } else {
      if r.Entry? && r.raw <= cell { PushEntryKeepsCells(q, rs, r, cell); }
      if r.Descriptor? && cell == r.raw[..CELL] { PushFirstKeepsCells(q, rs, r); }
    }
  }

  lemma PushSecondKeepsQueue(q: seq<Cell>, rs: seq<Record>, taken: bool, cell: Cell)
    requires QueueOk(q, rs, true, taken) && |cell| == CELL && SecondHalf(rs[|rs| - 1], cell)
    ensures QueueOk(q + [cell], rs, false, taken)
  {
    if taken { PushSecondAfterFirst(q, rs, cell); } else { PushSecondKeepsCells(q, rs, cell); }
  }

  lemma PushEntryKeepsThread(s: State, t: nat, r: Record, cell: Cell)
    requires Inv(s) && Enabled(s, PushEntry(t, r, cell))
    ensures ThreadOk(Step(s, PushEntry(t, r, cell)), t)
  {
    assert ThreadOk(s, t);
    PushKeepsQueue(s.queues[t], s.waiting[t], s.middle == Some(t), r, cell);
  }

  lemma PushFirstKeepsThread(s: State, t: nat, r: Record)
    requires Inv(s) && Enabled(s, PushFirstCell(t, r))
    ensures ThreadOk(Step(s, PushFirstCell(t, r)), t)
  {
    assert ThreadOk(s, t);
    PushKeepsQueue(s.queues[t], s.waiting[t], s.middle == Some(t), r, r.raw[..CELL]);
  }

  lemma PushSecondKeepsThread(s: State, t: nat, cell: Cell)
    requires Inv(s) && Enabled(s, PushSecondCell(t, cell))
    ensures ThreadOk(Step(s, PushSecondCell(t, cell)), t)
  {
    assert ThreadOk(s, t);
    var rs := s.waiting[t];
    assert s.pushed[t][|s.pushed[t]| - 1] == rs[|rs| - 1];
    PushSecondKeepsQueue(s.queues[t], rs, s.middle == Some(t), cell);
  }

  lemma PushKeepsInv(s: State, a: Action)
    requires Inv(s) && Enabled(s, a) && !a.DumpFront? && !a.DumpSecond?
    ensures Inv(Step(s, a))
  {
    match a {
      case PushEntry(t, r, cell) => PushEntryKeepsThread(s, t, r, cell);
      case PushFirstCell(t, r) => PushFirstKeepsThread(s, t, r);
      case PushSecondCell(t, cell) => PushSecondKeepsThread(s, t, cell);
    }
    assert ThreadOk(s, a.t);
    OthersKept(s, Step(s, a), a.t);
  }

  lemma DumpedOne(d: seq<(nat, Record)>, t: nat, r: Record)
    ensures Records(d + [(t, r)]) == Records(d) + [r]
    ensures DumpedBy(d + [(t, r)], t) == DumpedBy(d, t) + [r]
    ensures forall i: nat :: i != t ==> DumpedBy(d + [(t, r)], i) == DumpedBy(d, i)
  {
    assert (d + [(t, r)])[..|d|] == d;
  }

  lemma StreamGrows(start: seq<Record>, d: seq<(nat, Record)>, t: nat, r: Record)
    requires Valid(r) && AllValid(start + Records(d))
    ensures AllValid(start + Records(d + [(t, r)]))
    ensures EncodeAll(start + Records(d + [(t, r)])) == EncodeAll(start + Records(d)) + r.raw
  {
    var rs := start + Records(d);
    DumpedOne(d, t, r);
    assert start + Records(d + [(t, r)]) == rs + [r];
    EncodeAllAppends(rs, r);
    AllValidAppends(rs, r);
  }

  lemma AllValidAppends(rs: seq<Record>, r: Record)
    requires AllValid(rs) && Valid(r)
    ensures AllValid(rs + [r])
  {
    forall i {:trigger Valid((rs + [r])[i])} | 0 <= i < |rs + [r]| ensures Valid((rs + [r])[i]) {
      if i < |rs| { assert Valid(rs[i]); }
    }
  }

  lemma {:induction false} EncodeAllAppends(rs: seq<Record>, r: Record)
    ensures EncodeAll(rs + [r]) == EncodeAll(rs) + r.raw
    decreases |rs|
  {
    if rs == [] {
      assert rs + [r] == [r] && [r][1..] == [];
    } else {
      assert (rs + [r])[1..] == rs[1..] + [r];
      EncodeAllAppends(rs[1..], r);
    }
  }

  /** The front cell alone tells what it is and how much of it belongs to the record. */
  lemma FrontCell(q: seq<Cell>, rs: seq<Record>, half: bool)
    requires CellsOf(q, rs, half) && q != []
    ensures rs != [] && |q[0]| == CELL
    ensures IsDescriptorCell(q[0]) <==> rs[0].Descriptor?
    ensures rs[0].Entry? ==> EntryLength(q[0]) == |rs[0].raw| <= CELL && q[0][..EntryLength(q[0])] == rs[0].raw
  {
    var r, c := rs[0], q[0];
    assert c[..8] == r.raw[..8];
    if r.Entry? { assert c[8..16] == r.raw[8..16]; }
  }

  /** An entry's cell is dumped: the record's bytes, and the record itself in the histories. */
  lemma DumpEntryIs(s: State, t: nat)
    requires Inv(s) && Enabled(s, DumpFront(t)) && !IsDescriptorCell(s.queues[t][0])
    ensures var r := s.waiting[t][0];
            && Valid(r) && r.Entry?
            && Step(s, DumpFront(t)) == s.(queues := s.queues[t := s.queues[t][1..]], file := s.file + r.raw,
                                           waiting := s.waiting[t := s.waiting[t][1..]], dumped := s.dumped + [(t, r)])
  {
    assert ThreadOk(s, t);
    FrontCell(s.queues[t], s.waiting[t], s.half[t]);
  }

  lemma DumpEntryKeepsThread(s: State, t: nat)
    requires Inv(s) && Enabled(s, DumpFront(t)) && !IsDescriptorCell(s.queues[t][0])
    ensures Fits(Step(s, DumpFront(t))) && ThreadOk(Step(s, DumpFront(t)), t)
  {
    var u := Step(s, DumpFront(t));
    assert ThreadOk(s, t);
    DumpEntryIs(s, t);
    DumpedOne(s.dumped, t, s.waiting[t][0]);
    assert s.waiting[t] == [s.waiting[t][0]] + s.waiting[t][1..];
    assert CellsOf(u.queues[t], u.waiting[t], u.half[t]);
    if s.half[t] { LastIsDescriptor(u.queues[t], u.waiting[t]); }
  }

  lemma DumpEntryKeepsInv(s: State, t: nat)
    requires Inv(s) && Enabled(s, DumpFront(t)) && !IsDescriptorCell(s.queues[t][0])
    ensures Inv(Step(s, DumpFront(t)))
  {
    var u := Step(s, DumpFront(t));
    DumpEntryIs(s, t);
    DumpEntryKeepsThread(s, t);
    DumpedOne(s.dumped, t, s.waiting[t][0]);
    OthersKept(s, u, t);
    StreamGrows(s.start, s.dumped, t, s.waiting[t][0]);
    assert s.file == EncodeAll(Stream(s));
    assert u.file == EncodeAll(Stream(u)) + Partial(u);
  }

  lemma DumpFirstCellKeepsInv(s: State, t: nat)
    requires Inv(s) && Enabled(s, DumpFront(t)) && IsDescriptorCell(s.queues[t][0])
    ensures Inv(Step(s, DumpFront(t)))
  {
    var u := Step(s, DumpFront(t));
    assert ThreadOk(s, t);
    FrontCell(s.queues[t], s.waiting[t], s.half[t]);
    assert ThreadOk(u, t);
    OthersKept(s, u, t);
    assert s.queues[t][0][..CELL] == s.waiting[t][0].raw[..CELL] == Partial(u);
  }

  lemma DumpSecondKeepsThread(s: State)
    requires Inv(s) && Enabled(s, DumpSecond)
    ensures var t := s.middle.value;
            Fits(Step(s, DumpSecond)) && ThreadOk(Step(s, DumpSecond), t) && Valid(s.waiting[t][0])
  {
    var u, t := Step(s, DumpSecond), s.middle.value;
    assert ThreadOk(s, t);
    var r := s.waiting[t][0];
    DumpedOne(s.dumped, t, r);
    assert s.waiting[t] == [r] + s.waiting[t][1..];
    if s.half[t] { LastIsDescriptor(u.queues[t], u.waiting[t]); }
  }

  /** Both parts of a descriptor make up its bytes. */
  lemma SecondCompletesRecord(s: State)
    requires Inv(s) && Enabled(s, DumpSecond)
    ensures Step(s, DumpSecond).file == EncodeAll(Stream(s)) + s.waiting[s.middle.value][0].raw
  {
    var t := s.middle.value;
    assert ThreadOk(s, t);
    var r := s.waiting[t][0];
    assert s.queues[t][0][..DESCRIPTOR - CELL] == r.raw[CELL..];
    assert r.raw == r.raw[..CELL] + r.raw[CELL..];
    assert EncodeAll(Stream(s)) + (r.raw[..CELL] + r.raw[CELL..])
        == (EncodeAll(Stream(s)) + r.raw[..CELL]) + r.raw[CELL..];
  }

  lemma DumpSecondKeepsInv(s: State)
    requires Inv(s) && Enabled(s, DumpSecond)
    ensures Inv(Step(s, DumpSecond))
  {
    var u, t := Step(s, DumpSecond), s.middle.value;
    DumpSecondKeepsThread(s);
    DumpedOne(s.dumped, t, s.waiting[t][0]);
    OthersKept(s, u, t);
    SecondCompletesRecord(s);
    StreamGrows(s.start, s.dumped, t, s.waiting[t][0]);
    assert u.file == EncodeAll(Stream(u)) + Partial(u);
  }

  lemma StepKeepsInv(s: State, a: Action)
    requires Inv(s)
    ensures Inv(Step(s, a))
  {
    if Enabled(s, a) {
      match a
      case DumpFront(t) =>
        if IsDescriptorCell(s.queues[t][0]) { DumpFirstCellKeepsInv(s, t); } else { DumpEntryKeepsInv(s, t); }
      case DumpSecond => DumpSecondKeepsInv(s);
      case PushEntry(_, _, _) => PushKeepsInv(s, a);
      case PushFirstCell(_, _) => PushKeepsInv(s, a);
      case PushSecondCell(_, _) => PushKeepsInv(s, a);
    }
  }

  /** The file is only ever appended to. */
  lemma StepGrowsFile(s: State, a: Action)
    ensures s.file <= Step(s, a).file && Step(s, a).start == s.start
  {
  }

  lemma {:induction false} RunKeepsInv(s: State, actions: seq<Action>)
    requires Inv(s)
    ensures Inv(Run(s, actions)) && s.file <= Run(s, actions).file && Run(s, actions).start == s.start
    decreases |actions|
  {
    if actions != [] {
      StepKeepsInv(s, actions[0]);
      StepGrowsFile(s, actions[0]);
      RunKeepsInv(Step(s, actions[0]), actions[1..]);
    }
  }

  // ----- Main results

  /**
   * The guards on cell sizes and on the history never stop the dumper: a cell at the front can be dumped, and the
   * one it waits for after a descriptor's first cell is that descriptor's second.
   */
  lemma DumperNeverBlocks(s: State, t: nat)
    requires Inv(s) && t < |s.queues| && s.queues[t] != []
    ensures s.middle.None? ==> Enabled(s, DumpFront(t))
    ensures s.middle == Some(t) ==>
              Enabled(s, DumpSecond) && s.waiting[t][0].Descriptor? && SecondHalf(s.waiting[t][0], s.queues[t][0])
  {
    assert ThreadOk(s, t);
    if s.middle.None? { FrontCell(s.queues[t], s.waiting[t], s.half[t]); }
  }

  /** The records in the file, with the one whose first half is written. */
  ghost function InFile(s: State): seq<Record>
    requires Fits(s)
  {
    Stream(s) +
    if s.middle.Some? && s.middle.value < |s.waiting| && s.waiting[s.middle.value] != []
    then [s.waiting[s.middle.value][0]] else []
  }

  /** Over every interleaving of logging threads and dumper, the file is a stream of whole records up to a cut, each
      thread's records in it are the first ones it logged, in order; and it only grows, so that whatever a reader
      found in it earlier is a shorter cut of the same stream. */
  lemma FileIsRecordStream(s: State, actions: seq<Action>, more: seq<Action>)
    requires Initial(s)
    ensures var early := Run(s, actions); var late := Run(early, more);
            && Fits(late) && s.start <= InFile(late)
            && FileOf(early.file, InFile(late)) && FileOf(late.file, InFile(late))
            && forall t :: 0 <= t < |late.queues| ==> DumpedBy(late.dumped, t) <= late.pushed[t]
  {
    InitialInv(s);
    RunKeepsInv(s, actions);
    var early := Run(s, actions);
    RunKeepsInv(early, more);
    var late := Run(early, more);
    FileIsPrefix(late);
    PrefixIsFile(late.file, InFile(late));
    PrefixIsFile(early.file, InFile(late));
    forall t | 0 <= t < |late.queues| ensures DumpedBy(late.dumped, t) <= late.pushed[t] {
      assert ThreadOk(late, t);
    }
  }

  lemma InitialInv(s: State)
    requires Initial(s)
    ensures Inv(s)
  {
    assert s.start + [] == s.start && EncodeAll(s.start) + [] == EncodeAll(s.start);
  }

  lemma FileIsPrefix(s: State)
    requires Inv(s)
    ensures AllValid(InFile(s)) && s.file <= EncodeAll(InFile(s))
  {
    var rs := Stream(s);
    if s.middle.Some? {
      assert ThreadOk(s, s.middle.value);
      var r := s.waiting[s.middle.value][0];
      EncodeAllAppends(rs, r);
      AllValidAppends(rs, r);
    } else {
      assert InFile(s) == rs;
    }
  }

  // ----- From the logging threads to the reader

  /** The state after one run after another. */
  ghost function After(s: State, runs: seq<seq<Action>>): State {
    if runs == [] then s else Run(After(s, runs[..|runs| - 1]), runs[|runs| - 1])
  }

  lemma {:induction false} EarlierIsPrefix(s: State, runs: seq<seq<Action>>, k: nat)
    requires Initial(s) && k <= |runs|
    ensures var early, late := After(s, runs[..k]), After(s, runs);
            Inv(late) && late.start == s.start && early.file <= late.file
    decreases |runs|
  {
    if runs == [] {
      InitialInv(s);
    } else {
      var n := |runs| - 1;
      EarlierIsPrefix(s, runs[..n], if k <= n then k else n);
      RunKeepsInv(After(s, runs[..n]), runs[n]);
      if k <= n { assert runs[..n][..k] == runs[..k]; } else { assert runs[..k] == runs; }
    }
  }

  /**
   * A reader that polls while threads log and the dumper writes: `files` are the contents it loads, one after each
   * of `runs`, and `sizes` the lengths it asked for before. It gets the first entries of the file's record stream,
   * in order, each with the tag of the last descriptor of its event before it, if any; after an empty poll no entry
   * that was complete is missing. The stream holds each thread's records in the order logged. Which entries have a
   * descriptor before them in every schedule is the subject of BinlogTags.
   */
  method PollWhileDumping(reader: LogReader, sizes: seq<nat>, files: seq<seq<byte>>, ghost s: State,
                          ghost runs: seq<seq<Action>>)
    returns (entries: seq<(seq<byte>, Option<seq<byte>>)>, lastWasEmpty: bool, ghost next: nat)
    requires reader.mCurBinLogSize == 0 && reader.mEventDescMap == map[]
    requires Initial(s) && |sizes| == |files| == |runs|
    requires forall k :: 0 <= k < |files| ==> files[k] == After(s, runs[..k + 1]).file && sizes[k] <= |files[k]|
    modifies reader
    ensures var t := After(s, runs);
            && Fits(t) && AllValid(InFile(t)) && s.start <= InFile(t)
            && next <= |InFile(t)| && entries == EntriesBetween(InFile(t), 0, next)
            && (lastWasEmpty ==> sizes != [] && forall e: nat :: next <= e < |InFile(t)| && InFile(t)[e].Entry? ==>
                                   Offset(InFile(t), e + 1) > sizes[|sizes| - 1])
            && forall i :: 0 <= i < |t.queues| ==> DumpedBy(t.dumped, i) <= t.pushed[i]
  {
    ghost var t := After(s, runs);
    EarlierIsPrefix(s, runs, |runs|);
    FileIsPrefix(t);
    forall k | 0 <= k < |files| ensures FileOf(files[k], InFile(t)) {
      EarlierIsPrefix(s, runs, k + 1);
      PrefixIsFile(files[k], InFile(t));
    }
    forall i | 0 <= i < |t.queues| ensures DumpedBy(t.dumped, i) <= t.pushed[i] { assert ThreadOk(t, i); }
    entries, lastWasEmpty, next := PollAll(reader, sizes, files, InFile(t));
  }

  // ----- The logger: each method is one atomic step of a logging thread or of the dumper

  class Logger {
    var queues: seq<seq<Cell>>
    var file: seq<byte>
    ghost const start: seq<Record>
    ghost var half: seq<bool>
    ghost var middle: Option<nat>
    ghost var waiting: seq<seq<Record>>
    ghost var pushed: seq<seq<Record>>
    ghost var dumped: seq<(nat, Record)>

    ghost function View(): State
      reads this
    {
      State(queues, half, middle, file, start, waiting, pushed, dumped)
    }

    ghost method Remember(t: State)
      modifies `half, `middle, `waiting, `pushed, `dumped
      ensures half == t.half && middle == t.middle && waiting == t.waiting && pushed == t.pushed && dumped == t.dumped
    {
      half, middle, waiting, pushed, dumped := t.half, t.middle, t.waiting, t.pushed, t.dumped;
    }

    constructor (threads: nat, file: seq<byte>, ghost rs: seq<Record>)
      requires IsLogFile(file, rs)
      ensures Initial(View()) && |queues| == threads && this.file == file && start == rs
    {
      queues, this.file, start := seq(threads, _ => []), file, rs;
      half, middle, dumped := seq(threads, _ => false), None, [];
      waiting, pushed := seq(threads, _ => []), seq(threads, _ => []);
    }

    /** The cell of thread t goes into its queue: an entry, or the first or second part of a descriptor. */
    method Push(t: nat, cell: Cell, ghost a: Action)
      requires Inv(View()) && Enabled(View(), a)
      requires match a
               case PushEntry(u, _, c) => u == t && c == cell
               case PushFirstCell(u, r) => u == t && |r.raw| >= CELL && cell == r.raw[..CELL]
               case PushSecondCell(u, c) => u == t && c == cell
               case _ => false
      modifies this
      ensures Inv(View()) && View() == Step(old(View()), a)
    {
      StepKeepsInv(View(), a);
      ghost var u := Step(View(), a);
      queues := queues[t := queues[t] + [cell]];
      Remember(u);
      assert View() == u;
    }

    /** The dumper takes the front cell of thread t, if there is one; a descriptor's second cell is to follow. */
    method DumpOne(t: nat) returns (taken: bool, secondToCome: bool)
      requires Inv(View()) && t < |queues| && middle == None
      modifies this
      ensures Inv(View()) && (taken <==> old(queues[t]) != []) && (secondToCome <==> middle == Some(t))
      ensures View() == if taken then Step(old(View()), DumpFront(t)) else old(View())
    {
      if queues[t] == [] { return false, false; }
      DumperNeverBlocks(View(), t);
      StepKeepsInv(View(), DumpFront(t));
      ghost var u := Step(View(), DumpFront(t));
      var cell := queues[t][0];
      secondToCome := IsDescriptorCell(cell);
      var written := if secondToCome then cell else cell[..HEAD + FromLittleEndian(cell[8..16])];
      assert written == cell[..EntryLength(cell)];
      assert u.file == file + written && u.queues == queues[t := queues[t][1..]] && u.start == start;
      file := file + written;
      queues := queues[t := queues[t][1..]];
      taken := true;
      Remember(u);
      assert View() == u;
    }

    /** The wait for the second cell is over. */
    method DumpRest(t: nat)
      requires Inv(View()) && t < |queues| && middle == Some(t) && queues[t] != []
      modifies this
      ensures Inv(View()) && View() == Step(old(View()), DumpSecond)
    {
      DumperNeverBlocks(View(), t);
      StepKeepsInv(View(), DumpSecond);
      ghost var u := Step(View(), DumpSecond);
      file := file + queues[t][0][..DESCRIPTOR - CELL];
      queues := queues[t := queues[t][1..]];
      Remember(u);
      assert View() == u;
    }
  }
}
