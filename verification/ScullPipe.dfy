/** The blocking scull pipe: one open epoch, any number of readers and writers. */
module ScullPipe {
  import opened Bytes
  import opened Common
  import opened CircularBuffer

  // ----- The circular buffer

  /**
   * `rp` and `wp` are offsets from the start of the buffer. Each is advanced first and wrapped in a second
   * store, so each can stand at `size`, one past the buffer, for a moment. `got` is every byte copied to a
   * reader and `accepted` every byte taken from a writer.
   */
  datatype Ring = Ring(size: nat, buf: seq<byte>, rp: nat, wp: nat, got: seq<byte>, accepted: seq<byte>)

  function SpaceFree(r: Ring): int
    requires r.size > 0
  {
    if r.rp == r.wp then r.size - 1 else (r.rp + r.size - r.wp) % r.size - 1
  }

  function Buffered(r: Ring): seq<byte>
    requires r.rp < |r.buf| && r.wp < |r.buf|
  {
    Content(r.buf, r.rp, r.wp)
  }

  ghost predicate RingOk(r: Ring) {
    r.size == |r.buf| && r.rp < r.size && r.wp < r.size && r.accepted == r.got + Buffered(r)
  }

  /** How much one read call takes: up to the write pointer, or up to the end of the buffer. */
  function ReadCount(r: Ring, count: nat): nat
    requires r.rp < r.size && r.wp < r.size
  {
    if r.wp > r.rp then Min(count, r.wp - r.rp) else Min(count, r.size - r.rp)
  }

  function WriteCount(r: Ring, count: nat): nat
    requires r.rp < r.size && r.wp < r.size && SpaceFree(r) > 0
  {
    var c := Min(count, SpaceFree(r));
    if r.wp >= r.rp then Min(c, r.size - r.wp) else Min(c, r.rp - r.wp - 1)
  }

  function AfterRead(r: Ring, n: nat): Ring
    requires r.rp + n <= |r.buf|
  {
    r.(rp := r.rp + n, got := r.got + r.buf[r.rp..r.rp + n])
  }

  function AfterWrite(r: Ring, data: seq<byte>): Ring
    requires r.wp + |data| <= |r.buf|
  {
    r.(buf := Splice(r.buf, r.wp, data), wp := r.wp + |data|, accepted := r.accepted + data)
  }

  function WrapRead(r: Ring): Ring { if r.rp == r.size then r.(rp := 0) else r }

  function WrapWrite(r: Ring): Ring { if r.wp == r.size then r.(wp := 0) else r }

  lemma ModuloIsOneSubtraction(x: nat, size: nat)
    requires 0 < size && x <= 2 * size
    ensures x % size == if x < size then x else if x < 2 * size then x - size else 0
  {
    if x == 2 * size {
      assert x == 2 * size + 0;
    } else if x >= size {
      assert x == size * 1 + (x - size);
    }
  }

  lemma SpaceFreeIs(r: Ring)
    requires 0 < r.size && r.rp <= r.size && r.wp <= r.size
    ensures SpaceFree(r) == if r.rp == r.wp then r.size - 1
                            else if r.wp > r.rp then
                              (if r.wp - r.rp == r.size then -1 else r.size - (r.wp - r.rp) - 1)
                            else if r.rp - r.wp == r.size then -1 else r.rp - r.wp - 1
  {
    ModuloIsOneSubtraction(r.rp + r.size - r.wp, r.size);
  }

  /** What is buffered and what is free always make up the buffer, less one byte. */
  lemma BufferedPlusFree(r: Ring)
    requires RingOk(r)
    ensures |Buffered(r)| + SpaceFree(r) == r.size - 1
    ensures |r.got| + |Buffered(r)| == |r.accepted|
    ensures Buffered(r) == [] <==> r.rp == r.wp
  {
    SpaceFreeIs(r);
  }

  lemma CountsFit(r: Ring, count: nat)
    requires RingOk(r)
    ensures r.rp != r.wp ==> r.rp + ReadCount(r, count) <= r.size && ReadCount(r, count) <= |Buffered(r)|
    ensures r.rp != r.wp && count > 0 ==> ReadCount(r, count) > 0
    ensures SpaceFree(r) > 0 ==> r.wp + WriteCount(r, count) <= r.size && WriteCount(r, count) <= SpaceFree(r)
    ensures SpaceFree(r) > 0 && count > 0 ==> WriteCount(r, count) > 0
    ensures SpaceFree(r) > 0 && r.wp + WriteCount(r, count) == r.size ==> r.rp > 0
  {
    SpaceFreeIs(r);
  }

  /** A reader may go on exactly when bytes are buffered, a writer when fewer than all but one of the places are. */
  lemma ReadyMeans(r: Ring)
    requires RingOk(r)
    ensures Ready(r, true) <==> Buffered(r) != []
    ensures Ready(r, false) <==> |Buffered(r)| < r.size - 1
  {
    BufferedPlusFree(r);
  }

  /** A call that takes less than it could stops at the other pointer, or at the end of the buffer. */
  lemma CountsAreAsLongAsCan(r: Ring, count: nat)
    requires RingOk(r)
    ensures r.rp != r.wp ==> var n := ReadCount(r, count); n == count || r.rp + n == r.wp || r.rp + n == r.size
    ensures SpaceFree(r) > 0 ==> var n := WriteCount(r, count); n == count || n == SpaceFree(r) || r.wp + n == r.size
    ensures SpaceFree(r) > 0 ==> ReadCount(r, count) <= count && WriteCount(r, count) <= count
  {
    SpaceFreeIs(r);
  }

  lemma ReadMovesOn(r: Ring, n: nat)
    requires r.size == |r.buf| && r.rp < r.size && r.wp < r.size && r.rp != r.wp
    requires r.rp + n <= r.size && n <= |Buffered(r)|
    ensures var t := WrapRead(AfterRead(r, n));
            && t.buf == r.buf && t.wp == r.wp && t.rp < r.size && t.accepted == r.accepted && t.size == r.size
            && t.got == r.got + Buffered(r)[..n] && Buffered(t) == Buffered(r)[n..]
  {
    TakeFirst(r.buf, r.rp, r.wp, n);
    TakeLeavesRest(r.buf, r.rp, r.wp, n);
  }

  /** A read moves the oldest bytes from the buffer to the reader. */
  lemma ReadTakesOldest(r: Ring, n: nat)
    requires RingOk(r) && r.rp + n <= r.size && n <= |Buffered(r)| && r.rp != r.wp
    ensures RingOk(WrapRead(AfterRead(r, n)))
    ensures Buffered(WrapRead(AfterRead(r, n))) == Buffered(r)[n..]
  {
    ReadMovesOn(r, n);
    CutPrefix(r.got, Buffered(r), n);
  }

  /** A write adds its bytes behind all others. */
  lemma WriteAddsNewest(r: Ring, data: seq<byte>)
    requires RingOk(r) && SpaceFree(r) > 0 && |data| == WriteCount(r, |data|)
    ensures r.wp + |data| <= r.size && (r.wp + |data| == r.size ==> r.rp > 0)
    ensures RingOk(WrapWrite(AfterWrite(r, data)))
    ensures Buffered(WrapWrite(AfterWrite(r, data))) == Buffered(r) + data
  {
    CountsFit(r, |data|);
    SpaceFreeIs(r);
    AddBehind(r.buf, r.rp, r.wp, data);
    Associative(r.got, Buffered(r), data);
  }

  // ----- Readers and writers, one atomic step at a time

  /**
   * Where a process is in read or write: outside or wanting the semaphore, holding it at the test, having let
   * go of it, on the wait queue making the test once more, asleep, past its pointer store, past its up().
   * The test on the queue is made without the semaphore, one load of a pointer at a time: `seen` are the values
   * loaded so far. A wake-up marks everyone on the queue; only an unmarked process past its test sleeps.
   */
  datatype Pc = Outside | Inside | Released | Queued(seen: seq<nat>, woken: bool) | Asleep(woken: bool) | Moved | Waking

  datatype Proc = Proc(reader: bool, pc: Pc)

  datatype Lock = Free | HeldBy(p: nat)

  datatype State = State(ring: Ring, procs: seq<Proc>, lock: Lock)

  datatype Action = Acquire(p: nat) | Block(p: nat) | Leave(p: nat) | Fault(p: nat) | Read(p: nat, count: nat)
                  | Write(p: nat, data: seq<byte>) | Finish(p: nat) | Wake(p: nat) | Enqueue(p: nat)
                  | Load(p: nat) | Look(p: nat) | Resume(p: nat)

  /** The test of the wait loops, made with and without the semaphore: data for a reader, space for a writer. */
  predicate Ready(r: Ring, reader: bool)
    requires r.size > 0
  {
    if reader then r.rp != r.wp else SpaceFree(r) != 0
  }

  /** spacefree on two loaded values that differ when they were first compared. */
  function SpaceBetween(size: nat, rp: nat, wp: nat): int
    requires size > 0
  {
    (rp + size - wp) % size - 1
  }

  /** The values that a test still loads: rp and wp, and for spacefree both again when they differed. */
  predicate MoreToLoad(reader: bool, seen: seq<nat>) {
    |seen| < 2 || (!reader && |seen| < 4 && seen[0] != seen[1])
  }

  /** The outcome of the test on the loaded values. */
  predicate LooksReady(size: nat, reader: bool, seen: seq<nat>)
    requires size > 0 && !MoreToLoad(reader, seen)
  {
    if reader then seen[0] != seen[1]
    else if seen[0] == seen[1] then size - 1 != 0
    else SpaceBetween(size, seen[2], seen[3]) != 0
  }

  /** What has been loaded so far can still end in sleep: for a reader with the write pointer as it is now. */
  predicate MaySleep(r: Ring, reader: bool, seen: seq<nat>)
    requires r.size > 0
  {
    if reader then (|seen| == 1 && seen[0] == r.wp) || (|seen| >= 2 && seen[0] == seen[1])
    else if |seen| >= 2 && seen[0] == seen[1] then r.size == 1
    else |seen| >= 4 && SpaceBetween(r.size, seen[2], seen[3]) == 0
  }

  /** An unmarked process on the queue or asleep sees the ring as it is, as far as that can put it to sleep. */
  predicate Sees(r: Ring, reader: bool, pc: Pc)
    requires r.size > 0
  {
    match pc
    case Asleep(false) => !Ready(r, reader)
    case Queued(seen, false) =>
      (MaySleep(r, reader, seen) ==> !Ready(r, reader)) && (!reader && |seen| == 3 ==> seen[2] == r.rp)
    case _ => true
  }

  predicate Holds(pc: Pc) { pc.Inside? || pc.Moved? }

  ghost predicate LockOk(procs: seq<Proc>, lock: Lock) {
    && (lock.HeldBy? ==> lock.p < |procs|)
    && forall p: nat :: p < |procs| ==> (Holds(procs[p].pc) <==> lock == HeldBy(p))
  }

  /** Half way through a read or a write: the pointer is stored but not yet wrapped. */
  ghost predicate MidRead(r: Ring) { r.size > 1 && r.rp <= r.size && r.wp < r.size && RingOk(WrapRead(r)) }

  ghost predicate MidWrite(r: Ring) {
    r.size > 0 && r.wp <= r.size && r.rp < r.size && (r.wp == r.size ==> r.rp > 0) && RingOk(WrapWrite(r))
  }

  ghost predicate RingPhase(s: State) {
    if s.lock.HeldBy? && s.lock.p < |s.procs| && s.procs[s.lock.p].pc.Moved? then
      (if s.procs[s.lock.p].reader then MidRead(s.ring) else MidWrite(s.ring))
    else RingOk(s.ring) && s.ring.size > 0
  }

  /** A process of the other kind that has moved its pointer and has its wake-up still to issue. */
  ghost predicate WakeupToCome(procs: seq<Proc>, reader: bool) {
    exists q :: 0 <= q < |procs| && procs[q].reader != reader && (procs[q].pc.Moved? || procs[q].pc.Waking?)
  }

  /** Nobody sleeps, or goes to sleep, through his data or his space unless a wake-up is still to come. */
  ghost predicate NobodyStranded(procs: seq<Proc>, r: Ring)
    requires r.size > 0
  {
    forall p :: 0 <= p < |procs| ==> NotStranded(procs, r, procs[p])
  }

  ghost predicate NotStranded(procs: seq<Proc>, r: Ring, proc: Proc)
    requires r.size > 0
  {
    Sees(r, proc.reader, proc.pc) || WakeupToCome(procs, proc.reader)
  }

  ghost predicate Inv(s: State) { LockOk(s.procs, s.lock) && RingPhase(s) && NobodyStranded(s.procs, s.ring) }

  ghost predicate Init(s: State) {
    && s.ring.size > 0 && |s.ring.buf| == s.ring.size && s.ring.rp == s.ring.wp == 0
    && s.ring.got == s.ring.accepted == [] && s.lock == Free
    && forall p :: 0 <= p < |s.procs| ==> s.procs[p].pc == Outside
  }

  predicate Enabled(s: State, a: Action)
    requires s.ring.size > 0
  {
    a.p < |s.procs| &&
    var proc := s.procs[a.p];
    match a
    case Acquire(_) => proc.pc == Outside && s.lock == Free
    case Block(_) => proc.pc == Inside && !Ready(s.ring, proc.reader)
    case Leave(_) => proc.pc == Released || proc.pc.Asleep?
    case Fault(_) => proc.pc == Inside && Ready(s.ring, proc.reader)
    case Read(_, _) => proc.pc == Inside && proc.reader && Ready(s.ring, true)
    case Write(_, _) => proc.pc == Inside && !proc.reader && Ready(s.ring, false)
    case Finish(_) => proc.pc == Moved
    case Wake(_) => proc.pc == Waking
    case Enqueue(_) => proc.pc == Released
    case Load(_) => proc.pc.Queued? && MoreToLoad(proc.reader, proc.pc.seen)
    case Look(_) => proc.pc.Queued? && !MoreToLoad(proc.reader, proc.pc.seen)
    case Resume(_) => proc.pc == Asleep(true)
  }

  function Woken(pc: Pc): Pc {
    if pc.Queued? then Queued(pc.seen, true) else if pc.Asleep? then Asleep(true) else pc
  }

  function WakeAll(procs: seq<Proc>, reader: bool): (r: seq<Proc>)
    ensures |r| == |procs|
    ensures forall i :: 0 <= i < |procs| ==> r[i] == WokenIf(procs[i], reader)
  {
    seq(|procs|, i requires 0 <= i < |procs| => WokenIf(procs[i], reader))
  }

  function WokenIf(proc: Proc, reader: bool): Proc {
    if proc.reader == reader then Proc(reader, Woken(proc.pc)) else proc
  }

  function At(procs: seq<Proc>, p: nat, pc: Pc): seq<Proc>
    requires p < |procs|
  {
    procs[p := Proc(procs[p].reader, pc)]
  }

  /** The loads alternate between the two pointers. */
  function OneMoreSeen(r: Ring, pc: Pc): Pc
    requires pc.Queued?
  {
    Queued(pc.seen + [if |pc.seen| % 2 == 0 then r.rp else r.wp], pc.woken)
  }

  lemma InsideMeansRingOk(s: State, p: nat)
    requires LockOk(s.procs, s.lock) && RingPhase(s) && p < |s.procs| && s.procs[p].pc == Inside
    ensures RingOk(s.ring) && s.ring.size > 0 && s.lock == HeldBy(p)
  {
  }

  lemma ReadyWriterHasSpace(r: Ring)
    requires RingOk(r)
    ensures Ready(r, false) ==> SpaceFree(r) > 0
  {
    SpaceFreeIs(r);
  }

  ghost function Step(s: State, a: Action): State
    requires Inv(s) && Enabled(s, a)
  {
    match a
    case Acquire(p) => State(s.ring, At(s.procs, p, Inside), HeldBy(p))
    case Block(p) => State(s.ring, At(s.procs, p, Released), Free)
    case Leave(p) => State(s.ring, At(s.procs, p, Outside), s.lock)
    case Fault(p) => State(s.ring, At(s.procs, p, Outside), Free)
    case Read(p, count) =>
      InsideMeansRingOk(s, p);
      CountsFit(s.ring, count);
      State(AfterRead(s.ring, ReadCount(s.ring, count)), At(s.procs, p, Moved), s.lock)
    case Write(p, data) =>
      InsideMeansRingOk(s, p);
      ReadyWriterHasSpace(s.ring);
      CountsFit(s.ring, |data|);
      State(AfterWrite(s.ring, data[..WriteCount(s.ring, |data|)]), At(s.procs, p, Moved), s.lock)
    case Finish(p) =>
      State(if s.procs[p].reader then WrapRead(s.ring) else WrapWrite(s.ring), At(s.procs, p, Waking), Free)
    case Wake(p) => State(s.ring, At(WakeAll(s.procs, !s.procs[p].reader), p, Outside), s.lock)
    case Enqueue(p) => State(s.ring, At(s.procs, p, Queued([], false)), s.lock)
    case Load(p) => State(s.ring, At(s.procs, p, OneMoreSeen(s.ring, s.procs[p].pc)), s.lock)
    case Look(p) =>
      var Queued(seen, woken) := s.procs[p].pc;
      var pc := if LooksReady(s.ring.size, s.procs[p].reader, seen) then Outside else Asleep(woken);
      State(s.ring, At(s.procs, p, pc), s.lock)
    case Resume(p) => State(s.ring, At(s.procs, p, if s.procs[p].reader then Released else Outside), s.lock)
  }

  lemma InitEstablishesInv(s: State)
    requires Init(s)
    ensures Inv(s)
  {
  }

  // ----- What every step keeps

  lemma StepKeepsLock(s: State, a: Action)
    requires Inv(s) && Enabled(s, a)
    ensures LockOk(Step(s, a).procs, Step(s, a).lock)
  {
    var t := Step(s, a);
    forall p: nat | p < |t.procs| ensures Holds(t.procs[p].pc) <==> t.lock == HeldBy(p) {
      assert Holds(s.procs[p].pc) <==> s.lock == HeldBy(p);
    }
  }

  lemma MovingKeepsRing(s: State, a: Action)
    requires Inv(s) && Enabled(s, a) && (a.Read? || a.Write?)
    ensures RingPhase(Step(s, a))
  {
    InsideMeansRingOk(s, a.p);
    if a.Read? {
      CountsFit(s.ring, a.count);
      ReadTakesOldest(s.ring, ReadCount(s.ring, a.count));
    } else {
      ReadyWriterHasSpace(s.ring);
      CountsFit(s.ring, |a.data|);
      WriteAddsNewest(s.ring, a.data[..WriteCount(s.ring, |a.data|)]);
    }
  }

  lemma StepKeepsRing(s: State, a: Action)
    requires Inv(s) && Enabled(s, a)
    ensures RingPhase(Step(s, a))
  {
    if a.Read? || a.Write? {
      MovingKeepsRing(s, a);
    } else if a.Finish? {
      assert s.lock == HeldBy(a.p);
    } else if a.Acquire? || a.Block? || a.Fault? {
      assert RingOk(s.ring);
    } else {
      OthersKeepRing(s, a);
    }
  }

  lemma OthersKeepRing(s: State, a: Action)
    requires Inv(s) && Enabled(s, a)
    requires a.Leave? || a.Wake? || a.Enqueue? || a.Load? || a.Look? || a.Resume?
    ensures RingPhase(Step(s, a))
  {
    var t := Step(s, a);
    assert t.ring == s.ring && t.lock == s.lock && |t.procs| == |s.procs|;
    if s.lock.HeldBy? {
      var h := s.lock.p;
      assert Holds(s.procs[h].pc) && h != a.p;
      assert t.procs[h] == s.procs[h];
    }
  }

  lemma WitnessStays(procs: seq<Proc>, p: nat, pc: Pc, reader: bool)
    requires p < |procs| && WakeupToCome(procs, reader)
    requires procs[p].pc.Moved? || procs[p].pc.Waking? ==> pc.Moved? || pc.Waking?
    ensures WakeupToCome(At(procs, p, pc), reader)
  {
    var q :| 0 <= q < |procs| && procs[q].reader != reader && (procs[q].pc.Moved? || procs[q].pc.Waking?);
    assert At(procs, p, pc)[q].reader != reader;
  }

  /** One process changes place; who is of its kind still sees the ring, who is not is owed a wake-up if it changed. */
  lemma OneMoveStrandsNobody(procs: seq<Proc>, r: Ring, p: nat, pc: Pc, t: Ring)
    requires r.size > 0 && t.size > 0 && NobodyStranded(procs, r) && p < |procs|
    requires procs[p].pc.Moved? || procs[p].pc.Waking? ==> pc.Moved? || pc.Waking?
    requires Sees(t, procs[p].reader, pc) || WakeupToCome(procs, procs[p].reader)
    requires forall i :: 0 <= i < |procs| && procs[i].reader == procs[p].reader && Sees(r, procs[i].reader, procs[i].pc) ==>
               Sees(t, procs[i].reader, procs[i].pc)
    requires t == r || pc.Moved? || pc.Waking?
    ensures NobodyStranded(At(procs, p, pc), t)
  {
    var procs' := At(procs, p, pc);
    forall i | 0 <= i < |procs'| ensures NotStranded(procs', t, procs'[i]) {
      assert NotStranded(procs, r, procs[i]);
      if WakeupToCome(procs, procs[i].reader) {
        WitnessStays(procs, p, pc, procs[i].reader);
      } else if pc.Moved? || pc.Waking? {
        assert procs'[p].pc == pc;
      }
    }
  }

  /** A move by one of its own kind, made when there was something to do, leaves what a process saw right. */
  lemma MoveKeepsSight(r: Ring, t: Ring, reader: bool, pc: Pc)
    requires r.size > 0 && t.size == r.size && Ready(r, reader) && Sees(r, reader, pc)
    requires if reader then t.wp == r.wp else t.rp == r.rp
    ensures Sees(t, reader, pc)
  {
  }

  lemma MoveStrandsNobody(procs: seq<Proc>, r: Ring, p: nat, t: Ring)
    requires r.size > 0 && t.size == r.size && NobodyStranded(procs, r) && p < |procs| && procs[p].pc == Inside
    requires Ready(r, procs[p].reader) && if procs[p].reader then t.wp == r.wp else t.rp == r.rp
    ensures NobodyStranded(At(procs, p, Moved), t)
  {
    forall i | 0 <= i < |procs| && procs[i].reader == procs[p].reader && Sees(r, procs[i].reader, procs[i].pc)
      ensures Sees(t, procs[i].reader, procs[i].pc)
    {
      MoveKeepsSight(r, t, procs[i].reader, procs[i].pc);
    }
    OneMoveStrandsNobody(procs, r, p, Moved, t);
  }

  /** Wrapping a pointer makes nobody ready who was not ready before the wrap. */
  lemma WrapMakesNobodyReady(r: Ring, reader: bool)
    ensures MidRead(r) && Ready(WrapRead(r), reader) ==> Ready(r, reader)
    ensures MidWrite(r) && Ready(WrapWrite(r), reader) ==> Ready(r, reader)
  {
    if MidRead(r) || MidWrite(r) {
      SpaceFreeIs(r);
      SpaceFreeIs(WrapRead(r));
      SpaceFreeIs(WrapWrite(r));
    }
  }

  lemma WrapStrandsNobody(procs: seq<Proc>, r: Ring, p: nat)
    requires p < |procs| && procs[p].pc == Moved && r.size > 0 && NobodyStranded(procs, r)
    requires if procs[p].reader then MidRead(r) else MidWrite(r)
    ensures NobodyStranded(At(procs, p, Waking), if procs[p].reader then WrapRead(r) else WrapWrite(r))
  {
    var t := if procs[p].reader then WrapRead(r) else WrapWrite(r);
    forall i | 0 <= i < |procs| && procs[i].reader == procs[p].reader && Sees(r, procs[i].reader, procs[i].pc)
      ensures Sees(t, procs[i].reader, procs[i].pc)
    {
      WrapMakesNobodyReady(r, procs[p].reader);
    }
    OneMoveStrandsNobody(procs, r, p, Waking, t);
  }

  /** After the wake-up no process of the other kind is unmarked on the queue or asleep. */
  lemma WakeStrandsNobody(procs: seq<Proc>, r: Ring, p: nat)
    requires r.size > 0 && NobodyStranded(procs, r) && p < |procs| && procs[p].pc == Waking
    ensures NobodyStranded(At(WakeAll(procs, !procs[p].reader), p, Outside), r)
  {
    var mid := WakeAll(procs, !procs[p].reader);
    var procs' := At(mid, p, Outside);
    forall i | 0 <= i < |procs'| ensures NotStranded(procs', r, procs'[i]) {
      assert NotStranded(procs, r, procs[i]);
      if i != p && procs[i].reader == procs[p].reader && WakeupToCome(procs, procs[i].reader) {
        var q :| 0 <= q < |procs| && procs[q].reader != procs[i].reader && (procs[q].pc.Moved? || procs[q].pc.Waking?);
        assert procs'[q] == procs[q];
      }
    }
  }

  /** A buffer of one byte never has room, whatever the phase. */
  lemma OneByteHasNoRoom(r: Ring)
    requires r.size == 1 && (RingOk(r) || MidRead(r) || MidWrite(r))
    ensures SpaceFree(r) == 0
  {
    SpaceFreeIs(r);
  }

  lemma PhaseOf(s: State)
    requires RingPhase(s)
    ensures s.ring.size > 0 && (RingOk(s.ring) || MidRead(s.ring) || MidWrite(s.ring))
  {
  }

  /** One more load: the value is that of now, and the earlier ones were still good. */
  lemma LoadKeepsSight(r: Ring, reader: bool, seen: seq<nat>)
    requires r.size > 0 && (RingOk(r) || MidRead(r) || MidWrite(r)) && MoreToLoad(reader, seen)
    requires Sees(r, reader, Queued(seen, false))
    ensures Sees(r, reader, OneMoreSeen(r, Queued(seen, false)))
  {
    if !reader && |seen| == 3 {
      LastLoadIsSpace(r, seen);
    } else if !reader && r.size == 1 {
      OneByteHasNoRoom(r);
    }
  }

  /** The fourth load completes the difference on the pointers as they are. */
  lemma LastLoadIsSpace(r: Ring, seen: seq<nat>)
    requires r.size > 0 && |seen| == 3 && seen[0] != seen[1] && seen[2] == r.rp && r.rp <= r.size && r.wp <= r.size
    ensures Sees(r, false, OneMoreSeen(r, Queued(seen, false)))
  {
    var more := seen + [r.wp];
    assert more[0] == seen[0] && more[1] == seen[1] && more[2] == r.rp && more[3] == r.wp;
    assert OneMoreSeen(r, Queued(seen, false)) == Queued(more, false);
    if r.rp == r.wp { NoRemainder(r.size); }
  }

  lemma NoRemainder(size: nat)
    requires size > 0
    ensures size % size == 0
  {
  }

  /** While nobody moves the pointers the test finds what is so. */
  lemma QuietTestIsRight(r: Ring, reader: bool, seen: seq<nat>)
    requires r.size > 0 && !MoreToLoad(reader, seen) && |seen| <= 4
    requires forall i :: 0 <= i < |seen| ==> seen[i] == if i % 2 == 0 then r.rp else r.wp
    ensures LooksReady(r.size, reader, seen) <==> Ready(r, reader)
  {
    assert seen[0] == r.rp && seen[1] == r.wp;
    if |seen| == 4 { assert seen[2] == r.rp && seen[3] == r.wp; }
  }

  lemma LookKeepsSight(r: Ring, reader: bool, seen: seq<nat>)
    requires r.size > 0 && !MoreToLoad(reader, seen) && Sees(r, reader, Queued(seen, false))
    ensures !LooksReady(r.size, reader, seen) ==> Sees(r, reader, Asleep(false))
  {
  }

  /** A step of the test on the queue. */
  lemma TestStrandsNobody(s: State, a: Action)
    requires Inv(s) && Enabled(s, a) && (a.Load? || a.Look?)
    ensures NobodyStranded(Step(s, a).procs, Step(s, a).ring)
  {
    var proc, pc := s.procs[a.p], Step(s, a).procs[a.p].pc;
    assert NotStranded(s.procs, s.ring, proc);
    PhaseOf(s);
    if !proc.pc.woken && Sees(s.ring, proc.reader, proc.pc) {
      if a.Load? {
        LoadKeepsSight(s.ring, proc.reader, proc.pc.seen);
      } else {
        LookKeepsSight(s.ring, proc.reader, proc.pc.seen);
      }
    }
    OneMoveStrandsNobody(s.procs, s.ring, a.p, pc, s.ring);
  }

  lemma StepStrandsNobody(s: State, a: Action)
    requires Inv(s) && Enabled(s, a)
    ensures NobodyStranded(Step(s, a).procs, Step(s, a).ring)
  {
    var t := Step(s, a);
    if a.Read? || a.Write? {
      MoveStrandsNobody(s.procs, s.ring, a.p, t.ring);
    } else if a.Wake? {
      WakeStrandsNobody(s.procs, s.ring, a.p);
    } else if a.Finish? {
      assert s.lock == HeldBy(a.p);
      WrapStrandsNobody(s.procs, s.ring, a.p);
    } else if a.Load? || a.Look? {
      TestStrandsNobody(s, a);
    } else {
      OneMoveStrandsNobody(s.procs, s.ring, a.p, t.procs[a.p].pc, t.ring);
    }
  }

  /** Every step keeps the semaphore exclusive, the buffer exact and every sleeper with a wake-up to come. */
  lemma StepKeepsInv(s: State, a: Action)
    requires Inv(s) && Enabled(s, a)
    ensures Inv(Step(s, a))
  {
    StepKeepsLock(s, a);
    StepKeepsRing(s, a);
    StepStrandsNobody(s, a);
  }

  // ----- Whole runs

  /** Steps that are not enabled do nothing. */
  ghost function Run(s: State, actions: seq<Action>): State
    requires Inv(s)
    decreases |actions|
  {
    if actions == [] then s
    else if Enabled(s, actions[0]) then
      StepKeepsInv(s, actions[0]);
      Run(Step(s, actions[0]), actions[1..])
    else Run(s, actions[1..])
  }

  lemma {:induction false} RunKeepsInv(s: State, actions: seq<Action>)
    requires Inv(s)
    ensures Inv(Run(s, actions)) && Run(s, actions).ring.size == s.ring.size
    decreases |actions|
  {
    if actions != [] {
      if Enabled(s, actions[0]) {
        StepKeepsInv(s, actions[0]);
        RunKeepsInv(Step(s, actions[0]), actions[1..]);
      } else {
        RunKeepsInv(s, actions[1..]);
      }
    }
  }

  /** The bytes read are the oldest written, in order; the rest is in the buffer, and the free space is the rest. */
  lemma BytesInOrder(s: State, actions: seq<Action>)
    requires Init(s)
    ensures var t := Run(s, actions);
            && t.ring.got <= t.ring.accepted
            && (t.lock == Free ==>
                  && RingOk(t.ring) && t.ring.got + Buffered(t.ring) == t.ring.accepted
                  && |Buffered(t.ring)| + SpaceFree(t.ring) == t.ring.size - 1)
  {
    RunKeepsInv(s, actions);
    var t := Run(s, actions);
    if t.lock == Free { BufferedPlusFree(t.ring); }
  }

  /**
   * No lost wake-up: whoever sleeps although the semaphore is free and there is data (or space) for him is
   * owed a wake-up by a process that has let go of the semaphore.
   */
  lemma SleeperIsOwedWakeup(s: State, actions: seq<Action>, p: nat)
    requires Init(s)
    ensures var t := Run(s, actions);
            && t.ring.size == s.ring.size
            && (p < |t.procs| && t.procs[p].pc == Asleep(false) && t.lock == Free && Ready(t.ring, t.procs[p].reader)
                ==> exists q :: 0 <= q < |t.procs| && t.procs[q] == Proc(!t.procs[p].reader, Waking))
  {
    RunKeepsInv(s, actions);
    var t := Run(s, actions);
    if p < |t.procs| && t.procs[p].pc == Asleep(false) && t.lock == Free && Ready(t.ring, t.procs[p].reader) {
      assert NotStranded(t.procs, t.ring, t.procs[p]);
      var q :| 0 <= q < |t.procs| && t.procs[q].reader != t.procs[p].reader
               && (t.procs[q].pc.Moved? || t.procs[q].pc.Waking?);
      assert Holds(t.procs[q].pc) <==> t.lock == HeldBy(q);
    }
  }

  // ----- The device: each method is one atomic step of process p

  class Pipe {
    const buffer: array<byte>
    var rp: nat
    var wp: nat
    var lock: Lock
    var procs: seq<Proc>
    ghost var got: seq<byte>
    ghost var accepted: seq<byte>

    ghost function View(): State
      reads this, buffer
    {
      State(Ring(buffer.Length, buffer[..], rp, wp, got, accepted), procs, lock)
    }

    constructor (size: nat, procs: seq<Proc>)
      requires size > 0 && forall p :: 0 <= p < |procs| ==> procs[p].pc == Outside
      ensures Init(View()) && this.procs == procs && buffer.Length == size && fresh(buffer)
    {
      buffer := new byte[size];
      rp, wp, lock, this.procs, got, accepted := 0, 0, Free, procs, [], [];
    }

    function FreeBytes(): (n: int)
      requires buffer.Length > 0
      reads this
      ensures n == SpaceFree(View().ring)
    {
      if rp == wp then buffer.Length - 1 else (rp + buffer.Length - wp) % buffer.Length - 1
    }

    method Down(p: nat)
      requires Inv(View()) && Enabled(View(), Acquire(p))
      modifies this
      ensures View() == Step(old(View()), Acquire(p)) && Inv(View())
    {
      StepKeepsInv(View(), Acquire(p));
      lock, procs := HeldBy(p), At(procs, p, Inside);
    }

    /** Nothing to do: up() before the wait. */
    method UpToWait(p: nat)
      requires Inv(View()) && Enabled(View(), Block(p))
      modifies this
      ensures View() == Step(old(View()), Block(p)) && Inv(View())
    {
      StepKeepsInv(View(), Block(p));
      lock, procs := Lock.Free, At(procs, p, Released);
    }

    /** -EAGAIN, a signal, or the test at the start of wait_event finding data. */
    method LeaveWait(p: nat)
      requires Inv(View()) && Enabled(View(), Leave(p))
      modifies this
      ensures View() == Step(old(View()), Leave(p)) && Inv(View())
    {
      StepKeepsInv(View(), Leave(p));
      procs := At(procs, p, Outside);
    }

    /** -EFAULT: up() with the pointers as they were. */
    method CopyFault(p: nat)
      requires Inv(View()) && Enabled(View(), Fault(p))
      modifies this
      ensures View() == Step(old(View()), Fault(p)) && Inv(View())
      ensures View().ring == old(View()).ring
    {
      StepKeepsInv(View(), Fault(p));
      lock, procs := Lock.Free, At(procs, p, Outside);
    }

    function AmountToRead(count: nat): (n: nat)
      requires rp < buffer.Length && wp < buffer.Length
      reads this, buffer
      ensures n == ReadCount(View().ring, count)
    {
      if wp > rp then Min(count, wp - rp) else Min(count, buffer.Length - rp)
    }

    function AmountToWrite(count: nat): (n: nat)
      requires rp < buffer.Length && wp < buffer.Length && FreeBytes() > 0
      reads this, buffer
      ensures n == WriteCount(View().ring, count)
    {
      var c := Min(count, FreeBytes());
      if wp >= rp then Min(c, buffer.Length - wp) else Min(c, rp - wp - 1)
    }

    method CopyToUser(p: nat, count: nat) returns (data: seq<byte>)
      requires Inv(View()) && Enabled(View(), Read(p, count))
      modifies this
      ensures View() == Step(old(View()), Read(p, count)) && Inv(View())
      ensures got == old(got) + data && |data| <= count && (count > 0 ==> data != [])
      ensures |data| == count || rp == wp || rp == buffer.Length
    {
      ghost var s := View();
      CountsAreAsLongAsCan(s.ring, count);
      StepKeepsInv(s, Read(p, count));
      InsideMeansRingOk(s, p);
      CountsFit(s.ring, count);
      var n := AmountToRead(count);
      ghost var t := Step(s, Read(p, count));
      assert t == State(AfterRead(s.ring, n), At(s.procs, p, Moved), s.lock);
      data := TakeAndAdvance(n);
      procs := At(procs, p, Moved);
      assert View() == t;
    }

    method TakeAndAdvance(n: nat) returns (data: seq<byte>)
      requires rp + n <= buffer.Length
      modifies `rp, `got
      ensures View().ring == AfterRead(old(View().ring), n) && |data| == n && got == old(got) + data
    {
      data := buffer[rp..rp + n];
      assert data == buffer[..][rp..rp + n];
      got := got + data;
      rp := rp + n;
    }

    method CopyFromUser(p: nat, data: seq<byte>) returns (n: nat)
      requires Inv(View()) && Enabled(View(), Write(p, data))
      modifies this, buffer
      ensures View() == Step(old(View()), Write(p, data)) && Inv(View())
      ensures n <= |data| && accepted == old(accepted) + data[..n] && (|data| > 0 ==> n > 0)
      ensures n == |data| || n == SpaceFree(old(View()).ring) || wp == buffer.Length
    {
      ghost var s := View();
      CountsAreAsLongAsCan(s.ring, |data|);
      StepKeepsInv(s, Write(p, data));
      InsideMeansRingOk(s, p);
      ReadyWriterHasSpace(s.ring);
      CountsFit(s.ring, |data|);
      n := AmountToWrite(|data|);
      ghost var t := Step(s, Write(p, data));
      assert t == State(AfterWrite(s.ring, data[..n]), At(s.procs, p, Moved), s.lock);
      StoreAndAdvance(data[..n]);
      procs := At(procs, p, Moved);
      assert View() == t;
    }

    method StoreAndAdvance(data: seq<byte>)
      requires wp + |data| <= buffer.Length
      modifies `wp, `accepted, buffer
      ensures View().ring == AfterWrite(old(View().ring), data)
    {
      StoreBytes(data);
      accepted := accepted + data;
      wp := wp + |data|;
    }

    method StoreBytes(data: seq<byte>)
      requires wp + |data| <= buffer.Length
      modifies buffer
      ensures buffer[..] == Splice(old(buffer[..]), wp, data)
    {
      for i := 0 to |data|
        invariant forall k :: 0 <= k < wp ==> buffer[k] == old(buffer[k])
        invariant forall k :: wp <= k < wp + i ==> buffer[k] == data[k - wp]
        invariant forall k :: wp + i <= k < buffer.Length ==> buffer[k] == old(buffer[k])
      {
        buffer[wp + i] := data[i];
      }
    }

    /** The wrap and up(). */
    method WrapAndUp(p: nat)
      requires Inv(View()) && Enabled(View(), Finish(p))
      modifies this
      ensures View() == Step(old(View()), Finish(p)) && Inv(View())
    {
      StepKeepsInv(View(), Finish(p));
      if procs[p].reader {
        if rp == buffer.Length { rp := 0; }
      } else {
        if wp == buffer.Length { wp := 0; }
      }
      lock, procs := Lock.Free, At(procs, p, Waking);
    }

    method WakeUp(p: nat)
      requires Inv(View()) && Enabled(View(), Wake(p))
      modifies this
      ensures View() == Step(old(View()), Wake(p)) && Inv(View())
    {
      StepKeepsInv(View(), Wake(p));
      procs := At(WakeAll(procs, !procs[p].reader), p, Outside);
    }

    method PrepareToWait(p: nat)
      requires Inv(View()) && Enabled(View(), Enqueue(p))
      modifies this
      ensures View() == Step(old(View()), Enqueue(p)) && Inv(View())
    {
      StepKeepsInv(View(), Enqueue(p));
      procs := At(procs, p, Queued([], false));
    }

    /**
     * One load of the test on the queue, without the semaphore; it may fall between the store of a pointer and
     * its wrap, and the pointers may move between two loads.
     */
    method LoadPointer(p: nat) returns (value: nat)
      requires Inv(View()) && Enabled(View(), Load(p))
      modifies this
      ensures View() == Step(old(View()), Load(p)) && Inv(View())
      ensures value == if |old(procs)[p].pc.seen| % 2 == 0 then rp else wp
    {
      StepKeepsInv(View(), Load(p));
      var Queued(seen, woken) := procs[p].pc;
      value := if |seen| % 2 == 0 then rp else wp;
      procs := At(procs, p, Queued(seen + [value], woken));
    }

    /** The outcome of the test: leave the queue, or sleep. */
    method LookAgain(p: nat) returns (sleeps: bool)
      requires Inv(View()) && Enabled(View(), Look(p))
      modifies this
      ensures View() == Step(old(View()), Look(p)) && Inv(View())
      ensures sleeps && !old(procs)[p].pc.woken && Ready(View().ring, old(procs)[p].reader)
              ==> WakeupToCome(procs, old(procs)[p].reader)
    {
      StepKeepsInv(View(), Look(p));
      ghost var t := Step(View(), Look(p));
      assert NotStranded(t.procs, t.ring, t.procs[p]);
      var Queued(seen, woken) := procs[p].pc;
      sleeps := !LooksReady(buffer.Length, procs[p].reader, seen);
      procs := At(procs, p, if sleeps then Asleep(woken) else Outside);
      assert View() == t;
    }

    /** A reader tests again in wait_event, a writer goes back for the semaphore. */
    method WakeFromSleep(p: nat)
      requires Inv(View()) && Enabled(View(), Resume(p))
      modifies this
      ensures View() == Step(old(View()), Resume(p)) && Inv(View())
      ensures procs[p].pc == if procs[p].reader then Released else Outside
    {
      StepKeepsInv(View(), Resume(p));
      procs := At(procs, p, if procs[p].reader then Released else Outside);
    }
  }
}
