/** The output side of the shortprint driver: writer, work item, timer and interrupt handlers. */
module Shortprint {
  import opened Bytes
  import opened Common
  import opened CircularBuffer

  const PAGE_SIZE: nat := 4096
  const MIN_SPACE: nat := PAGE_SIZE / 2

  // ----- The output buffer

  /** The buffer, its two offsets, every byte strobed to the printer and every byte taken from a writer. */
  datatype Out = Out(buf: seq<byte>, head: nat, tail: nat, strobed: seq<byte>, accepted: seq<byte>)

  /** shortp_out_space: contiguous room at the head, one byte short when the buffer would look empty. */
  function Space(head: nat, tail: nat): nat
    requires head < PAGE_SIZE && tail < PAGE_SIZE
  {
    if head >= tail then (if tail == 0 then PAGE_SIZE - head - 1 else PAGE_SIZE - head) else tail - head - 1
  }

  /**
   * The same, when the tail that is compared and the tail that is computed with are two loads: negative when the
   * tail has come round to the start in between.
   */
  function Room(head: nat, first: nat, tail: nat): int
    requires head < PAGE_SIZE
  {
    if head >= first then (if tail == 0 then PAGE_SIZE - head - 1 else PAGE_SIZE - head) else tail - head - 1
  }

  /** The free bytes as the work item computes them: 0 also for an empty buffer. */
  function Gap(head: nat, tail: nat): nat
    requires head < PAGE_SIZE
  {
    (PAGE_SIZE + tail - head) % PAGE_SIZE
  }

  ghost predicate OutOk(o: Out) {
    && |o.buf| == PAGE_SIZE && o.head == |o.accepted| % PAGE_SIZE && o.tail == |o.strobed| % PAGE_SIZE
    && o.accepted == o.strobed + Content(o.buf, o.tail, o.head)
  }

  function AfterStore(o: Out, data: seq<byte>): Out
    requires o.head + |data| <= |o.buf|
  {
    Out(Splice(o.buf, o.head, data), Wrap(o.head + |data|, PAGE_SIZE), o.tail, o.strobed, o.accepted + data)
  }

  function AfterStrobe(o: Out): Out
    requires o.tail < |o.buf|
  {
    Out(o.buf, o.head, Wrap(o.tail + 1, PAGE_SIZE), o.strobed + [o.buf[o.tail]], o.accepted)
  }

  lemma StoreKeepsOut(o: Out, data: seq<byte>)
    requires OutOk(o) && |data| <= Space(o.head, o.tail)
    ensures OutOk(AfterStore(o, data))
    ensures data != [] ==> AfterStore(o, data).head != o.tail
  {
    AddBehind(o.buf, o.tail, o.head, data);
    Associative(o.strobed, Content(o.buf, o.tail, o.head), data);
  }

  lemma StrobeKeepsOut(o: Out)
    requires OutOk(o) && o.head != o.tail
    ensures OutOk(AfterStrobe(o))
  {
    var c := Content(o.buf, o.tail, o.head);
    ContentLength(o.buf, o.tail, o.head);
    TakeFirst(o.buf, o.tail, o.head, 1);
    TakeLeavesRest(o.buf, o.tail, o.head, 1);
    CutPrefix(o.strobed, c, 1);
    assert c[..1] == [o.buf[o.tail]];
  }

  /** Strobing a byte only adds room; the gap grows by one while the buffer is not empty. */
  lemma StrobeAddsRoom(head: nat, tail: nat)
    requires head < PAGE_SIZE && tail < PAGE_SIZE && head != tail
    ensures Space(head, Wrap(tail + 1, PAGE_SIZE)) >= Space(head, tail)
    ensures Gap(head, tail) >= 1
    ensures Gap(head, tail) < PAGE_SIZE - 1 ==> Gap(head, Wrap(tail + 1, PAGE_SIZE)) == Gap(head, tail) + 1
  {
  }

  /** Room is never overrated; it is underrated only when the tail has come round between its two loads. */
  lemma RoomIsSpace(head: nat, first: nat, tail: nat)
    requires head < PAGE_SIZE && first < PAGE_SIZE && tail < PAGE_SIZE
    requires first <= head ==> tail <= head
    ensures Room(head, first, tail) == Space(head, tail) || (Room(head, first, tail) < 0 && tail <= head < first)
  {
  }

  /** Room is all places but one that are not pending, as far as the end of the buffer. */
  lemma SpaceIsFree(buf: seq<byte>, head: nat, tail: nat)
    requires |buf| == PAGE_SIZE && head < PAGE_SIZE && tail < PAGE_SIZE
    ensures |Content(buf, tail, head)| < PAGE_SIZE
    ensures Space(head, tail) == Min(PAGE_SIZE - 1 - |Content(buf, tail, head)|, PAGE_SIZE - head)
  {
    ContentLength(buf, tail, head);
  }

  lemma NoSpaceIsFull(head: nat, tail: nat)
    requires head < PAGE_SIZE && tail < PAGE_SIZE && Space(head, tail) == 0
    ensures Gap(head, tail) == 1 && head != tail
  {
  }

  // ----- Everybody who runs

  /**
   * The write call that holds the mutex, with the bytes still to take: at the loop test, with room found, at the
   * first test of wait_event, about to join the wait queue, on it before and after the test, between the two loads
   * of the tail in one of the three tests, past the head store, and the three parts of shortp_start_output under
   * the lock. A wake-up marks whoever is on the queue.
   */
  datatype Writer = NoWriter | Looping(rest: seq<byte>) | HasSpace(rest: seq<byte>, space: nat)
                  | ToWait(rest: seq<byte>) | ToEnqueue(rest: seq<byte>)
                  | Queued(rest: seq<byte>, woken: bool) | Asleep(rest: seq<byte>, woken: bool)
                  | Peeked(rest: seq<byte>, site: Site, first: nat) | Stored(rest: seq<byte>)
                  | Starting(rest: seq<byte>) | Arming(rest: seq<byte>) | Launching(rest: seq<byte>)

  /** Which of the three tests of shortp_out_space. */
  datatype Site = InLoop | BeforeQueue | OnQueue(woken: bool)

  /** The work item: not running, waiting for the printer, and its section under the lock. */
  datatype Worker = Resting | Waiting | SawEmpty | Stopped | SawByte | Armed | Ending

  datatype Lock = Free | ByWriter | ByWorker | ByHandler

  /**
   * Timeout handlers in flight are counted by place: entered, past the first test of `active`, (at most one) in
   * the lock, about to call the interrupt handler, and about to queue the work. `irqs` counts interrupts that
   * are about to queue the work.
   */
  datatype State = State(out: Out, active: bool, writer: Writer, worker: Worker, lock: Lock, workQueued: bool,
                         timer: bool, entered: nat, passed: nat, calling: nat, queueing: nat, irqs: nat)

  datatype Action =
      WriterBegin(data: seq<byte>) | WriterEnd | Load | Look | Store | CopyFault | Enqueue | Resume
    | Interrupted | WriterLock | SetActive | AddTimer | QueueWork
    | Dequeue | WorkerLock | Stop | DelTimer | ModTimer | Strobe | WorkerEnd
    | Irq | IrqQueue
    | Expire | HandlerTest | HandlerLock | HandlerRearm | HandlerDrop | HandlerCall | HandlerQueue

  predicate HoldsLock(w: Writer) { w.Starting? || w.Arming? || w.Launching? }

  predicate InSection(w: Worker) { w != Resting && w != Waiting }

  ghost predicate LockOk(s: State) {
    && (s.lock == ByWriter <==> HoldsLock(s.writer))
    && (s.lock == ByWorker <==> InSection(s.worker))
  }

  predicate Waits(w: Writer) { w.ToWait? || w.ToEnqueue? || w.Queued? || w.Asleep? || w.Peeked? }

  /** What the writer and the work item have found out still holds. */
  ghost predicate FoundOk(s: State)
    requires OutOk(s.out)
  {
    && (s.writer.HasSpace? ==> 0 < s.writer.space <= |s.writer.rest| && s.writer.space <= Space(s.out.head, s.out.tail))
    && (s.worker == SawByte || s.worker == Armed ==> s.out.head != s.out.tail)
    && (Waits(s.writer) ==> s.writer.rest != [])
    && (s.writer.Peeked? ==>
          s.writer.first < PAGE_SIZE && (s.writer.first <= s.out.head ==> s.out.tail <= s.out.head))
  }

  /** Pending bytes: output is active, or the writer is about to take the lock and start it. */
  ghost predicate PendingIsServed(s: State) {
    && (s.out.head != s.out.tail ==> s.active || s.writer.Stored? || s.writer.Starting?)
    && (s.worker == SawEmpty && s.out.head != s.out.tail ==> s.writer.Stored?)
    && (s.worker == Stopped ==> !s.active)
  }

  predicate HandlerInFlight(s: State) {
    s.lock == ByHandler || s.entered + s.passed + s.calling + s.queueing > 0
  }

  /** Active output: a queued or running work item, the timer, a timeout handler, or the start still going on. */
  ghost predicate ActiveIsDriven(s: State) {
    s.active ==>
      s.workQueued || s.worker == Waiting || s.worker == SawEmpty || s.worker == SawByte || s.timer
      || HandlerInFlight(s) || s.writer.Arming?
  }

  /**
   * Why a writer may sleep: the buffer is half full, but for a byte just strobed; or the work item is about to wake
   * it; or the buffer is empty with both offsets at its start, and nobody will.
   */
  ghost predicate MaySleep(s: State)
    requires OutOk(s.out)
  {
    var gap := Gap(s.out.head, s.out.tail);
    || 1 <= gap <= MIN_SPACE + (if s.worker == Ending then 1 else 0)
    || (s.worker == Ending && gap > MIN_SPACE)
    || (s.out.head == s.out.tail == 0 && s.out.accepted != [])
  }

  /** It sleeps unwoken, or it will because the tail has come round between the loads of its last test. */
  predicate Misses(s: State) {
    || (s.writer.Asleep? && !s.writer.woken)
    || (s.writer.Peeked? && s.writer.site == OnQueue(false) && s.out.tail <= s.out.head < s.writer.first)
  }

  ghost predicate SleeperOk(s: State)
    requires OutOk(s.out)
  {
    Misses(s) ==> MaySleep(s)
  }

  ghost predicate Inv(s: State) {
    OutOk(s.out) && LockOk(s) && FoundOk(s) && PendingIsServed(s) && ActiveIsDriven(s) && SleeperOk(s)
  }

  ghost predicate Init(s: State) {
    && |s.out.buf| == PAGE_SIZE && s.out.head == s.out.tail == 0 && s.out.strobed == s.out.accepted == []
    && !s.active && s.writer == NoWriter && s.worker == Resting && s.lock == Free && !s.workQueued && !s.timer
    && s.entered == s.passed == s.calling == s.queueing == s.irqs == 0
  }

  ghost predicate Enabled(s: State, a: Action)
    requires OutOk(s.out)
  {
    match a
    case WriterBegin(_) => s.writer == NoWriter
    case WriterEnd => s.writer == Looping([])
    case Load => (s.writer.Looping? && s.writer.rest != []) || s.writer.ToWait? || s.writer.Queued?
    case Look => s.writer.Peeked?
    case Store | CopyFault => s.writer.HasSpace?
    case Enqueue => s.writer.ToEnqueue?
    case Resume => s.writer.Asleep? && s.writer.woken
    case Interrupted => s.writer.Asleep?
    case WriterLock => s.writer.Stored? && s.lock == Free
    case SetActive => s.writer.Starting?
    case AddTimer => s.writer.Arming?
    case QueueWork => s.writer.Launching?
    case Dequeue => s.worker == Resting && s.workQueued
    case WorkerLock => s.worker == Waiting && s.lock == Free
    case Stop => s.worker == SawEmpty
    case DelTimer => s.worker == Stopped
    case ModTimer => s.worker == SawByte
    case Strobe => s.worker == Armed
    case WorkerEnd => s.worker == Ending
    case Irq => s.active
    case IrqQueue => s.irqs > 0
    case Expire => s.timer
    case HandlerTest => s.entered > 0
    case HandlerLock => s.passed > 0 && s.lock == Free
    case HandlerRearm | HandlerDrop => s.lock == ByHandler
    case HandlerCall => s.calling > 0
    case HandlerQueue => s.queueing > 0
  }

  /** Which test a writer is at. */
  function SiteOf(w: Writer): Site {
    match w
    case ToWait(_) => BeforeQueue
    case Queued(_, woken) => OnQueue(woken)
    case _ => InLoop
  }

  /** After the second load: with the room that was computed, or on towards sleeping. */
  function Found(o: Out, rest: seq<byte>, site: Site, first: nat): Writer
    requires o.head < PAGE_SIZE
  {
    var room := Room(o.head, first, o.tail);
    if room > 0 then HasSpace(rest, Min(room, |rest|))
    else
      match site
      case InLoop => ToWait(rest)
      case BeforeQueue => ToEnqueue(rest)
      case OnQueue(woken) => Asleep(rest, woken)
  }

  function One(b: bool): nat { if b then 1 else 0 }

  function Woken(w: Writer): Writer {
    match w
    case Queued(rest, _) => Queued(rest, true)
    case Asleep(rest, _) => Asleep(rest, true)
    case Peeked(rest, OnQueue(_), first) => Peeked(rest, OnQueue(true), first)
    case _ => w
  }

  /** The writer's own steps. */
  ghost function WriterStep(s: State, a: Action): State
    requires Inv(s) && Enabled(s, a)
  {
    match a
    case WriterBegin(data) => s.(writer := Looping(data))
    case WriterEnd => s.(writer := NoWriter)
    case Load => s.(writer := Peeked(s.writer.rest, SiteOf(s.writer), s.out.tail))
    case Look => s.(writer := Found(s.out, s.writer.rest, s.writer.site, s.writer.first))
    case Store =>
      s.(out := AfterStore(s.out, s.writer.rest[..s.writer.space]), writer := Stored(s.writer.rest[s.writer.space..]))
    case CopyFault => s.(writer := NoWriter)
    case Enqueue => s.(writer := Queued(s.writer.rest, false))
    case Resume => s.(writer := ToEnqueue(s.writer.rest))
    case Interrupted => s.(writer := NoWriter)
    case WriterLock =>
      if s.active then s.(writer := Looping(s.writer.rest)) else s.(writer := Starting(s.writer.rest), lock := ByWriter)
    case SetActive => s.(active := true, writer := Arming(s.writer.rest))
    case AddTimer => s.(timer := true, writer := Launching(s.writer.rest))
    case QueueWork => s.(workQueued := true, lock := Free, writer := Looping(s.writer.rest))
    case _ => s
  }

  /** The work item's steps. */
  ghost function WorkerStep(s: State, a: Action): State
    requires Inv(s) && Enabled(s, a)
  {
    match a
    case Dequeue => s.(workQueued := false, worker := Waiting)
    case WorkerLock => s.(lock := ByWorker, worker := if s.out.head == s.out.tail then SawEmpty else SawByte)
    case Stop => s.(active := false, worker := Stopped)
    case DelTimer => s.(timer := false, worker := Ending)
    case ModTimer => s.(timer := true, worker := Armed)
    case Strobe => s.(out := AfterStrobe(s.out), worker := Ending)
    case WorkerEnd =>
      s.(lock := Free, worker := Resting,
         writer := if Gap(s.out.head, s.out.tail) > MIN_SPACE then Woken(s.writer) else s.writer)
    case _ => s
  }

  /** The steps of the interrupt and timeout handlers. */
  ghost function HandlerStep(s: State, a: Action): State
    requires Inv(s) && Enabled(s, a)
  {
    match a
    case Irq => s.(irqs := s.irqs + 1)
    case IrqQueue => s.(irqs := s.irqs - 1, workQueued := true)
    case Expire => s.(timer := false, entered := s.entered + 1)
    case HandlerTest => s.(entered := s.entered - 1, passed := s.passed + One(s.active))
    case HandlerLock => s.(passed := s.passed - 1, lock := ByHandler)
    case HandlerRearm => s.(timer := true, lock := Free)
    case HandlerDrop => s.(lock := Free, calling := s.calling + 1)
    case HandlerCall => s.(calling := s.calling - 1, queueing := s.queueing + One(s.active))
    case HandlerQueue => s.(queueing := s.queueing - 1, workQueued := true)
    case _ => s
  }

  predicate OfWriter(a: Action) {
    a.WriterBegin? || a.WriterEnd? || a.Load? || a.Look? || a.Store? || a.CopyFault? || a.Enqueue? || a.Resume?
    || a.Interrupted? || a.WriterLock? || a.SetActive? || a.AddTimer? || a.QueueWork?
  }

  predicate OfWorker(a: Action) {
    a.Dequeue? || a.WorkerLock? || a.Stop? || a.DelTimer? || a.ModTimer? || a.Strobe? || a.WorkerEnd?
  }

  ghost function Step(s: State, a: Action): State
    requires Inv(s) && Enabled(s, a)
  {
    if OfWriter(a) then WriterStep(s, a) else if OfWorker(a) then WorkerStep(s, a) else HandlerStep(s, a)
  }

  // ----- What every step keeps

  lemma LookKeepsInv(s: State)
    requires Inv(s) && s.writer.Peeked?
    ensures Inv(WriterStep(s, Look))
  {
    RoomIsSpace(s.out.head, s.writer.first, s.out.tail);
    if Space(s.out.head, s.out.tail) == 0 { NoSpaceIsFull(s.out.head, s.out.tail); }
  }

  lemma WriterKeepsInv(s: State, a: Action)
    requires Inv(s) && Enabled(s, a) && OfWriter(a)
    ensures Inv(WriterStep(s, a))
  {
    if a.Store? {
      StoreKeepsOut(s.out, s.writer.rest[..s.writer.space]);
    } else if a.Look? {
      LookKeepsInv(s);
    }
  }

  lemma StrobeKeepsInv(s: State)
    requires Inv(s) && s.worker == Armed
    ensures Inv(WorkerStep(s, Strobe))
  {
    StrobeKeepsOut(s.out);
    StrobeAddsRoom(s.out.head, s.out.tail);
  }

  lemma WorkerKeepsInv(s: State, a: Action)
    requires Inv(s) && Enabled(s, a) && OfWorker(a)
    ensures Inv(WorkerStep(s, a))
  {
    if a.Strobe? { StrobeKeepsInv(s); }
  }

  /** The work item wakes the writer exactly when more than half the buffer is free, but not all of it. */
  lemma WakesIffHalfFree(s: State)
    requires Inv(s) && s.worker == Ending
    ensures Step(s, WorkerEnd).writer
            == if s.out.head != s.out.tail && |Content(s.out.buf, s.out.tail, s.out.head)| < PAGE_SIZE - MIN_SPACE
               then Woken(s.writer) else s.writer
  {
    ContentLength(s.out.buf, s.out.tail, s.out.head);
  }

  /** A handler leaves buffer, writer and work item alone; whoever it stops driving the output stays driven. */
  lemma HandlerKeepsInv(s: State, a: Action)
    requires Inv(s) && Enabled(s, a) && !OfWriter(a) && !OfWorker(a)
    ensures Inv(HandlerStep(s, a))
  {
    var t := HandlerStep(s, a);
    HandlerKeepsDriven(s, a);
    assert t.out == s.out && t.writer == s.writer && t.worker == s.worker && t.active == s.active;
    assert LockOk(t);
  }

  lemma HandlerKeepsDriven(s: State, a: Action)
    requires Inv(s) && Enabled(s, a) && !OfWriter(a) && !OfWorker(a)
    ensures ActiveIsDriven(HandlerStep(s, a))
  {
    if s.active { assert One(s.active) == 1; }
  }

  lemma StepKeepsInv(s: State, a: Action)
    requires Inv(s) && Enabled(s, a)
    ensures Inv(Step(s, a))
  {
    if OfWriter(a) { WriterKeepsInv(s, a); } else if OfWorker(a) { WorkerKeepsInv(s, a); } else { HandlerKeepsInv(s, a); }
  }

  // ----- Whole runs

  /** Steps that are not enabled do nothing. */
  ghost function Run(s: State, actions: seq<Action>): State
    requires Inv(s)
    decreases |actions|
  {
    if actions == [] then s
    else if Enabled(s, actions[0]) then
      StepKeepsInv(s, actions[0]);
      Run(Step(s, actions[0]), actions[1..])
    else Run(s, actions[1..])
  }

  lemma {:induction false} RunKeepsInv(s: State, actions: seq<Action>)
    requires Inv(s)
    ensures Inv(Run(s, actions))
    decreases |actions|
  {
    if actions != [] {
      if Enabled(s, actions[0]) {
        StepKeepsInv(s, actions[0]);
        RunKeepsInv(Step(s, actions[0]), actions[1..]);
      } else {
        RunKeepsInv(s, actions[1..]);
      }
    }
  }

  function Pending(o: Out): seq<byte>
    requires o.head < |o.buf| && o.tail < |o.buf|
  {
    Content(o.buf, o.tail, o.head)
  }

  /** What was printed, followed by what is pending, is what was accepted: nothing lost, repeated or reordered. */
  lemma PrintedIsPrefix(s: State, actions: seq<Action>)
    requires Init(s)
    ensures var o := Run(s, actions).out;
            && OutOk(o) && o.strobed + Pending(o) == o.accepted
            && |o.accepted| - |o.strobed| < PAGE_SIZE
  {
    RunKeepsInv(s, actions);
    var o := Run(s, actions).out;
    ContentLength(o.buf, o.tail, o.head);
  }

  /** Whoever will move the output on: the writer on its way to start it, or what drives active output. */
  predicate SomebodyMovesOn(s: State) {
    || s.writer.Stored? || s.writer.Starting? || s.writer.Arming?
    || s.workQueued || s.worker == Waiting || s.worker == SawEmpty || s.worker == SawByte
    || s.timer || HandlerInFlight(s)
  }

  /** Pending bytes are never stranded. */
  lemma NothingStranded(s: State, actions: seq<Action>)
    requires Init(s)
    ensures var t := Run(s, actions);
            && (t.out.head != t.out.tail ==> (t.active || t.writer.Stored? || t.writer.Starting?) && SomebodyMovesOn(t))
            && (t.active && !t.writer.Arming? ==>
                  t.workQueued || t.worker == Waiting || t.worker == SawEmpty || t.worker == SawByte
                  || t.timer || HandlerInFlight(t))
  {
    RunKeepsInv(s, actions);
  }

  /** The gap that the work item computes is what pending bytes leave free, unless nothing is pending. */
  lemma GapIsTheRest(buf: seq<byte>, head: nat, tail: nat)
    requires |buf| == PAGE_SIZE && head < PAGE_SIZE && tail < PAGE_SIZE
    ensures head != tail ==> |Content(buf, tail, head)| == PAGE_SIZE - Gap(head, tail)
    ensures head == tail <==> Gap(head, tail) == 0
  {
    ContentLength(buf, tail, head);
  }

  /** On an empty buffer with both offsets at its start, with bytes still to take. */
  predicate Stuck(s: State) {
    s.writer.Asleep? && !s.writer.woken && s.out.head == s.out.tail == 0
  }

  /**
   * What a sleeping writer that nobody has woken has ahead: half the buffer to print, or one byte less than half
   * when the work item has just strobed it; or the wake-up, which is the work item's next step; or nothing, which
   * happens only when what was accepted fills whole pages.
   */
  ghost predicate WorkAhead(t: State)
    requires Inv(t) && t.writer.Asleep?
  {
    || (t.active && |Pending(t.out)| >= PAGE_SIZE - MIN_SPACE - (if t.worker == Ending then 1 else 0))
    || (t.worker == Ending && Step(t, WorkerEnd).writer == Asleep(t.writer.rest, true))
    || (Stuck(t) && t.out.strobed == t.out.accepted && 0 < |t.out.accepted| && |t.out.accepted| % PAGE_SIZE == 0)
  }

  lemma SleeperIsServed(t: State)
    requires Inv(t) && t.writer.Asleep? && !t.writer.woken
    ensures WorkAhead(t)
  {
    GapIsTheRest(t.out.buf, t.out.head, t.out.tail);
  }

  lemma SleeperHasWorkAhead(s: State, actions: seq<Action>)
    requires Init(s)
    ensures var t := Run(s, actions);
            && Inv(t)
            && (t.writer.Asleep? && !t.writer.woken ==> t.writer.rest != [] && WorkAhead(t))
  {
    RunKeepsInv(s, actions);
    var t := Run(s, actions);
    if t.writer.Asleep? && !t.writer.woken { SleeperIsServed(t); }
  }

  // ----- The driver: each method is one atomic step

  class Printer {
    const outBuffer: array<byte>
    var head: nat
    var tail: nat
    var outputActive: bool
    var workQueued: bool
    var timerPending: bool
    ghost var writer: Writer
    ghost var worker: Worker
    ghost var lock: Lock
    ghost var entered: nat
    ghost var passed: nat
    ghost var calling: nat
    ghost var queueing: nat
    ghost var irqs: nat
    ghost var strobed: seq<byte>
    ghost var accepted: seq<byte>

    ghost function View(): State
      reads this, outBuffer
    {
      State(Out(outBuffer[..], head, tail, strobed, accepted), outputActive, writer, worker, lock, workQueued,
            timerPending, entered, passed, calling, queueing, irqs)
    }

    ghost predicate Can(a: Action)
      reads this, outBuffer
    {
      Inv(View()) && Enabled(View(), a)
    }

    constructor ()
      ensures Init(View()) && fresh(outBuffer)
    {
      outBuffer := new byte[PAGE_SIZE];
      head, tail, outputActive, workQueued, timerPending := 0, 0, false, false, false;
      writer, worker, lock, entered, passed, calling, queueing, irqs := NoWriter, Resting, Free, 0, 0, 0, 0, 0;
      strobed, accepted := [], [];
    }

    /** A step that moves somebody on and touches none of the driver's variables. */
    ghost method Move(a: Action)
      requires Can(a)
      requires var t := Step(View(), a);
               && t.out == View().out && t.active == outputActive && t.workQueued == workQueued && t.timer == timerPending
      modifies this`writer, this`worker, this`lock, this`entered, this`passed, this`calling, this`queueing, this`irqs
      ensures View() == Step(old(View()), a) && Inv(View())
    {
      StepKeepsInv(View(), a);
      Become(Step(View(), a));
    }

    ghost method Become(t: State)
      requires t.out == View().out && t.active == outputActive && t.workQueued == workQueued && t.timer == timerPending
      modifies this`writer, this`worker, this`lock, this`entered, this`passed, this`calling, this`queueing, this`irqs
      ensures View() == t
    {
      writer, worker, lock := t.writer, t.worker, t.lock;
      entered, passed, calling, queueing, irqs := t.entered, t.passed, t.calling, t.queueing, t.irqs;
    }

    /** The comparison in shortp_out_space, at the loop test and at both tests of wait_event. */
    method LoadTail() returns (first: nat)
      requires Can(Load)
      modifies this
      ensures View() == Step(old(View()), Load) && Inv(View())
      ensures writer == Peeked(old(writer).rest, SiteOf(old(writer)), first)
    {
      first := tail;
      Move(Load);
    }

    /** The rest of shortp_out_space, on the tail as it is by now. */
    method OutSpace(first: nat) returns (space: int)
      requires Can(Look) && writer.first == first
      modifies this
      ensures View() == Step(old(View()), Look) && Inv(View())
      ensures space > 0 <==> writer.HasSpace?
      ensures space > 0 ==> space == Space(head, tail) && writer.space == Min(space, |writer.rest|)
      ensures space <= 0 ==> Space(head, tail) == 0 || tail <= head < first
    {
      if head >= first {
        space := PAGE_SIZE - head;
        if tail == 0 { space := space - 1; }
      } else {
        space := tail - head - 1;
      }
      RoomIsSpace(head, first, tail);
      Move(Look);
    }

    method IncrementOut(p: nat, n: nat) returns (q: nat)
      requires p + n <= PAGE_SIZE
      ensures q == Wrap(p + n, PAGE_SIZE)
    {
      q := p + n;
      if q >= PAGE_SIZE { q := q - PAGE_SIZE; }
    }

    method CopyIn(data: seq<byte>)
      requires head + |data| <= outBuffer.Length
      modifies outBuffer
      ensures outBuffer[..] == Splice(old(outBuffer[..]), head, data)
    {
      for i := 0 to |data|
        invariant forall k :: 0 <= k < head ==> outBuffer[k] == old(outBuffer[k])
        invariant forall k :: head <= k < head + i ==> outBuffer[k] == data[k - head]
        invariant forall k :: head + i <= k < outBuffer.Length ==> outBuffer[k] == old(outBuffer[k])
      {
        outBuffer[head + i] := data[i];
      }
    }

    /** Copy from the user and advance the head. */
    method StoreBytes(rest: seq<byte>, space: nat)
      requires Can(Store) && writer == HasSpace(rest, space)
      modifies this, outBuffer
      ensures View() == Step(old(View()), Store) && Inv(View())
      ensures accepted == old(accepted) + rest[..space]
    {
      StepKeepsInv(View(), Store);
      ghost var t := Step(View(), Store);
      StoreAndAdvance(rest[..space]);
      writer := Stored(rest[space..]);
      assert View() == t;
    }

    method StoreAndAdvance(data: seq<byte>)
      requires head + |data| <= outBuffer.Length == PAGE_SIZE
      modifies `head, `accepted, outBuffer
      ensures View().out == AfterStore(old(View().out), data)
    {
      CopyIn(data);
      head := IncrementOut(head, |data|);
      accepted := accepted + data;
    }

    method StrobeAndAdvance() returns (b: byte)
      requires tail < outBuffer.Length == PAGE_SIZE
      modifies `tail, `strobed
      ensures View().out == AfterStrobe(old(View().out)) && strobed == old(strobed) + [b]
    {
      b := outBuffer[tail];
      tail := IncrementOut(tail, 1);
      strobed := strobed + [b];
    }

    /** Take the lock and test whether output is active. */
    method LockAndTestActive() returns (start: bool)
      requires Can(WriterLock)
      modifies this
      ensures View() == Step(old(View()), WriterLock) && Inv(View())
      ensures start <==> writer.Starting?
      ensures start <==> !outputActive
    {
      start := !outputActive;
      Move(WriterLock);
    }

    method StartOutput()
      requires Can(SetActive)
      modifies this
      ensures View() == Step(old(View()), SetActive) && Inv(View())
      ensures outputActive
    {
      StepKeepsInv(View(), SetActive);
      outputActive, writer := true, Arming(writer.rest);
    }

    method StartTimer()
      requires Can(AddTimer)
      modifies this
      ensures View() == Step(old(View()), AddTimer) && Inv(View())
      ensures timerPending
    {
      StepKeepsInv(View(), AddTimer);
      timerPending, writer := true, Launching(writer.rest);
    }

    method StartWork()
      requires Can(QueueWork)
      modifies this
      ensures View() == Step(old(View()), QueueWork) && Inv(View())
      ensures workQueued
    {
      StepKeepsInv(View(), QueueWork);
      workQueued, lock, writer := true, Free, Looping(writer.rest);
    }

    /** The single worker thread takes the queued item. */
    method RunWork()
      requires Can(Dequeue)
      modifies this
      ensures View() == Step(old(View()), Dequeue) && Inv(View())
    {
      StepKeepsInv(View(), Dequeue);
      workQueued, worker := false, Waiting;
    }

    method WorkLockAndTest() returns (empty: bool)
      requires Can(WorkerLock)
      modifies this
      ensures View() == Step(old(View()), WorkerLock) && Inv(View())
      ensures empty <==> worker == SawEmpty
    {
      empty := head == tail;
      Move(WorkerLock);
    }

    method StopOutput()
      requires Can(Stop)
      modifies this
      ensures View() == Step(old(View()), Stop) && Inv(View())
      ensures !outputActive
    {
      StepKeepsInv(View(), Stop);
      outputActive, worker := false, Stopped;
    }

    method StopTimer()
      requires Can(DelTimer)
      modifies this
      ensures View() == Step(old(View()), DelTimer) && Inv(View())
      ensures !timerPending
    {
      StepKeepsInv(View(), DelTimer);
      timerPending, worker := false, Ending;
    }

    method ResetTimer()
      requires Can(ModTimer)
      modifies this
      ensures View() == Step(old(View()), ModTimer) && Inv(View())
      ensures timerPending
    {
      StepKeepsInv(View(), ModTimer);
      timerPending, worker := true, Armed;
    }

    /** One byte to the printer: always the oldest that is pending. */
    method StrobeByte() returns (b: byte)
      requires Can(Strobe)
      modifies this
      ensures View() == Step(old(View()), Strobe) && Inv(View())
      ensures strobed == old(strobed) + [b] && strobed <= accepted
    {
      StepKeepsInv(View(), Strobe);
      ghost var t := Step(View(), Strobe);
      b := StrobeAndAdvance();
      worker := Ending;
      assert View() == t;
    }

    method WorkUnlock() returns (wake: bool)
      requires Can(WorkerEnd)
      modifies this
      ensures View() == Step(old(View()), WorkerEnd) && Inv(View())
      ensures wake <==> head != tail && |Pending(View().out)| < PAGE_SIZE - MIN_SPACE
      ensures writer == if wake then Woken(old(writer)) else old(writer)
    {
      GapIsTheRest(outBuffer[..], head, tail);
      wake := (PAGE_SIZE + tail - head) % PAGE_SIZE > MIN_SPACE;
      Move(WorkerEnd);
    }

    /** shortp_interrupt, from the hardware or from the timeout: test, then queue the work. */
    method InterruptTest(ghost a: Action) returns (handled: bool)
      requires (a == Irq || a == HandlerCall) && Can(a)
      modifies this
      ensures View() == Step(old(View()), a) && Inv(View())
      ensures handled == old(outputActive)
    {
      handled := outputActive;
      Move(a);
    }

    method InterruptQueue(ghost a: Action)
      requires (a == IrqQueue || a == HandlerQueue) && Can(a)
      modifies this
      ensures View() == Step(old(View()), a) && Inv(View())
      ensures workQueued
    {
      StepKeepsInv(View(), a);
      workQueued := true;
      if a == IrqQueue { irqs := irqs - 1; } else { queueing := queueing - 1; }
    }

    method TimerExpires()
      requires Can(Expire)
      modifies this
      ensures View() == Step(old(View()), Expire) && Inv(View())
    {
      StepKeepsInv(View(), Expire);
      timerPending, entered := false, entered + 1;
    }

    method TimeoutTest() returns (goOn: bool)
      requires Can(HandlerTest)
      modifies this
      ensures View() == Step(old(View()), HandlerTest) && Inv(View())
      ensures goOn == old(outputActive)
    {
      goOn := outputActive;
      Move(HandlerTest);
    }

    /** Under the lock: reset the timer while the printer is busy, else go and call the interrupt handler. */
    method TimeoutDecide(busy: bool)
      requires Can(HandlerRearm)
      modifies this
      ensures View() == Step(old(View()), if busy then HandlerRearm else HandlerDrop) && Inv(View())
    {
      if busy {
        StepKeepsInv(View(), HandlerRearm);
        timerPending, lock := true, Free;
      } else {
        Move(HandlerDrop);
      }
    }
  }
}
