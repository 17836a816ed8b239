/** ConcurrentMemoryRingBuffer.cpp: one producer and one consumer over a byte buffer with a wrap marker.
    Every load and store of a shared index is its own step, and so is every byte of a memcpy. */
module ByteRing {

  import opened Bytes
  import opened Common

  datatype ProducerPc =
    | Ready                              // outside maximizeWriteCapacity
    | HasWrite(w: nat)                   // has loaded mWriteIndex
    | HasBoth(w: nat, r: nat)            // has loaded mReadIndex as well

  datatype ConsumerPc =
    | Idle
    | SawWrite(w: nat)                   // beginRead has loaded mWriteIndex
    | SawBoth(w: nat, r: nat)            // ... and mReadIndex
    | Holding(w: nat, start1: nat, len1: nat, len2: nat)   // between beginRead and endRead

  /** The shared queue, both threads, and three histories: the bytes committed, the bytes handed
      to the consumer, and the bytes written since the last commit. */
  datatype State = State(
    capacity: nat, storage: seq<byte>, writeIndex: nat, readIndex: nat, dataEnd: nat,
    producer: ProducerPc, writePos: nat, writeEnd: int,
    consumer: ConsumerPc,
    committed: seq<byte>, delivered: seq<byte>, pending: seq<byte>)

  datatype Action =
    | LoadWrite(size: nat) | LoadRead | ChooseGap | WriteByte(b: byte) | Commit
    | BeginLoadWrite | BeginLoadRead | BeginWindow | EndRead

  function WriteCapacity(s: State): int { s.writeEnd - s.writePos }

  predicate Enabled(s: State, a: Action) {
    match a
    case LoadWrite(size) => s.producer.Ready? && size > WriteCapacity(s)
    case LoadRead => s.producer.HasWrite?
    case ChooseGap => s.producer.HasBoth?
    case WriteByte(_) => s.producer.Ready? && s.writePos < s.writeEnd && s.writePos < |s.storage|
    case Commit => s.producer.Ready?
    case BeginLoadWrite => s.consumer.Idle?
    case BeginLoadRead => s.consumer.SawWrite?
    case BeginWindow => s.consumer.SawBoth?
    case EndRead => s.consumer.Holding? && WindowFits(s)
  }

  /** What maximizeWriteCapacity decides from its two snapshots: (mDataEnd, mSnapWritePos, mSnapWriteEnd). */
  function Gap(capacity: nat, dataEnd: nat, w: nat, r: nat): (nat, nat, int) {
    if w < r then (dataEnd, w, r - 1)
    else if capacity - w >= r - 1 then (dataEnd, w, capacity)
    else (w, 0, r - 1)
  }

  predicate WindowFits(s: State) {
    s.consumer.Holding? ==>
      s.consumer.start1 + s.consumer.len1 <= |s.storage| && s.consumer.len2 <= |s.storage|
  }

  /** The bytes that the two buffers returned by beginRead show right now. */
  function Window(s: State): seq<byte>
    requires s.consumer.Holding? && WindowFits(s)
  {
    s.storage[s.consumer.start1..s.consumer.start1 + s.consumer.len1] + s.storage[..s.consumer.len2]
  }

  function WindowOf(w: nat, r: nat, dataEnd: nat): ConsumerPc {
    if r <= w then Holding(w, r, w - r, 0)
    else if r < dataEnd then Holding(w, r, dataEnd - r, w)
    else Holding(w, 0, w, 0)
  }

  function Step(s: State, a: Action): State {
    if !Enabled(s, a) then s else
    match a
    case LoadWrite(_) => s.(producer := HasWrite(s.writeIndex))
    case LoadRead => s.(producer := HasBoth(s.producer.w, s.readIndex))
    case ChooseGap =>
      var (e, pos, end) := Gap(s.capacity, s.dataEnd, s.producer.w, s.producer.r);
      s.(producer := Ready, dataEnd := e, writePos := pos, writeEnd := end, pending := [])
    case WriteByte(b) =>
      s.(storage := s.storage[s.writePos := b], writePos := s.writePos + 1, pending := s.pending + [b])
    case Commit =>
      s.(writeIndex := s.writePos, committed := s.committed + s.pending, pending := [])
    case BeginLoadWrite => s.(consumer := SawWrite(s.writeIndex))
    case BeginLoadRead => s.(consumer := SawBoth(s.consumer.w, s.readIndex))
    case BeginWindow => s.(consumer := WindowOf(s.consumer.w, s.consumer.r, s.dataEnd))
    case EndRead =>
      s.(consumer := Idle, readIndex := s.consumer.w, delivered := s.delivered + Window(s))
  }

  function Run(s: State, actions: seq<Action>): State
    decreases |actions|
  {
    if actions == [] then s else Run(Step(s, actions[0]), actions[1..])
  }

  /** A fresh queue; the contents of the allocated storage are arbitrary. */
  ghost predicate Initial(s: State) {
    && |s.storage| == s.capacity
    && s.writeIndex == s.readIndex == s.dataEnd == s.writePos == s.writeEnd == 0
    && s.producer == Ready && s.consumer == Idle
    && s.committed == s.delivered == s.pending == []
  }

  // ----- The invariant

  ghost predicate Shape(s: State) {
    && |s.storage| == s.capacity
    && s.writeIndex <= s.capacity && s.readIndex <= s.capacity && s.dataEnd <= s.capacity
    && s.writePos <= s.writeEnd <= s.capacity
    && (s.readIndex > s.writeIndex ==> s.readIndex <= s.dataEnd)
  }

  /** The committed bytes not yet released by the consumer, in stream order. */
  function Unread(s: State): seq<byte>
    requires Shape(s)
  {
    if s.readIndex <= s.writeIndex then s.storage[s.readIndex..s.writeIndex]
    else s.storage[s.readIndex..s.dataEnd] + s.storage[..s.writeIndex]
  }

  /** The gap continues right after the committed bytes ... */
  ghost predicate Appending(s: State)
    requires Shape(s)
  {
    && s.writePos == s.writeIndex + |s.pending|
    && s.storage[s.writeIndex..s.writePos] == s.pending
    && (s.readIndex > s.writeIndex ==> s.writeEnd < s.readIndex)
  }

  /** ... or restarts at the front, with the marker already set and not yet committed. */
  ghost predicate Wrapping(s: State)
    requires Shape(s)
  {
    && s.readIndex <= s.writeIndex == s.dataEnd
    && s.writePos == |s.pending|
    && s.storage[..s.writePos] == s.pending
    && s.writeEnd < s.readIndex
  }

  ghost predicate ProducerOk(s: State) {
    match s.producer
    case Ready => true
    case HasWrite(w) => w == s.writeIndex
    case HasBoth(w, r) =>
      && w == s.writeIndex && r <= s.capacity
      && (if w < r then s.readIndex > w ==> r <= s.readIndex else r <= s.readIndex <= w)
  }

  /** A value of mWriteIndex the consumer loaded some time ago still marks a point of the unread bytes. */
  ghost predicate SnapOk(s: State, w: nat) {
    if s.readIndex <= w then w <= if s.readIndex <= s.writeIndex then s.writeIndex else s.dataEnd
    else w <= s.writeIndex < s.readIndex
  }

  ghost predicate ConsumerOk(s: State)
    requires Shape(s)
  {
    match s.consumer
    case Idle => true
    case SawWrite(w) => SnapOk(s, w)
    case SawBoth(w, r) => SnapOk(s, w) && r == s.readIndex
    case Holding(w, _, _, _) => SnapOk(s, w) && s.consumer == WindowOf(w, s.readIndex, s.dataEnd)
  }

  ghost predicate Inv(s: State) {
    && Shape(s)
    && s.committed == s.delivered + Unread(s)
    && (Appending(s) || Wrapping(s))
    && ProducerOk(s)
    && ConsumerOk(s)
  }

  // ----- Every step keeps it

  lemma ChooseGapKeepsInv(s: State)
    requires Inv(s) && s.producer.HasBoth?
    ensures Inv(Step(s, ChooseGap))
  {
    var t := Step(s, ChooseGap);
    assert Unread(t) == Unread(s);
  }

  lemma WriteByteKeepsInv(s: State, b: byte)
    requires Inv(s) && Enabled(s, WriteByte(b))
    ensures Inv(Step(s, WriteByte(b)))
  {
    var t := Step(s, WriteByte(b));
    assert Unread(t) == Unread(s);
    if Appending(s) {
      assert t.storage[t.writeIndex..t.writePos] == s.storage[s.writeIndex..s.writePos] + [b];
    } else {
      assert t.storage[..t.writePos] == s.storage[..s.writePos] + [b];
    }
  }

  lemma CommitPublishesPending(s: State)
    requires Inv(s) && s.producer.Ready?
    ensures Shape(s.(writeIndex := s.writePos))
    ensures Unread(s.(writeIndex := s.writePos)) == Unread(s) + s.pending
  {
    if Appending(s) {
      if s.readIndex <= s.writeIndex {
        Slices(s.storage, s.readIndex, s.writeIndex, s.writePos);
      } else {
        Slices(s.storage, 0, s.writeIndex, s.writePos);
        Associative(s.storage[s.readIndex..s.dataEnd], s.storage[..s.writeIndex], s.pending);
      }
    }
  }

  lemma Slices(b: seq<byte>, i: nat, j: nat, k: nat)
    requires i <= j <= k <= |b|
    ensures b[i..k] == b[i..j] + b[j..k]
  {
  }

  lemma CommitKeepsInv(s: State)
    requires Inv(s) && s.producer.Ready?
    ensures Inv(Step(s, Commit))
  {
    var t := Step(s, Commit);
    CommitPublishesPending(s);
    assert Unread(t) == Unread(s) + s.pending;
    assert s.delivered + (Unread(s) + s.pending) == s.delivered + Unread(s) + s.pending;
    assert Appending(t);
  }

  lemma ReleasedBytes(s: State, w: nat)
    requires Shape(s) && SnapOk(s, w)
    ensures Shape(s.(readIndex := w))
    ensures Unread(s) ==
            (if s.readIndex <= w then s.storage[s.readIndex..w]
             else s.storage[s.readIndex..s.dataEnd] + s.storage[..w]) + Unread(s.(readIndex := w))
  {
    var b, r := s.storage, s.readIndex;
    if r <= w && r <= s.writeIndex {
      Slices(b, r, w, s.writeIndex);
    } else if r <= w {
      Slices(b, r, w, s.dataEnd);
      Associative(b[r..w], b[w..s.dataEnd], b[..s.writeIndex]);
    } else {
      Slices(b, 0, w, s.writeIndex);
      Associative(b[r..s.dataEnd], b[..w], b[w..s.writeIndex]);
    }
  }

  lemma HeldBytes(s: State)
    requires Inv(s) && s.consumer.Holding?
    ensures WindowFits(s)
    ensures Window(s) == if s.readIndex <= s.consumer.w then s.storage[s.readIndex..s.consumer.w]
                         else s.storage[s.readIndex..s.dataEnd] + s.storage[..s.consumer.w]
  {
  }

  /** The window shows the next unread bytes, whatever the producer did since beginRead. */
  lemma WindowIsNextUnread(s: State)
    requires Inv(s) && s.consumer.Holding?
    ensures WindowFits(s)
    ensures Window(s) <= Unread(s)
  {
    HeldBytes(s);
    ReleasedBytes(s, s.consumer.w);
  }

  lemma WindowIsNextCommitted(s: State)
    requires Inv(s) && s.consumer.Holding?
    ensures WindowFits(s) && s.delivered + Window(s) <= s.committed
  {
    WindowIsNextUnread(s);
    var w, u := Window(s), Unread(s);
    Slices(u, 0, |w|, |u|);
    assert u[..|w|] == w && u[0..|u|] == u;
    Associative(s.delivered, w, u[|w|..]);
  }

  lemma EndReadReleasesWindow(s: State)
    requires Inv(s) && Enabled(s, EndRead)
    ensures Shape(Step(s, EndRead))
    ensures Unread(s) == Window(s) + Unread(Step(s, EndRead))
  {
    ReleasedBytes(s, s.consumer.w);
    HeldBytes(s);
    assert Unread(Step(s, EndRead)) == Unread(s.(readIndex := s.consumer.w));
  }

  lemma EndReadKeepsGap(s: State)
    requires Inv(s) && Enabled(s, EndRead)
    ensures Shape(Step(s, EndRead))
    ensures Appending(Step(s, EndRead)) || Wrapping(Step(s, EndRead))
    ensures ProducerOk(Step(s, EndRead))
  {
    assert Appending(s) ==> Appending(Step(s, EndRead));
    assert Wrapping(s) ==> Wrapping(Step(s, EndRead));
  }

  lemma EndReadKeepsInv(s: State)
    requires Inv(s) && Enabled(s, EndRead)
    ensures Inv(Step(s, EndRead))
  {
    var t := Step(s, EndRead);
    EndReadReleasesWindow(s);
    EndReadKeepsGap(s);
    Associative(s.delivered, Window(s), Unread(t));
  }

  lemma StepKeepsInv(s: State, a: Action)
    requires Inv(s)
    ensures Inv(Step(s, a))
  {
    if Enabled(s, a) {
      match a
      case ChooseGap => ChooseGapKeepsInv(s);
      case WriteByte(b) => WriteByteKeepsInv(s, b);
      case Commit => CommitKeepsInv(s);
      case EndRead => EndReadKeepsInv(s);
      case LoadWrite(_) =>
      case LoadRead =>
      case BeginLoadWrite =>
      case BeginLoadRead =>
      case BeginWindow =>
    }
  }

  lemma {:induction false} RunKeepsInv(s: State, actions: seq<Action>)
    requires Inv(s)
    ensures Inv(Run(s, actions))
    decreases |actions|
  {
    if actions != [] {
      StepKeepsInv(s, actions[0]);
      RunKeepsInv(Step(s, actions[0]), actions[1..]);
    }
  }

  // ----- Main results

  /** Over every interleaving: what was delivered, then what is still in the ring, is exactly what was committed;
      and a held window is the next piece of that stream. */
  lemma StreamIsExact(s: State, actions: seq<Action>)
    requires Initial(s)
    ensures Inv(Run(s, actions))
    ensures var t := Run(s, actions);
            && t.committed == t.delivered + Unread(t)
            && (t.consumer.Holding? ==> WindowFits(t) && t.delivered + Window(t) <= t.committed)
  {
    RunKeepsInv(s, actions);
    var t := Run(s, actions);
    if t.consumer.Holding? {
      WindowIsNextCommitted(t);
    }
  }

  /** The byte about to be written is outside both pieces of the window the consumer holds. */
  lemma WriteMissesWindow(s: State)
    requires Inv(s) && s.consumer.Holding? && s.producer.Ready? && s.writePos < s.writeEnd
    ensures !(s.consumer.start1 <= s.writePos < s.consumer.start1 + s.consumer.len1)
    ensures !(s.writePos < s.consumer.len2)
  {
  }

  lemma HeldWindowKeptByStep(s: State, a: Action)
    requires Inv(s) && s.consumer.Holding? && !a.EndRead?
    ensures Step(s, a).consumer == s.consumer && WindowFits(s)
    ensures WindowFits(Step(s, a)) && Window(Step(s, a)) == Window(s)
  {
    if Enabled(s, a) && a.WriteByte? {
      WriteKeepsWindow(s, a.b);
    } else {
      HeldBytes(s);
      OthersKeepWindow(s, a);
    }
  }

  lemma OthersKeepWindow(s: State, a: Action)
    requires s.consumer.Holding? && WindowFits(s) && !a.EndRead? && !(a.WriteByte? && Enabled(s, a))
    ensures Step(s, a).consumer == s.consumer && WindowFits(Step(s, a)) && Window(Step(s, a)) == Window(s)
  {
  }

  lemma WriteKeepsWindow(s: State, b: byte)
    requires Inv(s) && s.consumer.Holding? && Enabled(s, WriteByte(b))
    ensures WindowFits(s)
    ensures WindowFits(Step(s, WriteByte(b))) && Window(Step(s, WriteByte(b))) == Window(s)
  {
    HeldBytes(s);
    WriteMissesWindow(s);
    WriteOutsideKeepsWindow(s, b);
  }

  lemma WriteOutsideKeepsWindow(s: State, b: byte)
    requires s.consumer.Holding? && WindowFits(s) && Enabled(s, WriteByte(b))
    requires !(s.consumer.start1 <= s.writePos < s.consumer.start1 + s.consumer.len1)
    requires !(s.writePos < s.consumer.len2)
    ensures WindowFits(Step(s, WriteByte(b))) && Window(Step(s, WriteByte(b))) == Window(s)
  {
    PieceKept(s.storage, s.writePos, b, s.consumer.start1, s.consumer.len1);
    PieceKept(s.storage, s.writePos, b, 0, s.consumer.len2);
  }

  lemma PieceKept(storage: seq<byte>, i: nat, b: byte, start: nat, len: nat)
    requires i < |storage| && start + len <= |storage| && !(start <= i < start + len)
    ensures storage[i := b][start..start + len] == storage[start..start + len]
  {
  }

  /** From beginRead to endRead the consumer may read its window at any moment: it never changes. */
  lemma {:induction false} HeldWindowIsStable(s: State, actions: seq<Action>)
    requires Inv(s) && s.consumer.Holding?
    requires forall a :: a in actions ==> !a.EndRead?
    ensures Run(s, actions).consumer == s.consumer && WindowFits(s)
    ensures WindowFits(Run(s, actions)) && Window(Run(s, actions)) == Window(s)
    decreases |actions|
  {
    HeldBytes(s);
    if actions != [] {
      StepKeepsInv(s, actions[0]);
      HeldWindowKeptByStep(s, actions[0]);
      HeldWindowIsStable(Step(s, actions[0]), actions[1..]);
    }
  }

  // ----- What a read takes

  /** The bytes from the read index up to a loaded write index. */
  function UpTo(s: State, w: nat): seq<byte>
    requires Shape(s) && SnapOk(s, w)
  {
    if s.readIndex <= w then s.storage[s.readIndex..w] else s.storage[s.readIndex..s.dataEnd] + s.storage[..w]
  }

  /** Between its load of the write index and endRead. */
  predicate InRead(s: State) { !s.consumer.Idle? }

  lemma StepKeepsUpTo(s: State, a: Action)
    requires Inv(s) && InRead(s) && !a.EndRead?
    ensures var t := Step(s, a);
            && Inv(t) && InRead(t) && t.consumer.w == s.consumer.w && t.readIndex == s.readIndex
            && t.delivered == s.delivered && UpTo(t, t.consumer.w) == UpTo(s, s.consumer.w)
  {
    StepKeepsInv(s, a);
    if Enabled(s, a) && a.WriteByte? { WriteKeepsUpTo(s, a.b); }
  }

  lemma WriteKeepsUpTo(s: State, b: byte)
    requires Inv(s) && InRead(s) && Enabled(s, WriteByte(b))
    ensures Inv(Step(s, WriteByte(b)))
    ensures UpTo(Step(s, WriteByte(b)), s.consumer.w) == UpTo(s, s.consumer.w)
  {
    WriteByteKeepsInv(s, b);
    var r, w := s.readIndex, s.consumer.w;
    if r <= w {
      PieceKept(s.storage, s.writePos, b, r, w - r);
    } else {
      PieceKept(s.storage, s.writePos, b, r, s.dataEnd - r);
      PieceKept(s.storage, s.writePos, b, 0, w);
    }
  }

  lemma {:induction false} RunKeepsUpTo(s: State, actions: seq<Action>)
    requires Inv(s) && InRead(s) && EndRead !in actions
    ensures var t := Run(s, actions);
            && Inv(t) && InRead(t) && t.consumer.w == s.consumer.w && t.readIndex == s.readIndex
            && t.delivered == s.delivered && UpTo(t, t.consumer.w) == UpTo(s, s.consumer.w)
    decreases |actions|
  {
    if actions != [] {
      StepKeepsUpTo(s, actions[0]);
      RunKeepsUpTo(Step(s, actions[0]), actions[1..]);
    }
  }

  /**
   * A read takes everything: whatever the producer does meanwhile, the window shows exactly the bytes that were
   * unread when beginRead loaded the write index, and endRead delivers them and moves the read index there.
   */
  lemma ReadTakesAllUnread(s: State, actions: seq<Action>)
    requires Inv(s) && s.consumer.Idle? && EndRead !in actions
    ensures var t := Run(Step(s, BeginLoadWrite), actions);
            t.consumer.Holding? ==>
              && WindowFits(t) && Window(t) == Unread(s)
              && var u := Step(t, EndRead);
                 u.consumer.Idle? && u.readIndex == s.writeIndex && u.delivered == s.delivered + Unread(s)
  {
    var s1 := Step(s, BeginLoadWrite);
    StepKeepsInv(s, BeginLoadWrite);
    RunKeepsUpTo(s1, actions);
    var t := Run(s1, actions);
    assert UpTo(s1, s.writeIndex) == Unread(s);
    if t.consumer.Holding? { HeldBytes(t); }
  }

  lemma RunTwo(s: State, a: Action, b: Action)
    ensures Run(s, [a, b]) == Step(Step(s, a), b)
  {
    var t := Step(s, a);
    assert [a, b][1..] == [b] && [b][1..] == [];
    assert Run(t, [b]) == Run(Step(t, b), []);
  }

  /** The state in which a read ends that nobody interferes with. */
  function AfterRead(s: State): State {
    Step(Run(Step(s, BeginLoadWrite), [BeginLoadRead, BeginWindow]), EndRead)
  }

  /** It drains the ring. */
  lemma ReadDrains(s: State)
    requires Inv(s) && s.consumer.Idle?
    ensures var t := AfterRead(s); t.delivered == s.committed && t.readIndex == t.writeIndex
  {
    RunTwo(Step(s, BeginLoadWrite), BeginLoadRead, BeginWindow);
    ReadTakesAllUnread(s, [BeginLoadRead, BeginWindow]);
  }

  lemma RunFirst(s: State, a: Action, rest: seq<Action>)
    ensures Run(s, [a] + rest) == Run(Step(s, a), rest)
  {
    assert ([a] + rest)[1..] == rest;
  }

  function WriteAll(data: seq<byte>): seq<Action> {
    if data == [] then [] else [WriteByte(data[0])] + WriteAll(data[1..])
  }

  /** `t` is `s` but for the bytes copied since. */
  predicate OnlyWrote(s: State, t: State, data: seq<byte>) {
    && t.producer.Ready? && t.pending == s.pending + data
    && t.consumer == s.consumer && t.committed == s.committed && t.delivered == s.delivered
  }

  lemma {:induction false} AllWritten(s: State, data: seq<byte>)
    requires s.producer.Ready? && s.writePos + |data| <= s.writeEnd <= |s.storage|
    ensures OnlyWrote(s, Run(s, WriteAll(data)), data)
    decreases |data|
  {
    if data == [] {
      assert s.pending + data == s.pending;
    } else {
      RunFirst(s, WriteByte(data[0]), WriteAll(data[1..]));
      AllWritten(Step(s, WriteByte(data[0])), data[1..]);
      assert s.pending + data == s.pending + [data[0]] + data[1..];
    }
  }

  lemma CommitThenRead(s: State)
    requires Inv(s) && s.producer.Ready? && s.consumer.Idle?
    ensures var t := AfterRead(Step(s, Commit)); t.delivered == s.committed + s.pending && t.readIndex == t.writeIndex
  {
    CommitKeepsInv(s);
    ReadDrains(Step(s, Commit));
  }

  /** Bytes copied into a granted gap and committed come out of the next read, behind all earlier ones. */
  lemma WrittenIsRead(s: State, data: seq<byte>)
    requires Inv(s) && s.producer.Ready? && s.consumer.Idle? && |data| <= WriteCapacity(s)
    ensures var t := AfterRead(Step(Run(s, WriteAll(data)), Commit));
            t.delivered == s.committed + s.pending + data && t.readIndex == t.writeIndex
  {
    AllWritten(s, data);
    RunKeepsInv(s, WriteAll(data));
    CommitThenRead(Run(s, WriteAll(data)));
    Associative(s.committed, s.pending, data);
  }

  /** The bounds in Enabled only make Step total: in a reachable state they never stop a thread. */
  lemma BoundsNeverBlock(s: State, b: byte)
    requires Inv(s)
    ensures s.producer.Ready? && s.writePos < s.writeEnd ==> Enabled(s, WriteByte(b))
    ensures s.consumer.Holding? ==> Enabled(s, EndRead)
  {
    if s.consumer.Holding? { HeldBytes(s); }
  }

  /** The gap granted is all that is free up to the reader, or the larger of the free parts behind and before. */
  lemma GrantedGap(s: State, size: nat)
    requires Inv(s) && s.producer.Ready? && size > WriteCapacity(s)
    ensures var t := Run(s, [LoadWrite(size), LoadRead, ChooseGap]); var w, r := s.writeIndex, s.readIndex;
            && t.producer.Ready?
            && WriteCapacity(t) == if w < r then r - 1 - w else if s.capacity - w >= r - 1 then s.capacity - w else r - 1
  {
    var s1 := Step(s, LoadWrite(size));
    var s2 := Step(s1, LoadRead);
    var s3 := Step(s2, ChooseGap);
    var acts := [LoadWrite(size), LoadRead, ChooseGap];
    assert acts[1..] == [LoadRead, ChooseGap] && acts[1..][1..] == [ChooseGap];
    assert Run(s1, acts[1..]) == Run(s2, [ChooseGap]);
    assert Run(s2, [ChooseGap]) == Run(s3, []) by { assert [ChooseGap][1..] == []; }
  }

  /** On a drained ring that is at least half the capacity, */
  lemma DrainedGap(s: State, size: nat)
    requires Inv(s) && s.producer.Ready? && s.readIndex == s.writeIndex && size > WriteCapacity(s)
    ensures var t := Run(s, [LoadWrite(size), LoadRead, ChooseGap]); var w := s.writeIndex;
            && WriteCapacity(t) == (if s.capacity - w >= w - 1 then s.capacity - w else w - 1)
            && (size <= s.capacity / 2 ==> size <= WriteCapacity(t))
  {
    GrantedGap(s, size);
  }

  /** ... and no larger request is granted at every position of the indices. */
  lemma DrainedGapIsTight(capacity: nat)
    requires capacity >= 1
    ensures exists w: nat :: w <= capacity && var (_, pos, end) := Gap(capacity, 0, w, w); end - pos == capacity / 2
  {
    var w := capacity / 2 + 1;
    var g := Gap(capacity, 0, w, w);
    assert g.2 - g.1 == capacity / 2;
  }

  // ----- The classes: each method is one atomic step of the thread that calls it

  class Queue {
    const capacity: nat
    const storage: array<byte>
    var writeIndex: nat
    var readIndex: nat
    var dataEnd: nat
    ghost var committed: seq<byte>
    ghost var delivered: seq<byte>

    constructor (capacity: nat)
      ensures this.capacity == capacity == storage.Length && fresh(storage)
      ensures writeIndex == readIndex == dataEnd == 0 && committed == delivered == []
    {
      this.capacity := capacity;
      storage := new byte[capacity];
      writeIndex, readIndex, dataEnd := 0, 0, 0;
      committed, delivered := [], [];
    }
  }

  ghost function View(p: Producer, c: Consumer): State
    reads p, c, p.queue, p.queue.storage
  {
    var q := p.queue;
    State(q.capacity, q.storage[..], q.writeIndex, q.readIndex, q.dataEnd, p.pc, p.snapWritePos, p.snapWriteEnd,
          c.pc, q.committed, q.delivered, p.pending)
  }

  class Producer {
    const queue: Queue
    var snapWritePos: nat
    var snapWriteEnd: int
    var pc: ProducerPc
    ghost var pending: seq<byte>

    constructor (q: Queue)
      ensures queue == q && snapWritePos == 0 && snapWriteEnd == 0 && pc == Ready && pending == []
    {
      queue, snapWritePos, snapWriteEnd, pc, pending := q, 0, 0, Ready, [];
    }

    /** Reserve: granted at once from the old snapshot, else the first load of maximizeWriteCapacity. */
    method BeginReserve(size: nat, ghost c: Consumer) returns (granted: bool)
      requires c.queue == queue && pc.Ready? && Inv(View(this, c))
      modifies this
      ensures granted == (size <= old(WriteCapacity(View(this, c))))
      ensures View(this, c) == Step(old(View(this, c)), LoadWrite(size)) && Inv(View(this, c))
    {
      StepKeepsInv(View(this, c), LoadWrite(size));
      granted := size <= snapWriteEnd - snapWritePos;
      if !granted { pc := HasWrite(queue.writeIndex); }
    }

    method ReserveLoadRead(ghost c: Consumer)
      requires c.queue == queue && pc.HasWrite? && Inv(View(this, c))
      modifies this
      ensures View(this, c) == Step(old(View(this, c)), Action.LoadRead) && Inv(View(this, c))
    {
      StepKeepsInv(View(this, c), Action.LoadRead);
      pc := HasBoth(pc.w, queue.readIndex);
    }

    method ReserveChooseGap(ghost c: Consumer)
      requires c.queue == queue && pc.HasBoth? && Inv(View(this, c))
      modifies this, queue
      ensures View(this, c) == Step(old(View(this, c)), ChooseGap) && Inv(View(this, c))
    {
      StepKeepsInv(View(this, c), ChooseGap);
      var w, r := pc.w, pc.r;
      if w < r {
        snapWritePos, snapWriteEnd := w, r - 1;
      } else {
        var rightSize: int, leftSize: int := queue.capacity - w, r - 1;
        if rightSize >= leftSize {
          snapWritePos, snapWriteEnd := w, w + rightSize;
        } else {
          queue.dataEnd := w;
          snapWritePos, snapWriteEnd := 0, leftSize;
        }
      }
      pc, pending := Ready, [];
    }

    /** One byte of the memcpy in writeBuffer; the guard is the method's own assert. */
    method WriteOneByte(b: byte, ghost c: Consumer)
      requires c.queue == queue && pc.Ready? && snapWritePos + 1 <= snapWriteEnd && Inv(View(this, c))
      modifies this, queue.storage
      ensures View(this, c) == Step(old(View(this, c)), WriteByte(b)) && Inv(View(this, c))
    {
      StepKeepsInv(View(this, c), WriteByte(b));
      queue.storage[snapWritePos] := b;
      snapWritePos, pending := snapWritePos + 1, pending + [b];
    }

    method CommitAllocate(ghost c: Consumer)
      requires c.queue == queue && pc.Ready? && Inv(View(this, c))
      modifies this, queue
      ensures View(this, c) == Step(old(View(this, c)), Commit) && Inv(View(this, c))
    {
      StepKeepsInv(View(this, c), Commit);
      queue.writeIndex := snapWritePos;
      queue.committed, pending := queue.committed + pending, [];
    }
  }

  class Consumer {
    const queue: Queue
    var pc: ConsumerPc

    constructor (q: Queue)
      ensures queue == q && pc == Idle
    {
      queue, pc := q, Idle;
    }

    method BeginReadLoadWrite(ghost p: Producer)
      requires p.queue == queue && pc.Idle? && Inv(View(p, this))
      modifies this
      ensures View(p, this) == Step(old(View(p, this)), BeginLoadWrite) && Inv(View(p, this))
    {
      StepKeepsInv(View(p, this), BeginLoadWrite);
      pc := SawWrite(queue.writeIndex);
    }

    method BeginReadLoadRead(ghost p: Producer)
      requires p.queue == queue && pc.SawWrite? && Inv(View(p, this))
      modifies this
      ensures View(p, this) == Step(old(View(p, this)), BeginLoadRead) && Inv(View(p, this))
    {
      StepKeepsInv(View(p, this), BeginLoadRead);
      pc := SawBoth(pc.w, queue.readIndex);
    }

    method BeginReadWindow(ghost p: Producer)
      requires p.queue == queue && pc.SawBoth? && Inv(View(p, this))
      modifies this
      ensures View(p, this) == Step(old(View(p, this)), BeginWindow) && Inv(View(p, this))
    {
      StepKeepsInv(View(p, this), BeginWindow);
      var w, r := pc.w, pc.r;
      if r <= w {
        pc := Holding(w, r, w - r, 0);
      } else if r < queue.dataEnd {
        pc := Holding(w, r, queue.dataEnd - r, w);
      } else {
        pc := Holding(w, 0, w, 0);
      }
    }

    /** Hands over the window and releases it; `got` are the bytes it showed. */
    method FinishRead(ghost p: Producer) returns (got: seq<byte>)
      requires p.queue == queue && pc.Holding? && Inv(View(p, this))
      modifies this, queue
      ensures View(p, this) == Step(old(View(p, this)), EndRead) && Inv(View(p, this))
      ensures queue.delivered == old(queue.delivered) + got <= queue.committed
    {
      ghost var s := View(p, this);
      WindowIsNextCommitted(s);
      StepKeepsInv(s, EndRead);
      ghost var t := Step(s, EndRead);
      got := queue.storage[pc.start1..pc.start1 + pc.len1] + queue.storage[..pc.len2];
      assert got == Window(s);
      queue.readIndex := pc.w;
      queue.delivered := queue.delivered + got;
      pc := Idle;
      assert View(p, this) == t;
    }
  }
}
