/** binlog/serialization.h, LogInfoContainer: threads register once in a fixed array, guarded by one packed
    counter: the low half counts claimed slots, the high half counts pushes that are not committed yet. */
module BinlogRegistry {

  const CAPACITY: nat := 128                       // MAX_THREAD_SUPPORTED
  const HALF: nat := 0x1_0000_0000
  const COMMITTING: nat := HALF + 1                // CommitingCount
  const LOW16: nat := 0x1_0000

  datatype Pusher =
    | NotStarted
    | Checked                       // found room
    | Refused                       // found the array full
    | Claimed(slot: nat)            // fetch_add(CommitingCount) done
    | Stored(slot: nat)             // mArray[slot] written
    | Done(slot: nat)               // committed

  datatype Consumer = Spinning | Reading(size: nat, index: nat)

  /** Pusher p registers the pointer p. An index past the array is recorded in `outOfBounds`. */
  datatype State = State(
    mSize: int, mArray: seq<nat>, pushers: seq<Pusher>, consumers: seq<Consumer>, outOfBounds: bool)

  datatype Action = Check(p: nat) | Claim(p: nat) | Store(p: nat) | Commit(p: nat) | LoadSize(c: nat) | ReadSlot(c: nat)

  predicate Enabled(s: State, a: Action) {
    match a
    case Check(p) => p < |s.pushers| && s.pushers[p].NotStarted?
    case Claim(p) => p < |s.pushers| && s.pushers[p].Checked?
    case Store(p) => p < |s.pushers| && s.pushers[p].Claimed?
    case Commit(p) => p < |s.pushers| && s.pushers[p].Stored?
    case LoadSize(c) => c < |s.consumers| && s.consumers[c].Spinning?
    case ReadSlot(c) => c < |s.consumers| && s.consumers[c].Reading?
  }

  function Step(s: State, a: Action): State {
    if !Enabled(s, a) then s else
    match a
    case Check(p) =>
      s.(pushers := s.pushers[p := if s.mSize % LOW16 == CAPACITY then Refused else Checked])
    case Claim(p) =>
      s.(mSize := s.mSize + COMMITTING, pushers := s.pushers[p := Claimed(s.mSize % LOW16)])
    case Store(p) =>
      var slot := s.pushers[p].slot;
      var t := s.(pushers := s.pushers[p := Stored(slot)]);
      if slot < |s.mArray| then t.(mArray := s.mArray[slot := p]) else t.(outOfBounds := true)
    case Commit(p) =>
      s.(mSize := s.mSize - (COMMITTING - 1), pushers := s.pushers[p := Done(s.pushers[p].slot)])
    case LoadSize(c) =>                            // stays in the spin while the high half is not zero
      if s.mSize / HALF % HALF != 0 then s
      else s.(consumers := s.consumers[c := Reading(s.mSize % HALF, 0)])
    case ReadSlot(c) =>
      var Reading(size, index) := s.consumers[c];
      s.(consumers := s.consumers[c := if index < size then Reading(size, index + 1) else Spinning])
  }

  function Run(s: State, actions: seq<Action>): State
    decreases |actions|
  {
    if actions == [] then s else Run(Step(s, actions[0]), actions[1..])
  }

  ghost predicate Initial(s: State) {
    && s.mSize == 0 && |s.mArray| == CAPACITY && !s.outOfBounds
    && (forall p :: 0 <= p < |s.pushers| ==> s.pushers[p] == NotStarted)
    && (forall c :: 0 <= c < |s.consumers| ==> s.consumers[c] == Spinning)
  }

  // ----- The invariant

  predicate HasSlot(p: Pusher) { p.Claimed? || p.Stored? || p.Done? }

  predicate InFlight(p: Pusher) { p.Claimed? || p.Stored? }

  function CountIf(ps: seq<Pusher>, f: Pusher -> bool): (n: nat)
    ensures n <= |ps|
    ensures n == 0 <==> forall i :: 0 <= i < |ps| ==> !f(ps[i])
  {
    if ps == [] then 0
    else
      assert forall i :: 1 <= i < |ps| ==> ps[i] == ps[1..][i - 1];
      (if f(ps[0]) then 1 else 0) + CountIf(ps[1..], f)
  }

  lemma CountAfterUpdate(ps: seq<Pusher>, f: Pusher -> bool, i: nat, p: Pusher)
    requires i < |ps|
    ensures CountIf(ps[i := p], f) == CountIf(ps, f) - (if f(ps[i]) then 1 else 0) + (if f(p) then 1 else 0)
  {
    if i > 0 {
      assert ps[i := p][1..] == ps[1..][i - 1 := p];
      CountAfterUpdate(ps[1..], f, i - 1, p);
    } else {
      assert ps[i := p][1..] == ps[1..];
    }
  }

  function Size(s: State): nat { CountIf(s.pushers, HasSlot) }

  function Flying(s: State): nat { CountIf(s.pushers, InFlight) }

  ghost predicate SlotTaken(s: State, k: nat) {
    exists p :: 0 <= p < |s.pushers| && HasSlot(s.pushers[p]) && s.pushers[p].slot == k
  }

  ghost predicate SlotsOk(s: State) {
    && (forall p :: 0 <= p < |s.pushers| && HasSlot(s.pushers[p]) ==> s.pushers[p].slot < Size(s))
    && (forall p, q :: 0 <= p < q < |s.pushers| && HasSlot(s.pushers[p]) && HasSlot(s.pushers[q]) ==>
          s.pushers[p].slot != s.pushers[q].slot)
    && (forall k: nat :: k < Size(s) ==> SlotTaken(s, k))
    && (forall p :: 0 <= p < |s.pushers| && (s.pushers[p].Stored? || s.pushers[p].Done?) ==>
          s.pushers[p].slot < |s.mArray| && s.mArray[s.pushers[p].slot] == p)
  }

  /** Slot k holds the pointer of a committed push. */
  ghost predicate Registered(s: State, k: nat) {
    k < |s.mArray| && s.mArray[k] < |s.pushers| && s.pushers[s.mArray[k]] == Done(k)
  }

  ghost predicate ConsumerOk(s: State, c: Consumer) {
    c.Reading? ==> c.size <= Size(s) && forall k: nat :: k < c.size ==> Registered(s, k)
  }

  ghost predicate Inv(s: State) {
    && |s.pushers| <= CAPACITY == |s.mArray| && !s.outOfBounds
    && s.mSize == Size(s) + HALF * Flying(s)
    && SlotsOk(s)
    && (forall c :: 0 <= c < |s.consumers| ==> ConsumerOk(s, s.consumers[c]))
  }

  /** The halves do not carry into each other: each can be read off the packed counter. */
  lemma Unpack(size: nat, flying: nat)
    requires size <= CAPACITY && flying <= CAPACITY
    ensures (size + HALF * flying) % LOW16 == size
    ensures (size + HALF * flying) % HALF == size
    ensures (size + HALF * flying) / HALF % HALF == flying
  {
  }

  lemma ConsumersKept(s: State, t: State)
    requires forall c :: 0 <= c < |s.consumers| ==> ConsumerOk(s, s.consumers[c])
    requires t.consumers == s.consumers && Size(s) <= Size(t)
    requires forall k: nat :: Registered(s, k) ==> Registered(t, k)
    ensures forall c :: 0 <= c < |t.consumers| ==> ConsumerOk(t, t.consumers[c])
  {
    forall c | 0 <= c < |t.consumers| ensures ConsumerOk(t, t.consumers[c]) {
      assert ConsumerOk(s, s.consumers[c]);
    }
  }

  /** A pusher that has a slot keeps it. */
  lemma SlotsStayTaken(s: State, t: State)
    requires |t.pushers| == |s.pushers|
    requires forall q :: 0 <= q < |s.pushers| && HasSlot(s.pushers[q]) ==>
               HasSlot(t.pushers[q]) && t.pushers[q].slot == s.pushers[q].slot
    ensures forall k: nat :: SlotTaken(s, k) ==> SlotTaken(t, k)
  {
    forall k: nat | SlotTaken(s, k) ensures SlotTaken(t, k) {
      var q :| 0 <= q < |s.pushers| && HasSlot(s.pushers[q]) && s.pushers[q].slot == k;
      assert HasSlot(t.pushers[q]) && t.pushers[q].slot == k;
    }
  }

  lemma ClaimKeepsSlots(s: State, t: State, p: nat)
    requires SlotsOk(s) && p < |s.pushers| && !HasSlot(s.pushers[p])
    requires t.pushers == s.pushers[p := Claimed(Size(s))] && t.mArray == s.mArray && Size(t) == Size(s) + 1
    ensures SlotsOk(t)
  {
    SlotsStayTaken(s, t);
    assert HasSlot(t.pushers[p]) && t.pushers[p].slot == Size(s);
    assert SlotTaken(t, Size(s));
  }

  lemma ClaimCounts(s: State, p: nat)
    requires Inv(s) && Enabled(s, Claim(p))
    ensures var t := Step(s, Claim(p));
            && t == s.(mSize := t.mSize, pushers := s.pushers[p := Claimed(Size(s))])
            && Size(t) == Size(s) + 1 && t.mSize == Size(t) + HALF * Flying(t)
  {
    ClaimTakesNextSlot(s, p);
    CountAfterUpdate(s.pushers, HasSlot, p, Claimed(Size(s)));
    CountAfterUpdate(s.pushers, InFlight, p, Claimed(Size(s)));
  }

  /** The slot that the fetched counter names is the number of slots given out so far. */
  lemma ClaimTakesNextSlot(s: State, p: nat)
    requires Inv(s) && Enabled(s, Claim(p))
    ensures Step(s, Claim(p)) == s.(mSize := s.mSize + 1 + HALF, pushers := s.pushers[p := Claimed(Size(s))])
  {
    Unpack(Size(s), Flying(s));
  }

  lemma ClaimKeepsInv(s: State, p: nat)
    requires Inv(s) && Enabled(s, Claim(p))
    ensures Inv(Step(s, Claim(p)))
  {
    var t := Step(s, Claim(p));
    ClaimCounts(s, p);
    ClaimKeepsSlots(s, t, p);
    RegisteredKept(s, t, p);
    ConsumersKept(s, t);
  }

  lemma RegisteredKept(s: State, t: State, p: nat)
    requires p < |s.pushers| == |t.pushers| && !s.pushers[p].Done?
    requires t.mArray == s.mArray && t.pushers == s.pushers[p := t.pushers[p]]
    ensures forall k: nat :: Registered(s, k) ==> Registered(t, k)
  {
  }

  lemma StoreKeepsSlots(s: State, t: State, p: nat, slot: nat)
    requires SlotsOk(s) && p < |s.pushers| && s.pushers[p] == Claimed(slot) && slot < |s.mArray|
    requires t.pushers == s.pushers[p := Stored(slot)] && t.mArray == s.mArray[slot := p] && Size(t) == Size(s)
    ensures SlotsOk(t)
    ensures forall k: nat :: Registered(s, k) ==> Registered(t, k)
  {
    SlotsStayTaken(s, t);
    forall k: nat | Registered(s, k) ensures Registered(t, k) {
      assert s.pushers[s.mArray[k]] == Done(k) && k != slot;
    }
  }

  lemma StoreKeepsInv(s: State, p: nat)
    requires Inv(s) && Enabled(s, Store(p))
    ensures Inv(Step(s, Store(p)))
  {
    var t, slot := Step(s, Store(p)), s.pushers[p].slot;
    CountAfterUpdate(s.pushers, HasSlot, p, Stored(slot));
    CountAfterUpdate(s.pushers, InFlight, p, Stored(slot));
    assert slot < Size(s) <= CAPACITY;
    StoreKeepsSlots(s, t, p, slot);
    ConsumersKept(s, t);
  }

  lemma CommitCounts(s: State, p: nat)
    requires Inv(s) && Enabled(s, Commit(p))
    ensures var t := Step(s, Commit(p));
            && t == s.(mSize := t.mSize, pushers := s.pushers[p := Done(s.pushers[p].slot)])
            && Size(t) == Size(s) && t.mSize == Size(t) + HALF * Flying(t)
  {
    CountAfterUpdate(s.pushers, HasSlot, p, Done(s.pushers[p].slot));
    CountAfterUpdate(s.pushers, InFlight, p, Done(s.pushers[p].slot));
  }

  lemma CommitKeepsInv(s: State, p: nat)
    requires Inv(s) && Enabled(s, Commit(p))
    ensures Inv(Step(s, Commit(p)))
  {
    var t := Step(s, Commit(p));
    CommitCounts(s, p);
    SlotsStayTaken(s, t);
    RegisteredKept(s, t, p);
    ConsumersKept(s, t);
  }

  lemma CheckKeepsInv(s: State, p: nat)
    requires Inv(s) && Enabled(s, Check(p))
    ensures Inv(Step(s, Check(p)))
  {
    var t := Step(s, Check(p));
    CountAfterUpdate(s.pushers, HasSlot, p, t.pushers[p]);
    CountAfterUpdate(s.pushers, InFlight, p, t.pushers[p]);
    SlotsStayTaken(s, t);
    RegisteredKept(s, t, p);
    ConsumersKept(s, t);
  }

  /** A push is refused exactly when all slots are claimed. */
  lemma RefusedIffFull(s: State, p: nat)
    requires Inv(s) && Enabled(s, Check(p))
    ensures Step(s, Check(p)).pushers[p] == if Size(s) == CAPACITY then Refused else Checked
  {
    Unpack(Size(s), Flying(s));
  }

  /** A zero high half means that every claimed slot is committed. */
  lemma QuietMeansRegistered(s: State)
    requires Inv(s) && s.mSize / HALF % HALF == 0
    ensures s.mSize % HALF == Size(s)
    ensures forall k: nat :: k < Size(s) ==> Registered(s, k)
  {
    Unpack(Size(s), Flying(s));
    forall k: nat | k < Size(s) ensures Registered(s, k) {
      assert SlotTaken(s, k);
      var p :| 0 <= p < |s.pushers| && HasSlot(s.pushers[p]) && s.pushers[p].slot == k;
      assert !InFlight(s.pushers[p]);
    }
  }

  lemma StepKeepsInv(s: State, a: Action)
    requires Inv(s)
    ensures Inv(Step(s, a))
  {
    if Enabled(s, a) {
      match a
      case Check(p) => CheckKeepsInv(s, p);
      case Claim(p) => ClaimKeepsInv(s, p);
      case Store(p) => StoreKeepsInv(s, p);
      case Commit(p) => CommitKeepsInv(s, p);
      case LoadSize(c) => if s.mSize / HALF % HALF == 0 { QuietMeansRegistered(s); ReaderKept(s, Step(s, a), c); }
      case ReadSlot(c) => assert ConsumerOk(s, s.consumers[c]); ReaderKept(s, Step(s, a), c);
    }
  }

  lemma ReaderKept(s: State, t: State, c: nat)
    requires Inv(s) && c < |s.consumers| && t == s.(consumers := t.consumers)
    requires |t.consumers| == |s.consumers| && t.consumers == s.consumers[c := t.consumers[c]]
    requires ConsumerOk(s, t.consumers[c])
    ensures Inv(t)
  {
    forall k: nat | k < Size(s) ensures SlotTaken(t, k) {
      assert SlotTaken(s, k);
    }
    forall d | 0 <= d < |t.consumers| ensures ConsumerOk(t, t.consumers[d]) {
      assert ConsumerOk(s, s.consumers[d]) && ConsumerOk(s, t.consumers[c]);
      assert forall k: nat :: Registered(s, k) ==> Registered(t, k);
    }
  }

  lemma {:induction false} RunKeepsInv(s: State, actions: seq<Action>)
    requires Inv(s)
    ensures Inv(Run(s, actions))
    decreases |actions|
  {
    if actions != [] {
      StepKeepsInv(s, actions[0]);
      RunKeepsInv(Step(s, actions[0]), actions[1..]);
    }
  }

  // ----- Main results

  /** With at most 128 pushes: the counter always packs both counts, nothing is written past the array, and
      what a consumer reads below the size it loaded are distinct registered pointers, until its loop ends. */
  lemma RegistryIsSound(s: State, actions: seq<Action>)
    requires Initial(s) && |s.pushers| <= CAPACITY
    ensures var t := Run(s, actions);
            && t.mSize == Size(t) + HALF * Flying(t) && Size(t) <= CAPACITY && !t.outOfBounds
            && (forall c :: 0 <= c < |t.consumers| && t.consumers[c].Reading? ==>
                  forall k: nat :: k < t.consumers[c].size ==> Registered(t, k))
            && (forall j: nat, k: nat :: j < k && Registered(t, j) && Registered(t, k) ==> t.mArray[j] != t.mArray[k])
  {
    assert CountIf(s.pushers, HasSlot) == 0 && CountIf(s.pushers, InFlight) == 0;
    RunKeepsInv(s, actions);
    var t := Run(s, actions);
    forall c | 0 <= c < |t.consumers| && t.consumers[c].Reading?
      ensures forall k: nat :: k < t.consumers[c].size ==> Registered(t, k)
    {
      assert ConsumerOk(t, t.consumers[c]);
    }
  }

  // ----- What one consume_all visits

  predicate IsDone(p: Pusher) { p.Done? }

  lemma {:induction false} QuietMeansDone(ps: seq<Pusher>)
    requires CountIf(ps, InFlight) == 0
    ensures CountIf(ps, HasSlot) == CountIf(ps, IsDone)
  {
    if ps != [] {
      assert !InFlight(ps[0]);
      QuietMeansDone(ps[1..]);
    }
  }

  /** Leaving the spin, a consumer takes as many slots as there are committed pushes. */
  lemma SizeIsDone(s: State, c: nat)
    requires Inv(s) && Enabled(s, LoadSize(c)) && Step(s, LoadSize(c)).consumers[c].Reading?
    ensures Step(s, LoadSize(c)).consumers[c] == Reading(CountIf(s.pushers, IsDone), 0)
    ensures CountIf(s.pushers, IsDone) == Size(s) && Flying(s) == 0
  {
    Unpack(Size(s), Flying(s));
    QuietMeansDone(s.pushers);
  }

  /** The pointers that consumer c reads along a run. */
  function ReadBy(s: State, actions: seq<Action>, c: nat): seq<nat>
    decreases |actions|
  {
    if actions == [] then [] else ReadIn(s, actions[0], c) + ReadBy(Step(s, actions[0]), actions[1..], c)
  }

  function ReadIn(s: State, a: Action, c: nat): seq<nat> {
    if a == ReadSlot(c) && Enabled(s, a) && s.consumers[c].index < s.consumers[c].size
       && s.consumers[c].index < |s.mArray|
    then [s.mArray[s.consumers[c].index]] else []
  }

  /** A slot that holds a committed push keeps its pointer. */
  lemma StepKeepsRegistered(s: State, a: Action, k: nat)
    requires Inv(s) && Registered(s, k)
    ensures Registered(Step(s, a), k) && Step(s, a).mArray[k] == s.mArray[k]
  {
    if a.Store? && Enabled(s, a) {
      assert s.pushers[s.mArray[k]].slot == k && HasSlot(s.pushers[s.mArray[k]]);
    }
  }

  /** Below the size that a consumer loaded all slots are committed, and hold these pointers. */
  ghost predicate Hold(s: State, slots: seq<nat>) {
    |slots| <= |s.mArray| && forall k: nat :: k < |slots| ==> Registered(s, k) && s.mArray[k] == slots[k]
  }

  lemma StepKeepsSlots(s: State, a: Action, slots: seq<nat>)
    requires Inv(s) && Hold(s, slots)
    ensures Hold(Step(s, a), slots)
  {
    forall k: nat | k < |slots| ensures Registered(Step(s, a), k) && Step(s, a).mArray[k] == slots[k] {
      StepKeepsRegistered(s, a, k);
    }
  }

  /** How far the loop over the slots has come: to the end when the consumer is back in the spin. */
  ghost predicate HasReached(s: State, c: nat, size: nat, i: nat) {
    c < |s.consumers| && i <= size
    && if s.consumers[c].Reading? then s.consumers[c] == Reading(size, i) else i == size
  }

  lemma StepReads(s: State, a: Action, c: nat, slots: seq<nat>, i: nat) returns (j: nat)
    requires Hold(s, slots) && HasReached(s, c, |slots|, i) && a != LoadSize(c)
    ensures i <= j <= |slots| && HasReached(Step(s, a), c, |slots|, j) && ReadIn(s, a, c) == slots[i..j]
  {
    j := if a == ReadSlot(c) && Enabled(s, a) && i < |slots| then i + 1 else i;
    if j == i + 1 { assert Registered(s, i) && slots[i..j] == [slots[i]]; }
  }

  lemma {:induction false} RunReads(s: State, actions: seq<Action>, c: nat, slots: seq<nat>, i: nat) returns (j: nat)
    requires Inv(s) && Hold(s, slots) && HasReached(s, c, |slots|, i) && LoadSize(c) !in actions
    ensures i <= j <= |slots| && HasReached(Run(s, actions), c, |slots|, j) && ReadBy(s, actions, c) == slots[i..j]
    decreases |actions|
  {
    if actions == [] {
      j := i;
    } else {
      var m := StepReadsOn(s, actions[0], c, slots, i);
      j := RunReads(Step(s, actions[0]), actions[1..], c, slots, m);
      Slices(slots, i, m, j);
    }
  }

  lemma Slices(b: seq<nat>, i: nat, j: nat, k: nat)
    requires i <= j <= k <= |b|
    ensures b[i..j] + b[j..k] == b[i..k]
  {
  }

  lemma StepReadsOn(s: State, a: Action, c: nat, slots: seq<nat>, i: nat) returns (j: nat)
    requires Inv(s) && Hold(s, slots) && HasReached(s, c, |slots|, i) && a != LoadSize(c)
    ensures Inv(Step(s, a)) && Hold(Step(s, a), slots) && HasReached(Step(s, a), c, |slots|, j)
    ensures i <= j <= |slots| && ReadIn(s, a, c) == slots[i..j]
  {
    StepKeepsInv(s, a);
    StepKeepsSlots(s, a, slots);
    j := StepReads(s, a, c, slots, i);
  }

  /** The pointers below the size are those of all committed pushes, each once. */
  ghost predicate ListsDone(pushers: seq<Pusher>, slots: seq<nat>) {
    && (forall p: nat :: p in slots <==> p < |pushers| && pushers[p].Done?)
    && (forall j, k :: 0 <= j < k < |slots| ==> slots[j] != slots[k])
  }

  lemma SlotsListDone(s: State)
    requires Inv(s) && Flying(s) == 0
    ensures Size(s) <= |s.mArray| && ListsDone(s.pushers, s.mArray[..Size(s)]) && Hold(s, s.mArray[..Size(s)])
  {
    var slots := s.mArray[..Size(s)];
    Unpack(Size(s), Flying(s));
    QuietMeansRegistered(s);
    forall p: nat ensures p in slots <==> p < |s.pushers| && s.pushers[p].Done? {
      if p in slots {
        var k :| 0 <= k < |slots| && slots[k] == p;
        assert Registered(s, k);
      }
      if p < |s.pushers| && s.pushers[p].Done? {
        assert HasSlot(s.pushers[p]) && slots[s.pushers[p].slot] == p;
      }
    }
    forall j, k | 0 <= j < k < |slots| ensures slots[j] != slots[k] { assert Registered(s, j) && Registered(s, k); }
  }

  /**
   * One consume_all, whoever registers meanwhile: from the load that leaves the spin until it is back, a consumer
   * reads exactly the pointers that were committed at that load, each once.
   */
  lemma VisitsCommitted(s: State, before: seq<Action>, c: nat, actions: seq<Action>)
    requires Initial(s) && |s.pushers| <= CAPACITY && LoadSize(c) !in actions
    requires var t := Run(s, before); Enabled(t, LoadSize(c)) && Step(t, LoadSize(c)).consumers[c].Reading?
    ensures var t := Run(s, before); var u := Run(Step(t, LoadSize(c)), actions);
            && c < |u.consumers|
            && (u.consumers[c].Spinning? ==> ListsDone(t.pushers, ReadBy(Step(t, LoadSize(c)), actions, c)))
  {
    assert CountIf(s.pushers, HasSlot) == 0 && CountIf(s.pushers, InFlight) == 0;
    RunKeepsInv(s, before);
    LoadReads(Run(s, before), c, actions);
  }

  lemma LoadReads(t: State, c: nat, actions: seq<Action>)
    requires Inv(t) && Enabled(t, LoadSize(c)) && Step(t, LoadSize(c)).consumers[c].Reading?
    requires LoadSize(c) !in actions
    ensures var u := Run(Step(t, LoadSize(c)), actions);
            && c < |u.consumers|
            && (u.consumers[c].Spinning? ==> ListsDone(t.pushers, ReadBy(Step(t, LoadSize(c)), actions, c)))
  {
    var t' := Step(t, LoadSize(c));
    StepKeepsInv(t, LoadSize(c));
    SizeIsDone(t, c);
    SlotsListDone(t);
    var slots := t.mArray[..Size(t)];
    StepKeepsSlots(t, LoadSize(c), slots);
    var j := RunReads(t', actions, c, slots, 0);
    if Run(t', actions).consumers[c].Spinning? { assert slots[0..|slots|] == slots; }
  }

  function Reads(c: nat, n: nat): seq<Action> { if n == 0 then [] else [ReadSlot(c)] + Reads(c, n - 1) }

  /** The loop comes to its end: one step for each slot and one to see that there is no more. */
  lemma {:induction false} LoopEnds(s: State, c: nat, size: nat, i: nat)
    requires c < |s.consumers| && s.consumers[c] == Reading(size, i) && i <= size
    ensures var t := Run(s, Reads(c, size - i + 1)); c < |t.consumers| && t.consumers[c].Spinning?
    decreases size - i
  {
    var n := size - i;
    assert Reads(c, n + 1)[1..] == Reads(c, n);
    if n > 0 { LoopEnds(Step(s, ReadSlot(c)), c, size, i + 1); }
  }

  // ----- The bound is exact: with more pushes the racy check lets one write past the array

  lemma {:induction false} RunAppends(s: State, a: seq<Action>, b: seq<Action>)
    ensures Run(s, a + b) == Run(Run(s, a), b)
    decreases |a|
  {
    if a == [] {
      assert a + b == b;
    } else {
      assert (a + b)[1..] == a[1..] + b;
      RunAppends(Step(s, a[0]), a[1..], b);
    }
  }

  lemma RunOne(s: State, a: Action)
    ensures Run(s, [a]) == Step(s, a)
  {
    assert [a][1..] == [];
  }

  function Checks(n: nat): seq<Action> { if n == 0 then [] else Checks(n - 1) + [Check(n - 1)] }

  function Claims(n: nat): seq<Action> { if n == 0 then [] else Claims(n - 1) + [Claim(n - 1)] }

  lemma {:induction false} AllCheck(s: State, n: nat)
    requires Initial(s) && n <= |s.pushers|
    ensures var t := Run(s, Checks(n));
            && t == s.(pushers := t.pushers) && |t.pushers| == |s.pushers|
            && (forall p: nat :: p < n ==> t.pushers[p] == Checked)
            && (forall p :: n <= p < |t.pushers| ==> t.pushers[p] == NotStarted)
  {
    if n > 0 {
      AllCheck(s, n - 1);
      RunAppends(s, Checks(n - 1), [Check(n - 1)]);
      RunOne(Run(s, Checks(n - 1)), Check(n - 1));
    }
  }

  lemma LowHalfOfClaims(n: nat)
    requires n <= CAPACITY
    ensures n * COMMITTING % LOW16 == n && n * COMMITTING + COMMITTING == (n + 1) * COMMITTING
  {
    Unpack(n, n);
    assert n * COMMITTING == n + HALF * n;
  }

  lemma {:induction false} AllClaim(s: State, n: nat)
    requires s.mSize == 0 && n <= |s.pushers| && n <= CAPACITY + 1
    requires forall p: nat :: p < n ==> s.pushers[p] == Checked
    ensures var t := Run(s, Claims(n));
            && t == s.(pushers := t.pushers, mSize := n * COMMITTING) && |t.pushers| == |s.pushers|
            && (forall p: nat :: p < n ==> t.pushers[p] == Claimed(p))
            && (forall p :: n <= p < |t.pushers| ==> t.pushers[p] == s.pushers[p])
  {
    if n > 0 {
      AllClaim(s, n - 1);
      RunAppends(s, Claims(n - 1), [Claim(n - 1)]);
      RunOne(Run(s, Claims(n - 1)), Claim(n - 1));
      LowHalfOfClaims(n - 1);
    }
  }

  lemma OneTooMany(s: State)
    requires Initial(s) && |s.pushers| > CAPACITY
    ensures Run(s, Checks(CAPACITY + 1) + Claims(CAPACITY + 1) + [Store(CAPACITY)]).outOfBounds
  {
    var n := CAPACITY + 1;
    AllCheck(s, n);
    var t := Run(s, Checks(n));
    AllClaim(t, n);
    RunAppends(s, Checks(n), Claims(n));
    RunAppends(s, Checks(n) + Claims(n), [Store(CAPACITY)]);
    RunOne(Run(t, Claims(n)), Store(CAPACITY));
  }

  lemma InBoundsIffFewPushes(s: State)
    requires Initial(s)
    ensures (forall actions :: !Run(s, actions).outOfBounds) <==> |s.pushers| <= CAPACITY
  {
    if |s.pushers| <= CAPACITY {
      forall actions ensures !Run(s, actions).outOfBounds { RegistryIsSound(s, actions); }
    } else {
      OneTooMany(s);
    }
  }

  // ----- The container, one atomic step per method; a consumer's loop reads its slots one at a time

  lemma ReadSlotIsRegistered(s: State, c: nat, index: nat)
    requires Inv(s) && c < |s.consumers| && s.consumers[c].Reading? && index < s.consumers[c].size
    ensures index < |s.mArray| && s.mArray[index] < |s.pushers| && s.pushers[s.mArray[index]] == Done(index)
  {
    assert ConsumerOk(s, s.consumers[c]);
    assert Registered(s, index);
  }

  class LogInfoContainer {
    var mSize: int
    const mArray: array<nat>
    ghost var pushers: seq<Pusher>
    ghost var consumers: seq<Consumer>

    ghost function View(): State
      reads this, mArray
    {
      State(mSize, mArray[..], pushers, consumers, false)
    }

    constructor (pusherCount: nat, consumerCount: nat)
      requires pusherCount <= CAPACITY
      ensures Initial(View()) && Inv(View()) && fresh(mArray)
      ensures |pushers| == pusherCount && |consumers| == consumerCount
    {
      mSize := 0;
      mArray := new nat[CAPACITY];
      pushers := seq(pusherCount, _ => NotStarted);
      consumers := seq(consumerCount, _ => Spinning);
      new;
      assert CountIf(pushers, HasSlot) == 0 && CountIf(pushers, InFlight) == 0;
    }

    method PushCheck(p: nat) returns (room: bool)
      requires Inv(View()) && p < |pushers| && pushers[p].NotStarted?
      modifies this
      ensures Inv(View()) && View() == Step(old(View()), Check(p)) && room == pushers[p].Checked?
      ensures room <==> Size(old(View())) < CAPACITY
    {
      StepKeepsInv(View(), Check(p));
      RefusedIffFull(View(), p);
      ghost var t := Step(View(), Check(p));
      room := mSize % LOW16 != CAPACITY;
      pushers := pushers[p := if room then Checked else Refused];
      assert View() == t;
    }

    method PushClaim(p: nat) returns (slot: nat)
      requires Inv(View()) && p < |pushers| && pushers[p].Checked?
      modifies this
      ensures Inv(View()) && View() == Step(old(View()), Claim(p)) && pushers[p] == Claimed(slot)
    {
      StepKeepsInv(View(), Claim(p));
      ghost var t := Step(View(), Claim(p));
      slot := mSize % LOW16;
      mSize, pushers := mSize + COMMITTING, pushers[p := Claimed(slot)];
      assert View() == t;
    }

    method PushStore(p: nat, slot: nat)
      requires Inv(View()) && p < |pushers| && pushers[p] == Claimed(slot)
      modifies this, mArray
      ensures Inv(View()) && View() == Step(old(View()), Store(p))
    {
      StepKeepsInv(View(), Store(p));
      ghost var t := Step(View(), Store(p));
      mArray[slot] := p;
      pushers := pushers[p := Stored(slot)];
      assert View() == t;
    }

    method PushCommit(p: nat)
      requires Inv(View()) && p < |pushers| && pushers[p].Stored?
      modifies this
      ensures Inv(View()) && View() == Step(old(View()), Commit(p))
    {
      StepKeepsInv(View(), Commit(p));
      ghost var t := Step(View(), Commit(p));
      mSize, pushers := mSize - (COMMITTING - 1), pushers[p := Done(pushers[p].slot)];
      assert View() == t;
    }

    method ConsumeLoadSize(c: nat) returns (ready: bool, currentSize: nat)
      requires Inv(View()) && c < |consumers| && consumers[c].Spinning?
      modifies this
      ensures Inv(View()) && View() == Step(old(View()), LoadSize(c))
      ensures ready <==> consumers[c].Reading?
      ensures ready ==> consumers[c] == Reading(currentSize, 0) && currentSize == CountIf(pushers, IsDone)
    {
      StepKeepsInv(View(), LoadSize(c));
      ghost var t := Step(View(), LoadSize(c));
      if t.consumers[c].Reading? { SizeIsDone(View(), c); }
      ready := mSize / HALF % HALF == 0;
      currentSize := mSize % HALF;
      if ready { consumers := consumers[c := Reading(currentSize, 0)]; }
      assert View() == t;
    }

    /** The pointer handed to the consumer's functor belongs to a committed push. */
    method ConsumeReadSlot(c: nat, index: nat) returns (p: nat)
      requires Inv(View()) && c < |consumers| && consumers[c].Reading?
      requires index == consumers[c].index < consumers[c].size
      modifies `consumers
      ensures Inv(View()) && View() == Step(old(View()), ReadSlot(c))
      ensures p < |pushers| && pushers[p] == Done(index)
    {
      ghost var s := View();
      StepKeepsInv(s, ReadSlot(c));
      ReadSlotIsRegistered(s, c, index);
      ghost var t := Step(s, ReadSlot(c));
      assert t == s.(consumers := t.consumers);
      p := mArray[index];
      assert p == s.mArray[index];
      consumers := consumers[c := Reading(consumers[c].size, index + 1)];
      assert View() == t;
    }
  }
}
